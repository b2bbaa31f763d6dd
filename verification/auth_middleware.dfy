/** The authentication gate in front of the mutating task routes: where the
    token is taken from, and the choice between a 401 response and handing
    the request on. Signature and expiry checking stay abstract: `verify`
    is whatever `jwt.verify` answers for a token and a secret. */
module AuthMiddleware {
  import opened Js

  /** The decoded token payload attached to the request as `user`. */
  type Claims = map<string, string>

  /** `jwt.verify(token, secret)`: the decoded claims, or `None` where it
      throws. */
  type Verifier = (string, string) -> Option<Claims>

  /** The parts of a request the gate reads: the parsed cookie object (absent
      when no cookie parser ran) and the `Authorization` header. */
  datatype Credentials = Credentials(cookies: Option<map<string, string>>, authorization: Option<string>)

  /** How the gate ends: a response it sends itself, or a single call of
      `next()` with the claims attached. Being one value, it cannot do
      both. */
  datatype Gate = Respond(status: nat, message: string) | Continue(user: Claims)

  const Denied := Respond(401, "Authorization denied.")
  const NotValid := Respond(401, "Token is not valid.")

  /** `cookies && cookies.token`: the `token` cookie when the cookie object
      exists and the cookie is a non-empty string. */
  function CookieToken(cookies: Option<map<string, string>>): Option<string> {
    if cookies.Some? && "token" in cookies.value && cookies.value["token"] != "" then
      Some(cookies.value["token"])
    else None
  }

  /** `authorization.split(" ")[1]`: the text between the first space and
      the next space (or the end), or `undefined` when there is no space. */
  function HeaderToken(authorization: string): (r: Option<string>)
    ensures r.None? <==> ' ' !in authorization
    ensures r.Some? ==> ' ' !in r.value
    ensures r.Some? ==> IsSecondPiece(authorization, ' ', r.value)
  {
    var pieces := Split(authorization, ' ');
    assert |pieces| >= 2 <==> ' ' in authorization by {
      if ' ' !in authorization {
        SplitWithoutSeparator(authorization, ' ');
      }
    }
    if |pieces| >= 2 then
      SplitSecondPiece(authorization, ' ');
      Some(pieces[1])
    else None
  }

  /** The token the gate hands to `jwt.verify`: a non-empty `token` cookie
      when there is one, whatever the header says; otherwise, for a non-empty
      header, its second space-separated piece; otherwise `undefined`. */
  function ExtractToken(c: Credentials): (r: Option<string>)
    ensures c.cookies.Some? && "token" in c.cookies.value && c.cookies.value["token"] != "" ==>
              r == Some(c.cookies.value["token"])
    ensures CookieToken(c.cookies).None? && Truthy(c.authorization) ==>
              r == HeaderToken(c.authorization.value)
    ensures CookieToken(c.cookies).None? && !Truthy(c.authorization) ==> r.None?
  {
    if CookieToken(c.cookies).Some? then CookieToken(c.cookies)
    else if Truthy(c.authorization) then HeaderToken(c.authorization.value)
    else None
  }

  /** `jwt.verify` on a possibly missing token: `jsonwebtoken` itself throws
      ("jwt must be provided") for a falsy token before looking at the
      signature; any other token is judged by `verify`. */
  function Decode(token: Option<string>, secret: string, verify: Verifier): Option<Claims> {
    if Truthy(token) then verify(token.value, secret) else None
  }

  /** `authMiddleware`. With neither a cookie object nor a header it denies
      at once; otherwise it continues exactly when the extracted token
      verifies, with the claims `verify` decoded, and answers 401 "not
      valid" in every other case. */
  function Authenticate(c: Credentials, secret: string, verify: Verifier): (r: Gate)
    ensures c.cookies.None? && !Truthy(c.authorization) ==> r == Denied
    ensures r.Respond? ==> r.status == 401
    ensures r.Continue? <==>
              && (c.cookies.Some? || Truthy(c.authorization))
              && Truthy(ExtractToken(c))
              && verify(ExtractToken(c).value, secret).Some?
    ensures r.Continue? ==> r.user == verify(ExtractToken(c).value, secret).value
    ensures r.Respond? && (c.cookies.Some? || Truthy(c.authorization)) ==> r == NotValid
  {
    if c.cookies.None? && !Truthy(c.authorization) then Denied
    else
      match Decode(ExtractToken(c), secret, verify)
      case Some(claims) => Continue(claims)
      case None => NotValid
  }

  /** When it denies for lack of credentials, the gate's answer does not
      depend on `verify`: it never consults it. */
  lemma DeniedWithoutVerifying(c: Credentials, secret: string, v1: Verifier, v2: Verifier)
    requires c.cookies.None? && !Truthy(c.authorization)
    ensures Authenticate(c, secret, v1) == Authenticate(c, secret, v2) == Denied
  {
  }

  /** A `token` cookie is the token used, whatever the header says. */
  lemma CookieTakesPrecedence(cookies: map<string, string>, h1: Option<string>, h2: Option<string>,
                              secret: string, verify: Verifier)
    requires "token" in cookies && cookies["token"] != ""
    ensures ExtractToken(Credentials(Some(cookies), h1)) == Some(cookies["token"])
    ensures Authenticate(Credentials(Some(cookies), h1), secret, verify)
         == Authenticate(Credentials(Some(cookies), h2), secret, verify)
  {
  }

  /** Without a token cookie, a header `<scheme> <token>` yields `<token>`
      for any space-free scheme word: `Bearer` is never checked. */
  lemma {:induction false} HeaderSecondWordIsToken(cookies: Option<map<string, string>>,
                                                   scheme: string, token: string)
    requires CookieToken(cookies).None?
    requires ' ' !in scheme && ' ' !in token
    ensures ExtractToken(Credentials(cookies, Some(scheme + " " + token))) == Some(token)
  {
    SplitTwoWords(scheme, token, ' ');
  }

  /** A header without a space yields no token, so the request is refused as
      not valid whatever `verify` would say. */
  lemma HeaderWithoutSpaceIsNotValid(cookies: Option<map<string, string>>, header: string,
                                     secret: string, verify: Verifier)
    requires CookieToken(cookies).None?
    requires header != "" && ' ' !in header
    ensures Authenticate(Credentials(cookies, Some(header)), secret, verify) == NotValid
  {
  }

  /** A cookie object without a usable `token` and no header leaves the
      token `undefined`: refused as not valid, not as denied. */
  lemma CookiesWithoutTokenIsNotValid(cookies: map<string, string>, secret: string, verify: Verifier)
    requires CookieToken(Some(cookies)).None?
    ensures Authenticate(Credentials(Some(cookies), None), secret, verify) == NotValid
  {
  }

  /** Two spaces after the scheme word make the second piece empty, so the
      request is refused as not valid whatever the rest of the header is. */
  lemma {:induction false} HeaderDoubleSpaceIsNotValid(cookies: Option<map<string, string>>,
                                                       scheme: string, rest: string,
                                                       secret: string, verify: Verifier)
    requires CookieToken(cookies).None?
    requires ' ' !in scheme
    ensures ExtractToken(Credentials(cookies, Some(scheme + "  " + rest))) == Some("")
    ensures Authenticate(Credentials(cookies, Some(scheme + "  " + rest)), secret, verify) == NotValid
  {
    assert scheme + "  " + rest == scheme + [' '] + ([' '] + rest);
    SplitFirstWord(scheme, [' '] + rest, ' ');
    SplitFirstWord("", rest, ' ');
    assert "" + [' '] + rest == [' '] + rest;
  }

  /** Words after the token are ignored: `<scheme> <token> <more>` still
      yields `<token>`. */
  lemma {:induction false} HeaderExtraWordsIgnored(cookies: Option<map<string, string>>,
                                                   scheme: string, token: string, more: string)
    requires CookieToken(cookies).None?
    requires ' ' !in scheme && ' ' !in token
    ensures ExtractToken(Credentials(cookies, Some(scheme + " " + token + " " + more))) == Some(token)
  {
    assert scheme + " " + token + " " + more == scheme + [' '] + (token + [' '] + more);
    SplitFirstWord(scheme, token + [' '] + more, ' ');
    SplitFirstWord(token, more, ' ');
  }
}
