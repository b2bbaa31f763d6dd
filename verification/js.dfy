/** The small piece of JavaScript value semantics the controller and the
    middleware rely on: values that may be absent (`undefined` or `null`),
    truthiness of strings, the nullish-coalescing operator `??`, and
    `String.prototype.split` with a one-character separator. */
module Js {

  /** A value that may be missing. `None` stands for both `undefined` and
      `null`: the code never tells them apart. */
  datatype Option<+T> = None | Some(value: T) {

    /** `this ?? default`: the value when present, the default otherwise. */
    function GetOr(default: T): T {
      match this
      case Some(v) => v
      case None => default
    }
  }

  /** `!!s` for a string that may be missing: false for `undefined`, `null`
      and the empty string, true for every other string. */
  predicate Truthy(s: Option<string>) {
    s.Some? && s.value != ""
  }

  /** Glues the pieces back together with `sep` between neighbours
      (`Array.prototype.join`). */
  function Join(pieces: seq<string>, sep: char): string {
    if |pieces| == 0 then ""
    else if |pieces| == 1 then pieces[0]
    else pieces[0] + [sep] + Join(pieces[1..], sep)
  }

  /** `s.split(sep)` for a one-character separator: the maximal runs of
      characters between separators, so always at least one piece, the empty
      string splitting into `[""]` and neighbouring separators producing an
      empty piece between them. */
  function Split(s: string, sep: char): (r: seq<string>)
    ensures |r| >= 1
    ensures forall k :: 0 <= k < |r| ==> sep !in r[k]
    ensures Join(r, sep) == s
    decreases |s|
  {
    if |s| == 0 then [""]
    else
      var rest := Split(s[1..], sep);
      if s[0] == sep then
        assert s == [sep] + s[1..];
        [""] + rest
      else
        var first := [s[0]] + rest[0];
        assert rest == [rest[0]] + rest[1..];
        assert s == [s[0]] + s[1..];
        [first] + rest[1..]
  }

  /** A string without the separator splits into itself. */
  lemma {:induction false} SplitWithoutSeparator(s: string, sep: char)
    requires sep !in s
    ensures Split(s, sep) == [s]
    decreases |s|
  {
    if |s| > 0 {
      SplitWithoutSeparator(s[1..], sep);
      assert [s[0]] + s[1..] == s;
    }
  }

  /** Two separator-free words joined by one separator split back into
      exactly those two words: `split` inverts `join` here. */
  lemma {:induction false} SplitTwoWords(w: string, t: string, sep: char)
    requires sep !in w && sep !in t
    ensures Split(w + [sep] + t, sep) == [w, t]
    decreases |w|
  {
    var s := w + [sep] + t;
    if |w| == 0 {
      assert s[1..] == t;
      SplitWithoutSeparator(t, sep);
    } else {
      assert s[1..] == w[1..] + [sep] + t;
      SplitTwoWords(w[1..], t, sep);
      assert [w[0]] + w[1..] == w;
    }
  }

  /** A separator-free first word before the first separator is the first
      piece, and the rest splits on its own. */
  lemma {:induction false} SplitFirstWord(w: string, rest: string, sep: char)
    requires sep !in w
    ensures Split(w + [sep] + rest, sep) == [w] + Split(rest, sep)
    decreases |w|
  {
    var s := w + [sep] + rest;
    if |w| == 0 {
      assert s[1..] == rest;
    } else {
      assert s[1..] == w[1..] + [sep] + rest;
      SplitFirstWord(w[1..], rest, sep);
      assert [w[0]] + w[1..] == w;
    }
  }

  /** What follows the second piece: nothing, or a separator and the
      remaining pieces joined. */
  function AfterSecond(pieces: seq<string>, sep: char): string
    requires |pieces| >= 2
  {
    if |pieces| == 2 then "" else [sep] + Join(pieces[2..], sep)
  }

  /** `t` is the text between the first separator of `s` and the next one
      (or the end of `s`). */
  ghost predicate IsSecondPiece(s: string, sep: char, t: string) {
    exists pre, post :: sep !in pre && s == pre + [sep] + t + post && (post == "" || post[0] == sep)
  }

  /** With at least two pieces, the string is the first piece, a separator,
      the second piece, then either nothing or a separator and the rest:
      the second piece is the text between the first and the next
      separator. */
  lemma SplitSecondPiece(s: string, sep: char)
    requires |Split(s, sep)| >= 2
    ensures IsSecondPiece(s, sep, Split(s, sep)[1])
  {
    var p := Split(s, sep);
    assert p[1..][1..] == p[2..];
    assert Join(p[1..], sep) == p[1] + AfterSecond(p, sep);
    var pre, post := p[0], AfterSecond(p, sep);
    assert sep !in pre;
    assert post == "" || post[0] == sep;
    assert s == pre + [sep] + p[1] + post;
  }
}
