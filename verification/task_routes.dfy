/** The task router mounted under `/api/v1/task`: which handler an HTTP method and
    path reach, and which of them run behind the authentication gate. */
module TaskRoutes {
  import opened Js
  import opened TaskModel
  import opened TaskController
  import opened AuthMiddleware

  /** A request as the router sees it: the HTTP method, the path, the
      credentials and the body. `path` lists the segments below the
      mount point, so `/` is `[]` and `/update/42` is `["update", "42"]`. */
  datatype Request = Request(verb: string, path: seq<string>, credentials: Credentials, body: Body)

  /** The six registered routes, with their `:id` parameter. */
  datatype Route =
    | ListAll
    | ListPart(filter: string)
    | CreateTask
    | UpdateTask(id: TaskId)
    | DeleteTask(id: TaskId)
    | ClearTasks(filter: string)

  /** The HTTP method a route is registered for. */
  function VerbOf(route: Route): string {
    match route
    case ListAll => "GET"
    case ListPart(_) => "GET"
    case CreateTask => "POST"
    case UpdateTask(_) => "PUT"
    case DeleteTask(_) => "DELETE"
    case ClearTasks(_) => "DELETE"
  }

  /** The path segments a route's pattern matches, its parameter filled in. */
  function PathOf(route: Route): seq<string> {
    match route
    case ListAll => []
    case ListPart(filter) => [filter]
    case CreateTask => ["new"]
    case UpdateTask(id) => ["update", id]
    case DeleteTask(id) => ["delete", id]
    case ClearTasks(filter) => ["clear", filter]
  }

  /** Route resolution in registration order, first match wins. A request
      resolves to a route whose method and pattern it matches, and to none only
      when no route matches. `GET /:id`
      is registered right after `GET /`, so every one-segment `GET` path is a
      filter, `/new` included. */
  function Resolve(verb: string, path: seq<string>): (r: Option<Route>)
    ensures r.Some? ==> verb == VerbOf(r.value) && path == PathOf(r.value)
    ensures r.None? ==> forall route :: !(verb == VerbOf(route) && path == PathOf(route))
  {
    if verb == "GET" && path == [] then Some(ListAll)
    else if verb == "GET" && |path| == 1 then Some(ListPart(path[0]))
    else if verb == "POST" && path == ["new"] then Some(CreateTask)
    else if verb == "PUT" && |path| == 2 && path[0] == "update" then Some(UpdateTask(path[1]))
    else if verb == "DELETE" && |path| == 2 && path[0] == "delete" then Some(DeleteTask(path[1]))
    else if verb == "DELETE" && |path| == 2 && path[0] == "clear" then Some(ClearTasks(path[1]))
    else None
  }

  /** Every registered route is reachable: a request built from a route's
      own method and pattern resolves back to that route, so no earlier
      registration shadows it. */
  lemma ResolveRoundTrip(route: Route)
    ensures Resolve(VerbOf(route), PathOf(route)) == Some(route)
  {
  }

  /** The routes registered with `authMiddleware` in front of the handler. */
  predicate Gated(route: Route) {
    !(route.ListAll? || route.ListPart?)
  }

  /** The controller handler a route is bound to. */
  function Dispatch(store: Store, route: Route, body: Body, newId: TaskId): Step {
    match route
    case ListAll => GetList(store)
    case ListPart(filter) => GetPartList(store, filter)
    case CreateTask => Create(store, body, newId)
    case UpdateTask(id) => Update(store, id, body)
    case DeleteTask(id) => Del(store, id)
    case ClearTasks(filter) => Clear(store, filter)
  }

  /** One request through the router: `None` when no route matches (the
      request leaves the router untouched). A gated route whose gate
      responds ends with that 401 response and the store as it was; a gate
      that continues, and every public route, runs the handler. */
  function Handle(store: Store, req: Request, secret: string, verify: Verifier, newId: TaskId)
    : (r: Option<Step>)
    ensures r.None? <==> Resolve(req.verb, req.path).None?
    ensures r.Some? && Gated(Resolve(req.verb, req.path).value)
            && Authenticate(req.credentials, secret, verify).Respond? ==>
              && r.value.store == store
              && r.value.outcome == Reply(401, Message(Authenticate(req.credentials, secret, verify).message))
    ensures r.Some? && (!Gated(Resolve(req.verb, req.path).value)
                        || Authenticate(req.credentials, secret, verify).Continue?) ==>
              r.value == Dispatch(store, Resolve(req.verb, req.path).value, req.body, newId)
    ensures r.Some? && r.value.store != store ==>
              && Gated(Resolve(req.verb, req.path).value)
              && Truthy(ExtractToken(req.credentials))
              && verify(ExtractToken(req.credentials).value, secret).Some?
  {
    match Resolve(req.verb, req.path)
    case None => None
    case Some(route) =>
      if !Gated(route) then Some(Dispatch(store, route, req.body, newId))
      else
        match Authenticate(req.credentials, secret, verify)
        case Respond(status, message) => Some(Step(Reply(status, Message(message)), store))
        case Continue(_) => Some(Dispatch(store, route, req.body, newId))
  }

  /** A create, update, delete or clear request the gate rejects gets a 401
      and leaves the task store untouched. */
  lemma RejectedMutationLeavesStore(store: Store, req: Request, secret: string, verify: Verifier,
                                    newId: TaskId)
    requires Resolve(req.verb, req.path).Some?
    requires Gated(Resolve(req.verb, req.path).value)
    requires Authenticate(req.credentials, secret, verify).Respond?
    ensures Handle(store, req, secret, verify, newId).Some?
    ensures Handle(store, req, secret, verify, newId).value.store == store
    ensures Handle(store, req, secret, verify, newId).value.outcome.status == 401
  {
  }

  /** A mutating request without cookies or header is denied before the
      handler runs. */
  lemma NoCredentialsIsDenied(store: Store, verb: string, path: seq<string>, body: Body,
                              secret: string, verify: Verifier, newId: TaskId)
    requires Resolve(verb, path).Some? && Gated(Resolve(verb, path).value)
    ensures Handle(store, Request(verb, path, Credentials(None, None), body), secret, verify, newId)
         == Some(Step(Reply(401, Message("Authorization denied.")), store))
  {
  }

  /** The two `GET` routes bypass the gate: `GET /` answers as `getList`
      and `GET /x` as `getPartList(x)`, whatever the credentials and
      `verify`, and neither changes the store. */
  lemma ReadsBypassGate(store: Store, filter: string, c: Credentials, body: Body,
                        secret: string, verify: Verifier, newId: TaskId)
    ensures Handle(store, Request("GET", [], c, body), secret, verify, newId) == Some(GetList(store))
    ensures Handle(store, Request("GET", [filter], c, body), secret, verify, newId)
         == Some(GetPartList(store, filter))
    ensures GetList(store).store == store && GetPartList(store, filter).store == store
  {
  }

  /** `GET /new` reaches `getPartList` with the filter `"new"`, so it
      forwards the `TypeError` and creates nothing. */
  lemma GetNewIsAFilter(store: Store, c: Credentials, body: Body, secret: string, verify: Verifier,
                        newId: TaskId)
    ensures Handle(store, Request("GET", ["new"], c, body), secret, verify, newId)
         == Some(Step(Forwarded(None, StatusNotAFunction), store))
  {
  }
}
