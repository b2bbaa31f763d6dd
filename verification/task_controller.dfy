/** The task controller: each Express handler as a pure transition from the
    store, the route parameter and the request body to an outcome and the
    store afterwards. The document-store calls have their in-memory meaning
    from `TaskModel`. */
module TaskController {
  import opened Js
  import opened TaskModel

  /** The status filter carried by the `:id` parameter of the list and
      clear routes. */
  datatype Filter = All | Active | Completed

  /** The three-way dispatch shared by `getPartList` and `clear`: only the
      exact strings `"all"`, `"active"` and `"completed"` are filters. */
  function ParseFilter(id: string): Option<Filter> {
    if id == "all" then Some(All)
    else if id == "active" then Some(Active)
    else if id == "completed" then Some(Completed)
    else None
  }

  /** The request body fields the handlers read; `None` is a field that is
      absent or `null`. */
  datatype Body = Body(name: Option<string>, isCompleted: Option<bool>)

  /** What the JSON response carries. */
  datatype Payload = TaskList(tasks: seq<Task>) | OneTask(task: Task) | Message(text: string)

  /** A value passed to `next(error)`. */
  datatype ErrorValue =
    | Error(message: string)       // `new Error(message)` built by the handler
    | TypeError(message: string)   // thrown by the runtime and caught
    | DuplicateKey(id: TaskId)     // `save` of a document whose id is taken

  /** How a handler ends: a JSON response with a status, or an error handed
      to `next`, together with the status already set on the response, if
      any (the error handler downstream decides the rest). */
  datatype Outcome =
    | Reply(status: nat, payload: Payload)
    | Forwarded(setStatus: Option<nat>, error: ErrorValue)

  /** The outcome of one request and the store after it. */
  datatype Step = Step(outcome: Outcome, store: Store)

  /** Calling `error.status(400)` on a plain `Error`: `status` is not a
      property of it, so the call itself throws this, and it is what the
      catch block forwards. */
  const StatusNotAFunction := TypeError("error.status is not a function")

  const NameRequired := Error("Name is required.")
  const TaskNotFound := Error("Task not found")

  /** The tasks a filter lists. */
  function Matching(s: Store, f: Filter): Store {
    match f
    case All => s
    case Active => Select(s, false)
    case Completed => Select(s, true)
  }

  /** The tasks clearing by a filter leaves behind. */
  function Remaining(s: Store, f: Filter): Store {
    match f
    case All => []
    case Active => Select(s, true)
    case Completed => Select(s, false)
  }

  /** A 200 response listing exactly the tasks whose flag is `completed`. */
  ghost predicate ListsExactly(o: Outcome, s: Store, completed: bool) {
    && o.Reply? && o.status == 200 && o.payload.TaskList?
    && forall t :: t in o.payload.tasks <==> t in s && t.isCompleted == completed
  }

  /** `getList`: every task, status 200; the store is only read. */
  function GetList(store: Store): (r: Step)
    ensures r.store == store
    ensures r.outcome == Reply(200, TaskList(store))
  {
    Step(Reply(200, TaskList(store)), store)
  }

  /** `getPartList`: list by status filter. Any other parameter ends in the
      `TypeError` of `error.status(400)`, never in a response. */
  function GetPartList(store: Store, id: string): (r: Step)
    ensures r.store == store
    ensures id == "all" ==> r.outcome == Reply(200, TaskList(store))
    ensures id == "active" ==> ListsExactly(r.outcome, store, false)
    ensures id == "completed" ==> ListsExactly(r.outcome, store, true)
    ensures id != "all" && id != "active" && id != "completed" ==>
              r.outcome == Forwarded(None, StatusNotAFunction)
  {
    match ParseFilter(id)
    case None => Step(Forwarded(None, StatusNotAFunction), store)
    case Some(f) => Step(Reply(200, TaskList(Matching(store, f))), store)
  }

  /** `create`. `newId` is the id the document store assigns to the new
      document. A falsy name is refused with 400; a taken id makes `save`
      fail; otherwise the task is appended, with `isCompleted` false unless
      the body says true. */
  function Create(store: Store, body: Body, newId: TaskId): (r: Step)
    ensures !Truthy(body.name) ==> r == Step(Forwarded(Some(400), NameRequired), store)
    ensures r.outcome.Reply? <==> Truthy(body.name) && !HasId(store, newId)
    ensures r.outcome.Forwarded? ==> r.store == store
    ensures r.outcome.Reply? ==>
              && r.outcome.status == 201 && r.outcome.payload.OneTask?
              && var t := r.outcome.payload.task;
              && t.id == newId && t.name == body.name.value
              && t.isCompleted == (body.isCompleted == Some(true))
              && r.store == store + [t]
    ensures DistinctIds(store) ==> DistinctIds(r.store)
  {
    if !Truthy(body.name) then
      Step(Forwarded(Some(400), NameRequired), store)
    else if FindIndex(store, newId).Some? then
      Step(Forwarded(None, DuplicateKey(newId)), store)
    else
      var t := Task(newId, body.name.value, body.isCompleted.GetOr(false));
      Step(Reply(201, OneTask(t)), store + [t])
  }

  /** The task after the partial patch `name ?? prior.name`,
      `isCompleted ?? prior.isCompleted`. */
  function Patched(prior: Task, body: Body): Task {
    Task(prior.id, body.name.GetOr(prior.name), body.isCompleted.GetOr(prior.isCompleted))
  }

  /** `update`: 404 for an unknown id; otherwise only the task with that id
      changes, each supplied field replacing the stored one, and the updated
      task is returned with 200. */
  function Update(store: Store, id: TaskId, body: Body): (r: Step)
    ensures !HasId(store, id) ==> r == Step(Forwarded(Some(404), TaskNotFound), store)
    ensures HasId(store, id) ==> r.outcome.Reply? && r.outcome.status == 200
    ensures |r.store| == |store|
    ensures DistinctIds(store) ==>
              forall k :: 0 <= k < |store| ==>
                if store[k].id != id then r.store[k] == store[k]
                else
                  && r.outcome == Reply(200, OneTask(r.store[k]))
                  && r.store[k].id == id
                  && r.store[k].name == (if body.name.Some? then body.name.value else store[k].name)
                  && r.store[k].isCompleted ==
                       (if body.isCompleted.Some? then body.isCompleted.value else store[k].isCompleted)
    ensures DistinctIds(store) ==> DistinctIds(r.store)
  {
    match FindIndex(store, id)
    case None => Step(Forwarded(Some(404), TaskNotFound), store)
    case Some(i) =>
      var t := Patched(store[i], body);
      var s' := store[i := t];
      assert forall k :: 0 <= k < |store| ==> s'[k].id == store[k].id;
      Step(Reply(200, OneTask(t)), s')
  }

  /** Removing position `i` keeps every other document and, with distinct
      ids, exactly the documents whose id differs from the removed one. */
  lemma RemoveAtKeepsOthers(s: Store, i: nat)
    requires i < |s| && DistinctIds(s)
    ensures forall t :: t in s[..i] + s[i + 1..] <==> t in s && t.id != s[i].id
    ensures DistinctIds(s[..i] + s[i + 1..])
  {
    var r := s[..i] + s[i + 1..];
    assert forall k :: 0 <= k < |r| ==> r[k] == (if k < i then s[k] else s[k + 1]);
    forall t | t in s && t.id != s[i].id
      ensures t in r
    {
      var k :| 0 <= k < |s| && s[k] == t;
      assert k != i;
      if k < i { assert r[k] == t; } else { assert r[k - 1] == t; }
    }
  }

  /** `del`: 404 for an unknown id; otherwise exactly that task leaves the
      store and a confirmation message, not the task, is returned. */
  function Del(store: Store, id: TaskId): (r: Step)
    ensures !HasId(store, id) ==> r == Step(Forwarded(Some(404), TaskNotFound), store)
    ensures HasId(store, id) ==>
              && r.outcome == Reply(200, Message("Task deleted successfully"))
              && |r.store| == |store| - 1
    ensures HasId(store, id) && DistinctIds(store) ==>
              forall t :: t in r.store <==> t in store && t.id != id
    ensures DistinctIds(store) ==> DistinctIds(r.store)
  {
    match FindIndex(store, id)
    case None => Step(Forwarded(Some(404), TaskNotFound), store)
    case Some(i) =>
      assert DistinctIds(store) ==>
               && DistinctIds(store[..i] + store[i + 1..])
               && forall t :: t in store[..i] + store[i + 1..] <==> t in store && t.id != id
      by {
        if DistinctIds(store) { RemoveAtKeepsOthers(store, i); }
      }
      Step(Reply(200, Message("Task deleted successfully")), store[..i] + store[i + 1..])
  }

  /** The confirmation `clear` sends for each filter. */
  function ClearMessage(f: Filter): string {
    match f
    case All => "All tasks deleted successfully"
    case Active => "All active tasks deleted successfully"
    case Completed => "All completed tasks deleted successfully"
  }

  /** `clear`: bulk delete by status filter with a confirmation message; any
      other parameter ends in the `TypeError` of `error.status(400)` and
      deletes nothing. */
  function Clear(store: Store, id: string): (r: Step)
    ensures id == "all" ==> r == Step(Reply(200, Message("All tasks deleted successfully")), [])
    ensures id == "active" ==>
              && r.outcome == Reply(200, Message("All active tasks deleted successfully"))
              && forall t :: t in r.store <==> t in store && t.isCompleted
    ensures id == "completed" ==>
              && r.outcome == Reply(200, Message("All completed tasks deleted successfully"))
              && forall t :: t in r.store <==> t in store && !t.isCompleted
    ensures id != "all" && id != "active" && id != "completed" ==>
              r == Step(Forwarded(None, StatusNotAFunction), store)
    ensures DistinctIds(store) ==> DistinctIds(r.store)
  {
    match ParseFilter(id)
    case None => Step(Forwarded(None, StatusNotAFunction), store)
    case Some(f) =>
      assert DistinctIds(store) ==> DistinctIds(Remaining(store, f)) by {
        if DistinctIds(store) {
          SelectKeepsDistinctIds(store, true);
          SelectKeepsDistinctIds(store, false);
        }
      }
      Step(Reply(200, Message(ClearMessage(f))), Remaining(store, f))
  }

  /** `getList` answers exactly as `getPartList("all")`. */
  lemma GetListIsFilterAll(store: Store)
    ensures GetList(store) == GetPartList(store, "all")
  {
  }

  /** The active and the completed listings split the full listing: every
      task appears in exactly one of them, as often as in the store. */
  lemma PartListsPartition(store: Store)
    ensures
      var active := GetPartList(store, "active").outcome.payload.tasks;
      var completed := GetPartList(store, "completed").outcome.payload.tasks;
      && multiset(active) + multiset(completed) == multiset(store)
      && (forall t :: t in active ==> t !in completed)
  {
    SelectPartitions(store);
  }

  /** For every filter, `clear` deletes exactly what `getPartList` lists
      under the same parameter: the listed and the remaining tasks together
      are the store before the clear. */
  lemma ClearRemovesWhatIsListed(store: Store, id: string)
    requires ParseFilter(id).Some?
    ensures
      var listed := GetPartList(store, id);
      var cleared := Clear(store, id);
      && listed.outcome.Reply? && cleared.outcome.Reply?
      && multiset(listed.outcome.payload.tasks) + multiset(cleared.store) == multiset(store)
  {
    SelectPartitions(store);
    var f := ParseFilter(id).value;
    if f == Completed {
      assert multiset(Select(store, true)) + multiset(Select(store, false)) == multiset(store);
    }
  }

  /** `{ isCompleted: true }` completes the task and keeps its name. */
  lemma UpdateCompletionKeepsName(store: Store, id: TaskId)
    requires DistinctIds(store)
    ensures forall k :: 0 <= k < |store| && store[k].id == id ==>
              var after := Update(store, id, Body(None, Some(true))).store[k];
              after.name == store[k].name && after.isCompleted
  {
  }

  /** An explicit `false` or `""` is not nullish, so it overwrites: an update
      can store an empty name even though `create` never accepts one. */
  lemma UpdateOverwritesWithFalsyValues(store: Store, id: TaskId)
    requires DistinctIds(store)
    ensures forall k :: 0 <= k < |store| && store[k].id == id ==>
              var after := Update(store, id, Body(Some(""), Some(false))).store[k];
              after.name == "" && !after.isCompleted
  {
  }
}
