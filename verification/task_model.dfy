/** The task collection: the `Task` document shape and the in-memory meaning
    of the Mongoose queries the controller issues against it. */
module TaskModel {
  import opened Js

  /** A task id as it arrives in a route parameter. */
  type TaskId = string

  /** One task document: store-assigned id, label, completion flag. */
  datatype Task = Task(id: TaskId, name: string, isCompleted: bool)

  /** The collection, in natural (insertion) order. */
  type Store = seq<Task>

  /** No two documents share an id, as the document store guarantees. */
  predicate DistinctIds(s: Store) {
    forall i, j :: 0 <= i < j < |s| ==> s[i].id != s[j].id
  }

  /** Some document carries `id`. */
  predicate HasId(s: Store, id: TaskId) {
    exists k :: 0 <= k < |s| && s[k].id == id
  }

  /** `findById`: the position of the first document carrying `id`, if any. */
  function FindIndex(s: Store, id: TaskId): (r: Option<nat>)
    ensures r.None? <==> !HasId(s, id)
    ensures r.Some? ==> r.value < |s| && s[r.value].id == id
    ensures r.Some? ==> forall k :: 0 <= k < r.value ==> s[k].id != id
  {
    if |s| == 0 then None
    else if s[0].id == id then Some(0)
    else
      match FindIndex(s[1..], id)
      case None =>
        assert forall k :: 1 <= k < |s| ==> s[k] == s[1..][k - 1];
        None
      case Some(k) => Some(k + 1)
  }

  /** `find({ isCompleted: completed })`: the documents whose flag equals
      `completed`, in store order. */
  function Select(s: Store, completed: bool): (r: Store)
    ensures forall t :: t in r <==> t in s && t.isCompleted == completed
    ensures |r| <= |s|
  {
    if |s| == 0 then []
    else if s[0].isCompleted == completed then
      assert s == [s[0]] + s[1..];
      [s[0]] + Select(s[1..], completed)
    else
      assert s == [s[0]] + s[1..];
      Select(s[1..], completed)
  }

  /** The active and the completed documents together are the whole store,
      each document counted as often as it occurs. */
  lemma {:induction false} SelectPartitions(s: Store)
    ensures multiset(Select(s, false)) + multiset(Select(s, true)) == multiset(s)
    ensures |Select(s, false)| + |Select(s, true)| == |s|
  {
    if |s| > 0 {
      SelectPartitions(s[1..]);
      assert s == [s[0]] + s[1..];
      assert multiset(s) == multiset{s[0]} + multiset(s[1..]);
    }
  }

  /** Selecting keeps documents in store order and never duplicates one, so
      distinct ids stay distinct. */
  lemma {:induction false} SelectKeepsDistinctIds(s: Store, completed: bool)
    requires DistinctIds(s)
    ensures DistinctIds(Select(s, completed))
  {
    if |s| > 0 {
      var tail := s[1..];
      assert DistinctIds(tail) by {
        forall i, j | 0 <= i < j < |tail|
          ensures tail[i].id != tail[j].id
        {
          assert tail[i] == s[i + 1] && tail[j] == s[j + 1];
        }
      }
      SelectKeepsDistinctIds(tail, completed);
      if s[0].isCompleted == completed {
        var rest := Select(tail, completed);
        var r := [s[0]] + rest;
        forall j | 0 < j < |r|
          ensures r[0].id != r[j].id
        {
          assert r[j] in tail;
          var k :| 0 <= k < |tail| && tail[k] == r[j];
          assert s[k + 1] == r[j];
        }
        forall i, j | 0 < i < j < |r|
          ensures r[i].id != r[j].id
        {
          assert r[i] == rest[i - 1] && r[j] == rest[j - 1];
        }
      }
    }
  }
}
