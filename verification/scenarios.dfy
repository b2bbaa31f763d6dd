/** End-to-end behaviour of the task API over several requests, stated on
    the handler model: what a client observes through the list route after
    each kind of change. */
module Scenarios {
  import opened Js
  import opened TaskModel
  import opened TaskController

  /** A task created with a non-empty name shows up in the next `getList`,
      not completed unless the body said so. */
  lemma CreatedTaskIsListed(store: Store, body: Body, newId: TaskId)
    requires Truthy(body.name) && !HasId(store, newId)
    ensures
      var created := Create(store, body, newId);
      var listed := GetList(created.store).outcome.payload.tasks;
      && Task(newId, body.name.value, body.isCompleted == Some(true)) in listed
      && forall t :: t in store ==> t in listed
  {
  }

  /** After deleting an existing id, no listed task carries it and every
      other task is still listed. */
  lemma DeletedTaskIsNotListed(store: Store, id: TaskId)
    requires DistinctIds(store) && HasId(store, id)
    ensures
      var listed := GetList(Del(store, id).store).outcome.payload.tasks;
      && !HasId(listed, id)
      && forall t :: t in store && t.id != id ==> t in listed
  {
  }

  /** `clear("all")` followed by `getList` lists nothing. */
  lemma ClearAllThenListIsEmpty(store: Store)
    ensures GetList(Clear(store, "all").store).outcome == Reply(200, TaskList([]))
  {
  }

  /** The worked example: create "Buy milk", mark it done, then delete an
      id nobody has. */
  lemma BuyMilkExample(id: TaskId, other: TaskId)
    requires id != other
    ensures
      var created := Create([], Body(Some("Buy milk"), None), id);
      var updated := Update(created.store, id, Body(None, Some(true)));
      var missing := Del(updated.store, other);
      && created.outcome == Reply(201, OneTask(Task(id, "Buy milk", false)))
      && updated.outcome == Reply(200, OneTask(Task(id, "Buy milk", true)))
      && missing == Step(Forwarded(Some(404), TaskNotFound), updated.store)
  {
    var created := Create([], Body(Some("Buy milk"), None), id);
    assert created.store == [Task(id, "Buy milk", false)];
    assert !HasId(created.store, other);
  }
}
