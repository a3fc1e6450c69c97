/** Status change (`PATCH /issues/{id}/status`): the issue under the id
    takes the new status and the current instant as its update time. Any
    status may follow any other. */
module StatusUpdate {

  import opened Wrappers
  import opened Issues
  import opened IssueStore

  /** The store after the request and the issue or the error answered. */
  datatype Updated = Updated(store: Store, result: Result<Issue, Error>)

  /** `update_status`: an unknown id is answered 404 and changes nothing;
      otherwise the stored record, in place, gets `status` and `now`, and
      that record is the answer. */
  function UpdateStatus(store: Store, id: string, status: Status, now: Timestamp): (out: Updated)
    ensures out.result.Failure? <==> !HasId(store, id)
    ensures out.result.Failure? ==> out.result.error == NotFound && out.store == store
    ensures out.result.Success? ==>
      && out.result.value.id == id
      && out.result.value.status == status
      && out.result.value.updatedAt == now
      && Lookup(out.store, id) == Some(out.result.value)
  {
    match Find(store, id)
    case None => Updated(store, Failure(NotFound))
    case Some(i) =>
      var changed := store[i].(status := status, updatedAt := now);
      var r := store[i := changed];
      FindFirst(r, id, i);
      Updated(r, Success(changed))
  }

  /** The frame of an update: the store keeps its length and order, every
      other issue is untouched, and the updated one keeps its creation time
      and every field but `status` and `updatedAt`. */
  lemma UpdateFrame(store: Store, id: string, status: Status, now: Timestamp)
    requires HasId(store, id)
    ensures var out := UpdateStatus(store, id, status, now);
      && |out.store| == |store|
      && (forall j :: 0 <= j < |store| ==> out.store[j].id == store[j].id)
      && (forall j :: 0 <= j < |store| && store[j].id != id ==> out.store[j] == store[j])
      && (forall j :: 0 <= j < |store| && store[j].id == id && UniqueIds(store) ==>
            SameButStatusAndTime(store[j], out.store[j]))
  {
    var i := Find(store, id).value;
    forall j | 0 <= j < |store| && store[j].id == id && UniqueIds(store)
      ensures j == i
    {
    }
  }

  /** An update keeps the store valid: ids stay unique and no coordinates
      change. */
  lemma UpdateKeepsValid(store: Store, id: string, status: Status, now: Timestamp)
    requires Valid(store)
    ensures Valid(UpdateStatus(store, id, status, now).store)
  {
    if HasId(store, id) {
      var out := UpdateStatus(store, id, status, now);
      var i := Find(store, id).value;
      assert ValidIssue(out.store[i]) by {
        assert out.store[i].latitude == store[i].latitude;
        assert out.store[i].longitude == store[i].longitude;
      }
    }
  }

  /** The clock is an input and need not run forward; when it reads no
      earlier than the issue's creation, the issue stays well-timed. */
  lemma UpdateKeepsWellTimed(store: Store, id: string, status: Status, now: Timestamp)
    requires forall j :: 0 <= j < |store| ==> WellTimed(store[j])
    requires HasId(store, id) ==> Lookup(store, id).value.createdAt <= now
    ensures var out := UpdateStatus(store, id, status, now);
      forall j :: 0 <= j < |out.store| ==> WellTimed(out.store[j])
  {
  }

  /** Without that premise the invariant can break: a clock that reads
      earlier than the creation time leaves `updatedAt < createdAt`. */
  lemma UpdateWithClockSkew(issue: Issue, now: Timestamp)
    requires now < issue.createdAt
    ensures var out := UpdateStatus([issue], issue.id, issue.status, now);
      out.result.Success? && !WellTimed(out.result.value)
  {
  }

  /** Repeating an update with the same status changes only the update
      time again: the second request's store is the first's with the later
      instant. */
  lemma {:induction false} UpdateTwice(store: Store, id: string, status: Status, t1: Timestamp, t2: Timestamp)
    requires HasId(store, id)
    ensures var once := UpdateStatus(store, id, status, t1);
      var twice := UpdateStatus(once.store, id, status, t2);
      && twice.result.Success?
      && twice.result.value.status == status
      && twice.result.value.updatedAt == t2
      && twice.store == UpdateStatus(store, id, status, t2).store
  {
    var i := Find(store, id).value;
    var once := UpdateStatus(store, id, status, t1);
    assert forall j :: 0 <= j < i ==> once.store[j] == store[j];
    FindFirst(once.store, id, i);
  }

  /** An update commutes with adding an unrelated issue at the end: the
      update touches nothing but its own record. */
  lemma UpdateIgnoresLaterIssues(store: Store, other: Issue, id: string, status: Status, now: Timestamp)
    requires HasId(store, id)
    ensures UpdateStatus(store + [other], id, status, now).store
         == UpdateStatus(store, id, status, now).store + [other]
  {
    var i := Find(store, id).value;
    FindFirst(store + [other], id, i);
  }
}
