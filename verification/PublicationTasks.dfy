/** relay/publications/tasks.py: the dispatcher. */
module PublicationTasks {
  import opened Types
  import opened Tables
  import opened PublicationServices

  const BATCH := 100

  /**
   * An answer of the dispatcher's query. The query orders by `scheduled_for` alone, so any choice among
   * publications due at the same instant is one.
   */
  ghost predicate IsDueBatch(publications: seq<Publication>, now: Time, ids: seq<Id>) {
    && |ids| <= BATCH
    && NoDuplicates(ids)
    && (forall i :: 0 <= i < |ids| ==> Due(publications, ids[i], now))
    && (forall i, j :: 0 <= i < j < |ids| ==> publications[ids[i]].scheduledFor <= publications[ids[j]].scheduledFor)
    && (forall q: Id :: Due(publications, q, now) && q !in ids ==>
         |ids| == BATCH && forall i :: 0 <= i < |ids| ==>
           publications[ids[i]].scheduledFor <= publications[q].scheduledFor)
  }

  /** A batch holds at most a hundred publications, all due, and all that are due unless it is full. */
  lemma DueBatchMeaning(publications: seq<Publication>, now: Time, ids: seq<Id>)
    requires IsDueBatch(publications, now, ids)
    ensures |ids| <= 100 && forall q :: q in ids ==>
      q < |publications| && publications[q].state == Scheduled && publications[q].scheduledFor <= now
    ensures |ids| < 100 ==> forall q: Id ::
      q < |publications| && publications[q].state == Scheduled && publications[q].scheduledFor <= now ==> q in ids
  {
    forall q | q in ids
      ensures q < |publications| && publications[q].state == Scheduled && publications[q].scheduledFor <= now
    {
      var i :| 0 <= i < |ids| && ids[i] == q;
      assert Due(publications, ids[i], now);
    }
    forall q: Id | |ids| < 100 && q < |publications| && publications[q].state == Scheduled
                   && publications[q].scheduledFor <= now
      ensures q in ids
    {
      assert Due(publications, q, now);
    }
  }

  /** The dispatcher's query: filter, order, limit. Nothing but `IsDueBatch` is known of its answer. */
  method DueBatch(publications: seq<Publication>, now: Time) returns (ids: seq<Id>)
    ensures IsDueBatch(publications, now, ids)
  {
    var all := SortedDue(publications, |publications|, now);
    ids := if |all| <= BATCH then all else all[..BATCH];
    forall q: Id | Due(publications, q, now) && q !in ids
      ensures |ids| == BATCH && forall i :: 0 <= i < |ids| ==>
        publications[ids[i]].scheduledFor <= publications[q].scheduledFor
    {
      assert q in all;
      var k :| 0 <= k < |all| && all[k] == q;
      assert forall i :: 0 <= i < |ids| ==> ids[i] == all[i];
    }
  }

  method SortedDue(publications: seq<Publication>, n: nat, now: Time) returns (ids: seq<Id>)
    requires n <= |publications|
    ensures NoDuplicates(ids)
    ensures forall q: Id :: q in ids <==> q < n && Due(publications, q, now)
    ensures forall i :: 0 <= i < |ids| ==> ids[i] < n
    ensures forall i, j :: 0 <= i < j < |ids| ==> publications[ids[i]].scheduledFor <= publications[ids[j]].scheduledFor
  {
    if n == 0 {
      ids := [];
      return;
    }
    var earlier := SortedDue(publications, n - 1, now);
    var p := n - 1;
    if !Due(publications, p, now) {
      ids := earlier;
      return;
    }
    var k := 0;
    while k < |earlier| && publications[earlier[k]].scheduledFor <= publications[p].scheduledFor
      invariant 0 <= k <= |earlier|
      invariant forall i :: 0 <= i < k ==> publications[earlier[i]].scheduledFor <= publications[p].scheduledFor
    {
      k := k + 1;
    }
    ids := InsertDue(publications, earlier, p, k);
    assert forall i :: 0 <= i < |ids| ==> ids[i] in ids;
  }

  method InsertDue(publications: seq<Publication>, earlier: seq<Id>, p: Id, k: nat) returns (ids: seq<Id>)
    requires k <= |earlier| && NoDuplicates(earlier) && p !in earlier && p < |publications|
    requires forall i :: 0 <= i < |earlier| ==> earlier[i] < |publications|
    requires forall i, j :: 0 <= i < j < |earlier| ==>
      publications[earlier[i]].scheduledFor <= publications[earlier[j]].scheduledFor
    requires forall i :: 0 <= i < k ==> publications[earlier[i]].scheduledFor <= publications[p].scheduledFor
    requires k < |earlier| ==> publications[p].scheduledFor <= publications[earlier[k]].scheduledFor
    ensures NoDuplicates(ids) && forall q :: q in ids <==> q in earlier || q == p
    ensures forall i :: 0 <= i < |ids| ==> ids[i] < |publications|
    ensures forall i, j :: 0 <= i < j < |ids| ==> publications[ids[i]].scheduledFor <= publications[ids[j]].scheduledFor
  {
    ids := earlier[..k] + [p] + earlier[k..];
    assert forall i :: 0 <= i < |ids| ==> ids[i] == if i < k then earlier[i] else if i == k then p else earlier[i - 1];
    assert NoDuplicates(ids) && forall q :: q in ids <==> q in earlier || q == p by {
      InsertOnce(earlier, p, k);
    }
  }

  lemma InsertOnce(earlier: seq<Id>, p: Id, k: nat)
    requires k <= |earlier| && NoDuplicates(earlier) && p !in earlier
    ensures var ids := earlier[..k] + [p] + earlier[k..]; NoDuplicates(ids) && forall q :: q in ids <==>
      q in earlier || q == p
  {
    assert earlier == earlier[..k] + earlier[k..];
  }

  /** The Celery queue. A message may be delivered in any order. */
  class TaskQueue {
    var tasks: multiset<Id>

    method Delay(p: Id)
      modifies this
      ensures tasks == old(tasks) + multiset{p}
    {
      tasks := tasks + multiset{p};
    }
  }

  /** `dispatch_due_publications`: one task for every id of the batch. */
  method DispatchDuePublications(publications: seq<Publication>, queue: TaskQueue, now: Time)
    returns (n: nat, ghost dueIds: seq<Id>)
    modifies queue
    ensures IsDueBatch(publications, now, dueIds)
    ensures queue.tasks == old(queue.tasks) + multiset(dueIds)
    ensures n == |dueIds|
  {
    hide IsDueBatch;
    var batch := DueBatch(publications, now);
    for i := 0 to |batch|
      invariant queue.tasks == old(queue.tasks) + multiset(batch[..i])
    {
      queue.Delay(batch[i]);
      assert batch[..i + 1] == batch[..i] + [batch[i]];
    }
    assert batch[..|batch|] == batch;
    return |batch|, batch;
  }
}
