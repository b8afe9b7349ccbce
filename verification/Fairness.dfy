/** The bounded, earliest-first dispatcher starves no publication. */
module Fairness {
  import opened Types
  import opened Tables
  import opened PublicationServices
  import opened PublicationTasks
  import opened Machine

  /** The other SCHEDULED publications that are not after instant `due`. */
  ghost function Ahead(s: Sys, p: Id, due: Time): set<Id> {
    set q: Id | 0 <= q < |s.db.publications| && InLine(s, q, p, due)
  }

  ghost predicate InLine(s: Sys, q: Id, p: Id, due: Time) {
    && q < |s.db.publications| && q != p
    && s.db.publications[q].state == Scheduled && s.db.publications[q].scheduledFor <= due
  }

  /** A schedule request that passed validation while its time was in the future and commits after it. */
  ghost predicate LateCommit(s: Sys, step: Step, due: Time) {
    && step.ScheduleCommit? && |NextDb(s, step).publications| > |s.db.publications|
    && NextDb(s, step).publications[|s.db.publications|].scheduledFor <= due
  }

  /** Once `due` has come, exactly the late commits enter the line: retries move past the present. */
  lemma LineStep(s: Sys, step: Step, p: Id, due: Time)
    requires due <= s.clock && p < |s.db.publications|
    ensures Ahead(Next(s, step), p, due) - Ahead(s, p, due) == if LateCommit(s, step, due) then {|s.db.publications|}
      else {}
    ensures |s.db.publications| <= |Next(s, step).db.publications|
  {
    hide NextDb, NextWorkers, NextSessions, NextQueue, LateCommit;
    var t := Next(s, step);
    LineStepAt(s, step, p, due, 0);
    forall q: Id ensures q in Ahead(t, p, due) - Ahead(s, p, due) <==>
      LateCommit(s, step, due) && q == |s.db.publications| {
      LineStepAt(s, step, p, due, q);
    }
  }

  lemma LineStepAt(s: Sys, step: Step, p: Id, due: Time, q: Id)
    requires due <= s.clock && p < |s.db.publications|
    ensures InLine(Next(s, step), q, p, due) && !InLine(s, q, p, due) <==>
      LateCommit(s, step, due) && q == |s.db.publications|
    ensures |s.db.publications| <= |Next(s, step).db.publications|
  {
  }

  ghost function LateCommits(s: Sys, steps: seq<Step>, due: Time): nat
    decreases |steps|
  {
    if steps == [] then 0 else
      LateCommits(Next(s, steps[0]), steps[1..], due) + if LateCommit(s, steps[0], due) then 1 else 0
  }

  /** Over a run the line gains only new publications, one for each late commit. */
  lemma {:induction false} LineRun(s: Sys, steps: seq<Step>, p: Id, due: Time) returns (late: set<Id>)
    requires due <= s.clock && p < |s.db.publications|
    ensures Ahead(Run(s, steps), p, due) <= Ahead(s, p, due) + late
    ensures |late| <= LateCommits(s, steps, due)
    ensures forall q :: q in late ==> q >= |s.db.publications|
    ensures |s.db.publications| <= |Run(s, steps).db.publications| && s.clock <= Run(s, steps).clock
    decreases |steps|
  {
    hide NextDb, NextSessions, NextWorkers, NextQueue, LateCommit, Ahead;
    if steps == [] {
      late := {};
    } else {
      var t, n := Next(s, steps[0]), |s.db.publications|;
      LineStep(s, steps[0], p, due);
      var rest := LineRun(t, steps[1..], p, due);
      var entering := if LateCommit(s, steps[0], due) then {n} else {};
      late := rest + entering;
      assert Ahead(t, p, due) <= Ahead(s, p, due) + entering;
      UnionSize(rest, entering);
    }
  }

  lemma UnionSize<T>(a: set<T>, b: set<T>)
    ensures |a + b| <= |a| + |b|
  {
    assert a + b == a + (b - a);
    SubsetSize(b - a, b);
  }

  /** A worker that started `q`'s task no earlier than `since` reaches its claim during the run. */
  ghost predicate TaskRan(s: Sys, steps: seq<Step>, q: Id, since: Time) {
    exists k :: 0 <= k < |steps| && ReachesClaim(Run(s, steps[..k]), steps[k], q, since)
  }

  ghost predicate ReachesClaim(s: Sys, step: Step, q: Id, since: Time) {
    && step.ClaimTask? && step.worker in s.workers
    && s.workers[step.worker].Started? && s.workers[step.worker].publication == q && s.workers[step.worker].now >= since
  }

  /** After its task has run a publication is no longer in line. */
  lemma RunTaskLeavesLine(s: Sys, steps: seq<Step>, q: Id, p: Id, due: Time, since: Time)
    requires due <= since && due <= s.clock && p < |s.db.publications| && q < |s.db.publications|
    requires TaskRan(s, steps, q, since)
    ensures q !in Ahead(Run(s, steps), p, due)
  {
    var k :| 0 <= k < |steps| && ReachesClaim(Run(s, steps[..k]), steps[k], q, since);
    var u := Run(s, steps[..k]);
    var before := LineRun(s, steps[..k], p, due);
    ClaimLeavesLine(u, steps[k], q, p, due, since);
    LineStep(u, steps[k], p, due);
    var after := LineRun(Next(u, steps[k]), steps[k + 1..], p, due);
    RunSplit(s, steps, k);
  }

  lemma ClaimLeavesLine(s: Sys, step: Step, q: Id, p: Id, due: Time, since: Time)
    requires ReachesClaim(s, step, q, since) && due <= since
    ensures q !in Ahead(Next(s, step), p, due)
  {
  }

  lemma RunSplit(s: Sys, steps: seq<Step>, k: nat)
    requires k < |steps|
    ensures Run(s, steps) == Run(Next(Run(s, steps[..k]), steps[k]), steps[k + 1..])
  {
    hide Next;
    assert steps == steps[..k] + steps[k..];
    RunConcat(s, steps[..k], steps[k..]);
    assert steps[k..][1..] == steps[k + 1..];
  }

  /** One minute: the dispatcher enqueues a batch, and then anything happens. */
  datatype Round = Round(batch: seq<Id>, steps: seq<Step>)

  ghost function AfterDispatch(s: Sys, r: Round): Sys {
    Next(s, Dispatch(r.batch))
  }

  ghost function AfterRound(s: Sys, r: Round): Sys {
    Run(AfterDispatch(s, r), r.steps)
  }

  /** The batch answers the query, and its tasks run before the round ends. */
  ghost predicate ProperRound(s: Sys, r: Round) {
    && IsDueBatch(s.db.publications, s.clock, r.batch)
    && forall q :: q in r.batch ==> TaskRan(AfterDispatch(s, r), r.steps, q, s.clock)
  }

  ghost predicate Waiting(s: Sys, p: Id, due: Time) {
    p < |s.db.publications| && s.db.publications[p].state == Scheduled && s.db.publications[p].scheduledFor == due
  }

  /** Proper rounds, at the start of each of which `p` waits, and none of which enqueues it. */
  ghost predicate PassedOver(s: Sys, rounds: seq<Round>, p: Id, due: Time)
    decreases |rounds|
  {
    rounds == [] ||
    (ProperRound(s, rounds[0]) && Waiting(s, p, due) && p !in rounds[0].batch
     && PassedOver(AfterRound(s, rounds[0]), rounds[1..], p, due))
  }

  ghost function LateIn(s: Sys, rounds: seq<Round>, due: Time): nat
    decreases |rounds|
  {
    if rounds == [] then 0 else
      LateCommits(AfterDispatch(s, rounds[0]), rounds[0].steps, due)
        + LateIn(AfterRound(s, rounds[0]), rounds[1..], due)
  }

  /** A round that passes over a due publication takes a full batch out of the line. */
  lemma RoundShortensLine(s: Sys, r: Round, p: Id, due: Time)
    requires ProperRound(s, r) && Waiting(s, p, due) && p !in r.batch && due <= s.clock
    ensures |Ahead(AfterRound(s, r), p, due)| + 100 <= |Ahead(s, p, due)|
      + LateCommits(AfterDispatch(s, r), r.steps, due)
    ensures s.clock <= AfterRound(s, r).clock
  {
    var d := AfterDispatch(s, r);
    var all, batch := Ahead(s, p, due), Elements(r.batch);
    BatchInLine(s, r, p, due);
    assert d.db == s.db && d.clock == s.clock;
    var late := LineRun(d, r.steps, p, due);
    assert Ahead(d, p, due) == all;
    var end := Ahead(AfterRound(s, r), p, due);
    forall q | q in batch ensures q !in end {
      assert Due(s.db.publications, q, s.clock);
      RunTaskLeavesLine(d, r.steps, q, p, due, s.clock);
    }
    assert end <= (all - batch) + late;
    Shrinks(end, all, batch, late);
  }

  lemma BatchInLine(s: Sys, r: Round, p: Id, due: Time)
    requires ProperRound(s, r) && Waiting(s, p, due) && p !in r.batch && due <= s.clock
    ensures Elements(r.batch) <= Ahead(s, p, due) && |Elements(r.batch)| == BATCH
    ensures forall q :: q in Elements(r.batch) ==> q < |s.db.publications|
  {
    NoDuplicatesCardinality(r.batch);
    assert Due(s.db.publications, p, s.clock);
    forall q | q in Elements(r.batch) ensures q in Ahead(s, p, due) {
      var i :| 0 <= i < |r.batch| && r.batch[i] == q;
      assert Due(s.db.publications, r.batch[i], s.clock);
    }
  }

  lemma Shrinks(end: set<Id>, all: set<Id>, batch: set<Id>, late: set<Id>)
    requires end <= (all - batch) + late && batch <= all
    ensures |end| + |batch| <= |all| + |late|
  {
    assert all == (all - batch) + batch;
    assert |all| == |all - batch| + |batch|;
    SubsetSize(end, (all - batch) + late);
    assert (all - batch) + late == (all - batch) + (late - (all - batch));
    SubsetSize(late - (all - batch), late);
  }

  /**
   * However the rounds interleave with other work, a due publication is passed over at most once for every
   * hundred publications that stood before it or were committed late. With no late commit it is enqueued
   * within floor(m / 100) + 1 rounds, m being the length of the line.
   */
  lemma {:induction false} NoStarvation(s: Sys, rounds: seq<Round>, p: Id, due: Time)
    requires due <= s.clock && PassedOver(s, rounds, p, due)
    ensures 100 * |rounds| <= |Ahead(s, p, due)| + LateIn(s, rounds, due)
    ensures LateIn(s, rounds, due) == 0 ==> |rounds| <= |Ahead(s, p, due)| / 100
    decreases |rounds|
  {
    hide Next, ProperRound, Waiting, Ahead, AfterRound, AfterDispatch;
    if rounds != [] {
      RoundShortensLine(s, rounds[0], p, due);
      NoStarvation(AfterRound(s, rounds[0]), rounds[1..], p, due);
    }
  }
}
