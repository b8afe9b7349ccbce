/** Safety, termination and timing of delivery over whole runs. */
module DeliveryTheorems {
  import opened Types
  import opened PublicationServices
  import opened Machine
  import opened DeliveryInvariant

  lemma {:induction false} DeliveryRun(s: Sys, steps: seq<Step>)
    requires DeliveryInv(s)
    ensures DeliveryInv(Run(s, steps))
    decreases |steps|
  {
    hide Next, DeliveryInv;
    if steps != [] {
      DeliveryStep(s, steps[0]);
      DeliveryRun(Next(s, steps[0]), steps[1..]);
    }
  }

  lemma DeliveryAlways(s: Sys, steps: seq<Step>)
    requires Initial(s)
    ensures DeliveryInv(Run(s, steps))
  {
    DeliveryRun(s, steps);
  }

  /** Every attempt row stands in the history of its publication, and only the latest stands at the end. */
  lemma {:induction false} InHistory(attempts: seq<Attempt>, a: Id) returns (k: nat)
    requires a < |attempts|
    ensures var h := History(attempts, attempts[a].publication);
      k < |h| && h[k] == attempts[a] && (k == |h| - 1 <==> IsLatest(attempts, a, attempts[a].publication))
  {
    var n, p := |attempts| - 1, attempts[a].publication;
    assert attempts == attempts[..n] + [attempts[n]];
    HistoryAppend(attempts[..n], attempts[n], p);
    if a == n {
      k := |History(attempts, p)| - 1;
    } else {
      k := InHistory(attempts[..n], a);
      if attempts[n].publication != p {
        assert IsLatest(attempts[..n], a, p) <==> IsLatest(attempts, a, p);
      }
    }
  }

  lemma {:induction false} HistoryHasLatest(attempts: seq<Attempt>, p: Id) returns (a: Id)
    requires History(attempts, p) != []
    ensures IsLatest(attempts, a, p) && History(attempts, p)[|History(attempts, p)| - 1] == attempts[a]
  {
    var n := |attempts| - 1;
    if attempts[n].publication == p {
      a := n;
    } else {
      a := HistoryHasLatest(attempts[..n], p);
      assert attempts[..n][a] == attempts[a];
    }
  }

  /**
   * In every reachable state the attempts of a publication are numbered 1..n with outcomes RETRY, ..., RETRY and then
   * one of open, RETRY, PUBLISHED and FAILED; with the requested time they determine its state, `scheduled_for`
   * and its error fields, which are those of the latest attempt that has ended. It has a provider's identifier
   * exactly when it is PUBLISHED.
   */
  lemma RowIsItsHistory(s: Sys, steps: seq<Step>, p: Id)
    requires Initial(s) && p < |Run(s, steps).db.publications|
    ensures var e := Run(s, steps);
      var row, h := e.db.publications[p], History(e.db.attempts, p);
      && row.state == StateOf(h)
      && row.scheduledFor == DueTime(row.fingerprint.scheduledFor, h)
      && (row.lastErrorCode, row.lastErrorMessage) == LastError(h)
      && (forall i :: 0 <= i < |h| ==> h[i].attemptNumber == i + 1 && (i < |h| - 1 ==> h[i].outcome == AttemptRetry))
      && (row.state == Published <==> row.providerId != "")
  {
    DeliveryAlways(s, steps);
    var e := Run(s, steps);
    assert PublicationOk(e.db.publications[p], History(e.db.attempts, p), e.maxAttempts, e.clock);
  }

  ghost predicate IsOpen(s: Sys, a: Id, p: Id) {
    a < |s.db.attempts| && s.db.attempts[a].publication == p && s.db.attempts[a].outcome == AttemptOpen
  }

  ghost predicate HoldsIt(s: Sys, w: Id, p: Id) {
    w in s.workers && s.workers[w].Holding? && s.workers[w].publication == p
  }

  /**
   * In every reachable state a publication is PUBLISHING exactly when it has an open attempt, it never has two,
   * and at most one worker holds it; that worker holds the open attempt.
   */
  lemma ClaimExclusivity(s: Sys, p: Id)
    requires DeliveryInv(s) && p < |s.db.publications|
    ensures s.db.publications[p].state == Publishing <==> exists a :: IsOpen(s, a, p)
    ensures forall a, b :: IsOpen(s, a, p) && IsOpen(s, b, p) ==> a == b
    ensures forall v, w :: HoldsIt(s, v, p) && HoldsIt(s, w, p) ==> v == w
    ensures forall w :: HoldsIt(s, w, p) ==> IsOpen(s, s.workers[w].attempt, p)
  {
    var h := History(s.db.attempts, p);
    assert PublicationOk(s.db.publications[p], h, s.maxAttempts, s.clock);
    forall a | IsOpen(s, a, p) ensures IsLatest(s.db.attempts, a, p) && StateOf(h) == Publishing {
      var k := InHistory(s.db.attempts, a);
      assert h[k].outcome == AttemptOpen;
    }
    if s.db.publications[p].state == Publishing {
      var a := HistoryHasLatest(s.db.attempts, p);
      assert IsOpen(s, a, p);
    }
    forall w | HoldsIt(s, w, p) ensures IsOpen(s, s.workers[w].attempt, p) {
      assert WorkerOk(s, s.workers[w]);
    }
  }

  /** Only the claim or the finish of its own worker changes a publication that exists. */
  ghost predicate Unchanged(s: Sys, t: Sys, p: Id) {
    && p < |s.db.publications| && p < |t.db.publications|
    && t.db.publications[p] == s.db.publications[p]
    && History(t.db.attempts, p) == History(s.db.attempts, p)
  }

  ghost predicate ClaimedBy(s: Sys, t: Sys, p: Id, w: Id) {
    && p < |s.db.publications| && p < |t.db.publications|
    && Claims(s, w) && s.workers[w].publication == p && t.db.publications[p].state == Publishing
    && |History(t.db.attempts, p)| == |History(s.db.attempts, p)| + 1
  }

  ghost predicate FinishedBy(s: Sys, t: Sys, p: Id, w: Id) {
    && p < |s.db.publications| && p < |t.db.publications|
    && Holds(s, w) && s.workers[w].publication == p && s.db.publications[p].state == Publishing
    && t.db.publications[p].state in {Scheduled, Published, LifecycleState.Failed}
    && |History(t.db.attempts, p)| == |History(s.db.attempts, p)|
  }

  lemma ChangedByItsWorker(s: Sys, step: Step, p: Id)
    requires DeliveryInv(s) && p < |s.db.publications|
    ensures var t := Next(s, step);
      || Unchanged(s, t, p)
      || (step.ClaimTask? && ClaimedBy(s, t, p, step.worker))
      || ((step.FinishOk? || step.FinishError?) && FinishedBy(s, t, p, step.worker))
  {
    hide Next, DeliveryInv, Unchanged, ClaimedBy, FinishedBy;
    if step.ClaimTask? && Claims(s, step.worker) {
      ChangedByClaim(s, step, p);
    } else if (step.FinishOk? || step.FinishError?) && step.worker in s.workers && s.workers[step.worker].Holding? {
      ChangedByFinish(s, step, p);
    } else {
      UnchangedOtherwise(s, step, p);
    }
  }

  lemma ChangedByClaim(s: Sys, step: Step, p: Id)
    requires p < |s.db.publications| && step.ClaimTask? && Claims(s, step.worker)
    ensures Unchanged(s, Next(s, step), p) || ClaimedBy(s, Next(s, step), p, step.worker)
  {
    var t := Next(s, step);
    HistoryAppend(s.db.attempts, t.db.attempts[|s.db.attempts|], p);
  }

  lemma ChangedByFinish(s: Sys, step: Step, p: Id)
    requires DeliveryInv(s) && p < |s.db.publications| && (step.FinishOk? || step.FinishError?)
    requires step.worker in s.workers && s.workers[step.worker].Holding?
    ensures Unchanged(s, Next(s, step), p) || FinishedBy(s, Next(s, step), p, step.worker)
  {
    hide DeliveryInv, History;
    FinishFindsItsOwn(s, step.worker);
    FinishHistories(s, step.worker, step, Next(s, step));
  }

  lemma UnchangedOtherwise(s: Sys, step: Step, p: Id)
    requires p < |s.db.publications|
    requires step.ClaimTask? ==> !Claims(s, step.worker)
    requires step.FinishOk? || step.FinishError? ==> !(step.worker in s.workers && s.workers[step.worker].Holding?)
    ensures Unchanged(s, Next(s, step), p)
  {
    if !(step.ClaimTask? || step.FinishOk? || step.FinishError? || step.ScheduleCommit?) {
      OtherStepsFrame(s, step);
    }
  }

  /**
   * How a delivery ends for its publication: a failure is final exactly when it is permanent or the attempts have
   * reached the setting; otherwise the publication is due again after the delay of its attempt.
   */
  lemma FinishDecides(s: Sys, step: Step)
    requires DeliveryInv(s) && (step.FinishOk? || step.FinishError?)
    requires step.worker in s.workers && s.workers[step.worker].Holding?
    ensures var p, t := s.workers[step.worker].publication, Next(s, step);
      var n := |History(s.db.attempts, p)|;
      && p < |t.db.publications| && n >= 1
      && var row := t.db.publications[p];
         match step
         case FinishOk(_, id) =>
           row.state == Published && row.providerId == id && row.lastErrorCode == row.lastErrorMessage == ""
         case FinishError(_, failure) =>
           && row.lastErrorCode == failure.code && row.lastErrorMessage == failure.message
           && (row.state == LifecycleState.Failed <==> !failure.transient || n >= s.maxAttempts)
           && (row.state == Scheduled <==> failure.transient && n < s.maxAttempts)
           && (row.state == Scheduled ==> row.scheduledFor == s.clock + RetryDelay(n))
           && (row.state != Scheduled ==> row.scheduledFor == s.db.publications[p].scheduledFor)
         case _ => true
  {
    hide DeliveryInv, History;
    FinishFindsItsOwn(s, step.worker);
  }

  /** A publication that is PUBLISHED or FAILED never changes again, whatever tasks are still queued for it. */
  lemma {:induction false} EndedForever(s: Sys, steps: seq<Step>, p: Id)
    requires DeliveryInv(s) && p < |s.db.publications|
    requires s.db.publications[p].state in {Published, LifecycleState.Failed}
    ensures Unchanged(s, Run(s, steps), p)
    decreases |steps|
  {
    hide Next, DeliveryInv;
    if steps != [] {
      DeliveryStep(s, steps[0]);
      EndedStays(s, steps[0], p);
      EndedForever(Next(s, steps[0]), steps[1..], p);
    }
  }

  lemma EndedStays(s: Sys, step: Step, p: Id)
    requires DeliveryInv(s) && p < |s.db.publications|
    requires s.db.publications[p].state in {Published, LifecycleState.Failed}
    ensures Unchanged(s, Next(s, step), p)
  {
    hide DeliveryInv, NextDb;
    ChangedByItsWorker(s, step, p);
  }

  /** PUBLISHING with no worker: what a crash between the two transactions leaves. */
  ghost predicate Orphaned(s: Sys, p: Id) {
    && p < |s.db.publications| && s.db.publications[p].state == Publishing
    && forall w :: w in s.workers ==> !HoldsIt(s, w, p)
  }

  lemma OrphanStep(s: Sys, step: Step, p: Id)
    requires DeliveryInv(s) && Orphaned(s, p)
    ensures Unchanged(s, Next(s, step), p) && Orphaned(Next(s, step), p)
  {
    hide DeliveryInv, NextDb;
    ChangedByItsWorker(s, step, p);
  }

  /** A crashed publication is never claimed, retried or finished again, whatever runs afterwards. */
  lemma {:induction false} CrashedForever(s: Sys, steps: seq<Step>, p: Id)
    requires DeliveryInv(s) && Orphaned(s, p)
    ensures Unchanged(s, Run(s, steps), p) && Orphaned(Run(s, steps), p)
    decreases |steps|
  {
    hide Next, DeliveryInv;
    if steps != [] {
      DeliveryStep(s, steps[0]);
      OrphanStep(s, steps[0], p);
      CrashedForever(Next(s, steps[0]), steps[1..], p);
    }
  }

  /** A worker that crashes while it holds a publication orphans it. */
  lemma CrashOrphans(s: Sys, w: Id)
    requires DeliveryInv(s) && w in s.workers && s.workers[w].Holding?
    ensures Orphaned(Next(s, CrashWorker(w)), s.workers[w].publication)
  {
    assert WorkerOk(s, s.workers[w]);
  }

  /** How many more changes a publication can still see. */
  ghost function Rank(s: Sys, p: Id): nat
    requires DeliveryInv(s)
  {
    var bound := AttemptBound(s.maxAttempts);
    if p >= |s.db.publications| then 2 * bound else
    var n := |History(s.db.attempts, p)|;
    assert PublicationOk(s.db.publications[p], History(s.db.attempts, p), s.maxAttempts, s.clock);
    match s.db.publications[p].state
    case Scheduled => 2 * (bound - n)
    case Publishing => 2 * (bound - n) + 1
    case _ => 0
  }

  /** A step leaves a publication alone or lowers its rank; creating it does not raise the rank. */
  lemma RankFalls(s: Sys, step: Step, p: Id)
    requires DeliveryInv(s) && DeliveryInv(Next(s, step))
    ensures p < |s.db.publications| ==> Unchanged(s, Next(s, step), p) || Rank(Next(s, step), p) < Rank(s, p)
    ensures Rank(Next(s, step), p) <= Rank(s, p)
  {
    hide DeliveryInv, NextDb, Rank;
    var t := Next(s, step);
    RankBound(t, p);
    if p < |s.db.publications| {
      ChangedByItsWorker(s, step, p);
      RankOfChange(s, t, p);
    } else {
      RankOfNew(s, p);
    }
  }

  lemma RankOfNew(s: Sys, p: Id)
    requires DeliveryInv(s) && p >= |s.db.publications|
    ensures Rank(s, p) == 2 * AttemptBound(s.maxAttempts)
  {
  }

  lemma RankOfChange(s: Sys, t: Sys, p: Id)
    requires DeliveryInv(s) && DeliveryInv(t) && p < |s.db.publications| && p < |t.db.publications|
    requires t.maxAttempts == s.maxAttempts
    requires Unchanged(s, t, p) || (exists w :: ClaimedBy(s, t, p, w)) || exists w :: FinishedBy(s, t, p, w)
    ensures if Unchanged(s, t, p) then Rank(t, p) == Rank(s, p) else Rank(t, p) < Rank(s, p)
  {
    assert PublicationOk(t.db.publications[p], History(t.db.attempts, p), t.maxAttempts, t.clock);
    hide DeliveryInv, PublicationOk;
  }

  /** The steps of a run that change a publication that exists. */
  ghost function Changes(s: Sys, steps: seq<Step>, p: Id): nat
    decreases |steps|
  {
    if steps == [] then 0 else
      var t := Next(s, steps[0]);
      Changes(t, steps[1..], p) + if p < |s.db.publications| && !Unchanged(s, t, p) then 1 else 0
  }

  /**
   * However many duplicate tasks are queued, a run changes a publication at most as often as its rank falls:
   * at most 2M times in its life, with at most M attempts, where M is the larger of the setting and one.
   */
  lemma {:induction false} DeliveryTerminates(s: Sys, steps: seq<Step>, p: Id)
    requires DeliveryInv(s)
    ensures DeliveryInv(Run(s, steps))
    ensures Changes(s, steps, p) + Rank(Run(s, steps), p) <= Rank(s, p) <= 2 * AttemptBound(s.maxAttempts)
    ensures p < |Run(s, steps).db.publications| ==>
      |History(Run(s, steps).db.attempts, p)| <= AttemptBound(Run(s, steps).maxAttempts)
    decreases |steps|
  {
    DeliveryRun(s, steps);
    var e := Run(s, steps);
    assert p < |e.db.publications| ==>
      PublicationOk(e.db.publications[p], History(e.db.attempts, p), e.maxAttempts, e.clock);
    RankBound(s, p);
    if steps != [] {
      TerminatesStep(s, steps, p);
    }
  }

  lemma RankBound(s: Sys, p: Id)
    requires DeliveryInv(s)
    ensures Rank(s, p) <= 2 * AttemptBound(s.maxAttempts)
  {
    if p < |s.db.publications| {
      assert PublicationOk(s.db.publications[p], History(s.db.attempts, p), s.maxAttempts, s.clock);
    }
  }

  lemma TerminatesStep(s: Sys, steps: seq<Step>, p: Id)
    requires DeliveryInv(s) && steps != [] && DeliveryInv(Run(s, steps))
    ensures Changes(s, steps, p) + Rank(Run(s, steps), p) <= Rank(s, p)
    decreases |steps|, 0
  {
    hide Next, DeliveryInv, Rank, Unchanged;
    DeliveryStep(s, steps[0]);
    RankFalls(s, steps[0], p);
    DeliveryTerminates(Next(s, steps[0]), steps[1..], p);
  }

  /** The sum of the delays in closed form: doubling minutes for four attempts, then half an hour each. */
  lemma {:induction false} BackoffClosedForm(n: nat)
    ensures n <= 4 ==> Backoff(n) == MINUTE * (Pow2(n + 1) - 2)
    ensures n >= 4 ==> Backoff(n) == MINUTE * 30 * (n - 3)
  {
    if n > 0 {
      BackoffClosedForm(n - 1);
      Pow2Large(n);
    }
    assert Pow2(1) == 2 && Pow2(2) == 4 && Pow2(3) == 8 && Pow2(4) == 16 && Pow2(5) == 32;
  }

  /**
   * Attempt n + 1 of a publication never starts before the instant that was requested when it was scheduled
   * plus the first n delays, although each retry overwrites `scheduled_for`.
   */
  lemma AttemptsKeepTheirDistance(s: Sys, a: Id)
    requires DeliveryInv(s) && a < |s.db.attempts|
    ensures var x := s.db.attempts[a];
      && x.publication < |s.db.publications| && x.attemptNumber >= 1
      && s.db.publications[x.publication].fingerprint.scheduledFor + Backoff(x.attemptNumber - 1) <= x.startedAt
  {
    var k := InHistory(s.db.attempts, a);
    var p := s.db.attempts[a].publication;
    assert p < |s.db.publications|;
    assert PublicationOk(s.db.publications[p], History(s.db.attempts, p), s.maxAttempts, s.clock);
  }
}
