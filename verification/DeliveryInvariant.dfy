/** What every interleaving of the delivery protocol keeps. */
module DeliveryInvariant {
  import opened Types
  import opened PublicationServices
  import opened Machine

  /** The least time from the requested instant to the start of attempt n + 1. */
  function Backoff(n: nat): Time {
    if n == 0 then 0 else Backoff(n - 1) + RetryDelay(n)
  }

  function AttemptBound(maxAttempts: int): nat {
    if maxAttempts < 1 then 1 else maxAttempts
  }

  /** The state that a history of attempts stands for. */
  function StateOf(h: seq<Attempt>): LifecycleState {
    if h == [] then Scheduled else
    match h[|h| - 1].outcome
    case AttemptOpen => Publishing
    case AttemptRetry => Scheduled
    case AttemptPublished => Published
    case AttemptFailed => LifecycleState.Failed
  }

  /** The attempts of a history that have ended. */
  function Closed(h: seq<Attempt>): seq<Attempt> {
    if h != [] && h[|h| - 1].outcome == AttemptOpen then h[..|h| - 1] else h
  }

  function LastError(h: seq<Attempt>): (string, string) {
    var c := Closed(h);
    if c == [] then ("", "") else (c[|c| - 1].errorCode, c[|c| - 1].errorMessage)
  }

  /**
   * The `scheduled_for` that a history stands for: the requested time, or the end of the last retried attempt plus
   * its delay.
   */
  function DueTime(requested: Time, h: seq<Attempt>): Time {
    if h == [] then requested else
    match h[|h| - 1]
    case Attempt(_, _, _, Some(completed), AttemptRetry, _, _) => completed + RetryDelay(|h|)
    case _ => DueTime(requested, h[..|h| - 1])
  }

  /**
   * Attempts are numbered 1..n, all but the last ended in RETRY, and each kept its distance from the requested time.
   */
  ghost predicate HistoryOk(h: seq<Attempt>, maxAttempts: int, requested: Time) {
    && |h| <= AttemptBound(maxAttempts)
    && (forall i :: 0 <= i < |h| ==>
         && h[i].attemptNumber == i + 1
         && (i < |h| - 1 ==> h[i].outcome == AttemptRetry)
         && (h[i].outcome == AttemptRetry ==> i + 1 < maxAttempts)
         && (h[i].outcome == AttemptOpen <==> h[i].completedAt == None)
         && (h[i].completedAt.Some? ==> h[i].startedAt <= h[i].completedAt.value)
         && (h[i].outcome in {AttemptOpen, AttemptPublished} ==> h[i].errorCode == "" && h[i].errorMessage == "")
         && requested + Backoff(i) <= h[i].startedAt)
  }

  /** A publication row is a function of its request and its history, except for the id the provider gave. */
  ghost predicate PublicationOk(p: Publication, h: seq<Attempt>, maxAttempts: int, clock: Time) {
    && HistoryOk(h, maxAttempts, p.fingerprint.scheduledFor)
    && p.state == StateOf(h)
    && p.scheduledFor == DueTime(p.fingerprint.scheduledFor, h)
    && (p.lastErrorCode, p.lastErrorMessage) == LastError(h)
    && (p.state == Published <==> p.providerId != "")
    && (p.state == Scheduled ==> p.fingerprint.scheduledFor + Backoff(|h|) <= p.scheduledFor)
    && (p.state == Publishing ==> h[|h| - 1].startedAt <= clock)
  }

  /** No later attempt of the same publication exists. */
  ghost predicate IsLatest(attempts: seq<Attempt>, a: Id, p: Id) {
    && a < |attempts| && attempts[a].publication == p
    && forall j :: a < j < |attempts| ==> attempts[j].publication != p
  }

  /** A worker between its transactions holds a publication that is PUBLISHING and that publication's latest attempt. */
  ghost predicate WorkerOk(s: Sys, w: Worker) {
    match w
    case Started(_, now) => now <= s.clock
    case Holding(p, a) =>
      && p < |s.db.publications| && s.db.publications[p].state == Publishing
      && IsLatest(s.db.attempts, a, p) && s.db.attempts[a].outcome == AttemptOpen
  }

  ghost predicate PublicationsOk(s: Sys) {
    && (forall p: Id :: p < |s.db.publications| ==>
         PublicationOk(s.db.publications[p], History(s.db.attempts, p), s.maxAttempts, s.clock))
    && (forall p: Id :: p >= |s.db.publications| ==> History(s.db.attempts, p) == [])
  }

  ghost predicate WorkersOk(s: Sys) {
    forall w :: w in s.workers ==> WorkerOk(s, s.workers[w])
  }

  /** A publication is held by at most one worker. */
  ghost predicate Exclusive(workers: map<Id, Worker>) {
    forall v, w :: v in workers && w in workers && workers[v].Holding? && workers[w].Holding? && v != w
      ==> workers[v].publication != workers[w].publication
  }

  ghost predicate DeliveryInv(s: Sys) {
    PublicationsOk(s) && WorkersOk(s) && Exclusive(s.workers)
  }

  lemma HistoryAppend(attempts: seq<Attempt>, x: Attempt, p: Id)
    ensures History(attempts + [x], p) == if x.publication == p then History(attempts, p) + [x]
      else History(attempts, p)
  {
    assert (attempts + [x])[..|attempts|] == attempts;
  }

  /** Rewriting the latest attempt of a publication rewrites the end of its history and no other history. */
  lemma {:induction false} HistoryUpdate(attempts: seq<Attempt>, a: Id, x: Attempt, p: Id)
    requires a < |attempts| && attempts[a].publication == x.publication
    requires p == x.publication ==> IsLatest(attempts, a, p)
    ensures var h := History(attempts, p);
      if p == x.publication then
        h != [] && h[|h| - 1] == attempts[a] && History(attempts[a := x], p) == h[..|h| - 1] + [x]
      else History(attempts[a := x], p) == h
  {
    var n := |attempts| - 1;
    if a == n {
      assert attempts[a := x] == attempts[..n] + [x] && attempts == attempts[..n] + [attempts[n]];
      HistoryAppend(attempts[..n], x, p);
      HistoryAppend(attempts[..n], attempts[n], p);
    } else {
      HistoryUpdate(attempts[..n], a, x, p);
      assert attempts[a := x] == attempts[..n][a := x] + [attempts[n]] && attempts == attempts[..n] + [attempts[n]];
      HistoryAppend(attempts[..n][a := x], attempts[n], p);
      HistoryAppend(attempts[..n], attempts[n], p);
    }
  }

  lemma RowClaimed(p: Publication, h: seq<Attempt>, maxAttempts: int, clock: Time, id: Id, now: Time)
    requires PublicationOk(p, h, maxAttempts, clock) && p.state == Scheduled && p.scheduledFor <= now <= clock
    ensures PublicationOk(p.(state := Publishing),
      h + [Attempt(id, |h| + 1, now, None, AttemptOpen, "", "")], maxAttempts, clock)
  {
    var x := Attempt(id, |h| + 1, now, None, AttemptOpen, "", "");
    var g := h + [x];
    assert Closed(g) == h == Closed(h);
    assert HistoryOk(g, maxAttempts, p.fingerprint.scheduledFor) by {
      HistoryExtended(h, x, maxAttempts, p.fingerprint.scheduledFor);
    }
  }

  lemma HistoryExtended(h: seq<Attempt>, x: Attempt, maxAttempts: int, requested: Time)
    requires HistoryOk(h, maxAttempts, requested) && (h == [] || h[|h| - 1].outcome == AttemptRetry)
    requires x.attemptNumber == |h| + 1 && x.outcome == AttemptOpen && x.completedAt == None
    requires x.errorCode == "" && x.errorMessage == "" && requested + Backoff(|h|) <= x.startedAt
    ensures HistoryOk(h + [x], maxAttempts, requested)
  {
    assert forall i :: 0 <= i < |h| ==> (h + [x])[i] == h[i];
  }

  /** Closing the open attempt of a history. */
  lemma HistoryClosed(h: seq<Attempt>, x: Attempt, maxAttempts: int, requested: Time, clock: Time)
    requires HistoryOk(h, maxAttempts, requested) && h != [] && h[|h| - 1].startedAt <= clock
    requires x == h[|h| - 1].(outcome := x.outcome, errorCode := x.errorCode, errorMessage := x.errorMessage,
      completedAt := Some(clock))
    requires x.outcome == AttemptPublished ==> x.errorCode == "" && x.errorMessage == ""
    requires x.outcome == AttemptRetry ==> |h| < maxAttempts
    requires x.outcome != AttemptOpen
    ensures var g := h[..|h| - 1] + [x];
      && HistoryOk(g, maxAttempts, requested) && Closed(g) == g
      && DueTime(requested, g) ==
           if x.outcome == AttemptRetry then clock + RetryDelay(|h|) else DueTime(requested, h[..|h| - 1])
  {
    hide HistoryOk, RetryDelay, Backoff;
    ClosedHistoryOk(h, x, maxAttempts, requested, clock);
    DueTimeClosed(h[..|h| - 1], x, requested, clock);
  }

  lemma ClosedHistoryOk(h: seq<Attempt>, x: Attempt, maxAttempts: int, requested: Time, clock: Time)
    requires HistoryOk(h, maxAttempts, requested) && h != [] && h[|h| - 1].startedAt <= clock
    requires x == h[|h| - 1].(outcome := x.outcome, errorCode := x.errorCode, errorMessage := x.errorMessage,
      completedAt := Some(clock))
    requires x.outcome == AttemptPublished ==> x.errorCode == "" && x.errorMessage == ""
    requires x.outcome == AttemptRetry ==> |h| < maxAttempts
    requires x.outcome != AttemptOpen
    ensures HistoryOk(h[..|h| - 1] + [x], maxAttempts, requested)
  {
    hide RetryDelay, Backoff;
    var g := h[..|h| - 1] + [x];
    assert forall i :: 0 <= i < |h| - 1 ==> g[i] == h[i];
  }

  lemma DueTimeClosed(earlier: seq<Attempt>, x: Attempt, requested: Time, clock: Time)
    requires x.completedAt == Some(clock)
    ensures DueTime(requested, earlier + [x]) ==
      if x.outcome == AttemptRetry then clock + RetryDelay(|earlier| + 1) else DueTime(requested, earlier)
  {
    hide RetryDelay;
    assert (earlier + [x])[..|earlier|] == earlier;
  }

  /** The row that goes with the history in which `x` closed the open attempt. */
  lemma RowClosed(p: Publication, h: seq<Attempt>, x: Attempt, q: Publication, maxAttempts: int, clock: Time)
    requires PublicationOk(p, h, maxAttempts, clock) && p.state == Publishing
    requires x == h[|h| - 1].(outcome := x.outcome, errorCode := x.errorCode, errorMessage := x.errorMessage,
      completedAt := Some(clock))
    requires x.outcome == AttemptPublished ==> x.errorCode == "" && x.errorMessage == ""
    requires x.outcome == AttemptRetry ==> |h| < maxAttempts
    requires x.outcome != AttemptOpen && q.state == StateOf([x])
    requires q.fingerprint == p.fingerprint && q.lastErrorCode == x.errorCode && q.lastErrorMessage == x.errorMessage
    requires q.scheduledFor == if x.outcome == AttemptRetry then clock + RetryDelay(|h|) else p.scheduledFor
    requires if q.state == Published then q.providerId != "" else q.providerId == p.providerId
    ensures PublicationOk(q, h[..|h| - 1] + [x], maxAttempts, clock)
  {
    HistoryClosed(h, x, maxAttempts, p.fingerprint.scheduledFor, clock);
    LatestNumber(h, maxAttempts, p.fingerprint.scheduledFor);
    hide HistoryOk;
    assert Backoff(|h|) == Backoff(|h| - 1) + RetryDelay(|h|);
  }

  lemma RowSucceeded(p: Publication, h: seq<Attempt>, maxAttempts: int, clock: Time, providerId: Identifier)
    requires PublicationOk(p, h, maxAttempts, clock) && p.state == Publishing
    ensures var x := h[|h| - 1].(outcome := AttemptPublished, completedAt := Some(clock));
      PublicationOk(p.(state := Published, providerId := providerId, lastErrorCode := "", lastErrorMessage := ""),
        h[..|h| - 1] + [x], maxAttempts, clock)
  {
    var x := h[|h| - 1].(outcome := AttemptPublished, completedAt := Some(clock));
    var q := p.(state := Published, providerId := providerId, lastErrorCode := "", lastErrorMessage := "");
    RowClosed(p, h, x, q, maxAttempts, clock);
  }

  lemma RowFailed(p: Publication, h: seq<Attempt>, maxAttempts: int, clock: Time, failure: Failure)
    requires PublicationOk(p, h, maxAttempts, clock) && p.state == Publishing
    ensures var n := h[|h| - 1].attemptNumber;
      var retry := ShouldRetry(failure, n, maxAttempts);
      var x := h[|h| - 1].(outcome := if retry then AttemptRetry else AttemptFailed,
        errorCode := failure.code, errorMessage := failure.message, completedAt := Some(clock));
      var q := p.(state := if retry then Scheduled else LifecycleState.Failed,
        scheduledFor := if retry then clock + RetryDelay(n) else p.scheduledFor,
        lastErrorCode := failure.code, lastErrorMessage := failure.message);
      PublicationOk(q, h[..|h| - 1] + [x], maxAttempts, clock)
  {
    var n := h[|h| - 1].attemptNumber;
    LatestNumber(h, maxAttempts, p.fingerprint.scheduledFor);
    var retry := ShouldRetry(failure, n, maxAttempts);
    var x := h[|h| - 1].(outcome := if retry then AttemptRetry else AttemptFailed,
      errorCode := failure.code, errorMessage := failure.message, completedAt := Some(clock));
    var q := p.(state := if retry then Scheduled else LifecycleState.Failed,
      scheduledFor := if retry then clock + RetryDelay(n) else p.scheduledFor,
      lastErrorCode := failure.code, lastErrorMessage := failure.message);
    RowClosed(p, h, x, q, maxAttempts, clock);
  }

  lemma LatestNumber(h: seq<Attempt>, maxAttempts: int, requested: Time)
    requires HistoryOk(h, maxAttempts, requested) && h != []
    ensures h[|h| - 1].attemptNumber == |h| && requested + Backoff(|h| - 1) <= h[|h| - 1].startedAt
  {
  }

  /** A step that rewrites one publication and its history, and no other. */
  lemma OneRowChanged(s: Sys, t: Sys, p: Id)
    requires PublicationsOk(s) && p < |s.db.publications| == |t.db.publications|
    requires t.clock == s.clock && t.maxAttempts == s.maxAttempts
    requires forall q: Id :: q < |s.db.publications| && q != p ==> t.db.publications[q] == s.db.publications[q]
    requires forall q: Id :: q != p ==> History(t.db.attempts, q) == History(s.db.attempts, q)
    requires PublicationOk(t.db.publications[p], History(t.db.attempts, p), t.maxAttempts, t.clock)
    ensures PublicationsOk(t)
  {
  }

  lemma ClaimKeepsPublications(s: Sys, w: Id, t: Sys)
    requires DeliveryInv(s) && Claims(s, w) && t == Next(s, ClaimTask(w))
    ensures PublicationsOk(t)
  {
    var p, n := s.workers[w].publication, |s.db.attempts|;
    var h := History(s.db.attempts, p);
    forall q: Id ensures History(t.db.attempts, q) ==
      if q == p then h + [Attempt(p, |h| + 1, s.workers[w].now, None, AttemptOpen, "", "")]
        else History(s.db.attempts, q)
    {
      HistoryAppend(s.db.attempts, t.db.attempts[n], q);
    }
    assert WorkerOk(s, s.workers[w]);
    RowClaimed(s.db.publications[p], h, s.maxAttempts, s.clock, p, s.workers[w].now);
    OneRowChanged(s, t, p);
  }

  lemma ClaimKeepsWorkers(s: Sys, w: Id, t: Sys)
    requires DeliveryInv(s) && Claims(s, w) && t == Next(s, ClaimTask(w))
    ensures WorkersOk(t) && Exclusive(t.workers)
  {
    hide PublicationsOk, History;
    forall v | v in t.workers ensures WorkerOk(t, t.workers[v]) {
      if v != w { assert WorkerOk(s, s.workers[v]); }
    }
    forall v | v in s.workers && s.workers[v].Holding? ensures s.workers[v].publication != s.workers[w].publication {
      assert WorkerOk(s, s.workers[v]);
    }
  }

  /**
   * The unchecked writes of a finishing worker find PUBLISHING and their own attempt open, the latest of its
   * publication.
   */
  lemma FinishFindsItsOwn(s: Sys, w: Id)
    requires DeliveryInv(s) && w in s.workers && s.workers[w].Holding?
    ensures Holds(s, w)
    ensures var p, a, h := s.workers[w].publication, s.workers[w].attempt,
      History(s.db.attempts, s.workers[w].publication);
      && s.db.publications[p].state == Publishing && s.db.attempts[a].publication == p
      && s.db.attempts[a].outcome == AttemptOpen && s.db.attempts[a].completedAt == None
      && h != [] && h[|h| - 1] == s.db.attempts[a] && s.db.attempts[a].attemptNumber == |h|
  {
    var p, a := s.workers[w].publication, s.workers[w].attempt;
    assert WorkerOk(s, s.workers[w]);
    HistoryUpdate(s.db.attempts, a, s.db.attempts[a], p);
  }

  /** A finish rewrites the end of one history. */
  lemma FinishHistories(s: Sys, w: Id, step: Step, t: Sys)
    requires DeliveryInv(s) && w in s.workers && s.workers[w].Holding? && t == Next(s, step)
    requires (step.FinishOk? || step.FinishError?) && step.worker == w
    ensures Holds(s, w) && |t.db.attempts| == |s.db.attempts|
    ensures var p, x := s.workers[w].publication, t.db.attempts[s.workers[w].attempt];
      var h := History(s.db.attempts, p);
      && h != [] && h[|h| - 1] == s.db.attempts[s.workers[w].attempt]
      && forall q: Id :: History(t.db.attempts, q) == if q == p then h[..|h| - 1] + [x] else History(s.db.attempts, q)
  {
    hide PublicationsOk, Exclusive, History, RetryDelay;
    FinishFindsItsOwn(s, w);
    var p, a := s.workers[w].publication, s.workers[w].attempt;
    var h, x := History(s.db.attempts, p), t.db.attempts[a];
    assert WorkerOk(s, s.workers[w]);
    assert t.db.attempts == s.db.attempts[a := x];
    forall q: Id ensures History(t.db.attempts, q) == if q == p then h[..|h| - 1] + [x] else History(s.db.attempts, q) {
      HistoryUpdate(s.db.attempts, a, x, q);
    }
  }

  lemma FinishKeepsPublications(s: Sys, w: Id, step: Step, t: Sys)
    requires DeliveryInv(s) && w in s.workers && s.workers[w].Holding? && t == Next(s, step)
    requires (step.FinishOk? || step.FinishError?) && step.worker == w
    ensures PublicationsOk(t)
  {
    hide PublicationOk, WorkersOk, Exclusive, History;
    FinishFindsItsOwn(s, w);
    FinishHistories(s, w, step, t);
    var p := s.workers[w].publication;
    var h := History(s.db.attempts, p);
    if step.FinishOk? {
      RowSucceeded(s.db.publications[p], h, s.maxAttempts, s.clock, step.providerId);
    } else {
      RowFailed(s.db.publications[p], h, s.maxAttempts, s.clock, step.failure);
    }
    OneRowChanged(s, t, p);
  }

  lemma FinishKeepsWorkers(s: Sys, w: Id, step: Step, t: Sys)
    requires DeliveryInv(s) && w in s.workers && s.workers[w].Holding? && t == Next(s, step)
    requires (step.FinishOk? || step.FinishError?) && step.worker == w
    ensures WorkersOk(t) && Exclusive(t.workers)
  {
    FinishFindsItsOwn(s, w);
    var p, a := s.workers[w].publication, s.workers[w].attempt;
    assert t.db.attempts == s.db.attempts[a := t.db.attempts[a]] && t.db.attempts[a].publication == p;
    forall v | v in t.workers ensures WorkerOk(t, t.workers[v]) {
      assert WorkerOk(s, s.workers[v]);
    }
  }

  lemma NewRowOk(p: Publication, maxAttempts: int, clock: Time)
    requires p.state == Scheduled && p.scheduledFor == p.fingerprint.scheduledFor
    requires p.providerId == p.lastErrorCode == p.lastErrorMessage == ""
    ensures PublicationOk(p, [], maxAttempts, clock)
  {
  }

  /** A new publication is SCHEDULED at the requested time and has no attempt. */
  lemma ScheduleKeeps(s: Sys, k: Id, t: Sys)
    requires DeliveryInv(s) && t == Next(s, ScheduleCommit(k))
    ensures DeliveryInv(t)
  {
    hide History, PublicationOk;
    assert t.workers == s.workers && t.db.attempts == s.db.attempts;
    forall v | v in t.workers ensures WorkerOk(t, t.workers[v]) {
      assert WorkerOk(s, s.workers[v]);
    }
    var n := |s.db.publications|;
    if t.db.publications != s.db.publications {
      NewRowOk(t.db.publications[n], t.maxAttempts, t.clock);
    }
  }

  /** Steps that touch neither the publications nor their attempts. */
  lemma FrameKeeps(s: Sys, step: Step)
    requires DeliveryInv(s)
    requires var t := Next(s, step);
      && t.db.publications == s.db.publications && t.db.attempts == s.db.attempts
      && forall w :: w in t.workers && (w !in s.workers || t.workers[w] != s.workers[w]) ==>
           t.workers[w] == Started(t.workers[w].publication, s.clock)
    ensures DeliveryInv(Next(s, step))
  {
    var t := Next(s, step);
    forall w | w in t.workers ensures WorkerOk(t, t.workers[w]) {
      if w in s.workers { assert WorkerOk(s, s.workers[w]); }
    }
  }

  lemma OtherStepsFrame(s: Sys, step: Step)
    requires !(step.ClaimTask? || step.FinishOk? || step.FinishError? || step.ScheduleCommit?)
    ensures NextDb(s, step).publications == s.db.publications && NextDb(s, step).attempts == s.db.attempts
  {
  }

  lemma WorkerStepKeeps(s: Sys, step: Step, w: Id)
    requires DeliveryInv(s) && (step.ClaimTask? || step.FinishOk? || step.FinishError?) && step.worker == w
    ensures DeliveryInv(Next(s, step))
  {
    var t := Next(s, step);
    if step.ClaimTask? && Claims(s, w) {
      ClaimKeepsPublications(s, w, t);
      ClaimKeepsWorkers(s, w, t);
    } else if !step.ClaimTask? && w in s.workers && s.workers[w].Holding? {
      FinishKeepsPublications(s, w, step, t);
      FinishKeepsWorkers(s, w, step, t);
    } else {
      FrameKeeps(s, step);
    }
  }

  /** Every step of every interleaving keeps the delivery protocol's invariant. */
  lemma DeliveryStep(s: Sys, step: Step)
    requires DeliveryInv(s)
    ensures DeliveryInv(Next(s, step))
  {
    hide DeliveryInv;
    if step.ClaimTask? || step.FinishOk? || step.FinishError? {
      WorkerStepKeeps(s, step, step.worker);
    } else if step.ScheduleCommit? {
      ScheduleKeeps(s, step.session, Next(s, step));
    } else {
      OtherStepsFrame(s, step);
      FrameKeeps(s, step);
    }
  }
}
