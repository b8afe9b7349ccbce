/** The audit log: each publication's rows retell its attempts, and each row belongs to the owner of its subject. */
module AuditInvariant {
  import opened Types
  import opened PublicationServices
  import opened Machine
  import opened Growth
  import opened DeliveryInvariant
  import opened EditorialInvariant
  import opened ContentInvariant

  predicate About(e: Event, p: Id) {
    match e
    case PublicationScheduled(q) => q == p
    case PublicationPublished(q, _) => q == p
    case PublicationRetryScheduled(q, _, _) => q == p
    case PublicationFailed(q, _, _) => q == p
    case _ => false
  }

  /** The events of one publication, in commit order. */
  function EventsOf(log: seq<AuditLog>, p: Id): seq<Event> {
    if log == [] then [] else
      var earlier, e := EventsOf(log[..|log| - 1], p), log[|log| - 1].event;
      if About(e, p) then earlier + [e] else earlier
  }

  lemma EventsAppend(log: seq<AuditLog>, row: AuditLog, p: Id)
    ensures EventsOf(log + [row], p) == if About(row.event, p) then EventsOf(log, p) + [row.event] else EventsOf(log, p)
  {
    assert (log + [row])[..|log|] == log;
  }

  /** The event that reports how an attempt ended. */
  function EventOf(p: Id, x: Attempt): Event {
    match x.outcome
    case AttemptPublished => PublicationPublished(p, x.attemptNumber)
    case AttemptRetry => PublicationRetryScheduled(p, x.attemptNumber, x.errorCode)
    case _ => PublicationFailed(p, x.attemptNumber, x.errorCode)
  }

  function Reports(p: Id, closed: seq<Attempt>): seq<Event> {
    if closed == [] then [] else Reports(p, closed[..|closed| - 1]) + [EventOf(p, closed[|closed| - 1])]
  }

  lemma {:induction false} ReportsAt(p: Id, closed: seq<Attempt>)
    ensures |Reports(p, closed)| == |closed|
    ensures forall k :: 0 <= k < |closed| ==> Reports(p, closed)[k] == EventOf(p, closed[k])
  {
    if closed != [] {
      ReportsAt(p, closed[..|closed| - 1]);
    }
  }

  /** A publication's events: it was scheduled, and then one report for each attempt that ended, in attempt order. */
  ghost predicate EventsOk(s: Sys) {
    && (forall p: Id :: p < |s.db.publications| ==>
         EventsOf(s.db.log, p) == [PublicationScheduled(p)] + Reports(p, Closed(History(s.db.attempts, p))))
    && (forall p: Id :: p >= |s.db.publications| ==> EventsOf(s.db.log, p) == [])
  }

  /** Steps that add at most one audit row, about no publication. */
  ghost predicate SilentOnPublications(a: Db, b: Db) {
    b.log == a.log || (|b.log| == |a.log| + 1 && b.log == a.log + [b.log[|a.log|]] && forall p: Id ::
      !About(b.log[|a.log|].event, p))
  }

  lemma OtherStepsSilent(s: Sys, step: Step)
    requires !(step.FinishOk? || step.FinishError? || step.ScheduleCommit?)
    ensures SilentOnPublications(s.db, NextDb(s, step))
  {
  }

  lemma SilenceKeeps(s: Sys, t: Sys)
    requires EventsOk(s) && SilentOnPublications(s.db, t.db) && |t.db.publications| == |s.db.publications|
    requires forall p: Id :: p < |s.db.publications| ==>
      Closed(History(t.db.attempts, p)) == Closed(History(s.db.attempts, p))
    ensures EventsOk(t)
  {
    if t.db.log != s.db.log {
      forall p: Id ensures EventsOf(t.db.log, p) == EventsOf(s.db.log, p) {
        EventsAppend(s.db.log, t.db.log[|s.db.log|], p);
      }
    }
  }

  lemma OpeningClosesNothing(h: seq<Attempt>, x: Attempt)
    requires x.outcome == AttemptOpen && (h != [] ==> h[|h| - 1].outcome != AttemptOpen)
    ensures Closed(h + [x]) == Closed(h)
  {
    assert (h + [x])[..|h|] == h;
  }

  lemma LastIsClosed(s: Sys, p: Id)
    requires DeliveryInv(s) && p < |s.db.publications| && s.db.publications[p].state == Scheduled
    ensures var h := History(s.db.attempts, p); h != [] ==> h[|h| - 1].outcome != AttemptOpen
  {
    assert PublicationOk(s.db.publications[p], History(s.db.attempts, p), s.maxAttempts, s.clock);
  }

  /** Opening an attempt closes none. */
  lemma ClaimClosesNothing(s: Sys, w: Id, p: Id)
    requires DeliveryInv(s) && Claims(s, w) && p < |s.db.publications|
    ensures Closed(History(Next(s, ClaimTask(w)).db.attempts, p)) == Closed(History(s.db.attempts, p))
  {
    hide DeliveryInv, Closed, History;
    var n := |s.db.attempts|;
    var x := Next(s, ClaimTask(w)).db.attempts[n];
    assert Next(s, ClaimTask(w)).db.attempts == s.db.attempts + [x];
    HistoryAppend(s.db.attempts, x, p);
    if x.publication == p {
      LastIsClosed(s, p);
      OpeningClosesNothing(History(s.db.attempts, p), x);
    }
  }

  lemma ReplacingLastCloses(h: seq<Attempt>, x: Attempt, p: Id)
    requires h != [] && h[|h| - 1].outcome == AttemptOpen && x.outcome != AttemptOpen
    ensures Reports(p, Closed(h[..|h| - 1] + [x])) == Reports(p, Closed(h)) + [EventOf(p, x)]
  {
    assert (h[..|h| - 1] + [x])[..|h| - 1] == h[..|h| - 1];
  }

  lemma FinishRow(s: Sys, w: Id, step: Step)
    requires Holds(s, w) && (step.FinishOk? || step.FinishError?) && step.worker == w
    ensures var t, p := Next(s, step), s.workers[w].publication;
      && |t.db.attempts| == |s.db.attempts| && |t.db.log| == |s.db.log| + 1
      && |t.db.publications| == |s.db.publications|
      && t.db.log == s.db.log + [t.db.log[|s.db.log|]]
      && t.db.log[|s.db.log|].event == EventOf(p, t.db.attempts[s.workers[w].attempt])
      && t.db.attempts[s.workers[w].attempt].outcome != AttemptOpen
  {
  }

  /** A finish closes the held attempt and reports exactly that. */
  lemma FinishReports(s: Sys, w: Id, step: Step)
    requires DeliveryInv(s) && EventsOk(s) && w in s.workers && s.workers[w].Holding?
    requires (step.FinishOk? || step.FinishError?) && step.worker == w
    ensures EventsOk(Next(s, step))
  {
    hide DeliveryInv, Next, Reports, Closed;
    var t := Next(s, step);
    FinishFindsItsOwn(s, w);
    FinishHistories(s, w, step, t);
    FinishRow(s, w, step);
    var p, a := s.workers[w].publication, s.workers[w].attempt;
    var h, x := History(s.db.attempts, p), t.db.attempts[a];
    forall q: Id ensures EventsOf(t.db.log, q) == if q == p then EventsOf(s.db.log, q) + [EventOf(p, x)]
      else EventsOf(s.db.log, q) {
      EventsAppend(s.db.log, t.db.log[|s.db.log|], q);
    }
    ReplacingLastCloses(h, x, p);
  }

  lemma ScheduleReports(s: Sys, k: Id)
    requires DeliveryInv(s) && EventsOk(s)
    ensures EventsOk(Next(s, ScheduleCommit(k)))
  {
    hide DeliveryInv, History, Reports, EventsOf;
    var t := Next(s, ScheduleCommit(k));
    if t.db != s.db {
      var n, row := |s.db.publications|, t.db.log[|s.db.log|];
      assert t.db.log == s.db.log + [row] && row.event == PublicationScheduled(n);
      forall q: Id ensures EventsOf(t.db.log, q) == if q == n then EventsOf(s.db.log, q) + [row.event]
        else EventsOf(s.db.log, q) {
        EventsAppend(s.db.log, row, q);
      }
      assert t.db.attempts == s.db.attempts;
      NoReports(s, n);
    }
  }

  lemma NoReports(s: Sys, p: Id)
    requires DeliveryInv(s) && p >= |s.db.publications|
    ensures Reports(p, Closed(History(s.db.attempts, p))) == []
  {
  }

  lemma EventsStep(s: Sys, step: Step)
    requires DeliveryInv(s) && EventsOk(s)
    ensures EventsOk(Next(s, step))
  {
    hide DeliveryInv, EventsOk, Closed, SilentOnPublications;
    if (step.FinishOk? || step.FinishError?) && Holds(s, step.worker) {
      FinishReports(s, step.worker, step);
    } else if step.FinishOk? || step.FinishError? {
      assert NextDb(s, step) == s.db;
      SameDb(s, Next(s, step));
    } else if step.ScheduleCommit? {
      ScheduleReports(s, step.session);
    } else {
      OtherStepsSilent(s, step);
      if step.ClaimTask? && Claims(s, step.worker) {
        forall p: Id | p < |s.db.publications|
          ensures Closed(History(Next(s, step).db.attempts, p)) == Closed(History(s.db.attempts, p))
        {
          ClaimClosesNothing(s, step.worker, p);
        }
      } else if !step.ClaimTask? {
        OtherStepsFrame(s, step);
      }
      SilenceKeeps(s, Next(s, step));
    }
  }

  lemma SameDb(s: Sys, t: Sys)
    requires EventsOk(s) && t.db == s.db
    ensures EventsOk(t)
  {
  }

  /** Replaying events: nothing told yet, in a state, or told something that cannot follow. */
  datatype Replay = Fresh | At(state: LifecycleState) | Stuck

  /** A publication is scheduled once; from SCHEDULED it is retried, published or failed. */
  function Move(r: Replay, e: Event): Replay {
    match e
    case PublicationScheduled(_) => if r == Fresh then At(Scheduled) else Stuck
    case PublicationRetryScheduled(_, _, _) => if r == At(Scheduled) then At(Scheduled) else Stuck
    case PublicationPublished(_, _) => if r == At(Scheduled) then At(Published) else Stuck
    case PublicationFailed(_, _, _) => if r == At(Scheduled) then At(LifecycleState.Failed) else Stuck
    case _ => Stuck
  }

  function ReplayEvents(events: seq<Event>): Replay {
    if events == [] then Fresh else Move(ReplayEvents(events[..|events| - 1]), events[|events| - 1])
  }

  lemma {:induction false} ReplayReports(p: Id, closed: seq<Attempt>)
    requires forall i :: 0 <= i < |closed| ==>
      closed[i].outcome != AttemptOpen && (i < |closed| - 1 ==> closed[i].outcome == AttemptRetry)
    ensures ReplayEvents([PublicationScheduled(p)] + Reports(p, closed)) == At(StateOf(closed))
  {
    var first := [PublicationScheduled(p)];
    if closed == [] {
      assert first + Reports(p, closed) == first && first[..0] == [];
    } else {
      var n := |closed| - 1;
      ReplayReports(p, closed[..n]);
      var events := first + Reports(p, closed);
      assert events[..|events| - 1] == first + Reports(p, closed[..n]);
      assert n > 0 ==> closed[..n][n - 1] == closed[n - 1];
    }
  }

  /**
   * Replaying a publication's rows never gets stuck and gives its state; while an attempt is open, the state before
   * it.
   */
  lemma EventsReplayState(s: Sys, p: Id)
    requires DeliveryInv(s) && EventsOk(s) && p < |s.db.publications|
    ensures var state := s.db.publications[p].state;
      ReplayEvents(EventsOf(s.db.log, p)) == At(if state == Publishing then Scheduled else state)
  {
    var h := History(s.db.attempts, p);
    assert PublicationOk(s.db.publications[p], h, s.maxAttempts, s.clock);
    ReplayReports(p, Closed(h));
  }

  /** The row's tenant and brand own the subject of its event. */
  ghost predicate RowOwned(db: Db, row: AuditLog) {
    && row.tenant == row.brand.workspace
    && match row.event
       case PostDraftCreated(p) => p < |db.posts| && db.posts[p].brand == row.brand
       case PostApproved(p) => p < |db.posts| && db.posts[p].brand == row.brand
       case ApprovalRequested(r, p) => LinkOwned(db, r, p, row.brand)
       case ApprovalRevoked(r, p) => LinkOwned(db, r, p, row.brand)
       case ApprovalApproved(r, p) => LinkOwned(db, r, p, row.brand)
       case ApprovalChangesRequested(r, p) => LinkOwned(db, r, p, row.brand)
       case PublicationScheduled(p) => p < |db.publications| && db.publications[p].brand == row.brand
       case PublicationPublished(p, _) => p < |db.publications| && db.publications[p].brand == row.brand
       case PublicationRetryScheduled(p, _, _) => p < |db.publications| && db.publications[p].brand == row.brand
       case PublicationFailed(p, _, _) => p < |db.publications| && db.publications[p].brand == row.brand
       case MediaUploadIntentCreated(a) => a in db.assets && db.assets[a].brand == row.brand
       case MediaUploadConfirmed(a) => a in db.assets && db.assets[a].brand == row.brand
  }

  ghost predicate LinkOwned(db: Db, r: Id, p: Id, brand: Brand) {
    r < |db.requests| && p < |db.posts| && db.requests[r].post == p
      && db.requests[r].brand == brand == db.posts[p].brand
  }

  ghost predicate LogOwned(db: Db) {
    forall i :: 0 <= i < |db.log| ==> RowOwned(db, db.log[i])
  }

  lemma RowGrows(a: Db, b: Db, row: AuditLog)
    requires Grows(a, b) && RowOwned(a, row)
    ensures RowOwned(b, row)
  {
  }

  ghost predicate AddsOwnedRow(a: Db, b: Db) {
    b.log == a.log || (|b.log| == |a.log| + 1 && RowOwned(b, b.log[|a.log|]))
  }

  lemma FinishRowOwned(s: Sys, step: Step)
    requires TablesOk(s.db) && (step.FinishOk? || step.FinishError?)
    ensures AddsOwnedRow(s.db, NextDb(s, step))
  {
    if Holds(s, step.worker) {
      assert PublicationOwned(s.db, s.workers[step.worker].publication);
    }
  }

  lemma UploadRowOwned(s: Sys, step: Step)
    requires OwnersOk(s.db) && (step.CreateUpload? || step.ConfirmAsset?)
    ensures AddsOwnedRow(s.db, NextDb(s, step))
  {
  }

  lemma RequestRowOwned(s: Sys, step: Step)
    requires SessionsOk(s) && (step.CreateCommit? || step.ScheduleCommit?)
    ensures AddsOwnedRow(s.db, NextDb(s, step))
  {
    if step.ScheduleCommit? && step.session in s.sessions {
      assert SessionOk(s.db, s.sessions[step.session]);
    }
  }

  lemma EditorialRowOwned(s: Sys, step: Step)
    requires TablesOk(s.db) && LinksOk(s.db)
    requires step.ApproveDirectly? || step.RequestLink? || step.RevokeLink? || step.DecideLink?
    ensures AddsOwnedRow(s.db, NextDb(s, step))
  {
    match step {
      case ApproveDirectly(p, _, _) =>
        if p < |s.db.posts| { assert VariantOk(s.db, p); }
      case RequestLink(p, _, _, _) =>
        if p < |s.db.posts| { assert VariantOk(s.db, p); }
      case _ =>
    }
  }

  /** At most one row is added, and its owner is the subject's. */
  lemma NewRowOwned(s: Sys, step: Step)
    requires ContentInv(s) && LinksOk(s.db)
    ensures AddsOwnedRow(s.db, NextDb(s, step))
  {
    hide AddsOwnedRow, NextDb, TablesOk, LinksOk, OwnersOk, SessionsOk;
    match step {
      case FinishOk(_, _) => FinishRowOwned(s, step);
      case FinishError(_, _) => FinishRowOwned(s, step);
      case CreateCommit(_) => RequestRowOwned(s, step);
      case ScheduleCommit(_) => RequestRowOwned(s, step);
      case CreateUpload(_, _, _, _, _, _) => UploadRowOwned(s, step);
      case ConfirmAsset(_, _, _) => UploadRowOwned(s, step);
      case ApproveDirectly(_, _, _) => EditorialRowOwned(s, step);
      case RequestLink(_, _, _, _) => EditorialRowOwned(s, step);
      case RevokeLink(_, _) => EditorialRowOwned(s, step);
      case DecideLink(_, _, _, _) => EditorialRowOwned(s, step);
      case _ => QuietSteps(s, step);
    }
  }

  lemma QuietSteps(s: Sys, step: Step)
    requires !(step.FinishOk? || step.FinishError? || step.CreateCommit? || step.ScheduleCommit? || step.CreateUpload?)
    requires !(step.ConfirmAsset? || step.ApproveDirectly? || step.RequestLink? || step.RevokeLink? || step.DecideLink?)
    ensures AddsOwnedRow(s.db, NextDb(s, step))
  {
  }

  lemma OwnedStep(s: Sys, step: Step)
    requires ContentInv(s) && LinksOk(s.db) && LogOwned(s.db)
    ensures LogOwned(NextDb(s, step))
  {
    hide ContentInv, LinksOk, NextDb, RowOwned, Grows;
    var t := NextDb(s, step);
    NewRowOwned(s, step);
    StepGrows(s, step);
    LogGrows(s.db, t);
    forall i | 0 <= i < |t.log| ensures RowOwned(t, t.log[i]) {
      if i < |s.db.log| {
        RowGrows(s.db, t, s.db.log[i]);
      }
    }
  }

  lemma LogGrows(a: Db, b: Db)
    requires Grows(a, b)
    ensures |a.log| <= |b.log| && forall i :: 0 <= i < |a.log| ==> b.log[i] == a.log[i]
  {
  }
}
