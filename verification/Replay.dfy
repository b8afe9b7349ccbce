/** Repeated requests: what they answer, and that they leave no trace. */
module Replay {
  import opened Types
  import opened ApiServices
  import opened Machine
  import opened Growth
  import opened ContentInvariant

  lemma {:induction false} PostFoundAgain(a: seq<Post>, b: seq<Post>, tenant: Id, key: string)
    requires PostsGrow(a, b) && FindPost(a, tenant, key).Some?
    ensures FindPost(b, tenant, key) == FindPost(a, tenant, key)
    decreases |b|
  {
    var n := |b| - 1;
    if |a| == |b| {
      if FindPost(a[..n], tenant, key).Some? {
        PostFoundAgain(a[..n], b[..n], tenant, key);
      } else {
        assert forall i :: 0 <= i < n ==> b[..n][i].tenant == a[..n][i].tenant && b[..n][i].key == a[..n][i].key;
      }
    } else {
      PostFoundAgain(a, b[..n], tenant, key);
    }
  }

  lemma {:induction false} PublicationFoundAgain(a: seq<Publication>, b: seq<Publication>, tenant: Id, key: string)
    requires PublicationsGrow(a, b) && FindPublication(a, tenant, key).Some?
    ensures FindPublication(b, tenant, key) == FindPublication(a, tenant, key)
    decreases |b|
  {
    var n := |b| - 1;
    if |a| == |b| {
      if FindPublication(a[..n], tenant, key).Some? {
        PublicationFoundAgain(a[..n], b[..n], tenant, key);
      } else {
        assert forall i :: 0 <= i < n ==> b[..n][i].tenant == a[..n][i].tenant && b[..n][i].key == a[..n][i].key;
      }
    } else {
      PublicationFoundAgain(a, b[..n], tenant, key);
    }
  }

  /** Once a key has a row, every later lookup of that key gives the same answer, whatever happened in between. */
  lemma ReplayAnswersForever(s: Sys, steps: seq<Step>, tenant: Id, key: string, create: CreatePayload,
    schedule: SchedulePayload)
    ensures ReplayDraft(s.db, tenant, key, create).Some? ==>
      ReplayDraft(Run(s, steps).db, tenant, key, create) == ReplayDraft(s.db, tenant, key, create)
    ensures ReplaySchedule(s.db, tenant, key, schedule).Some? ==>
      ReplaySchedule(Run(s, steps).db, tenant, key, schedule) == ReplaySchedule(s.db, tenant, key, schedule)
  {
    RunGrows(s, steps);
    var db := Run(s, steps).db;
    if FindPost(s.db.posts, tenant, key).Some? {
      PostFoundAgain(s.db.posts, db.posts, tenant, key);
    }
    if FindPublication(s.db.publications, tenant, key).Some? {
      PublicationFoundAgain(s.db.publications, db.publications, tenant, key);
    }
  }

  /** A request that created a row is answered with that row whenever it is repeated, and any other body conflicts. */
  lemma CreatedThenReplayed(s: Sys, k: Id, steps: seq<Step>, other: CreatePayload, otherSchedule: SchedulePayload)
    requires k in s.sessions
    ensures var c, e := s.sessions[k], Run(Next(s, CreateCommit(k)), steps);
      c.CreateMissed? && AnswerOf(s, CreateCommit(k)).Replied? ==>
        ReplayDraft(e.db, c.brand.workspace, c.key, other) == Some(
          if other == c.create then Ok(Reply(AnswerOf(s, CreateCommit(k)).reply.row, false))
            else Err(IdempotencyConflict))
    ensures var c, e := s.sessions[k], Run(Next(s, ScheduleCommit(k)), steps);
      c.ScheduleMissed? && AnswerOf(s, ScheduleCommit(k)).Replied? ==>
        ReplaySchedule(e.db, c.brand.workspace, c.key, otherSchedule) == Some(
          if otherSchedule == c.schedule then Ok(Reply(AnswerOf(s, ScheduleCommit(k)).reply.row, false))
          else Err(IdempotencyConflict))
  {
    var c := s.sessions[k];
    if c.CreateMissed? && AnswerOf(s, CreateCommit(k)).Replied? {
      var t := Next(s, CreateCommit(k));
      assert t.db.posts[..|s.db.posts|] == s.db.posts;
      assert FindPost(t.db.posts, c.brand.workspace, c.key) == Some(|s.db.posts|);
      ReplayAnswersForever(t, steps, c.brand.workspace, c.key, other, otherSchedule);
    }
    if c.ScheduleMissed? && AnswerOf(s, ScheduleCommit(k)).Replied? {
      var t := Next(s, ScheduleCommit(k));
      assert t.db.publications[..|s.db.publications|] == s.db.publications;
      assert FindPublication(t.db.publications, c.brand.workspace, c.key) == Some(|s.db.publications|);
      ReplayAnswersForever(t, steps, c.brand.workspace, c.key, other, otherSchedule);
    }
  }

  lemma LoserWritesNothing(s: Sys, k: Id)
    requires k in s.sessions
    ensures var c := s.sessions[k];
      c.CreateMissed? && FindPost(s.db.posts, c.brand.workspace, c.key).Some? ==>
        NextDb(s, CreateCommit(k)) == s.db && AnswerOf(s, CreateCommit(k)) == Raised(BrokenTransaction)
    ensures var c := s.sessions[k];
      c.ScheduleMissed? && FindPublication(s.db.publications, c.brand.workspace, c.key).Some? ==>
        NextDb(s, ScheduleCommit(k)) == s.db && AnswerOf(s, ScheduleCommit(k)).Raised?
  {
  }

  /** Two requests of one kind whose lookups of the same (tenant, key) both found nothing. */
  ghost predicate Rivals(s: Sys, k: Id, l: Id) {
    && k in s.sessions && l in s.sessions && k != l
    && s.sessions[k].brand.workspace == s.sessions[l].brand.workspace && s.sessions[k].key == s.sessions[l].key
    && ((s.sessions[k].CreateMissed? && s.sessions[l].CreateMissed?)
      || (s.sessions[k].ScheduleMissed? && s.sessions[l].ScheduleMissed?))
  }

  function Commit(c: Session, k: Id): Step {
    if c.CreateMissed? then CreateCommit(k) else ScheduleCommit(k)
  }

  /**
   * However long after the winner of a race for a key the loser commits, it is turned away and writes nothing: no row,
   * no orphan variant, no audit row.
   */
  lemma SecondCommitLoses(s: Sys, k: Id, l: Id, between: seq<Step>)
    requires Rivals(s, k, l) && Creates(AnswerOf(s, Commit(s.sessions[k], k)))
    requires forall i :: 0 <= i < |between| ==> RequestOf(between[i]) != Some(l)
    ensures var e := Run(Next(s, Commit(s.sessions[k], k)), between);
      l in e.sessions && NextDb(e, Commit(e.sessions[l], l)) == e.db && AnswerOf(e, Commit(e.sessions[l], l)).Raised?
  {
    hide Run, Next, AnswerOf;
    var c := s.sessions[l];
    var t := Next(s, Commit(s.sessions[k], k));
    WinnerTakesKey(s, k, l);
    SessionWaits(t, between, l);
    var create, schedule := CreatePayload(Brand(0, 0), None, "", []), SchedulePayload(0, 0, 0);
    ReplayAnswersForever(t, between, c.brand.workspace, c.key, create, schedule);
    LoserWritesNothing(Run(t, between), l);
  }

  lemma WinnerTakesKey(s: Sys, k: Id, l: Id)
    requires Rivals(s, k, l) && Creates(AnswerOf(s, Commit(s.sessions[k], k)))
    ensures var c, t := s.sessions[l], Next(s, Commit(s.sessions[k], k));
      && l in t.sessions && t.sessions[l] == c
      && if c.CreateMissed? then FindPost(t.db.posts, c.brand.workspace, c.key).Some?
         else FindPublication(t.db.publications, c.brand.workspace, c.key).Some?
  {
    var t := Next(s, Commit(s.sessions[k], k));
    assert t.db.posts[..|s.db.posts|] == s.db.posts;
    assert t.db.publications[..|s.db.publications|] == s.db.publications;
  }

  /**
   * The view validates the time before it looks for the key. So a repeated schedule request is turned away exactly when
   * its time has come, although the documentation promises the original publication, or its caller may no longer use
   * the brand; otherwise it gets its row.
   */
  lemma RepeatedOverHttp(
    s: Sys, k: Id, tenant: Id, brands: set<Brand>, key: string, payload: SchedulePayload, row: Id, between: seq<Step>)
    requires ContentInv(s) && k !in s.sessions
    requires ReplaySchedule(s.db, tenant, key, payload) == Some(Ok(Reply(row, false)))
    requires forall i :: 0 <= i < |between| ==> RequestOf(between[i]) != Some(k)
    ensures var answer := AnswerOf(s, ScheduleView(k, tenant, brands, key, payload));
      && (answer == Raised(ScheduleInPast) <==> payload.scheduledFor <= s.clock)
      && (answer.Raised? <==> payload.scheduledFor <= s.clock || s.db.publications[row].brand !in brands)
    ensures payload.scheduledFor > s.clock && s.db.publications[row].brand in brands ==>
      var e := Run(Next(s, ScheduleView(k, tenant, brands, key, payload)), between);
      AnswerOf(e, ScheduleLookup(k)) == Replied(Reply(row, false))
  {
    hide Next, AnswerOf, ContentInv;
    OpenView(s, k, tenant, brands, key, payload, row);
    if payload.scheduledFor > s.clock && s.db.publications[row].brand in brands {
      var t := Next(s, ScheduleView(k, tenant, brands, key, payload));
      SessionWaits(t, between, k);
      ReplayAnswersForever(t, between, tenant, key, CreatePayload(Brand(0, 0), None, "", []), payload);
      LookupAnswer(Run(t, between), k);
    }
  }

  lemma OpenView(s: Sys, k: Id, tenant: Id, brands: set<Brand>, key: string, payload: SchedulePayload, row: Id)
    requires ContentInv(s) && k !in s.sessions
    requires ReplaySchedule(s.db, tenant, key, payload) == Some(Ok(Reply(row, false)))
    ensures var view := ScheduleView(k, tenant, brands, key, payload);
      if payload.scheduledFor <= s.clock then AnswerOf(s, view) == Raised(ScheduleInPast)
      else if s.db.publications[row].brand !in brands then AnswerOf(s, view) == Raised(NotFound)
      else
        && AnswerOf(s, view) == Silent && Next(s, view).db == s.db && k in Next(s, view).sessions
        && var c := Next(s, view).sessions[k];
           c.ScheduleRead? && c.brand.workspace == tenant && c.key == key && c.schedule == payload
  {
    ReadOfReplay(s, tenant, brands, key, payload, row);
  }

  lemma LookupAnswer(s: Sys, k: Id)
    requires k in s.sessions && s.sessions[k].ScheduleRead?
    ensures var c := s.sessions[k];
      var found := ReplaySchedule(s.db, c.brand.workspace, c.key, c.schedule);
      found.Some? ==> AnswerOf(s, ScheduleLookup(k)) == KeyedAnswer(found.value)
  {
  }

  /** The reads of the view succeed for a repeated request whose time is still to come. */
  lemma ReadOfReplay(s: Sys, tenant: Id, brands: set<Brand>, key: string, payload: SchedulePayload, row: Id)
    requires ContentInv(s) && ReplaySchedule(s.db, tenant, key, payload) == Some(Ok(Reply(row, false)))
    ensures var read := ReadForSchedule(s.db, tenant, brands, payload, s.clock);
      if payload.scheduledFor <= s.clock then read == Err(ScheduleInPast)
      else if s.db.publications[row].brand !in brands then read == Err(NotFound)
      else read.Ok? && read.value.postBrand.workspace == tenant
  {
    assert PublicationOwned(s.db, row);
    assert VariantOk(s.db, payload.variant);
  }

  /** The request a step belongs to. */
  function RequestOf(step: Step): Option<Id> {
    match step
    case CreateLookup(k, _, _, _, _, _) => Some(k)
    case CreateCommit(k) => Some(k)
    case ScheduleView(k, _, _, _, _) => Some(k)
    case ScheduleLookup(k) => Some(k)
    case ScheduleCommit(k) => Some(k)
    case Abandon(k) => Some(k)
    case _ => None
  }

  lemma OthersKeepSession(s: Sys, step: Step, k: Id)
    requires RequestOf(step) != Some(k)
    ensures k in NextSessions(s, step) <==> k in s.sessions
    ensures k in s.sessions ==> NextSessions(s, step)[k] == s.sessions[k]
  {
  }

  lemma {:induction false} SessionWaits(s: Sys, steps: seq<Step>, k: Id)
    requires forall i :: 0 <= i < |steps| ==> RequestOf(steps[i]) != Some(k)
    ensures k in Run(s, steps).sessions <==> k in s.sessions
    ensures k in s.sessions ==> Run(s, steps).sessions[k] == s.sessions[k]
    decreases |steps|
  {
    hide NextDb, NextSessions, NextWorkers, NextQueue, RequestOf;
    if steps != [] {
      OthersKeepSession(s, steps[0], k);
      SessionWaits(Next(s, steps[0]), steps[1..], k);
    }
  }

  predicate Begins(step: Step) {
    step.CreateLookup? || step.ScheduleView?
  }

  /** The answer of a request that wrote a row. */
  predicate Creates(answer: Answer) {
    answer.Replied? && answer.reply.created
  }

  /** The answer of a request that ends without a row of its own: a replay, a conflict, a refusal or a lost race. */
  predicate Dismisses(answer: Answer) {
    answer.Raised? || (answer.Replied? && !answer.reply.created)
  }

  /** A step of a request changes the database exactly when it is answered with a row that it created. */
  lemma OnlyCreatingWrites(s: Sys, step: Step)
    requires RequestOf(step).Some?
    ensures NextDb(s, step) != s.db <==> Creates(AnswerOf(s, step))
  {
    if Creates(AnswerOf(s, step)) {
      assert |NextDb(s, step).log| == |s.db.log| + 1;
    }
  }

  /** No step of request `k` is ever answered with a row that it created. */
  ghost predicate Traceless(s: Sys, steps: seq<Step>, k: Id)
    decreases |steps|
  {
    steps != [] ==>
      (RequestOf(steps[0]) == Some(k) ==> !Creates(AnswerOf(s, steps[0])))
        && Traceless(Next(s, steps[0]), steps[1..], k)
  }

  predicate Belongs(step: Step, d: set<Id>) {
    RequestOf(step).Some? && RequestOf(step).value in d
  }

  /** The history without the steps of the requests in `d`. */
  function Without(steps: seq<Step>, d: set<Id>): seq<Step> {
    if steps == [] then [] else
      var rest := Without(steps[1..], d);
      if Belongs(steps[0], d) then rest else [steps[0]] + rest
  }

  /** The answers that the other steps got in the full history. */
  ghost function KeptAnswers(s: Sys, steps: seq<Step>, d: set<Id>): seq<Answer>
    decreases |steps|
  {
    if steps == [] then [] else
      var rest := KeptAnswers(Next(s, steps[0]), steps[1..], d);
      if Belongs(steps[0], d) then rest else [AnswerOf(s, steps[0])] + rest
  }

  ghost function Answers(s: Sys, steps: seq<Step>): seq<Answer>
    decreases |steps|
  {
    if steps == [] then [] else [AnswerOf(s, steps[0])] + Answers(Next(s, steps[0]), steps[1..])
  }

  /** The same state but for the sessions of the requests in `d`. */
  ghost predicate SameWithout(s: Sys, t: Sys, d: set<Id>) {
    && t.clock == s.clock && t.maxAttempts == s.maxAttempts && t.db == s.db && t.queue == s.queue
      && t.workers == s.workers
    && t.sessions == map k | k in s.sessions && k !in d :: s.sessions[k]
  }

  lemma KeptStep(s: Sys, t: Sys, step: Step, d: set<Id>)
    requires SameWithout(s, t, d) && !Belongs(step, d)
    ensures SameWithout(Next(s, step), Next(t, step), d) && AnswerOf(t, step) == AnswerOf(s, step)
  {
    hide NextDb, NextSessions, AnswerOf;
    KeptDb(s, t, step, d);
    KeptSessions(s, t, step, d);
    KeptTasks(s, t, step, d);
  }

  lemma KeptDb(s: Sys, t: Sys, step: Step, d: set<Id>)
    requires SameWithout(s, t, d) && !Belongs(step, d)
    ensures NextDb(t, step) == NextDb(s, step) && AnswerOf(t, step) == AnswerOf(s, step)
  {
  }

  lemma KeptSessions(s: Sys, t: Sys, step: Step, d: set<Id>)
    requires SameWithout(s, t, d) && !Belongs(step, d)
    ensures NextSessions(t, step) == map k | k in NextSessions(s, step) && k !in d :: NextSessions(s, step)[k]
  {
  }

  lemma KeptTasks(s: Sys, t: Sys, step: Step, d: set<Id>)
    requires SameWithout(s, t, d)
    ensures NextWorkers(t, step) == NextWorkers(s, step) && NextQueue(t, step) == NextQueue(s, step)
  {
  }

  /** A step of a deleted request changes nothing but its own session. */
  lemma DeletedStep(s: Sys, t: Sys, step: Step, d: set<Id>)
    requires SameWithout(s, t, d) && Belongs(step, d) && !Creates(AnswerOf(s, step))
    ensures SameWithout(Next(s, step), t, d)
  {
    OnlyCreatingWrites(s, step);
    hide NextDb, AnswerOf;
    forall k | k !in d ensures k in NextSessions(s, step) <==> k in s.sessions
      ensures k in s.sessions ==> NextSessions(s, step)[k] == s.sessions[k]
    {
      OthersKeepSession(s, step, k);
    }
  }

  /**
   * Deleting from any history all steps of any requests that created no row changes neither the database, clock, queue
   * and workers nor any other answer, nor what the other requests in flight remember.
   */
  lemma {:induction false} DeletionIsNeutral(s: Sys, t: Sys, steps: seq<Step>, d: set<Id>)
    requires SameWithout(s, t, d) && forall k :: k in d ==> Traceless(s, steps, k)
    ensures SameWithout(Run(s, steps), Run(t, Without(steps, d)), d)
    ensures Answers(t, Without(steps, d)) == KeptAnswers(s, steps, d)
    decreases |steps|
  {
    hide Next, AnswerOf, SameWithout;
    if steps != [] {
      var step := steps[0];
      if Belongs(step, d) {
        assert Traceless(s, steps, RequestOf(step).value);
        DeletedStep(s, t, step, d);
        DeletionIsNeutral(Next(s, step), t, steps[1..], d);
      } else {
        KeptStep(s, t, step, d);
        DeletionIsNeutral(Next(s, step), Next(t, step), steps[1..], d);
        var rest := Without(steps[1..], d);
        assert ([step] + rest)[1..] == rest;
      }
    }
  }

  /** Every request has its own identity: no first step reuses one. */
  predicate FreshRequests(steps: seq<Step>, used: set<Id>)
    decreases |steps|
  {
    steps != [] ==>
      if Begins(steps[0]) then
        RequestOf(steps[0]).value !in used && FreshRequests(steps[1..], used + {RequestOf(steps[0]).value})
      else FreshRequests(steps[1..], used)
  }

  /** Request `k` is at some step of the run answered with a replay, a conflict, a refusal or a lost race. */
  ghost predicate Dismissed(s: Sys, steps: seq<Step>, k: Id)
    decreases |steps|
  {
    steps != [] &&
    ((RequestOf(steps[0]) == Some(k) && Dismisses(AnswerOf(s, steps[0])))
      || Dismissed(Next(s, steps[0]), steps[1..], k))
  }

  /** A step of a request that finds its (tenant, key) taken: at the lookup, or in the race after it. */
  ghost predicate MeetsRow(s: Sys, step: Step) {
    match step
    case CreateLookup(_, brand, key, _, _, _) => FindPost(s.db.posts, brand.workspace, key).Some?
    case CreateCommit(k) =>
      && k in s.sessions && s.sessions[k].CreateMissed?
      && FindPost(s.db.posts, s.sessions[k].brand.workspace, s.sessions[k].key).Some?
    case ScheduleLookup(k) =>
      && k in s.sessions && s.sessions[k].ScheduleRead?
      && FindPublication(s.db.publications, s.sessions[k].brand.workspace, s.sessions[k].key).Some?
    case ScheduleCommit(k) =>
      && k in s.sessions && s.sessions[k].ScheduleMissed?
      && FindPublication(s.db.publications, s.sessions[k].brand.workspace, s.sessions[k].key).Some?
    case _ => false
  }

  lemma MeetingDismisses(s: Sys, step: Step)
    requires MeetsRow(s, step)
    ensures RequestOf(step).Some? && Dismisses(AnswerOf(s, step))
  {
  }

  /** A request that at any of its steps meets a row of its key is dismissed, however late that row was written. */
  lemma {:induction false} RepeatIsDismissed(s: Sys, steps: seq<Step>, i: nat)
    requires i < |steps| && MeetsRow(Run(s, steps[..i]), steps[i])
    ensures RequestOf(steps[i]).Some? && Dismissed(s, steps, RequestOf(steps[i]).value)
    decreases i
  {
    hide Next, MeetsRow, AnswerOf, Dismisses;
    if i == 0 {
      MeetingDismisses(s, steps[0]);
    } else {
      assert steps[..i][1..] == steps[1..][..i - 1];
      RepeatIsDismissed(Next(s, steps[0]), steps[1..], i - 1);
    }
  }

  lemma StepOfEnded(s: Sys, step: Step, k: Id)
    requires k !in s.sessions && (RequestOf(step) == Some(k) ==> !Begins(step))
    ensures k !in NextSessions(s, step)
    ensures RequestOf(step) == Some(k) ==> AnswerOf(s, step) == Silent
  {
  }

  lemma {:induction false} EndedIsSilent(s: Sys, steps: seq<Step>, k: Id, used: set<Id>)
    requires k !in s.sessions && k in used && FreshRequests(steps, used)
    ensures Traceless(s, steps, k) && !Dismissed(s, steps, k)
    decreases |steps|
  {
    hide NextDb, NextSessions, NextWorkers, NextQueue, AnswerOf, RequestOf, Begins;
    if steps != [] {
      FreshStep(steps, used);
      StepOfEnded(s, steps[0], k);
      EndedIsSilent(Next(s, steps[0]), steps[1..], k, if Begins(steps[0]) then used + {RequestOf(steps[0]).value}
        else used);
    }
  }

  lemma AnsweredIsOver(s: Sys, step: Step, k: Id, used: set<Id>)
    requires RequestOf(step) == Some(k) && s.sessions.Keys <= used && (Begins(step) ==> k !in used)
    requires Dismisses(AnswerOf(s, step)) || Creates(AnswerOf(s, step))
    ensures k !in NextSessions(s, step) && (Begins(step) || k in used)
  {
  }

  lemma FreshStep(steps: seq<Step>, used: set<Id>)
    requires steps != [] && FreshRequests(steps, used)
    ensures Begins(steps[0]) ==> RequestOf(steps[0]).Some? && RequestOf(steps[0]).value !in used
    ensures FreshRequests(steps[1..], if Begins(steps[0]) then used + {RequestOf(steps[0]).value} else used)
  {
  }

  lemma NextKeys(s: Sys, step: Step, used: set<Id>)
    requires s.sessions.Keys <= used
    ensures Next(s, step).sessions.Keys <= if Begins(step) then used + {RequestOf(step).value} else used
  {
  }

  /** A dismissed request created no row, before or after. */
  lemma {:induction false} DismissedIsTraceless(s: Sys, steps: seq<Step>, k: Id, used: set<Id>)
    requires s.sessions.Keys <= used && FreshRequests(steps, used) && Dismissed(s, steps, k)
    ensures Traceless(s, steps, k)
    decreases |steps|
  {
    hide NextDb, NextSessions, NextWorkers, NextQueue, AnswerOf, RequestOf, Begins, FreshRequests, Dismisses, Creates;
    var step, t := steps[0], Next(s, steps[0]);
    FreshStep(steps, used);
    var now := if Begins(step) then used + {RequestOf(step).value} else used;
    NextKeys(s, step, used);
    if RequestOf(step) == Some(k) && (Dismisses(AnswerOf(s, step)) || Creates(AnswerOf(s, step))) {
      AnsweredIsOver(s, step, k, used);
      EndedIsSilent(t, steps[1..], k, now);
      NotBoth(AnswerOf(s, step));
    } else {
      DismissedIsTraceless(t, steps[1..], k, now);
    }
  }

  lemma NotBoth(answer: Answer)
    ensures !(Dismisses(answer) && Creates(answer))
  {
  }
}
