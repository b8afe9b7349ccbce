/** What a schedule request commits, as a function of what its view read and of what happened since. */
module Requests {
  import opened Types
  import opened Tables
  import opened ApiServices
  import opened Machine
  import opened Growth
  import opened ContentInvariant
  import opened Replay

  /** Whether a channel is active after these steps, if it was `active` before them. */
  function FlagAfter(steps: seq<Step>, connection: Id, active: bool): bool {
    if steps == [] then active else
      var last := steps[|steps| - 1];
      if last.SetActive? && last.connection == connection then last.active
      else FlagAfter(steps[..|steps| - 1], connection, active)
  }

  /** The time that passes during these steps. */
  function Elapsed(steps: seq<Step>): nat {
    if steps == [] then 0 else
      var last := steps[|steps| - 1];
      Elapsed(steps[..|steps| - 1]) + if last.Tick? then last.delta else 0
  }

  lemma FlagStep(s: Sys, step: Step, c: Id)
    requires c < |s.db.connections|
    ensures c < |NextDb(s, step).connections|
    ensures NextDb(s, step).connections[c].isActive == FlagAfter([step], c, s.db.connections[c].isActive)
  {
    StepGrows(s, step);
    if !step.SetActive? && !step.ConnectChannel? {
      SameConnections(s, step);
    }
  }

  lemma SameConnections(s: Sys, step: Step)
    requires !step.SetActive? && !step.ConnectChannel?
    ensures NextDb(s, step).connections == s.db.connections
  {
  }

  lemma {:induction false} FlagRun(s: Sys, steps: seq<Step>, c: Id)
    requires c < |s.db.connections|
    ensures c < |Run(s, steps).db.connections|
    ensures Run(s, steps).db.connections[c].isActive == FlagAfter(steps, c, s.db.connections[c].isActive)
    ensures Run(s, steps).clock == s.clock + Elapsed(steps)
    decreases |steps|
  {
    hide NextDb, NextSessions, NextWorkers, NextQueue;
    if steps != [] {
      var init, last := steps[..|steps| - 1], steps[|steps| - 1];
      FlagRun(s, init, c);
      RunConcat(s, init, [last]);
      assert steps == init + [last] && [last][1..] == [];
      FlagStep(Run(s, init), last, c);
    }
  }

  lemma {:induction false} FlagConcat(a: seq<Step>, b: seq<Step>, c: Id, active: bool)
    ensures FlagAfter(a + b, c, active) == FlagAfter(b, c, FlagAfter(a, c, active))
    ensures Elapsed(a + b) == Elapsed(a) + Elapsed(b)
  {
    if b == [] {
      assert a + b == a;
    } else {
      var init := b[..|b| - 1];
      FlagConcat(a, init, c, active);
      assert (a + b)[..|a + b| - 1] == a + init;
    }
  }

  /** A schedule request with other steps after its view and after its lookup. */
  datatype Request = Request(
    id: Id, tenant: Id, brands: set<Brand>, key: string, payload: SchedulePayload, a: seq<Step>, b: seq<Step>)
  {
    function View(): Step {
      ScheduleView(id, tenant, brands, key, payload)
    }

    /** The other steps belong to other requests. */
    predicate Interleaved() {
      && (forall i :: 0 <= i < |a| ==> RequestOf(a[i]) != Some(id))
      && (forall i :: 0 <= i < |b| ==> RequestOf(b[i]) != Some(id))
    }

    ghost function AtLookup(s: Sys): Sys {
      Run(Next(s, View()), a)
    }

    ghost function AtCommit(s: Sys): Sys {
      Run(Next(AtLookup(s), ScheduleLookup(id)), b)
    }

    /** The time is to come; post and channel exist, share the brand, and belong to a caller who may use that brand. */
    ghost predicate Visible(s: Sys) {
      && s.clock < payload.scheduledFor
      && payload.variant < |s.db.variants| && s.db.variants[payload.variant].post < |s.db.posts|
      && payload.connection < |s.db.connections|
      && var post, channel := s.db.posts[s.db.variants[payload.variant].post], s.db.connections[payload.connection];
         && post.tenant == tenant && post.brand in brands && post.brand.workspace == tenant
         && channel.tenant == tenant && channel.brand == post.brand
    }

    /** The post is also APPROVED and has images, and the channel is active, at the instant of the view. */
    ghost predicate Acceptable(s: Sys) {
      && Visible(s)
      && s.db.posts[s.db.variants[payload.variant].post].state == Approved
      && s.db.connections[payload.connection].isActive
      && s.db.variants[payload.variant].mediaAssets != {}
    }
  }

  lemma ViewOpens(s: Sys, q: Request)
    requires q.id !in s.sessions
    ensures var t, read := Next(s, q.View()), ReadForSchedule(s.db, q.tenant, q.brands, q.payload, s.clock);
      && t.db == s.db && t.clock == s.clock
      && if q.Visible(s) then
           read.Ok? && q.id in t.sessions
             && t.sessions[q.id] == ScheduleRead(read.value.postBrand, q.key, q.payload, read.value)
         else q.id !in t.sessions
  {
  }

  lemma LookupMoves(s: Sys, q: Request)
    requires q.id in s.sessions ==> s.sessions[q.id].ScheduleRead?
    ensures var t := Next(s, ScheduleLookup(q.id));
      && t.db == s.db && t.clock == s.clock
      && if q.id in s.sessions
        && FindPublication(s.db.publications, s.sessions[q.id].brand.workspace, s.sessions[q.id].key).None? then
           var c := s.sessions[q.id];
           q.id in t.sessions && t.sessions[q.id] == ScheduleMissed(c.brand, c.key, c.schedule, c.seen)
         else q.id !in t.sessions
  {
  }

  /** The view lets exactly the visible requests through, and remembers the rows as they are. */
  lemma VisibleIsRead(s: Sys, q: Request)
    ensures var read := ReadForSchedule(s.db, q.tenant, q.brands, q.payload, s.clock);
      && (q.Visible(s) <==> read.Ok? && read.value.postBrand.workspace == q.tenant)
      && (q.Visible(s) ==>
           var post := s.db.posts[s.db.variants[q.payload.variant].post];
           read.value == Snapshot(q.tenant, post.brand, post.state, q.tenant, post.brand,
                                  s.db.connections[q.payload.connection].isActive))
  {
  }

  /** What the request remembers when it commits, if it gets that far. */
  lemma Waits(s: Sys, q: Request)
    requires q.id !in s.sessions && q.Interleaved()
    ensures var w, read := q.AtCommit(s), ReadForSchedule(s.db, q.tenant, q.brands, q.payload, s.clock);
      && (q.id in w.sessions ==>
           && q.Visible(s) && read.Ok?
           && w.sessions[q.id] == ScheduleMissed(read.value.postBrand, q.key, q.payload, read.value))
      && (q.Visible(s) && FindPublication(w.db.publications, q.tenant, q.key).None? ==> q.id in w.sessions)
  {
    VisibleIsRead(s, q);
    hide Next, ReadForSchedule, FindPublication, RequestOf, Run, q.Visible;
    ViewOpens(s, q);
    SessionWaits(Next(s, q.View()), q.a, q.id);
    LookupMoves(q.AtLookup(s), q);
    SessionWaits(Next(q.AtLookup(s), ScheduleLookup(q.id)), q.b, q.id);
    if FindPublication(q.AtCommit(s).db.publications, q.tenant, q.key).None? {
      RunGrows(Next(q.AtLookup(s), ScheduleLookup(q.id)), q.b);
      if FindPublication(q.AtLookup(s).db.publications, q.tenant, q.key).Some? {
        PublicationFoundAgain(q.AtLookup(s).db.publications, q.AtCommit(s).db.publications, q.tenant, q.key);
      }
    }
  }


  lemma InsertCreates(db: Db, tenant: Id, brand: Brand, key: string, payload: SchedulePayload, seen: Snapshot)
    requires seen.postTenant == tenant == seen.accountTenant && seen.postBrand == brand == seen.accountBrand
    requires payload.variant < |db.variants|
    ensures Creates(KeyedAnswer(InsertPublication(db, tenant, brand, key, payload, seen).1)) <==>
      && seen.isActive && seen.postState == Approved && Deliverable(db, db.variants[payload.variant].mediaAssets)
      && FindPublication(db.publications, tenant, key).None?
  {
  }

  /** The commit reads the images again; they are ready, and as many as when the view looked. */
  lemma ImagesDeliverable(a: Db, b: Db, v: Id)
    requires TablesOk(b) && Grows(a, b) && v < |a.variants|
    ensures v < |b.variants| && b.variants[v] == a.variants[v]
    ensures Deliverable(b, b.variants[v].mediaAssets) <==> a.variants[v].mediaAssets != {}
  {
    assert VariantOk(b, v);
  }

  lemma CommitAnswer(w: Sys, k: Id)
    ensures Creates(AnswerOf(w, ScheduleCommit(k))) ==> k in w.sessions && w.sessions[k].ScheduleMissed?
    ensures k in w.sessions && w.sessions[k].ScheduleMissed? ==>
      var c := w.sessions[k];
      AnswerOf(w, ScheduleCommit(k)) ==
      KeyedAnswer(InsertPublication(w.db, c.brand.workspace, c.brand, c.key, c.schedule, c.seen).1)
  {
  }

  lemma CommitCreates(s: Sys, w: Sys, q: Request)
    requires TablesOk(w.db) && Grows(s.db, w.db)
    requires var read := ReadForSchedule(s.db, q.tenant, q.brands, q.payload, s.clock);
      && (q.id in w.sessions ==>
           && q.Visible(s) && read.Ok?
           && w.sessions[q.id] == ScheduleMissed(read.value.postBrand, q.key, q.payload, read.value))
      && (q.Visible(s) && FindPublication(w.db.publications, q.tenant, q.key).None? ==> q.id in w.sessions)
    ensures Creates(AnswerOf(w, ScheduleCommit(q.id))) <==>
      q.Acceptable(s) && FindPublication(w.db.publications, q.tenant, q.key).None?
  {
    hide AnswerOf, InsertPublication, ReadForSchedule, FindPublication, Grows, TablesOk, Deliverable, Creates;
    CommitAnswer(w, q.id);
    if q.id in w.sessions {
      var c := w.sessions[q.id];
      VisibleIsRead(s, q);
      ImagesDeliverable(s.db, w.db, q.payload.variant);
      InsertCreates(w.db, c.brand.workspace, c.brand, c.key, c.schedule, c.seen);
    }
  }

  lemma AlongTheWay(s: Sys, q: Request)
    requires ContentInv(s)
    ensures ContentInv(q.AtCommit(s)) && Grows(s.db, q.AtCommit(s).db)
  {
    hide ContentInv, Next, Grows;
    var t := Next(s, q.View());
    var v := Next(q.AtLookup(s), ScheduleLookup(q.id));
    ContentStep(s, q.View());
    ContentRun(t, q.a);
    ContentStep(q.AtLookup(s), ScheduleLookup(q.id));
    ContentRun(v, q.b);
    StepRunGrows(s, q.View(), q.a);
    StepRunGrows(q.AtLookup(s), ScheduleLookup(q.id), q.b);
    GrowsTransitive(s.db, q.AtLookup(s).db, q.AtCommit(s).db);
  }

  lemma StepRunGrows(s: Sys, step: Step, steps: seq<Step>)
    ensures Grows(s.db, Run(Next(s, step), steps).db)
  {
    hide NextDb, Grows, Run;
    StepGrows(s, step);
    RunGrows(Next(s, step), steps);
    GrowsTransitive(s.db, Next(s, step).db, Run(Next(s, step), steps).db);
  }

  /**
   * Exactly when a schedule request creates a publication, whatever others do between its steps: when it was acceptable
   * as its view read it, and its key is still free when it commits.
   */
  lemma CommitsWhatTheViewAccepted(s0: Sys, before: seq<Step>, q: Request)
    requires Initial(s0) && q.id !in Run(s0, before).sessions && q.Interleaved()
    ensures var s := Run(s0, before);
      Creates(AnswerOf(q.AtCommit(s), ScheduleCommit(q.id))) <==>
        q.Acceptable(s) && FindPublication(q.AtCommit(s).db.publications, q.tenant, q.key).None?
  {
    hide TablesOk, KeysUnique, OwnersOk, SessionsOk, Grows;
    hide Run, Next, ReadForSchedule, FindPublication, AnswerOf, Creates;
    var s := Run(s0, before);
    InitialContent(s0);
    ContentRun(s0, before);
    AlongTheWay(s, q);
    Waits(s, q);
    CommitCreates(s, q.AtCommit(s), q);
  }

  lemma InitialContent(s: Sys)
    requires Initial(s)
    ensures ContentInv(s)
  {
  }

  /** The publication that a request creates. */
  ghost predicate Created(w: Sys, q: Request) {
    Creates(AnswerOf(w, ScheduleCommit(q.id)))
  }

  /**
   * A publication is created on an active channel exactly when the channel was not last deactivated between the view
   * and the commit.
   */
  lemma ActiveAtCommit(s0: Sys, before: seq<Step>, q: Request)
    requires Initial(s0) && q.id !in Run(s0, before).sessions && q.Interleaved()
    requires Created(q.AtCommit(Run(s0, before)), q)
    ensures var w := q.AtCommit(Run(s0, before));
      var db, n := Next(w, ScheduleCommit(q.id)).db, |w.db.publications|;
      && |db.publications| == n + 1 && db.publications[n].connection == q.payload.connection < |db.connections|
      && (db.connections[q.payload.connection].isActive <==> FlagAfter(q.a + q.b, q.payload.connection, true))
  {
    hide Run, Next, ReadForSchedule, FindPublication, AnswerOf, Creates;
    var s := Run(s0, before);
    CommitsWhatTheViewAccepted(s0, before, q);
    Waits(s, q);
    ReadConnection(s, q);
    FlagOverRequest(s, q);
    CommitWrites(q.AtCommit(s), q);
  }

  lemma ReadConnection(s: Sys, q: Request)
    requires q.Acceptable(s)
    ensures q.payload.connection < |s.db.connections| && s.db.connections[q.payload.connection].isActive
    ensures q.payload.scheduledFor > s.clock
  {
  }

  /** The channel's flag and the clock at the commit. */
  lemma FlagOverRequest(s: Sys, q: Request)
    requires q.id !in s.sessions && q.Interleaved() && q.payload.connection < |s.db.connections|
    ensures var w, c := q.AtCommit(s), q.payload.connection;
      && c < |w.db.connections|
      && w.db.connections[c].isActive == FlagAfter(q.a + q.b, c, s.db.connections[c].isActive)
      && w.clock == s.clock + Elapsed(q.a + q.b)
  {
    hide Next, ReadForSchedule, FindPublication, RequestOf, Run, FlagAfter, Elapsed;
    var c := q.payload.connection;
    ViewOpens(s, q);
    SessionWaits(Next(s, q.View()), q.a, q.id);
    FlagRun(Next(s, q.View()), q.a, c);
    LookupMoves(q.AtLookup(s), q);
    FlagRun(Next(q.AtLookup(s), ScheduleLookup(q.id)), q.b, c);
    FlagConcat(q.a, q.b, c, s.db.connections[c].isActive);
  }

  lemma CommitWrites(w: Sys, q: Request)
    requires Created(w, q)
      && (q.id in w.sessions ==> w.sessions[q.id].ScheduleMissed? && w.sessions[q.id].schedule == q.payload)
    ensures var x, n := Next(w, ScheduleCommit(q.id)), |w.db.publications|;
      && |x.db.publications| == n + 1 && x.db.connections == w.db.connections && x.clock == w.clock
      && x.db.publications[n].connection == q.payload.connection
        && x.db.publications[n].scheduledFor == q.payload.scheduledFor
  {
  }

  /**
   * A publication is created with its time still to come exactly when less time passed between the view and the commit
   * than was left when the view checked it.
   */
  lemma FutureAtCommit(s0: Sys, before: seq<Step>, q: Request)
    requires Initial(s0) && q.id !in Run(s0, before).sessions && q.Interleaved()
    requires Created(q.AtCommit(Run(s0, before)), q)
    ensures var s, w := Run(s0, before), q.AtCommit(Run(s0, before));
      var x, n := Next(w, ScheduleCommit(q.id)), |w.db.publications|;
      && |x.db.publications| == n + 1 && x.db.publications[n].scheduledFor == q.payload.scheduledFor > s.clock
      && (x.db.publications[n].scheduledFor > x.clock <==> Elapsed(q.a + q.b) < q.payload.scheduledFor - s.clock)
  {
    hide Run, Next, ReadForSchedule, FindPublication, AnswerOf, Creates;
    var s := Run(s0, before);
    CommitsWhatTheViewAccepted(s0, before, q);
    Waits(s, q);
    ReadConnection(s, q);
    FlagOverRequest(s, q);
    CommitWrites(q.AtCommit(s), q);
  }

  lemma LookupFinds(u: Sys, q: Request)
    requires q.id in u.sessions ==> u.sessions[q.id].ScheduleRead?
    ensures AnswerOf(u, ScheduleLookup(q.id)).Replied? ==> q.id in u.sessions
    ensures q.id in u.sessions ==>
      var c := u.sessions[q.id];
      match ReplaySchedule(u.db, c.brand.workspace, c.key, c.schedule)
      case Some(r) => AnswerOf(u, ScheduleLookup(q.id)) == KeyedAnswer(r)
      case None => AnswerOf(u, ScheduleLookup(q.id)) == Silent
  {
  }

  lemma ViewAnswers(s: Sys, q: Request)
    ensures AnswerOf(s, q.View()).Raised? <==> !q.Visible(s)
  {
  }

  lemma FoundIsReplayed(db: Db, tenant: Id, key: string, payload: SchedulePayload)
    ensures FindPublication(db.publications, tenant, key).Some? <==> ReplaySchedule(db, tenant, key, payload).Some?
  {
  }

  /** What the request remembers when it looks for its key. */
  lemma AtLookupWaits(s: Sys, q: Request)
    requires q.id !in s.sessions && q.Interleaved()
    ensures q.id in q.AtLookup(s).sessions <==> q.Visible(s)
    ensures q.Visible(s) ==>
      var c := q.AtLookup(s).sessions[q.id];
      c.ScheduleRead? && c.brand.workspace == q.tenant && c.key == q.key && c.schedule == q.payload
  {
    VisibleIsRead(s, q);
    hide Next, ReadForSchedule, RequestOf, Run;
    ViewOpens(s, q);
    SessionWaits(Next(s, q.View()), q.a, q.id);
  }

  lemma RowStays(s: Sys, q: Request)
    ensures ReplaySchedule(q.AtLookup(s).db, q.tenant, q.key, q.payload).Some? ==>
      ReplaySchedule(q.AtCommit(s).db, q.tenant, q.key, q.payload) ==
      ReplaySchedule(q.AtLookup(s).db, q.tenant, q.key, q.payload)
  {
    hide Run, ReplaySchedule;
    var v := Next(q.AtLookup(s), ScheduleLookup(q.id));
    assert v.db == q.AtLookup(s).db;
    ReplayAnswersForever(v, q.b, q.tenant, q.key, CreatePayload(Brand(0, 0), None, "", []), q.payload);
  }

  /**
   * Every repetition of a schedule request, that is one whose key has a row with its body by the time it would commit:
   * it is answered with that row exactly when its view lets it through and the row is there at its lookup. If not, it
   * is turned away: by the view, or by its own commit, which finds the key taken in between.
   */
  lemma RepetitionAnswered(s: Sys, q: Request, row: Id)
    requires q.id !in s.sessions && q.Interleaved()
    requires ReplaySchedule(q.AtCommit(s).db, q.tenant, q.key, q.payload) == Some(Ok(Reply(row, false)))
    ensures AnswerOf(q.AtLookup(s), ScheduleLookup(q.id)) == Replied(Reply(row, false)) <==>
      q.Visible(s) && FindPublication(q.AtLookup(s).db.publications, q.tenant, q.key).Some?
    ensures AnswerOf(s, q.View()).Raised? <==> !q.Visible(s)
    ensures q.Visible(s) && FindPublication(q.AtLookup(s).db.publications, q.tenant, q.key).None? ==>
      AnswerOf(q.AtCommit(s), ScheduleCommit(q.id)).Raised?
  {
    hide Next, ReadForSchedule, FindPublication, RequestOf, Run, AnswerOf, ReplaySchedule;
    var u, w := q.AtLookup(s), q.AtCommit(s);
    ViewAnswers(s, q);
    AtLookupWaits(s, q);
    LookupFinds(u, q);
    FoundIsReplayed(u.db, q.tenant, q.key, q.payload);
    FoundIsReplayed(w.db, q.tenant, q.key, q.payload);
    RowStays(s, q);
    if q.Visible(s) && FindPublication(u.db.publications, q.tenant, q.key).None? {
      LookupMoves(u, q);
      SessionWaits(Next(u, ScheduleLookup(q.id)), q.b, q.id);
      LoserWritesNothing(w, q.id);
    }
  }

  lemma DraftWaits(s: Sys, k: Id, brand: Brand, key: string, payload: CreatePayload, between: seq<Step>)
    requires k !in s.sessions && payload.brand == brand
    requires forall i :: 0 <= i < |between| ==> RequestOf(between[i]) != Some(k)
    ensures var w := Run(Next(s, CreateLookup(k, brand, key, payload.title, payload.body, payload.mediaAssetIds)),
      between);
      && (k in w.sessions <==> FindPost(s.db.posts, brand.workspace, key).None?)
      && (k in w.sessions ==> w.sessions[k] == CreateMissed(brand, key, payload))
      && (FindPost(w.db.posts, brand.workspace, key).None? ==> FindPost(s.db.posts, brand.workspace, key).None?)
  {
    hide Run, RequestOf, Grows;
    var t := Next(s, CreateLookup(k, brand, key, payload.title, payload.body, payload.mediaAssetIds));
    SessionWaits(t, between, k);
    RunGrows(t, between);
    if FindPost(s.db.posts, brand.workspace, key).Some? {
      KeyStays(t.db, Run(t, between).db, brand.workspace, key);
    }
  }

  lemma KeyStays(a: Db, b: Db, tenant: Id, key: string)
    requires Grows(a, b) && FindPost(a.posts, tenant, key).Some?
    ensures FindPost(b.posts, tenant, key).Some?
  {
    PostFoundAgain(a.posts, b.posts, tenant, key);
  }

  /**
   * Exactly when a create request writes its draft, whatever others do between its lookup and its commit: when its
   * key is still free, and it names at most ten different images, which then all exist, are READY, and belong to its
   * brand.
   */
  lemma DraftCommits(s: Sys, k: Id, brand: Brand, key: string, payload: CreatePayload, between: seq<Step>)
    requires k !in s.sessions && payload.brand == brand
    requires forall i :: 0 <= i < |between| ==> RequestOf(between[i]) != Some(k)
    ensures var w := Run(Next(s, CreateLookup(k, brand, key, payload.title, payload.body, payload.mediaAssetIds)),
      between);
      Creates(AnswerOf(w, CreateCommit(k))) <==>
        && FindPost(w.db.posts, brand.workspace, key).None?
        && |Elements(payload.mediaAssetIds)| <= 10
        && forall id :: id in payload.mediaAssetIds ==>
             && id in w.db.assets && w.db.assets[id].tenant == brand.workspace && w.db.assets[id].brand == brand
             && w.db.assets[id].uploadState == UploadReady
  {
    hide Run, RequestOf;
    DraftWaits(s, k, brand, key, payload, between);
    var w := Run(Next(s, CreateLookup(k, brand, key, payload.title, payload.body, payload.mediaAssetIds)), between);
    DraftAnswer(w, k);
    InsertDraftMeaning(w.db, brand.workspace, brand, key, payload);
  }

  lemma DraftAnswer(w: Sys, k: Id)
    ensures k !in w.sessions ==> AnswerOf(w, CreateCommit(k)) == Silent
    ensures k in w.sessions && w.sessions[k].CreateMissed? ==>
      var c := w.sessions[k];
      AnswerOf(w, CreateCommit(k)) == KeyedAnswer(InsertDraft(w.db, c.brand.workspace, c.brand, c.key, c.create).1)
  {
  }
}
