/** Concrete runs that break what the documentation promises, or show what no invariant excludes. */
module Scenarios {
  import opened Types
  import opened Tables
  import opened ContentServices
  import opened ApiServices
  import opened PublicationTasks
  import opened Machine
  import opened DeliveryInvariant
  import opened DeliveryTheorems
  import opened ContentInvariant
  import opened Growth
  import MP = MetaPublishing
  import PS = PublicationServices
  import P = Provenance
  import T = Theorems

  const BRAND := Brand(0, 0)
  const DRAFT := CreatePayload(BRAND, None, "hello", [0, 1])
  const SIZE := ObjectMetadata(1, "image/png", "")

  function Request(due: Time): SchedulePayload {
    SchedulePayload(0, 0, due)
  }

  /**
   * A channel is connected, two images uploaded, a post drafted and approved, and a schedule request reads all that.
   */
  function Preparation(due: Time): seq<Step> {
    [ConnectChannel(BRAND, FacebookPage),
     CreateUpload(0, BRAND, "image/png", 1, "", true),
     CreateUpload(1, BRAND, "image/png", 1, "", true),
     ConfirmAsset(0, 0, Some(SIZE)),
     ConfirmAsset(1, 0, Some(SIZE)),
     CreateLookup(0, BRAND, "draft", None, "hello", [0, 1]),
     CreateCommit(0),
     ApproveDirectly(0, 0, BRAND),
     ScheduleView(1, 0, {BRAND}, "schedule", Request(due)),
     ScheduleLookup(1)]
  }

  lemma RunOne(s: Sys, steps: seq<Step>, step: Step)
    ensures Run(s, steps + [step]) == Next(Run(s, steps), step)
  {
    hide Next;
    RunLast(s, steps + [step]);
    assert (steps + [step])[..|steps|] == steps;
  }

  predicate Ready(assets: map<Id, Asset>) {
    Usable(assets, 0, BRAND, 0) && Usable(assets, 0, BRAND, 1)
  }

  lemma ImagesAreReady(assets: map<Id, Asset>)
    requires Ready(assets)
    ensures ReadyAssetsForPost(assets, 0, BRAND, [0, 1]) == Ok([0, 1]) && Elements([0, 1]) == {0, 1}
  {
    assert Dedup([0, 1]) == [0, 1] by {
      assert [0, 1][..1] == [0] && [0][..0] == [];
    }
    assert (set id | id in [0, 1] && Usable(assets, 0, BRAND, id)) == {0, 1};
  }

  /** One post with two ready images, one channel, nothing scheduled, and these open requests. */
  ghost predicate Prepared(t: Sys, clock: Time, state: LifecycleState, sessions: map<Id, Session>) {
    && t.clock == clock && t.workers == map[] && t.queue == multiset{} && t.sessions == sessions
    && t.db.publications == [] && t.db.attempts == []
    && |t.db.posts| == 1 && t.db.posts[0].tenant == 0 && t.db.posts[0].brand == BRAND && t.db.posts[0].state == state
    && |t.db.variants| == 1 && t.db.variants[0].post == 0 && t.db.variants[0].mediaAssets == {0, 1}
    && Ready(t.db.assets)
    && t.db.connections == [Connection(0, BRAND, FacebookPage, true)]
  }

  const SEEN := Snapshot(0, BRAND, Approved, 0, BRAND, true)

  /** Two ready images, one channel, and nothing else but these open requests. */
  ghost predicate Uploaded(t: Sys, clock: Time, sessions: map<Id, Session>) {
    && t.clock == clock && t.workers == map[] && t.queue == multiset{} && t.sessions == sessions
    && t.db.publications == [] && t.db.attempts == [] && t.db.posts == [] && t.db.variants == []
    && Ready(t.db.assets)
    && t.db.connections == [Connection(0, BRAND, FacebookPage, true)]
  }

  /** One channel and two images, of which these are confirmed. */
  ghost predicate Uploading(t: Sys, clock: Time, first: UploadState, second: UploadState) {
    && t.clock == clock && t.workers == map[] && t.queue == multiset{} && t.sessions == map[]
    && t.db.publications == [] && t.db.attempts == [] && t.db.posts == [] && t.db.variants == []
    && t.db.assets == map[
         0 := Asset(0, BRAND, "image/png", 1, "", first, clock),
         1 := Asset(0, BRAND, "image/png", 1, "", second, clock)]
    && t.db.connections == [Connection(0, BRAND, FacebookPage, true)]
  }

  lemma IntentSteps(s: Sys, steps: seq<Step>, due: Time)
    requires Initial(s) && steps == Preparation(due)
    ensures Uploading(Next(Next(Next(s, steps[0]), steps[1]), steps[2]), s.clock, UploadPending, UploadPending)
  {
    var b := Next(Next(s, steps[0]), steps[1]);
    assert b.db.assets == map[0 := Asset(0, BRAND, "image/png", 1, "", UploadPending, s.clock)];
    SecondIntent(b);
  }

  lemma SecondIntent(t: Sys)
    ensures var u := Next(t, CreateUpload(1, BRAND, "image/png", 1, "", true));
      && u.clock == t.clock && u.workers == t.workers && u.queue == t.queue && u.sessions == t.sessions
      && u.db.(assets := t.db.assets, log := t.db.log) == t.db
      && (1 !in t.db.assets ==>
           u.db.assets == t.db.assets[1 := Asset(0, BRAND, "image/png", 1, "", UploadPending, t.clock)])
  {
  }

  lemma ConfirmSteps(t: Sys, clock: Time)
    requires Uploading(t, clock, UploadPending, UploadPending)
    ensures Uploaded(Next(Next(t, ConfirmAsset(0, 0, Some(SIZE))), ConfirmAsset(1, 0, Some(SIZE))), clock, map[])
  {
    assert Uploading(Next(t, ConfirmAsset(0, 0, Some(SIZE))), clock, UploadReady, UploadPending);
  }

  lemma MissStep(t: Sys, clock: Time)
    requires Uploaded(t, clock, map[])
    ensures Uploaded(Next(t, CreateLookup(0, BRAND, "draft", None, "hello", [0, 1])), clock,
      map[0 := CreateMissed(BRAND, "draft", DRAFT)])
  {
  }

  lemma DraftStep(t: Sys, clock: Time)
    requires Uploaded(t, clock, map[0 := CreateMissed(BRAND, "draft", DRAFT)])
    ensures Prepared(Next(t, CreateCommit(0)), clock, Draft, map[])
  {
    hide ReadyAssetsForPost;
    ImagesAreReady(t.db.assets);
  }

  lemma DraftWritten(s: Sys, due: Time)
    requires Initial(s)
    ensures Prepared(Run(s, Preparation(due)[..7]), s.clock, Draft, map[])
  {
    hide Run, Next, Prepared, Uploaded, Uploading;
    var steps := Preparation(due);
    IntentSteps(s, steps, due);
    ThreeSteps(s, steps[..3]);
    var c := Run(s, steps[..3]);
    ConfirmSteps(c, s.clock);
    MissStep(Next(Next(c, steps[3]), steps[4]), s.clock);
    DraftStep(Next(Next(Next(c, steps[3]), steps[4]), steps[5]), s.clock);
    FourSteps(c, steps[3..7]);
    RunConcat(s, steps[..3], steps[3..7]);
    assert steps[..3] + steps[3..7] == steps[..7];
  }

  lemma ApprovalStep(t: Sys, clock: Time)
    requires Prepared(t, clock, Draft, map[])
    ensures Prepared(Next(t, ApproveDirectly(0, 0, BRAND)), clock, Approved, map[])
  {
  }

  lemma ViewStep(t: Sys, clock: Time, due: Time)
    requires Prepared(t, clock, Approved, map[]) && clock < due
    ensures Prepared(Next(t, ScheduleView(1, 0, {BRAND}, "schedule", Request(due))), clock, Approved,
      map[1 := ScheduleRead(BRAND, "schedule", Request(due), SEEN)])
  {
  }

  lemma LookupStep(t: Sys, clock: Time, due: Time)
    requires Prepared(t, clock, Approved, map[1 := ScheduleRead(BRAND, "schedule", Request(due), SEEN)])
    ensures Prepared(Next(t, ScheduleLookup(1)), clock, Approved,
      map[1 := ScheduleMissed(BRAND, "schedule", Request(due), SEEN)])
  {
  }

  lemma PreparationRuns(s: Sys, due: Time)
    requires Initial(s) && due > s.clock
    ensures Prepared(Run(s, Preparation(due)), s.clock, Approved,
      map[1 := ScheduleMissed(BRAND, "schedule", Request(due), SEEN)])
  {
    hide Run, Next, Prepared;
    var steps := Preparation(due);
    DraftWritten(s, due);
    ApprovalStep(Run(s, steps[..7]), s.clock);
    RunOne(s, steps[..7], steps[7]);
    assert steps[..7] + [steps[7]] == steps[..8];
    ViewStep(Run(s, steps[..8]), s.clock, due);
    RunOne(s, steps[..8], steps[8]);
    assert steps[..8] + [steps[8]] == steps[..9];
    LookupStep(Run(s, steps[..9]), s.clock, due);
    RunOne(s, steps[..9], steps[9]);
    assert steps[..9] + [steps[9]] == steps;
  }

  /** A channel deactivated between the view's reads and the commit still gets the publication. */
  lemma ScheduledOnInactiveChannel(s: Sys)
    requires Initial(s)
    ensures var t := Run(s, Preparation(s.clock + 1) + [SetActive(0, false)] + [ScheduleCommit(1)]);
      && |t.db.publications| == 1 && t.db.publications[0].connection == 0 && t.db.publications[0].state == Scheduled
      && |t.db.connections| == 1 && !t.db.connections[0].isActive
  {
    hide Run;
    var steps := Preparation(s.clock + 1);
    PreparationRuns(s, s.clock + 1);
    RunOne(s, steps, SetActive(0, false));
    RunOne(s, steps + [SetActive(0, false)], ScheduleCommit(1));
  }

  /** Validation and commit are separate steps, so a publication can be committed when its time has passed. */
  lemma CommittedInThePast(s: Sys)
    requires Initial(s)
    ensures var t := Run(s, Preparation(s.clock + 1) + [Tick(2)] + [ScheduleCommit(1)]);
      |t.db.publications| == 1 && t.db.publications[0].state == Scheduled && t.db.publications[0].scheduledFor < t.clock
  {
    hide Run;
    var steps := Preparation(s.clock + 1);
    PreparationRuns(s, s.clock + 1);
    RunOne(s, steps, Tick(2));
    RunOne(s, steps + [Tick(2)], ScheduleCommit(1));
  }

  ghost predicate Due(s: Sys, p: Id) {
    PS.Due(s.db.publications, p, s.clock)
  }

  /** The publication that the preparation leads to, at the instant at which it is due. */
  lemma OnePublication(s: Sys)
    requires Initial(s)
    ensures var t := Run(s, Preparation(s.clock + 1) + [ScheduleCommit(1)] + [Tick(1)]);
      && |t.db.publications| == 1 && Due(t, 0) && t.db.attempts == [] && t.clock == s.clock + 1
      && t.queue == multiset{} && t.workers == map[]
      && t.db.publications[0].tenant == 0 && t.db.publications[0].key == "schedule"
      && t.db.publications[0].fingerprint == Request(s.clock + 1)
      && |t.db.variants| == 1 && t.db.variants[0].mediaAssets == {0, 1} && t.db.publications[0].variant == 0
      && t.db.connections == [Connection(0, BRAND, FacebookPage, true)] && t.db.publications[0].connection == 0
  {
    hide Run;
    var steps := Preparation(s.clock + 1);
    PreparationRuns(s, s.clock + 1);
    RunOne(s, steps, ScheduleCommit(1));
    RunOne(s, steps + [ScheduleCommit(1)], Tick(1));
  }

  /** Once its time has come the service still knows the request, but over HTTP its repetition is refused. */
  lemma RepetitionRefused(s: Sys)
    requires Initial(s)
    ensures var t, again := Run(s, Preparation(s.clock + 1) + [ScheduleCommit(1)] + [Tick(1)]), Request(s.clock + 1);
      && ReplaySchedule(t.db, 0, "schedule", again) == Some(Ok(Reply(0, false)))
      && AnswerOf(t, ScheduleView(2, 0, {BRAND}, "schedule", again)) == Raised(ScheduleInPast)
  {
    hide Run;
    OnePublication(s);
    var t := Run(s, Preparation(s.clock + 1) + [ScheduleCommit(1)] + [Tick(1)]);
    assert t.db.publications[..0] == [];
  }

  /** A draft with two images is accepted. */
  lemma TwoImagesAccepted(s: Sys, due: Time)
    requires Initial(s)
    ensures var db := Run(s, Preparation(due)[..7]).db; |db.variants| == 1 && |db.variants[0].mediaAssets| == 2
  {
    hide Run;
    DraftWritten(s, due);
  }

  function Accepts(request: MP.Request, id: string): MP.Exchange {
    MP.Exchange(request, MP.Answered(200, MP.Object(id, "")))
  }

  lemma TwoUploadsAndPost(urls: seq<string>, body: string)
    requires |urls| == 2
    ensures MP.FacebookRun(TwoImagesSent(urls, body), ["a", "b"], urls, body, Ok("c"))
  {
  }

  function TwoImagesSent(urls: seq<string>, body: string): seq<MP.Exchange>
    requires |urls| == 2
  {
    [Accepts(MP.UnpublishedPhoto(urls[0]), "a"), Accepts(MP.UnpublishedPhoto(urls[1]), "b"),
     Accepts(MP.Feed(body, ["a", "b"]), "c")]
  }

  /** A delivery of two images to Facebook: three requests, one attempt. */
  lemma ThreeRequestsOneAttempt(s: Sys) returns (d: PS.Delivery, sent: seq<MP.Exchange>, run: MP.Run, after: Db)
    requires Initial(s)
    ensures var t := Run(s, Preparation(s.clock + 1) + [ScheduleCommit(1)] + [Tick(1)]);
      && T.Tried(t.db, 0, d, sent, Ok("c"), "", ["a", "b"], run) && |sent| == 3
      && PS.Due(t.db.publications, 0, t.clock)
      && PS.Delivered(PS.Claim(t.db, 0, t.clock), after, 0, |t.db.attempts|, Ok("c"), "", "", "published",
        t.maxAttempts, t.clock)
      && |after.attempts| == |t.db.attempts| + 1
  {
    hide Run, PS.DeliveryImages, MP.FacebookRun, PS.Urls, PS.History, T.RequestedImages;
    var steps := Preparation(s.clock + 1) + [ScheduleCommit(1)] + [Tick(1)];
    var t := Run(s, steps);
    OnePublication(s);
    T.DeliveredSlides(s, steps, 0);
    T.ImageCounts(s, steps, 0);
    d := PS.Delivery(true, true, _ => Some("u"));
    var urls := PS.Urls(PS.DeliveryImages(t.db, 0), d.urlOf).value;
    sent := TwoImagesSent(urls, t.db.variants[0].body);
    run := MP.Run([], [], "", []);
    after := PS.Succeed(PS.Claim(t.db, 0, t.clock), 0, |t.db.attempts|, "c", t.clock);
    TwoUploadsAndPost(urls, t.db.variants[0].body);
    P.OneAttempt(t.db, after, 0, t.clock, t.clock, Ok("c"), "", "", "published", t.maxAttempts);
  }

  function ToDueTime(s: Sys): seq<Step> {
    Preparation(s.clock + 1) + [ScheduleCommit(1)] + [Tick(1)]
  }

  /** The steps that dispatch publication 0 and claim it. */
  function ClaimSteps(): seq<Step> {
    [Dispatch([0]), StartTask(0, 0), ClaimTask(0)]
  }

  lemma ClaimHolds(s: Sys)
    requires |s.db.publications| == 1 && Due(s, 0) && s.workers == map[0 := Started(0, s.clock)]
    ensures var t := Next(s, ClaimTask(0)); Holds(t, 0) && t.workers[0].publication == 0
  {
  }

  /** A run in which a delivery of two images is dispatched, claimed, sent and published, with the account of it. */
  lemma DeliveryPublishes(s: Sys) returns (steps: seq<Step>, xs: seq<P.Account>)
    requires Initial(s)
    ensures P.Genuine(s, steps, xs)
    ensures var db := Run(s, steps).db; |db.publications| >= 1 && db.publications[0].state == Published
  {
    hide Run, Next, Holds, PS.Due, Grows, TablesOk, OwnersOk, T.Tried;
    var d, sent, run, after := ThreeRequestsOneAttempt(s);
    var due, claimed, finish := Run(s, ToDueTime(s)), ToDueTime(s) + ClaimSteps(), FinishOk(0, "c");
    OnePublication(s);
    TaskStarts(due);
    ClaimHolds(Next(Next(due, Dispatch([0])), StartTask(0, 0)));
    ThreeSteps(due, ClaimSteps());
    RunConcat(s, ToDueTime(s), ClaimSteps());
    var t := Run(s, claimed);
    steps := claimed + [finish];
    RunOne(s, claimed, finish);
    T.Always(s, ToDueTime(s));
    T.Always(s, claimed);
    RunGrows(due, ClaimSteps());
    P.TriedStays(due.db, t.db, 0, d, sent, Ok("c"), "", ["a", "b"], run);
    P.SuccessPublishes(t, finish, 0);
    var x := P.Account(d, sent, "", ["a", "b"], run);
    xs := seq(|steps|, _ => x);
    forall i | 0 <= i < |steps| ensures P.Accounts(Run(s, steps[..i]), steps[i], xs[i]) {
      if i == |claimed| {
        assert steps[..i] == claimed;
      } else {
        NoFinishBefore(s, i);
      }
    }
  }

  lemma NoFinishBefore(s: Sys, i: nat)
    requires i < |ToDueTime(s) + ClaimSteps()|
    ensures var step := (ToDueTime(s) + ClaimSteps())[i]; !step.FinishOk? && !step.FinishError?
  {
  }

  /** The steps that dispatch publication 0, claim it, and lose the worker. */
  function CrashSteps(): seq<Step> {
    [Dispatch([0]), StartTask(0, 0), ClaimTask(0), CrashWorker(0)]
  }

  /** A worker killed between its two transactions leaves a publication that nothing ever finishes. */
  lemma CrashLosesPublication(s: Sys, more: seq<Step>)
    requires Initial(s)
    ensures var t := Run(s, Preparation(s.clock + 1) + [ScheduleCommit(1)] + [Tick(1)] + CrashSteps() + more);
      && |t.db.publications| >= 1 && t.db.publications[0].state == Publishing
      && |PS.History(t.db.attempts, 0)| == 1
  {
    hide Run, DeliveryInv;
    var steps := Preparation(s.clock + 1) + [ScheduleCommit(1)] + [Tick(1)];
    OnePublication(s);
    Crashes(Run(s, steps));
    var t := Run(s, steps + CrashSteps());
    RunConcat(s, steps, CrashSteps());
    RunConcat(s, steps + CrashSteps(), more);
    DeliveryAlways(s, steps + CrashSteps());
    CrashedForever(t, more, 0);
  }

  lemma TaskStarts(s: Sys)
    requires |s.db.publications| == 1 && Due(s, 0) && s.queue == multiset{} && s.workers == map[]
    ensures var t := Next(Next(s, Dispatch([0])), StartTask(0, 0));
      t.db == s.db && t.clock == s.clock && t.workers == map[0 := Started(0, s.clock)]
  {
    assert IsDueBatch(s.db.publications, s.clock, [0]);
  }

  lemma ClaimThenCrash(s: Sys)
    requires |s.db.publications| == 1 && Due(s, 0) && s.db.attempts == [] && s.workers == map[0 := Started(0, s.clock)]
    ensures var t := Next(Next(s, ClaimTask(0)), CrashWorker(0)); Orphaned(t, 0) && |PS.History(t.db.attempts, 0)| == 1
  {
    var t := Next(s, ClaimTask(0));
    assert t.db.attempts[..0] == [];
  }

  lemma Crashes(s: Sys)
    requires |s.db.publications| == 1 && Due(s, 0) && s.db.attempts == [] && s.queue == multiset{} && s.workers == map[]
    ensures var t := Run(s, CrashSteps()); Orphaned(t, 0) && |PS.History(t.db.attempts, 0)| == 1
  {
    hide Next, PS.History;
    TaskStarts(s);
    ClaimThenCrash(Next(Next(s, Dispatch([0])), StartTask(0, 0)));
    FourSteps(s, CrashSteps());
  }

  lemma ThreeSteps(s: Sys, steps: seq<Step>)
    requires |steps| == 3
    ensures Run(s, steps) == Next(Next(Next(s, steps[0]), steps[1]), steps[2])
  {
    hide Next;
    RunOne(s, [], steps[0]);
    RunOne(s, [steps[0]], steps[1]);
    RunOne(s, steps[..2], steps[2]);
    assert [] + [steps[0]] == [steps[0]] && [steps[0]] + [steps[1]] == steps[..2] && steps[..2] + [steps[2]] == steps;
  }

  lemma FourSteps(s: Sys, steps: seq<Step>)
    requires |steps| == 4
    ensures Run(s, steps) == Next(Next(Next(Next(s, steps[0]), steps[1]), steps[2]), steps[3])
  {
    hide Next;
    ThreeSteps(s, steps[..3]);
    RunOne(s, steps[..3], steps[3]);
    assert steps[..3] + [steps[3]] == steps;
  }
}
