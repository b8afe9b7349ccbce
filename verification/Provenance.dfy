/** What was sent to Meta for a publication, beside the rows that record it. */
module Provenance {
  import opened Types
  import MP = MetaPublishing
  import MS = MetaScript
  import PS = PublicationServices
  import opened Machine
  import opened Growth
  import opened ContentInvariant
  import opened DeliveryInvariant
  import opened DeliveryTheorems
  import opened AuditInvariant
  import T = Theorems

  /**
   * A delivery adds exactly one attempt, however many requests it makes.
   */
  lemma OneAttempt(
    before: Db, after: Db, p: Id, now: Time, finished: Time, r: Result<string, MP.Fault>, code: string, message: string,
    answer: string, maxAttempts: int)
    requires PS.Due(before.publications, p, now)
    requires PS.Delivered(PS.Claim(before, p, now), after, p, |before.attempts|, r, code, message, answer, maxAttempts,
      finished)
    ensures |after.attempts| == |before.attempts| + 1
    ensures |PS.History(after.attempts, p)| == |PS.History(before.attempts, p)| + 1
  {
    var claimed := PS.Claim(before, p, now);
    var n := |before.attempts|;
    assert after.attempts == before.attempts + [after.attempts[n]];
    HistoryAppend(before.attempts, after.attempts[n], p);
  }

  /** The provider did not answer the first request with an identifier. */
  predicate FirstRejected(sent: seq<MP.Exchange>) {
    && sent != []
    && var answer := sent[0].response;
       !(answer.Answered? && answer.status < 400 && answer.body.Object? && answer.body.id != "")
  }

  lemma {:induction false} ChildrenAreLong(children: seq<seq<MP.Exchange>>, ids: seq<string>, creates: seq<MP.Request>)
    requires MP.ChildrenReady(children, ids, creates) && children != []
    ensures |MP.Concat(children)| >= 2 && !FirstRejected(MP.Concat(children))
  {
    MP.LastChild(children, ids, creates);
    var n := |ids| - 1;
    if n > 0 {
      ChildrenAreLong(children[..n], ids[..n], creates);
    } else {
      assert MP.Concat(children) == children[n] by { assert children[..n] == []; }
    }
  }

  lemma ContainerLength(block: seq<MP.Exchange>, create: MP.Request, r: Result<string, MP.Fault>)
    requires MP.Container(block, create, r)
    ensures |block| >= 1 && (|block| == 1 <==> FirstRejected(block)) && (r.Ok? ==> |block| >= 2)
  {
  }

  lemma ParentLength(rest: seq<MP.Exchange>, create: MP.Request, parent: string, r: Result<string, MP.Fault>)
    requires MP.ParentRun(rest, create, parent, r)
    ensures |rest| >= 1 && (|rest| == 1 <==> FirstRejected(rest))
  {
    hide MP.Container;
    if r.Err? && MP.Container(rest, create, r) {
      ContainerLength(rest, create, r);
    } else {
      ContainerLength(rest[..|rest| - 1], create, Ok(parent));
    }
  }

  /** An Instagram delivery makes a single request exactly when that is rejected. */
  lemma InstagramRequests(run: MP.Run, urls: seq<string>, body: string, r: Result<string, MP.Fault>)
    requires |urls| >= 1 && MP.InstagramRun(run, urls, body, r)
    ensures |run.Trace()| >= 1
    ensures |run.Trace()| == 1 <==> FirstRejected(run.Trace())
  {
    hide MP.Container, MP.ParentRun;
    var creates := MP.ChildRequests(urls);
    if run.children != [] {
      hide MP.ChildrenReady;
      ChildrenAreLong(run.children, run.ids, creates);
    } else {
      assert run.Trace() == run.rest;
      if |run.ids| < |creates| {
        ContainerLength(run.rest, creates[|run.ids|], r);
      } else {
        ParentLength(run.rest, MP.ParentRequest(urls, body, run.ids), run.parent, r);
      }
    }
  }

  lemma FacebookRequests(
    sent: seq<MP.Exchange>, ids: seq<string>, urls: seq<string>, body: string, r: Result<string, MP.Fault>)
    requires |urls| >= 1 && MP.FacebookRun(sent, ids, urls, body, r)
    ensures |sent| >= 1
    ensures |sent| == 1 <==> |urls| == 1 || FirstRejected(sent)
  {
  }

  /** A delivery that is attempted, to a channel that is supported. */
  ghost predicate Attempted(channel: Channel, images: seq<Id>, d: PS.Delivery) {
    PS.Refusal(images, d).None? && channel != OtherChannel
  }

  /** How many requests a delivery makes: none, one, or more. */
  lemma RequestsMade(
    db: Db, row: Publication, d: PS.Delivery,
    sent: seq<MP.Exchange>, r: Result<string, MP.Fault>, code: string, ids: seq<string>, run: MP.Run)
    requires row.connection < |db.connections| && row.variant < |db.variants|
    requires db.variants[row.variant].mediaAssets <= db.assets.Keys
    requires PS.Tried(db, row, d, sent, r, code, ids, run)
    ensures var channel, images := db.connections[row.connection].channel, PS.DeliveryImages(db, row.variant);
      && (sent == [] <==> !Attempted(channel, images, d))
      && (|sent| == 1 <==>
        Attempted(channel, images, d) && ((channel == FacebookPage && |images| == 1) || FirstRejected(sent)))
  {
    hide MP.FacebookRun, MP.InstagramRun, PS.DeliveryImages, FirstRejected;
    var channel, body := db.connections[row.connection].channel, db.variants[row.variant].body;
    var images := PS.DeliveryImages(db, row.variant);
    if Attempted(channel, images, d) {
      var urls := PS.Urls(images, d.urlOf).value;
      if channel == FacebookPage {
        FacebookRequests(sent, ids, urls, body, r);
      } else {
        InstagramRequests(run, urls, body, r);
      }
    }
  }

  /**
   * The documentation has every request create an attempt. A delivery adds as many attempts as it makes requests
   * exactly when it is attempted at all and either posts a single image to Facebook or has its first request
   * rejected.
   */
  lemma AttemptsAndRequests(
    before: Db, after: Db, p: Id, now: Time, finished: Time, d: PS.Delivery, message: string, answer: string,
      maxAttempts: int,
    sent: seq<MP.Exchange>, r: Result<string, MP.Fault>, code: string, ids: seq<string>, run: MP.Run)
    requires PS.Due(before.publications, p, now) && PS.References(before, p)
    requires PS.Delivered(PS.Claim(before, p, now), after, p, |before.attempts|, r, code, message, answer, maxAttempts,
      finished)
    requires PS.Tried(before, before.publications[p], d, sent, r, code, ids, run)
    ensures var row := before.publications[p];
      var channel, images := before.connections[row.connection].channel, PS.DeliveryImages(before, row.variant);
      |after.attempts| - |before.attempts| == |sent| <==>
        Attempted(channel, images, d) && ((channel == FacebookPage && |images| == 1) || FirstRejected(sent))
  {
    hide PS.Tried, PS.DeliveryImages, PS.Delivered, FirstRejected, Attempted;
    OneAttempt(before, after, p, now, finished, r, code, message, answer, maxAttempts);
    RequestsMade(before, before.publications[p], d, sent, r, code, ids, run);
  }

  /** What a delivery sent is as good an account of it in every later database. */
  lemma TriedStays(
    a: Db, b: Db, p: Id, d: PS.Delivery,
    sent: seq<MP.Exchange>, r: Result<string, MP.Fault>, code: string, ids: seq<string>, run: MP.Run)
    requires Grows(a, b) && TablesOk(a) && OwnersOk(a) && TablesOk(b) && OwnersOk(b)
    requires T.Tried(a, p, d, sent, r, code, ids, run)
    ensures T.Tried(b, p, d, sent, r, code, ids, run)
  {
    hide PS.Sent, PS.Refusal, PS.DeliveryImages, PS.CodeOf;
    T.SlidesOf(a, p);
    T.SlidesOf(b, p);
  }

  /** The step ends the delivery of `p` by the worker that holds it. */
  ghost predicate Finishes(s: Sys, step: Step, p: Id) {
    (step.FinishOk? || step.FinishError?) && Holds(s, step.worker) && s.workers[step.worker].publication == p
  }

  /** How a delivery ended, according to the step that finishes it. */
  function Outcome(step: Step): Result<string, MP.Fault>
    requires step.FinishOk? || step.FinishError?
  {
    if step.FinishOk? then Ok(step.providerId)
    else Err(if step.failure.transient then MP.TransientError else MP.PermanentError)
  }

  /** What a worker did between its two transactions. */
  datatype Account = Account(d: PS.Delivery, sent: seq<MP.Exchange>, code: string, ids: seq<string>, run: MP.Run)

  /** What the step reports is how the delivery of this account ended. */
  ghost predicate Accounts(s: Sys, step: Step, x: Account) {
    (step.FinishOk? || step.FinishError?) && Holds(s, step.worker) ==>
      && T.Tried(s.db, s.workers[step.worker].publication, x.d, x.sent, Outcome(step), x.code, x.ids, x.run)
      && (step.FinishError? ==> step.failure.code == x.code)
  }

  /**
   * Every finishing step of the run reports the delivery of its own account. The rows that a delivery reads are those
   * at its end, since nothing it reads is ever rewritten (`TriedStays`).
   */
  ghost predicate Genuine(s: Sys, steps: seq<Step>, xs: seq<Account>) {
    && |xs| == |steps|
    && forall i :: 0 <= i < |steps| ==> Accounts(Run(s, steps[..i]), steps[i], xs[i])
  }

  /** A row that is PUBLISHED after a step was so before, or its worker reported it with this identifier. */
  lemma NewlyPublished(s: Sys, step: Step, p: Id)
    requires DeliveryInv(s) && p < |Next(s, step).db.publications|
      && Next(s, step).db.publications[p].state == Published
    ensures p < |s.db.publications|
    ensures (s.db.publications[p].state == Published
      && s.db.publications[p].providerId == Next(s, step).db.publications[p].providerId)
      || (step.FinishOk? && Finishes(s, step, p) && Next(s, step).db.publications[p].providerId == step.providerId)
  {
    hide DeliveryInv, PS.History;
    if !(step.ClaimTask? || step.FinishOk? || step.FinishError? || step.ScheduleCommit?) {
      OtherStepsFrame(s, step);
    }
  }

  /** The step that published a row. */
  lemma {:induction false} PublishingStep(s: Sys, steps: seq<Step>, p: Id) returns (i: nat)
    requires Initial(s)
    requires p < |Run(s, steps).db.publications| && Run(s, steps).db.publications[p].state == Published
    ensures i < |steps| && steps[i].FinishOk? && Finishes(Run(s, steps[..i]), steps[i], p)
    ensures steps[i].providerId == Run(s, steps).db.publications[p].providerId
    decreases |steps|
  {
    hide Next, Finishes;
    i := |steps| - 1;
    RunLast(s, steps);
    DeliveryAlways(s, steps[..i]);
    var e := Run(s, steps[..i]);
    NewlyPublished(e, steps[i], p);
    if p < |e.db.publications| && e.db.publications[p].state == Published
       && e.db.publications[p].providerId == Run(s, steps).db.publications[p].providerId
    {
      i := PublishingStep(s, steps[..|steps| - 1], p);
      assert steps[..|steps| - 1][..i] == steps[..i];
    }
  }

  lemma RunBetween(s: Sys, steps: seq<Step>, i: nat, j: nat)
    requires i < j <= |steps|
    ensures Run(s, steps[..j]) == Run(Next(Run(s, steps[..i]), steps[i]), steps[i + 1..j])
  {
    hide Next;
    RunConcat(s, steps[..i + 1], steps[i + 1..j]);
    assert steps[..i + 1] + steps[i + 1..j] == steps[..j];
    RunLast(s, steps[..i + 1]);
    assert steps[..i + 1][..i] == steps[..i];
  }

  lemma SuccessPublishes(s: Sys, step: Step, p: Id)
    requires step.FinishOk? && Finishes(s, step, p)
    ensures p < |Next(s, step).db.publications| && Next(s, step).db.publications[p].state == Published
  {
  }

  lemma FinishesPublishing(s: Sys, step: Step, p: Id)
    requires DeliveryInv(s) && Finishes(s, step, p)
    ensures p < |s.db.publications| && s.db.publications[p].state == Publishing
  {
    FinishFindsItsOwn(s, step.worker);
  }

  /** After a success no other delivery of the publication finishes. */
  lemma PublishedOnce(s: Sys, steps: seq<Step>, p: Id, i: nat, j: nat)
    requires Initial(s) && i < j < |steps|
    requires steps[i].FinishOk? && Finishes(Run(s, steps[..i]), steps[i], p)
    ensures !Finishes(Run(s, steps[..j]), steps[j], p)
  {
    hide Next, Run, DeliveryInv, Finishes;
    var e := Run(s, steps[..i]);
    SuccessPublishes(e, steps[i], p);
    DeliveryAlways(s, steps[..i]);
    DeliveryStep(e, steps[i]);
    EndedForever(Next(e, steps[i]), steps[i + 1..j], p);
    RunBetween(s, steps, i, j);
    if Finishes(Run(s, steps[..j]), steps[j], p) {
      DeliveryAlways(s, steps[..j]);
      FinishesPublishing(Run(s, steps[..j]), steps[j], p);
    }
  }

  /** An account of a finished delivery is still one in the final database. */
  lemma AccountStays(s: Sys, steps: seq<Step>, xs: seq<Account>, p: Id, i: nat)
    requires Initial(s) && Genuine(s, steps, xs) && i < |steps| && Finishes(Run(s, steps[..i]), steps[i], p)
    ensures T.Tried(Run(s, steps).db, p, xs[i].d, xs[i].sent, Outcome(steps[i]), xs[i].code, xs[i].ids, xs[i].run)
  {
    hide Run, Next, TablesOk, OwnersOk, Grows, T.Tried, DeliveryInv;
    var e := Run(s, steps[..i]);
    assert Accounts(e, steps[i], xs[i]);
    T.Always(s, steps[..i]);
    T.Always(s, steps);
    RunConcat(s, steps[..i], steps[i..]);
    assert steps[..i] + steps[i..] == steps;
    RunGrows(e, steps[i..]);
    var x := xs[i];
    TriedStays(e.db, Run(s, steps).db, p, x.d, x.sent, Outcome(steps[i]), x.code, x.ids, x.run);
  }

  /**
   * End to end: every PUBLISHED row was published by exactly one step of the run, with that step's identifier, and the
   * identifier is the provider's answer to the final request of the delivery that this step reports. That delivery
   * carried the text and the images the author had requested when the post was created, in the author's order.
   */
  lemma PublishedAsRequested(s: Sys, steps: seq<Step>, xs: seq<Account>, p: Id) returns (i: nat)
    requires Initial(s) && Genuine(s, steps, xs)
    requires p < |Run(s, steps).db.publications| && Run(s, steps).db.publications[p].state == Published
    ensures i < |steps| && steps[i].FinishOk? && Finishes(Run(s, steps[..i]), steps[i], p)
    ensures forall j :: 0 <= j < |steps| && steps[j].FinishOk? && Finishes(Run(s, steps[..j]), steps[j], p) ==> j == i
    ensures var db := Run(s, steps).db;
      && db.publications[p].variant < |db.posts| && db.publications[p].connection < |db.connections|
      && steps[i].providerId == db.publications[p].providerId
      && T.Reached(db, p, xs[i].d, xs[i].sent, xs[i].ids, xs[i].run, db.publications[p].providerId)
  {
    hide Run, T.Reached, PS.Tried, PS.DeliveryImages, Accounts, Finishes;
    var db := Run(s, steps).db;
    i := PublishingStep(s, steps, p);
    forall j | 0 <= j < |steps| && steps[j].FinishOk? && Finishes(Run(s, steps[..j]), steps[j], p) ensures j == i {
      if j < i { PublishedOnce(s, steps, p, j, i); }
      if i < j { PublishedOnce(s, steps, p, i, j); }
    }
    AccountStays(s, steps, xs, p, i);
    var x, id := xs[i], db.publications[p].providerId;
    SupportedChannel(db, p, x.d, x.sent, id, x.code, x.ids, x.run);
    if db.connections[db.publications[p].connection].channel == FacebookPage {
      T.SlidesReachFacebook(s, steps, p, x.d, x.sent, Ok(id), x.code, x.ids, x.run);
    } else {
      T.SlidesReachInstagram(s, steps, p, x.d, x.sent, Ok(id), x.code, x.ids, x.run);
    }
  }

  lemma SupportedChannel(
    db: Db, p: Id, d: PS.Delivery, sent: seq<MP.Exchange>, id: string, code: string, ids: seq<string>, run: MP.Run)
    requires T.Tried(db, p, d, sent, Ok(id), code, ids, run)
    ensures db.connections[db.publications[p].connection].channel != OtherChannel
  {
  }

  /** The deliveries of `p` that finish in a run. */
  ghost function Deliveries(s: Sys, steps: seq<Step>, p: Id): nat {
    if steps == [] then 0 else
      var n := |steps| - 1;
      Deliveries(s, steps[..n], p) + if Finishes(Run(s, steps[..n]), steps[n], p) then 1 else 0
  }

  /** A finish closes one attempt of its publication, and nothing else closes any. */
  lemma StepCloses(s: Sys, step: Step, p: Id)
    requires DeliveryInv(s)
    ensures |Closed(PS.History(Next(s, step).db.attempts, p))| ==
      |Closed(PS.History(s.db.attempts, p))| + if Finishes(s, step, p) then 1 else 0
  {
    hide DeliveryInv, PS.History, Closed, Next;
    if step.ClaimTask? && Claims(s, step.worker) {
      ClaimCloses(s, step.worker, p);
    } else if (step.FinishOk? || step.FinishError?) && Holds(s, step.worker) {
      FinishCloses(s, step, p);
    } else {
      SameAttempts(s, step);
    }
  }

  lemma SameAttempts(s: Sys, step: Step)
    requires step.ClaimTask? ==> !Claims(s, step.worker)
    requires step.FinishOk? || step.FinishError? ==> !Holds(s, step.worker)
    ensures Next(s, step).db.attempts == s.db.attempts
  {
    if !(step.ClaimTask? || step.FinishOk? || step.FinishError? || step.ScheduleCommit?) {
      OtherStepsFrame(s, step);
    }
  }

  lemma ClaimCloses(s: Sys, w: Id, p: Id)
    requires DeliveryInv(s) && Claims(s, w)
    ensures Closed(PS.History(Next(s, ClaimTask(w)).db.attempts, p)) == Closed(PS.History(s.db.attempts, p))
  {
    hide DeliveryInv, PS.History, Closed;
    if p < |s.db.publications| {
      ClaimClosesNothing(s, w, p);
    } else {
      HistoryAppend(s.db.attempts, Next(s, ClaimTask(w)).db.attempts[|s.db.attempts|], p);
    }
  }

  lemma FinishCloses(s: Sys, step: Step, p: Id)
    requires DeliveryInv(s) && (step.FinishOk? || step.FinishError?) && Holds(s, step.worker)
    ensures |Closed(PS.History(Next(s, step).db.attempts, p))| ==
      |Closed(PS.History(s.db.attempts, p))| + if Finishes(s, step, p) then 1 else 0
  {
    hide DeliveryInv, PS.History, Next;
    FinishFindsItsOwn(s, step.worker);
    FinishHistories(s, step.worker, step, Next(s, step));
    FinishRow(s, step.worker, step);
  }

  /** The deliveries that finished are the attempts that ended. */
  lemma {:induction false} DeliveriesAreAttempts(s: Sys, steps: seq<Step>, p: Id)
    requires Initial(s)
    ensures Deliveries(s, steps, p) == |Closed(PS.History(Run(s, steps).db.attempts, p))|
    decreases |steps|
  {
    hide Next, DeliveryInv, Finishes;
    if steps != [] {
      var n := |steps| - 1;
      DeliveriesAreAttempts(s, steps[..n], p);
      DeliveryAlways(s, steps[..n]);
      StepCloses(Run(s, steps[..n]), steps[n], p);
      RunLast(s, steps);
    }
  }

  /** The requests that the finished deliveries of `p` made. */
  ghost function RequestsFor(s: Sys, steps: seq<Step>, xs: seq<Account>, p: Id): nat
    requires |xs| == |steps|
  {
    if steps == [] then 0 else
      var n := |steps| - 1;
      RequestsFor(s, steps[..n], xs[..n], p) + if Finishes(Run(s, steps[..n]), steps[n], p) then |xs[n].sent| else 0
  }

  /** The request that makes a publication visible. */
  predicate Final(channel: Channel, request: MP.Request) {
    match channel
    case FacebookPage => request.Feed? || request.Photo?
    case InstagramBusiness => request.MediaPublish?
    case OtherChannel => false
  }

  function Finals(channel: Channel, sent: seq<MP.Exchange>): nat {
    if sent == [] then 0 else
      var n := |sent| - 1;
      Finals(channel, sent[..n]) + if Final(channel, sent[n].request) then 1 else 0
  }

  lemma {:induction false} NoFinals(channel: Channel, sent: seq<MP.Exchange>)
    requires forall i :: 0 <= i < |sent| ==> !Final(channel, sent[i].request)
    ensures Finals(channel, sent) == 0
  {
    if sent != [] {
      NoFinals(channel, sent[..|sent| - 1]);
    }
  }

  /** The final requests that the finished deliveries of `p` made. */
  ghost function FinalsFor(s: Sys, steps: seq<Step>, xs: seq<Account>, channel: Channel, p: Id): nat
    requires |xs| == |steps|
  {
    if steps == [] then 0 else
      var n := |steps| - 1;
      FinalsFor(s, steps[..n], xs[..n], channel, p)
      + if Finishes(Run(s, steps[..n]), steps[n], p) then Finals(channel, xs[n].sent) else 0
  }

  /** The most requests that one delivery of `n` images makes. */
  function RequestBound(channel: Channel, n: nat): nat {
    match channel
    case FacebookPage => if n == 1 then 1 else n + 1
    case InstagramBusiness => 6 * (if n == 1 then 1 else n + 1) + 1
    case OtherChannel => 0
  }

  lemma {:induction false} PostsAndChecks(sent: seq<MP.Exchange>)
    ensures |sent| == MS.Posts(sent) + MS.Checks(sent)
  {
    if sent != [] {
      PostsAndChecks(sent[..|sent| - 1]);
    }
  }

  lemma FacebookWork(
    sent: seq<MP.Exchange>, ids: seq<string>, urls: seq<string>, body: string, r: Result<string, MP.Fault>)
    requires |urls| >= 1 && MP.FacebookRun(sent, ids, urls, body, r)
    ensures |sent| <= RequestBound(FacebookPage, |urls|) && Finals(FacebookPage, sent) <= 1
  {
    NoFinals(FacebookPage, sent[..|sent| - 1]);
  }

  lemma InstagramWork(run: MP.Run, urls: seq<string>, body: string, r: Result<string, MP.Fault>)
    requires |urls| >= 1 && MP.InstagramRun(run, urls, body, r)
    ensures |run.Trace()| <= RequestBound(InstagramBusiness, |urls|) && Finals(InstagramBusiness, run.Trace()) <= 1
  {
    hide MP.InstagramRun, MS.ProperPublish, MP.Concat;
    var t := run.Trace();
    MS.RunFollowsScript(run, urls, body, r);
    PostsAndChecks(t);
    MS.PublishOnlyFinished(run, urls, body, r);
    NoFinals(InstagramBusiness, t[..|t| - 1]);
  }

  /** One delivery makes a bounded number of requests, of which at most one is final. */
  lemma DeliveryWork(
    db: Db, row: Publication, d: PS.Delivery,
    sent: seq<MP.Exchange>, r: Result<string, MP.Fault>, code: string, ids: seq<string>, run: MP.Run)
    requires row.connection < |db.connections| && row.variant < |db.variants|
    requires db.variants[row.variant].mediaAssets <= db.assets.Keys
    requires PS.Tried(db, row, d, sent, r, code, ids, run)
    ensures var channel, images := db.connections[row.connection].channel, PS.DeliveryImages(db, row.variant);
      |sent| <= RequestBound(channel, |images|) && Finals(channel, sent) <= 1
  {
    hide MP.FacebookRun, MP.InstagramRun, PS.DeliveryImages;
    var channel, body := db.connections[row.connection].channel, db.variants[row.variant].body;
    var images := PS.DeliveryImages(db, row.variant);
    if Attempted(channel, images, d) {
      var urls := PS.Urls(images, d.urlOf).value;
      if channel == FacebookPage {
        FacebookWork(sent, ids, urls, body, r);
      } else {
        InstagramWork(run, urls, body, r);
      }
    }
  }

  lemma OneMore(k: nat, bound: nat)
    ensures (k + 1) * bound == k * bound + bound
  {
  }

  lemma {:induction false} SumOfWork(s: Sys, steps: seq<Step>, xs: seq<Account>, channel: Channel, p: Id, bound: nat)
    requires |xs| == |steps|
    requires forall i :: 0 <= i < |steps| && Finishes(Run(s, steps[..i]), steps[i], p) ==>
      |xs[i].sent| <= bound && Finals(channel, xs[i].sent) <= 1
    ensures RequestsFor(s, steps, xs, p) <= Deliveries(s, steps, p) * bound
    ensures FinalsFor(s, steps, xs, channel, p) <= Deliveries(s, steps, p)
    decreases |steps|
  {
    hide Run, Finishes, Finals;
    if steps != [] {
      var n := |steps| - 1;
      assert forall i :: 0 <= i < n ==> steps[..n][..i] == steps[..i];
      SumOfWork(s, steps[..n], xs[..n], channel, p, bound);
      OneMore(Deliveries(s, steps[..n], p), bound);
    }
  }

  /**
   * However many tasks are queued, over any run the finished deliveries of a publication are its ended attempts, at
   * most M; each makes at most as many requests as its images allow, and at most one that can make it visible at Meta.
   */
  lemma WorkAtTheProvider(s: Sys, steps: seq<Step>, xs: seq<Account>, p: Id)
    requires Initial(s) && Genuine(s, steps, xs) && p < |Run(s, steps).db.publications|
    ensures var e := Run(s, steps);
      var row, ended := e.db.publications[p], |Closed(PS.History(e.db.attempts, p))|;
      && row.connection < |e.db.connections| && row.variant < |e.db.posts|
      && var channel := e.db.connections[row.connection].channel;
         && ended <= AttemptBound(e.maxAttempts)
         && RequestsFor(s, steps, xs, p) <= ended * RequestBound(channel, |T.RequestedImages(e.db, p)|)
         && FinalsFor(s, steps, xs, channel, p) <= ended
  {
    hide Run, Next, PS.Tried, PS.DeliveryImages, Accounts, Holds, PS.History, Closed, T.RequestedImages, Finals;
    var e := Run(s, steps);
    T.BrandClosure(s, steps, p);
    T.DeliveredSlides(s, steps, p);
    EndedBound(s, steps, p);
    DeliveriesAreAttempts(s, steps, p);
    var row := e.db.publications[p];
    var channel, n := e.db.connections[row.connection].channel, |T.RequestedImages(e.db, p)|;
    forall i | 0 <= i < |steps| && Finishes(Run(s, steps[..i]), steps[i], p)
      ensures |xs[i].sent| <= RequestBound(channel, n) && Finals(channel, xs[i].sent) <= 1
    {
      AccountStays(s, steps, xs, p, i);
      DeliveryWork(e.db, row, xs[i].d, xs[i].sent, Outcome(steps[i]), xs[i].code, xs[i].ids, xs[i].run);
    }
    SumOfWork(s, steps, xs, channel, p, RequestBound(channel, n));
  }

  lemma EndedBound(s: Sys, steps: seq<Step>, p: Id)
    requires Initial(s) && p < |Run(s, steps).db.publications|
    ensures |Closed(PS.History(Run(s, steps).db.attempts, p))| <= AttemptBound(Run(s, steps).maxAttempts)
  {
    DeliveryAlways(s, steps);
    var e := Run(s, steps);
    assert PublicationOk(e.db.publications[p], PS.History(e.db.attempts, p), e.maxAttempts, e.clock);
  }
}
