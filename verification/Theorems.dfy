/** The main results, for every run from an empty database. */
module Theorems {
  import opened Types
  import opened Tables
  import opened ContentServices
  import MP = MetaPublishing
  import PS = PublicationServices
  import MS = MetaScript
  import R = Replay
  import opened Machine
  import opened Growth
  import opened DeliveryInvariant
  import opened EditorialInvariant
  import opened ContentInvariant
  import opened AuditInvariant

  ghost predicate SystemInv(s: Sys) {
    DeliveryInv(s) && EditorialInv(s.db) && ContentInv(s) && EventsOk(s) && LogOwned(s.db)
  }

  lemma InitialSystem(s: Sys)
    requires Initial(s)
    ensures SystemInv(s)
  {
  }

  lemma SystemStep(s: Sys, step: Step)
    requires SystemInv(s)
    ensures SystemInv(Next(s, step))
  {
    hide DeliveryInv, PostsOk, LinksOk, ContentInv, EventsOk, LogOwned, NextDb, NextSessions, NextWorkers, NextQueue;
    DeliveryStep(s, step);
    EditorialStep(s, step);
    ContentStep(s, step);
    EventsStep(s, step);
    OwnedStep(s, step);
  }

  lemma {:induction false} SystemRun(s: Sys, steps: seq<Step>)
    requires SystemInv(s)
    ensures SystemInv(Run(s, steps))
    decreases |steps|
  {
    hide Next, SystemInv;
    if steps != [] {
      SystemStep(s, steps[0]);
      SystemRun(Next(s, steps[0]), steps[1..]);
    }
  }

  lemma Always(s: Sys, steps: seq<Step>)
    requires Initial(s)
    ensures SystemInv(Run(s, steps))
  {
    hide Initial, SystemInv;
    InitialSystem(s);
    SystemRun(s, steps);
  }

  lemma Parts(s: Sys)
    requires SystemInv(s)
    ensures DeliveryInv(s) && EventsOk(s) && ContentInv(s)
  {
  }

  /** The images the author asked for when the publication's post was created, later repetitions dropped. */
  ghost function RequestedImages(db: Db, p: Id): seq<Id>
    requires p < |db.publications| && db.publications[p].variant < |db.posts|
  {
    Dedup(db.posts[db.publications[p].variant].fingerprint.mediaAssetIds)
  }

  /**
   * Whenever a publication is delivered, the images handed to the publisher are those the author requested, in
   * order, with the requested text. There are between one and ten of them, all READY JPEG or PNG files of the
   * publication's tenant and brand, so the guards of the delivery path never fire, although delivery rechecks none of
   * it.
   */
  lemma DeliveredSlides(s: Sys, steps: seq<Step>, p: Id)
    requires Initial(s) && p < |Run(s, steps).db.publications|
    ensures var db := Run(s, steps).db;
      var row := db.publications[p];
      && row.variant < |db.variants| && row.variant < |db.posts|
      && db.variants[row.variant].mediaAssets <= db.assets.Keys
      && PS.DeliveryImages(db, row.variant) == RequestedImages(db, p)
      && 1 <= |RequestedImages(db, p)| <= 10
      && db.variants[row.variant].body == db.posts[row.variant].fingerprint.body
      && forall a :: a in RequestedImages(db, p) ==>
           && a in db.assets && db.assets[a].tenant == row.tenant && db.assets[a].brand == row.brand
           && db.assets[a].uploadState == UploadReady
           && (db.assets[a].contentType == "image/jpeg" || db.assets[a].contentType == "image/png")
           && 0 < db.assets[a].sizeBytes <= 10_485_760
  {
    Always(s, steps);
    SlidesOf(Run(s, steps).db, p);
  }

  lemma SlidesOf(db: Db, p: Id)
    requires TablesOk(db) && OwnersOk(db) && p < |db.publications|
    ensures var row := db.publications[p];
      && row.variant < |db.variants| && row.variant < |db.posts|
      && db.variants[row.variant].mediaAssets <= db.assets.Keys
      && PS.DeliveryImages(db, row.variant) == RequestedImages(db, p)
      && 1 <= |RequestedImages(db, p)| <= 10
      && db.variants[row.variant].body == db.posts[row.variant].fingerprint.body
      && forall a :: a in RequestedImages(db, p) ==>
           && a in db.assets && db.assets[a].tenant == row.tenant && db.assets[a].brand == row.brand
           && db.assets[a].uploadState == UploadReady
           && (db.assets[a].contentType == "image/jpeg" || db.assets[a].contentType == "image/png")
           && 0 < db.assets[a].sizeBytes <= 10_485_760
  {
    assert PublicationOwned(db, p);
    var v := db.publications[p].variant;
    assert VariantOk(db, v);
    var variant := db.variants[v];
    forall a | a in variant.mediaAssets ensures a in db.assets {
      assert Usable(db.assets, db.posts[v].tenant, db.posts[v].brand, a);
    }
    StoredOrderIsRestored(db.assets, variant.mediaAssets, variant.mediaAssetOrder);
    DedupMeaning(db.posts[v].fingerprint.mediaAssetIds);
    NoDuplicatesCardinality(variant.mediaAssetOrder);
    assert forall a :: a in variant.mediaAssetOrder ==> a in variant.mediaAssets;
  }

  /**
   * A post has as many images as the author named different ones, and that is how many a publication of it delivers.
   */
  lemma ImageCounts(s: Sys, steps: seq<Step>, v: Id)
    requires Initial(s) && v < |Run(s, steps).db.posts|
    ensures var db := Run(s, steps).db;
      var named := |Elements(db.posts[v].fingerprint.mediaAssetIds)|;
      && v < |db.variants| && db.variants[v].mediaAssets <= db.assets.Keys
      && |db.variants[v].mediaAssets| == |PS.DeliveryImages(db, v)| == named
  {
    hide Run;
    Always(s, steps);
    ImagesOf(Run(s, steps).db, v);
  }

  lemma ImagesOf(db: Db, v: Id)
    requires TablesOk(db) && v < |db.posts|
    ensures v < |db.variants| && db.variants[v].mediaAssets <= db.assets.Keys
    ensures |db.variants[v].mediaAssets| == |PS.DeliveryImages(db, v)| ==
      |Elements(db.posts[v].fingerprint.mediaAssetIds)|
  {
    assert VariantOk(db, v);
    var variant, ids := db.variants[v], db.posts[v].fingerprint.mediaAssetIds;
    forall a | a in variant.mediaAssets ensures a in db.assets {
      assert Usable(db.assets, db.posts[v].tenant, db.posts[v].brand, a);
    }
    StoredOrderIsRestored(db.assets, variant.mediaAssets, variant.mediaAssetOrder);
    DedupMeaning(ids);
    NoDuplicatesCardinality(variant.mediaAssetOrder);
    assert Elements(ids) == Elements(Dedup(ids));
  }

  /** Nothing about the images stops a delivery: only Meta's settings, the stored token and the signing of URLs can. */
  lemma GuardsNeverFire(s: Sys, steps: seq<Step>, p: Id, d: PS.Delivery)
    requires Initial(s) && p < |Run(s, steps).db.publications|
    ensures var db := Run(s, steps).db;
      var v := db.publications[p].variant;
      && v < |db.variants| && v < |db.posts| && db.variants[v].mediaAssets <= db.assets.Keys
      && var images := PS.DeliveryImages(db, v);
         && 1 <= |images| <= 10
         && (PS.Refusal(images, d).None? <==>
              d.configured && d.decrypts && forall a :: a in RequestedImages(db, p) ==> d.urlOf(a).Some?)
  {
    hide Run, PS.DeliveryImages, RequestedImages;
    DeliveredSlides(s, steps, p);
  }

  /** What a worker that holds publication `p` sent, and how it ended, when the database was `db`. */
  ghost predicate Tried(
    db: Db, p: Id, d: PS.Delivery, sent: seq<MP.Exchange>, r: Result<string, MP.Fault>, code: string, ids: seq<string>,
      run: MP.Run)
  {
    && p < |db.publications| && db.publications[p].variant < |db.posts|
    && db.publications[p].connection < |db.connections| && db.publications[p].variant < |db.variants|
    && db.variants[db.publications[p].variant].mediaAssets <= db.assets.Keys
    && PS.Tried(db, db.publications[p], d, sent, r, code, ids, run)
  }

  /** The request that names what is published: the only image, or the containers of the slides. */
  function Naming(images: seq<Id>, d: PS.Delivery, text: string, ids: seq<string>): MP.Request
    requires images != [] && forall i :: 0 <= i < |images| ==> d.urlOf(images[i]).Some?
  {
    if |images| == 1 then MP.Media(d.urlOf(images[0]).value, text) else MP.Carousel(ids, text)
  }

  /** These exchanges published this text with the only image, or with a carousel of the images in this order. */
  ghost predicate InstagramSlides(images: seq<Id>, text: string, d: PS.Delivery, sent: seq<MP.Exchange>, run: MP.Run) {
    var c := |MP.Concat(run.children)|;
    && images != [] && (forall i :: 0 <= i < |images| ==> d.urlOf(images[i]).Some?)
    && c < |sent| && sent[c].request == Naming(images, d, text, run.ids)
    && MS.Gives(sent[c].response, run.parent)
    && sent[|sent| - 1].request == MP.MediaPublish(run.parent)
    && (|images| > 1 ==> |run.ids| == |images| && forall i :: 0 <= i < |images| ==>
         MS.Accepted(sent[..c], MP.CarouselItem(d.urlOf(images[i]).value), run.ids[i]))
  }

  /** These exchanges posted this text with the only image, or attached the uploads of the images in this order. */
  ghost predicate FacebookSlides(images: seq<Id>, text: string, d: PS.Delivery, sent: seq<MP.Exchange>,
    ids: seq<string>)
  {
    var n := |sent| - 1;
    && images != [] && (forall i :: 0 <= i < |images| ==> d.urlOf(images[i]).Some?)
    && (if |images| == 1 then n == 0 && sent[0].request == MP.Photo(d.urlOf(images[0]).value, text)
        else
          && |ids| == |images| == n
          && sent[n].request == MP.Feed(text, ids)
          && forall i :: 0 <= i < n ==>
               sent[i].request == MP.UnpublishedPhoto(d.urlOf(images[i]).value)
                 && MS.Gives(sent[i].response, ids[i]))
  }

  /** The requested slides reached the publication's channel, and the last request was answered with identifier `id`. */
  ghost predicate Reached(db: Db, p: Id, d: PS.Delivery, sent: seq<MP.Exchange>, ids: seq<string>, run: MP.Run,
    id: string)
    requires p < |db.publications| && db.publications[p].variant < |db.posts|
    requires db.publications[p].connection < |db.connections|
  {
    var images, text := RequestedImages(db, p), db.posts[db.publications[p].variant].fingerprint.body;
    && sent != [] && MS.Gives(sent[|sent| - 1].response, id)
    && match db.connections[db.publications[p].connection].channel
       case FacebookPage => FacebookSlides(images, text, d, sent, ids)
       case InstagramBusiness => InstagramSlides(images, text, d, sent, run)
       case OtherChannel => false
  }

  /**
   * A successful Instagram delivery publishes, with the text the author requested, the image the author requested,
   * or a carousel naming, in slide order, the containers made for the images the author requested. Its identifier
   * is the answer to the final request.
   */
  lemma SlidesReachInstagram(
    s: Sys, steps: seq<Step>, p: Id, d: PS.Delivery,
    sent: seq<MP.Exchange>, r: Result<string, MP.Fault>, code: string, ids: seq<string>, run: MP.Run)
    requires Initial(s) && Tried(Run(s, steps).db, p, d, sent, r, code, ids, run) && r.Ok?
    requires var db := Run(s, steps).db; db.connections[db.publications[p].connection].channel == InstagramBusiness
    ensures Reached(Run(s, steps).db, p, d, sent, ids, run, r.value)
  {
    hide Initial, Run, MP.InstagramRun, MP.Concat, MS.Accepted, PS.DeliveryImages, PS.Urls, RequestedImages;
    DeliveredSlides(s, steps, p);
    var db := Run(s, steps).db;
    var variant := db.publications[p].variant;
    var urls := PS.Urls(PS.DeliveryImages(db, variant), d.urlOf).value;
    MS.PublishOnlyFinished(run, urls, db.variants[variant].body, r);
  }

  /**
   * A successful Facebook delivery posts, with the text the author requested, the image the author requested, or
   * attaches, in slide order, the photos uploaded for the images the author requested. Its identifier is the answer
   * to the final request.
   */
  lemma SlidesReachFacebook(
    s: Sys, steps: seq<Step>, p: Id, d: PS.Delivery,
    sent: seq<MP.Exchange>, r: Result<string, MP.Fault>, code: string, ids: seq<string>, run: MP.Run)
    requires Initial(s) && Tried(Run(s, steps).db, p, d, sent, r, code, ids, run) && r.Ok?
    requires var db := Run(s, steps).db; db.connections[db.publications[p].connection].channel == FacebookPage
    ensures Reached(Run(s, steps).db, p, d, sent, ids, run, r.value)
  {
    hide Initial, Run, PS.DeliveryImages, PS.Urls, RequestedImages;
    DeliveredSlides(s, steps, p);
    var db := Run(s, steps).db;
    var variant := db.publications[p].variant;
    var urls := PS.Urls(PS.DeliveryImages(db, variant), d.urlOf).value;
    MS.FacebookFollowsScript(sent, ids, urls, db.variants[variant].body, r);
  }

  /** A publication, its post, its images, its channel and every audit row about them share one tenant and one brand. */
  lemma BrandClosure(s: Sys, steps: seq<Step>, p: Id)
    requires Initial(s) && p < |Run(s, steps).db.publications|
    ensures var db := Run(s, steps).db;
      var row := db.publications[p];
      && row.variant < |db.variants| && row.variant < |db.posts| && row.connection < |db.connections|
      && row.tenant == row.brand.workspace
      && db.posts[row.variant].tenant == row.tenant && db.posts[row.variant].brand == row.brand
      && db.connections[row.connection].tenant == row.tenant && db.connections[row.connection].brand == row.brand
      && (forall a :: a in db.variants[row.variant].mediaAssets ==>
           && a in db.assets && db.assets[a].tenant == row.tenant && db.assets[a].brand == row.brand
           && db.assets[a].uploadState == UploadReady)
      && (forall i :: 0 <= i < |db.log| && About(db.log[i].event, p) ==>
           db.log[i].tenant == row.tenant && db.log[i].brand == row.brand)
  {
    Always(s, steps);
    var db := Run(s, steps).db;
    assert PublicationOwned(db, p);
    assert VariantOk(db, db.publications[p].variant);
    forall i | 0 <= i < |db.log| && About(db.log[i].event, p)
      ensures db.log[i].tenant == db.publications[p].tenant && db.log[i].brand == db.publications[p].brand
    {
      assert RowOwned(db, db.log[i]);
    }
  }

  /** A repeated request is answered with a row of the brand it asked for, although keys are looked up per tenant. */
  lemma ReplayKeepsBrand(s: Sys, steps: seq<Step>, step: Step)
    requires Initial(s)
    ensures var e := Run(s, steps);
      && (step.CreateLookup? && AnswerOf(e, step).Replied? ==>
           AnswerOf(e, step).reply.row < |e.db.posts| && e.db.posts[AnswerOf(e, step).reply.row].brand == step.brand)
      && (step.ScheduleLookup? && AnswerOf(e, step).Replied? ==>
           && step.session in e.sessions && AnswerOf(e, step).reply.row < |e.db.publications|
           && e.db.publications[AnswerOf(e, step).reply.row].brand == e.sessions[step.session].brand)
  {
    hide SystemInv, ContentInv, AnswerOf;
    Always(s, steps);
    Parts(Run(s, steps));
    if step.CreateLookup? && AnswerOf(Run(s, steps), step).Replied? {
      DraftReplayBrand(Run(s, steps), step);
    }
    if step.ScheduleLookup? && AnswerOf(Run(s, steps), step).Replied? {
      ScheduleReplayBrand(Run(s, steps), step);
    }
  }

  lemma DraftReplayBrand(e: Sys, step: Step)
    requires ContentInv(e) && step.CreateLookup? && AnswerOf(e, step).Replied?
    ensures var row := AnswerOf(e, step).reply.row; row < |e.db.posts| && e.db.posts[row].brand == step.brand
  {
    assert VariantOk(e.db, AnswerOf(e, step).reply.row);
  }

  lemma ScheduleReplayBrand(e: Sys, step: Step)
    requires ContentInv(e) && step.ScheduleLookup? && AnswerOf(e, step).Replied?
    ensures step.session in e.sessions
    ensures var row := AnswerOf(e, step).reply.row;
      row < |e.db.publications| && e.db.publications[row].brand == e.sessions[step.session].brand
  {
    assert SessionOk(e.db, e.sessions[step.session]);
    assert PublicationOwned(e.db, AnswerOf(e, step).reply.row);
    assert VariantOk(e.db, e.sessions[step.session].schedule.variant);
  }

  /**
   * The approval check on the view's unlocked read is sound: a post that was read as APPROVED is APPROVED when the
   * request commits, and the post of every publication is APPROVED at every later moment.
   */
  lemma UnlockedApprovalIsSound(s: Sys, steps: seq<Step>, more: seq<Step>)
    requires Initial(s)
    ensures var e, f := Run(s, steps), Run(Run(s, steps), more);
      && (forall k :: k in e.sessions && !e.sessions[k].CreateMissed? && e.sessions[k].seen.postState == Approved ==>
           && e.sessions[k].schedule.variant < |e.db.posts|
           && e.db.posts[e.sessions[k].schedule.variant].state == Approved)
      && (forall p: Id :: p < |e.db.publications| ==>
           && p < |f.db.publications| && f.db.publications[p].variant == e.db.publications[p].variant < |f.db.posts|
           && f.db.posts[f.db.publications[p].variant].state == Approved)
  {
    Always(s, steps);
    Always(s, steps + more);
    RunConcat(s, steps, more);
    var e, f := Run(s, steps), Run(Run(s, steps), more);
    RunGrows(e, more);
    forall k | k in e.sessions && !e.sessions[k].CreateMissed? && e.sessions[k].seen.postState == Approved
      ensures e.sessions[k].schedule.variant < |e.db.posts|
        && e.db.posts[e.sessions[k].schedule.variant].state == Approved
    {
      assert SessionOk(e.db, e.sessions[k]);
      assert VariantOk(e.db, e.sessions[k].schedule.variant);
    }
    forall p: Id | p < |e.db.publications|
      ensures p < |f.db.publications| && f.db.publications[p].variant == e.db.publications[p].variant < |f.db.posts|
        && f.db.posts[f.db.publications[p].variant].state == Approved
    {
      assert PublicationOwned(f.db, p);
    }
  }

  /**
   * The check that the channel is active is not sound in the same way: whenever a request is about to create a
   * publication, deactivating its channel first does not stop it. The commit depends on the flag only as the
   * view read it.
   */
  lemma InactiveChannelIsScheduled(s: Sys, k: Id)
    requires ContentInv(s) && k in s.sessions && s.sessions[k].ScheduleMissed?
    ensures var c := s.sessions[k];
      var t := Next(s, SetActive(c.schedule.connection, false));
      && AnswerOf(t, ScheduleCommit(k)) == AnswerOf(s, ScheduleCommit(k))
      && (AnswerOf(t, ScheduleCommit(k)).Replied? ==>
           var db, n := Next(t, ScheduleCommit(k)).db, |s.db.publications|;
           && |db.publications| == n + 1 && db.publications[n].connection < |db.connections|
           && !db.connections[db.publications[n].connection].isActive && c.seen.isActive)
  {
    assert SessionOk(s.db, s.sessions[k]);
  }

  ghost predicate ApprovedBy(db: Db, link: Id, p: Id) {
    link < |db.requests| && db.requests[link].post == p && db.requests[link].decision == LinkApproved
  }

  /**
   * Folding a post's audit rows in commit order gives its state. Its entries into PENDING_APPROVAL exceed the links
   * decided CHANGES_REQUESTED by 0 in DRAFT, by 1 in PENDING_APPROVAL, and by 0 or 1 in APPROVED; no other state
   * occurs. A pending post has an undecided link, and at most one link of a post ever recorded APPROVED.
   */
  lemma ApprovalAccounting(s: Sys, steps: seq<Step>, p: Id)
    requires Initial(s) && p < |Run(s, steps).db.posts|
    ensures var db := Run(s, steps).db;
      var t, changes := Told(db.log, p), ChangesDecided(db.requests, p);
      && t.created == 1 && t.state == Some(db.posts[p].state) && t.changes == changes
      && (match db.posts[p].state
          case Draft => t.entries == changes
          case PendingApproval => t.entries == changes + 1 && HasUndecided(db.requests, p)
          case Approved => changes <= t.entries <= changes + 1
          case _ => false)
      && (forall i, j :: ApprovedBy(db, i, p) && ApprovedBy(db, j, p) ==> i == j)
  {
    Always(s, steps);
    var db := Run(s, steps).db;
    assert PostOk(db.posts[p], Told(db.log, p), ChangesDecided(db.requests, p), HasUndecided(db.requests, p));
  }

  /**
   * Once a post is APPROVED every link still out is dead: whatever is decided on it later is refused and changes
   * nothing.
   */
  lemma ApprovedPostClosesItsLinks(
    s: Sys, steps: seq<Step>, token: Id, decision: Decision, comment: string, author: string)
    requires token < |s.db.requests| && s.db.requests[token].post < |s.db.posts|
    requires s.db.posts[s.db.requests[token].post].state == Approved
    ensures var e, step := Run(s, steps), DecideLink(token, decision, comment, author);
      NextDb(e, step) == e.db && AnswerOf(e, step).Raised?
  {
    hide Run;
    RunGrows(s, steps);
  }

  /**
   * A link is decided at most once, before it expires, never after it was revoked, and with a comment when changes
   * are asked for.
   */
  lemma LinkDecisions(s: Sys, steps: seq<Step>, more: seq<Step>, link: Id)
    requires Initial(s) && link < |Run(s, steps).db.requests|
    ensures var db, later := Run(s, steps).db, Run(Run(s, steps), more).db;
      var r := db.requests[link];
      && (r.decision == Undecided <==> r.decidedAt == None)
      && (r.decidedAt.Some? ==> r.decidedAt.value < r.expiresAt && r.revokedAt == None)
      && (r.decision == ChangesRequested ==> Commented(db.comments, link))
      && link < |later.requests|
      && (r.decidedAt.Some? || r.revokedAt.Some? ==> later.requests[link] == r)
  {
    Always(s, steps);
    RunGrows(Run(s, steps), more);
    assert DecisionOk(Run(s, steps).db.requests[link], Commented(Run(s, steps).db.comments, link));
  }

  /**
   * A publication's audit rows are one `scheduled` followed by one report for each attempt that ended, in
   * attempt order; replaying them gives its state, or SCHEDULED while an attempt is open.
   */
  lemma PublicationLogReplays(s: Sys, steps: seq<Step>, p: Id)
    requires Initial(s) && p < |Run(s, steps).db.publications|
    ensures var e := Run(s, steps);
      var events, closed, state := EventsOf(e.db.log, p), Closed(PS.History(e.db.attempts, p)),
        e.db.publications[p].state;
      && |events| == |closed| + 1 && events[0] == PublicationScheduled(p)
      && (forall k :: 0 <= k < |closed| ==> closed[k].attemptNumber == k + 1 && events[k + 1] == EventOf(p, closed[k]))
      && ReplayEvents(events) == At(if state == Publishing then Scheduled else state)
  {
    hide SystemInv;
    Always(s, steps);
    Parts(Run(s, steps));
    LogOf(Run(s, steps), p);
  }

  lemma LogOf(e: Sys, p: Id)
    requires DeliveryInv(e) && EventsOk(e) && p < |e.db.publications|
    ensures var events, closed, state := EventsOf(e.db.log, p), Closed(PS.History(e.db.attempts, p)),
      e.db.publications[p].state;
      && |events| == |closed| + 1 && events[0] == PublicationScheduled(p)
      && (forall k :: 0 <= k < |closed| ==> closed[k].attemptNumber == k + 1 && events[k + 1] == EventOf(p, closed[k]))
      && ReplayEvents(events) == At(if state == Publishing then Scheduled else state)
  {
    hide ReplayEvents, Closed, EventOf, EventsOf, DeliveryInv, EventsOk;
    EventsAre(e, p);
    EventsReplayState(e, p);
    Numbered(e, p);
    ClosedIsPrefix(PS.History(e.db.attempts, p));
  }

  lemma EventsAre(e: Sys, p: Id)
    requires EventsOk(e) && p < |e.db.publications|
    ensures var events, closed := EventsOf(e.db.log, p), Closed(PS.History(e.db.attempts, p));
      && |events| == |closed| + 1 && events[0] == PublicationScheduled(p)
      && forall k :: 0 <= k < |closed| ==> events[k + 1] == EventOf(p, closed[k])
  {
    hide Closed, EventOf, EventsOf;
    ReportsAt(p, Closed(PS.History(e.db.attempts, p)));
  }

  lemma ClosedIsPrefix(h: seq<Attempt>)
    ensures |Closed(h)| <= |h| && forall k :: 0 <= k < |Closed(h)| ==> Closed(h)[k] == h[k]
  {
  }

  lemma Numbered(e: Sys, p: Id)
    requires DeliveryInv(e) && p < |e.db.publications|
    ensures var h := PS.History(e.db.attempts, p); forall k :: 0 <= k < |h| ==> h[k].attemptNumber == k + 1
  {
    assert PublicationOk(e.db.publications[p], PS.History(e.db.attempts, p), e.maxAttempts, e.clock);
  }

  /**
   * However lookups and inserts of concurrent requests interleave, a (tenant, key) has at most one post and one
   * publication.
   */
  lemma OneRowPerKey(s: Sys, steps: seq<Step>, i: Id, j: Id)
    requires Initial(s)
    ensures var db := Run(s, steps).db;
      && (i < |db.posts| && j < |db.posts| && i != j ==>
           db.posts[i].tenant != db.posts[j].tenant || db.posts[i].key != db.posts[j].key)
      && (i < |db.publications| && j < |db.publications| && i != j ==>
           db.publications[i].tenant != db.publications[j].tenant || db.publications[i].key != db.publications[j].key)
      && |db.variants| == |db.posts|
      && (i < |db.posts| ==> Told(db.log, i).created == 1 && db.variants[i].post == i)
  {
    Always(s, steps);
    var db := Run(s, steps).db;
    if i < |db.posts| {
      assert VariantOk(db, i);
      assert PostOk(db.posts[i], Told(db.log, i), ChangesDecided(db.requests, i), HasUndecided(db.requests, i));
    }
  }

  /** No asset is ever FAILED: the state a mismatch writes is rolled back with its transaction. READY is never left. */
  lemma UploadsNeverFail(s: Sys, steps: seq<Step>, more: seq<Step>, a: Id)
    requires Initial(s)
    ensures var db, later := Run(s, steps).db, Run(Run(s, steps), more).db;
      a in db.assets ==>
        && db.assets[a].uploadState != UploadFailed && a in later.assets
        && (db.assets[a].uploadState == UploadReady ==> later.assets[a] == db.assets[a])
  {
    RunGrows(s, steps);
    RunGrows(Run(s, steps), more);
  }

  /** The metadata that storage reports for an asset agree with what was announced for it. */
  ghost predicate Agrees(asset: Asset, remote: ObjectMetadata) {
    && remote.contentLength == asset.sizeBytes && remote.contentType == asset.contentType
    && (remote.sha256 == asset.checksum || remote.sha256 == "" || asset.checksum == "")
  }

  lemma MadeReady(s: Sys, step: Step, a: Id)
    requires a in NextDb(s, step).assets && NextDb(s, step).assets[a].uploadState == UploadReady
    ensures
      || (a in s.db.assets && s.db.assets[a] == NextDb(s, step).assets[a])
      || (step.ConfirmAsset? && step.asset == a && step.remote.Some?
          && step.tenant == NextDb(s, step).assets[a].tenant && Agrees(NextDb(s, step).assets[a], step.remote.value))
  {
    if !(step.CreateUpload? || step.ConfirmAsset?) {
      SameAssets(s, step);
    }
  }

  lemma SameAssets(s: Sys, step: Step)
    requires !(step.CreateUpload? || step.ConfirmAsset?)
    ensures NextDb(s, step).assets == s.db.assets
  {
  }

  /** Every READY asset was made so by a confirmation for which storage reported its size, its type and its checksum. */
  lemma {:induction false} ReadyWasConfirmed(s: Sys, steps: seq<Step>, a: Id) returns (i: nat)
    requires Initial(s) && a in Run(s, steps).db.assets && Run(s, steps).db.assets[a].uploadState == UploadReady
    ensures i < |steps| && steps[i].ConfirmAsset? && steps[i].asset == a && steps[i].remote.Some?
    ensures var asset, remote := Run(s, steps).db.assets[a], steps[i].remote.value;
      && steps[i].tenant == asset.tenant
      && remote.contentLength == asset.sizeBytes && remote.contentType == asset.contentType
      && (remote.sha256 == asset.checksum || remote.sha256 == "" || asset.checksum == "")
    decreases |steps|
  {
    hide NextDb, NextQueue, NextSessions, NextWorkers;
    i := |steps| - 1;
    RunLast(s, steps);
    var e := Run(s, steps[..i]);
    MadeReady(e, steps[i], a);
    if a in e.db.assets && e.db.assets[a] == Run(s, steps).db.assets[a] {
      i := ReadyWasConfirmed(s, steps[..i], a);
    }
  }

  /** An attempt that has ended is never rewritten. */
  lemma {:induction false} EndedAttemptsAreFinal(s: Sys, steps: seq<Step>, a: Id)
    requires DeliveryInv(s) && a < |s.db.attempts| && s.db.attempts[a].outcome != AttemptOpen
    ensures a < |Run(s, steps).db.attempts| && Run(s, steps).db.attempts[a] == s.db.attempts[a]
    decreases |steps|
  {
    hide Next, DeliveryInv;
    if steps != [] {
      DeliveryStep(s, steps[0]);
      EndedAttemptStays(s, steps[0], a);
      EndedAttemptsAreFinal(Next(s, steps[0]), steps[1..], a);
    }
  }

  lemma EndedAttemptStays(s: Sys, step: Step, a: Id)
    requires DeliveryInv(s) && a < |s.db.attempts| && s.db.attempts[a].outcome != AttemptOpen
    ensures a < |Next(s, step).db.attempts| && Next(s, step).db.attempts[a] == s.db.attempts[a]
  {
    hide DeliveryInv, PS.History;
    if (step.FinishOk? || step.FinishError?) && step.worker in s.workers && s.workers[step.worker].Holding? {
      FinishFindsItsOwn(s, step.worker);
    } else if !(step.ClaimTask? || step.FinishOk? || step.FinishError? || step.ScheduleCommit?) {
      OtherStepsFrame(s, step);
    }
  }

  /**
   * Deleting from any history any requests that were answered with a replay, a conflict, a refusal or a lost race
   * changes neither the final database nor the clock, the queue, the workers or any other answer.
   */
  lemma DeletingReplays(s: Sys, steps: seq<Step>, d: set<Id>)
    requires Initial(s) && R.FreshRequests(steps, {}) && forall k :: k in d ==> R.Dismissed(s, steps, k)
    ensures R.SameWithout(Run(s, steps), Run(s, R.Without(steps, d)), d)
    ensures R.Answers(s, R.Without(steps, d)) == R.KeptAnswers(s, steps, d)
  {
    hide Run, R.FreshRequests, R.Dismissed, R.Traceless;
    forall k | k in d ensures R.Traceless(s, steps, k) {
      R.DismissedIsTraceless(s, steps, k, {});
    }
    R.DeletionIsNeutral(s, s, steps, d);
  }
}
