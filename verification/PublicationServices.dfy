/** relay/publications/services.py: one function per transaction, and the methods that carry it out. */
module PublicationServices {
  import opened Types
  import opened ContentServices
  import opened MetaPublishing

  function Pow2(n: nat): (r: nat)
    ensures r >= 1
  {
    if n == 0 then 1 else 2 * Pow2(n - 1)
  }

  /** `_retry_delay` */
  function RetryDelay(attemptNumber: nat): Time {
    MINUTE * if Pow2(attemptNumber) < 30 then Pow2(attemptNumber) else 30
  }

  /** 2, 4, 8, 16 minutes, and half an hour after every later attempt. */
  lemma RetryDelayMeaning(n: nat)
    ensures n == 1 ==> RetryDelay(n) == 120_000_000
    ensures n == 2 ==> RetryDelay(n) == 240_000_000
    ensures n == 3 ==> RetryDelay(n) == 480_000_000
    ensures n == 4 ==> RetryDelay(n) == 960_000_000
    ensures n >= 5 ==> RetryDelay(n) == 1_800_000_000
  {
    assert Pow2(1) == 2 && Pow2(2) == 4 && Pow2(3) == 8 && Pow2(4) == 16 && Pow2(5) == 32;
    if n >= 5 { Pow2Large(n); }
  }

  lemma {:induction false} Pow2Large(n: nat)
    ensures n >= 5 ==> Pow2(n) >= 32
  {
    assert Pow2(1) == 2 && Pow2(2) == 4 && Pow2(3) == 8 && Pow2(4) == 16 && Pow2(5) == 32;
    if n > 5 { Pow2Large(n - 1); }
  }

  /** The attempts of one publication, in the order in which they were made. */
  function History(attempts: seq<Attempt>, p: Id): seq<Attempt> {
    if attempts == [] then [] else
      var earlier, last := History(attempts[..|attempts| - 1], p), attempts[|attempts| - 1];
      if last.publication == p then earlier + [last] else earlier
  }

  predicate Due(publications: seq<Publication>, p: Id, now: Time) {
    p < |publications| && publications[p].state == Scheduled && publications[p].scheduledFor <= now
  }

  /** The claiming transaction. */
  function Claim(db: Db, p: Id, now: Time): Db
    requires Due(db.publications, p, now)
  {
    db.(attempts := db.attempts + [Attempt(p, |History(db.attempts, p)| + 1, now, None, AttemptOpen, "", "")],
        publications := db.publications[p := db.publications[p].(state := Publishing)])
  }

  /** The transaction that records a delivery. It checks neither row. */
  function Succeed(db: Db, p: Id, a: Id, providerId: string, now: Time): Db
    requires p < |db.publications| && a < |db.attempts|
  {
    var attempt := db.attempts[a].(outcome := AttemptPublished, completedAt := Some(now));
    var publication := db.publications[p].(
      state := Published, providerId := providerId, lastErrorCode := "", lastErrorMessage := "");
    db.(attempts := db.attempts[a := attempt],
        publications := db.publications[p := publication],
        log := db.log + [AuditLog(publication.tenant, publication.brand,
          PublicationPublished(p, attempt.attemptNumber))])
  }

  datatype Failure = Failure(transient: bool, code: string, message: string)

  predicate ShouldRetry(failure: Failure, attemptNumber: nat, maxAttempts: int) {
    failure.transient && attemptNumber < maxAttempts
  }

  /** `_finish_failure`. It checks neither row. */
  function Fail(db: Db, p: Id, a: Id, failure: Failure, maxAttempts: int, now: Time): Db
    requires p < |db.publications| && a < |db.attempts|
  {
    var n := db.attempts[a].attemptNumber;
    var retry := ShouldRetry(failure, n, maxAttempts);
    var attempt := db.attempts[a].(
      outcome := if retry then AttemptRetry else AttemptFailed,
      errorCode := failure.code, errorMessage := failure.message, completedAt := Some(now));
    var publication := db.publications[p].(
      state := if retry then Scheduled else LifecycleState.Failed,
      scheduledFor := if retry then now + RetryDelay(n) else db.publications[p].scheduledFor,
      lastErrorCode := failure.code, lastErrorMessage := failure.message);
    var event := if retry then PublicationRetryScheduled(p, n, failure.code) else PublicationFailed(p, n, failure.code);
    db.(attempts := db.attempts[a := attempt],
        publications := db.publications[p := publication],
        log := db.log + [AuditLog(publication.tenant, publication.brand, event)])
  }

  /** The images handed to the publisher for a variant. */
  function DeliveryImages(db: Db, v: Id): seq<Id>
    requires v < |db.variants| && db.variants[v].mediaAssets <= db.assets.Keys
  {
    OrderedMediaAssets(ByCreation(db.assets, db.variants[v].mediaAssets), db.variants[v].mediaAssetOrder)
  }

  method ClaimDuePublication(store: Store, p: Id, now: Time) returns (a: Option<Id>)
    modifies store
    ensures a.Some? <==>
      && p < |old(store.publications)| && old(store.publications)[p].state == Scheduled
      && old(store.publications)[p].scheduledFor <= now
    ensures a.None? ==> store.Rows() == old(store.Rows())
    ensures a.Some? ==> store.Rows() == Claim(old(store.Rows()), p, now) && a.value == |old(store.attempts)|
    ensures a.Some? ==>
      && store.attempts == old(store.attempts)
           + [Attempt(p, |History(old(store.attempts), p)| + 1, now, None, AttemptOpen, "", "")]
      && store.publications == old(store.publications)[p := old(store.publications)[p].(state := Publishing)]
      && store.log == old(store.log)
  {
    if !Due(store.publications, p, now) {
      return None;
    }
    var publication := store.publications[p];
    a := Some(|store.attempts|);
    store.attempts := store.attempts
      + [Attempt(p, |History(store.attempts, p)| + 1, now, None, AttemptOpen, "", "")];
    publication := publication.(state := Publishing);
    store.publications := store.publications[p := publication];
  }

  method RecordSuccess(store: Store, p: Id, a: Id, providerId: string, now: Time)
    requires p < |store.publications| && a < |store.attempts|
    modifies store
    ensures store.Rows() == Succeed(old(store.Rows()), p, a, providerId, now)
    ensures store.publications[p].state == Published && store.publications[p].providerId == providerId
    ensures store.publications[p].lastErrorCode == store.publications[p].lastErrorMessage == ""
    ensures store.attempts[a].outcome == AttemptPublished && store.attempts[a].completedAt == Some(now)
    ensures var row := old(store.publications)[p];
      store.log == old(store.log)
        + [AuditLog(row.tenant, row.brand, PublicationPublished(p, old(store.attempts[a].attemptNumber)))]
    ensures forall q: Id :: q < |store.publications| && q != p ==> store.publications[q] == old(store.publications)[q]
    ensures forall b: Id :: b < |store.attempts| && b != a ==> store.attempts[b] == old(store.attempts)[b]
  {
    var publication, attempt := store.publications[p], store.attempts[a];
    attempt := attempt.(outcome := AttemptPublished);
    attempt := attempt.(completedAt := Some(now));
    store.attempts := store.attempts[a := attempt];
    publication := publication.(state := Published);
    publication := publication.(providerId := providerId);
    publication := publication.(lastErrorCode := "");
    publication := publication.(lastErrorMessage := "");
    store.publications := store.publications[p := publication];
    store.log := store.log
      + [AuditLog(publication.tenant, publication.brand, PublicationPublished(p, attempt.attemptNumber))];
  }

  method FinishFailure(store: Store, p: Id, a: Id, failure: Failure, maxAttempts: int, now: Time)
    returns (answer: string)
    requires p < |store.publications| && a < |store.attempts|
    modifies store
    ensures store.Rows() == Fail(old(store.Rows()), p, a, failure, maxAttempts, now)
    ensures answer == if failure.transient && old(store.attempts[a].attemptNumber) < maxAttempts
                      then "retry_scheduled" else "failed"
    ensures answer == "retry_scheduled" ==>
      && store.publications[p].state == Scheduled && store.attempts[a].outcome == AttemptRetry
      && store.publications[p].scheduledFor == now + RetryDelay(old(store.attempts[a].attemptNumber))
    ensures answer == "failed" ==>
      && store.publications[p].state == LifecycleState.Failed && store.attempts[a].outcome == AttemptFailed
      && store.publications[p].scheduledFor == old(store.publications)[p].scheduledFor
    ensures store.publications[p].lastErrorCode == store.attempts[a].errorCode == failure.code
    ensures store.publications[p].lastErrorMessage == store.attempts[a].errorMessage == failure.message
    ensures store.attempts[a].completedAt == Some(now)
    ensures var row, n := old(store.publications)[p], old(store.attempts[a].attemptNumber);
      store.log == old(store.log) + [AuditLog(row.tenant, row.brand,
        if answer == "failed" then PublicationFailed(p, n, failure.code)
        else PublicationRetryScheduled(p, n, failure.code))]
    ensures forall q: Id :: q < |store.publications| && q != p ==> store.publications[q] == old(store.publications)[q]
    ensures forall b: Id :: b < |store.attempts| && b != a ==> store.attempts[b] == old(store.attempts)[b]
  {
    var publication, attempt := store.publications[p], store.attempts[a];
    attempt := attempt.(outcome :=
      if failure.transient && attempt.attemptNumber < maxAttempts then AttemptRetry else AttemptFailed);
    attempt := attempt.(errorCode := failure.code);
    attempt := attempt.(errorMessage := failure.message);
    attempt := attempt.(completedAt := Some(now));
    store.attempts := store.attempts[a := attempt];
    var shouldRetry := failure.transient && attempt.attemptNumber < maxAttempts;
    publication := publication.(state := if shouldRetry then Scheduled else LifecycleState.Failed);
    publication := publication.(scheduledFor :=
      if shouldRetry then now + RetryDelay(attempt.attemptNumber) else publication.scheduledFor);
    publication := publication.(lastErrorCode := attempt.errorCode);
    publication := publication.(lastErrorMessage := attempt.errorMessage);
    store.publications := store.publications[p := publication];
    store.log := store.log + [AuditLog(publication.tenant, publication.brand,
      if shouldRetry then PublicationRetryScheduled(p, attempt.attemptNumber, attempt.errorCode)
      else PublicationFailed(p, attempt.attemptNumber, attempt.errorCode))];
    return if shouldRetry then "retry_scheduled" else "failed";
  }

  /** The delivery URLs of the images; None when one of them cannot be signed. */
  function Urls(images: seq<Id>, urlOf: Id -> Option<string>): (r: Option<seq<string>>)
    ensures r.Some? <==> forall i :: 0 <= i < |images| ==> urlOf(images[i]).Some?
    ensures r.Some? ==> |r.value| == |images| && forall i :: 0 <= i < |images| ==> Some(r.value[i]) == urlOf(images[i])
  {
    if images == [] then Some([]) else
    var first, others := urlOf(images[0]), Urls(images[1..], urlOf);
    if first.Some? && others.Some? then Some([first.value] + others.value) else None
  }

  /** What `publish_due_publication` leaves behind after its claim when the delivery ended with `r`. */
  ghost predicate Delivered(
    claimed: Db, after: Db, p: Id, a: Id, r: Result<string, Fault>, code: string, message: string, answer: string,
    maxAttempts: int, now: Time)
    requires p < |claimed.publications| && a < |claimed.attempts|
  {
    match r
    case Ok(id) => id != "" && after == Succeed(claimed, p, a, id, now) && answer == "published"
    case Err(Crash) => after == claimed && answer == "crashed"
    case Err(fault) =>
      var failure := Failure(fault.TransientError?, code, message);
      && after == Fail(claimed, p, a, failure, maxAttempts, now)
      && answer == if ShouldRetry(failure, claimed.attempts[a].attemptNumber, maxAttempts) then "retry_scheduled"
        else "failed"
  }

  /** The class of the exception a publisher's run ended with; it is not used when nothing was caught. */
  function CodeOf(r: Result<string, Fault>): string {
    match r
    case Err(TransientError) => "MetaPublishTransientError"
    case Err(PermanentError) => "MetaPublishPermanentError"
    case _ => ""
  }

  /** What was sent to the channel for these images, and how it ended. */
  ghost predicate Sent(
    channel: Channel, sent: seq<Exchange>, body: string, urls: seq<string>, r: Result<string, Fault>, ids: seq<string>,
      run: Run)
    requires 1 <= |urls| <= 10
  {
    match channel
    case FacebookPage => FacebookRun(sent, ids, urls, body, r)
    case InstagramBusiness => sent == run.Trace() && InstagramRun(run, urls, body, r)
    case OtherChannel => sent == [] && r == Err(PermanentError)
  }

  lemma CodeMeaning(r: Result<string, Fault>)
    ensures r == Err(TransientError) ==> CodeOf(r) == "MetaPublishTransientError"
    ensures r == Err(PermanentError) ==> CodeOf(r) == "MetaPublishPermanentError"
  {
  }

  /** A successful run answers with a non-empty identifier. */
  lemma SuccessHasId(
    channel: Channel, sent: seq<Exchange>, body: string, urls: seq<string>, r: Result<string, Fault>, ids: seq<string>,
      run: Run)
    requires 1 <= |urls| <= 10 && Sent(channel, sent, body, urls, r, ids, run) && r.Ok?
    ensures r.value != ""
  {
  }

  /** What a delivery depends on besides the database: Meta's settings, the stored token, and a URL for each image. */
  datatype Delivery = Delivery(configured: bool, decrypts: bool, urlOf: Id -> Option<string>)

  /** The exception that stops a delivery before anything is sent, if one does. */
  function Refusal(images: seq<Id>, d: Delivery): (code: Option<string>)
    ensures code.None? ==> 1 <= |images| <= 10 && Urls(images, d.urlOf).Some?
  {
    if !(1 <= |images| <= 10) then Some("MetaPublishPermanentError")
    else if !d.configured then Some("MetaConfigurationError")
    else if !d.decrypts then Some("TokenEncryptionError")
    else if Urls(images, d.urlOf).None? then Some("MediaDeliveryUnavailable")
    else None
  }

  /** The guards in their order, and the exception each raises. */
  lemma RefusalMeaning(images: seq<Id>, d: Delivery)
    ensures var count, urls := 1 <= |images| <= 10, forall i :: 0 <= i < |images| ==> d.urlOf(images[i]).Some?;
      && (Refusal(images, d) == Some("MetaPublishPermanentError") <==> !count)
      && (Refusal(images, d) == Some("MetaConfigurationError") <==> count && !d.configured)
      && (Refusal(images, d) == Some("TokenEncryptionError") <==> count && d.configured && !d.decrypts)
      && (Refusal(images, d) == Some("MediaDeliveryUnavailable") <==> count && d.configured && d.decrypts && !urls)
      && (Refusal(images, d) == None <==> count && d.configured && d.decrypts && urls)
  {
  }

  /** What the guarded block sent for a publication, and the exception it ended with. */
  ghost predicate Tried(
    db: Db, publication: Publication, d: Delivery,
    sent: seq<Exchange>, r: Result<string, Fault>, code: string, ids: seq<string>, run: Run)
    requires publication.connection < |db.connections| && publication.variant < |db.variants|
    requires db.variants[publication.variant].mediaAssets <= db.assets.Keys
  {
    var images, variant := DeliveryImages(db, publication.variant), db.variants[publication.variant];
    match Refusal(images, d)
    case Some(refusal) => sent == [] && r == Err(PermanentError) && code == refusal
    case None =>
      && Sent(db.connections[publication.connection].channel, sent, variant.body, Urls(images, d.urlOf).value, r, ids,
        run)
      && code == CodeOf(r) && (r.Ok? ==> r.value != "")
  }

  /** Whether the publication's rows refer to rows that exist. */
  ghost predicate References(db: Db, p: Id) {
    p < |db.publications| ==>
      && db.publications[p].connection < |db.connections| && db.publications[p].variant < |db.variants|
      && db.variants[db.publications[p].variant].mediaAssets <= db.assets.Keys
  }

  /** The guarded block of `publish_due_publication`; `code` names the class of a caught exception. */
  method TryPublish(store: Store, client: MetaPublishingClient, publication: Publication, d: Delivery)
    returns (r: Result<string, Fault>, code: string, ghost ids: seq<string>, ghost run: Run)
    requires client.Valid()
    requires publication.connection < |store.connections| && publication.variant < |store.variants|
    requires store.variants[publication.variant].mediaAssets <= store.assets.Keys
    modifies client
    ensures client.Valid()
    ensures old(client.log) <= client.log
    ensures Tried(store.Rows(), publication, d, client.log[|old(client.log)|..], r, code, ids, run)
  {
    hide FacebookRun, InstagramRun, Urls, History, Sleep;
    ids, run := [], Run([], [], "", []);
    var images := DeliveryImages(store.Rows(), publication.variant);
    if !(1 <= |images| <= 10) {
      return Err(PermanentError), "MetaPublishPermanentError", ids, run;
    }
    if !d.configured {
      return Err(PermanentError), "MetaConfigurationError", ids, run;
    }
    if !d.decrypts {
      return Err(PermanentError), "TokenEncryptionError", ids, run;
    }
    var urls := Urls(images, d.urlOf);
    if urls.None? {
      return Err(PermanentError), "MediaDeliveryUnavailable", ids, run;
    }
    var channel, body := store.connections[publication.connection].channel, store.variants[publication.variant].body;
    r, ids, run := client.PublishImages(channel, body, urls.value);
    code := CodeOf(r);
    if r.Ok? {
      SuccessHasId(channel, client.log[|old(client.log)|..], body, urls.value, r, ids, run);
    }
  }

  /**
   * `publish_due_publication` when nothing else touches the database between its two transactions.
   * An exception that the function does not catch is answered with "crashed". `message` is the caught exception's text.
   */
  method PublishDuePublication(
    store: Store, client: MetaPublishingClient, p: Id, now: Time, finished: Time, maxAttempts: int, d: Delivery,
      message: string)
    returns (answer: string, ghost r: Result<string, Fault>, ghost code: string, ghost ids: seq<string>, ghost run: Run)
    requires client.Valid() && References(store.Rows(), p)
    modifies store, client
    ensures client.Valid()
    ensures !Due(old(store.publications), p, now) ==>
      answer == "not_due_or_claimed" && store.Rows() == old(store.Rows()) && client.log == old(client.log)
    ensures Due(old(store.publications), p, now) ==>
      && Delivered(
           Claim(old(store.Rows()), p, now), store.Rows(), p, |old(store.attempts)|, r, code, message, answer,
             maxAttempts, finished)
      && old(client.log) <= client.log
      && Tried(old(store.Rows()), old(store.publications)[p], d, client.log[|old(client.log)|..], r, code, ids, run)
    ensures answer == "not_due_or_claimed" <==>
      !(p < |old(store.publications)| && old(store.publications)[p].state == Scheduled
        && old(store.publications)[p].scheduledFor <= now)
    ensures answer != "not_due_or_claimed" ==>
      var retried := |History(old(store.attempts), p)| + 1 < maxAttempts;
      && p < |store.publications|
      && (r.Ok? ==> answer == "published" && store.publications[p].state == Published
                    && store.publications[p].providerId == r.value)
      && (r == Err(TransientError) ==>
           && answer == (if retried then "retry_scheduled" else "failed")
           && store.publications[p].state == (if retried then Scheduled else LifecycleState.Failed))
      && (r == Err(PermanentError) ==> answer == "failed" && store.publications[p].state == LifecycleState.Failed)
      && (r == Err(Crash) ==> answer == "crashed" && store.publications[p].state == Publishing)
      && (answer == "failed" || answer == "retry_scheduled" ==>
           store.publications[p].lastErrorCode == code && store.publications[p].lastErrorMessage == message)
  {
    hide Sent, Urls, History, Sleep;
    r, code, ids, run := Err(PermanentError), "", [], Run([], [], "", []);
    var claimed := ClaimDuePublication(store, p, now);
    if claimed.None? {
      return "not_due_or_claimed", r, code, ids, run;
    }
    var a := claimed.value;
    var result, name;
    result, name, ids, run := TryPublish(store, client, store.publications[p], d);
    r, code := result, name;
    match result {
      case Err(Crash) =>
        answer := "crashed";
      case Err(fault) =>
        answer := FinishFailure(store, p, a, Failure(fault == TransientError, name, message), maxAttempts, finished);
      case Ok(id) =>
        RecordSuccess(store, p, a, id, finished);
        answer := "published";
    }
  }
}
