/** relay/api/services.py, with the early reads of the schedule view (relay/api/views.py). */
module ApiServices {
  import opened Types
  import opened Tables
  import opened ContentServices

  /** The row with this idempotency key, if any. */
  function FindPost(posts: seq<Post>, tenant: Id, key: string): (r: Option<Id>)
    ensures r.Some? ==> r.value < |posts| && posts[r.value].tenant == tenant && posts[r.value].key == key
    ensures r.None? ==> forall i :: 0 <= i < |posts| ==> !(posts[i].tenant == tenant && posts[i].key == key)
  {
    if posts == [] then None else
    var n := |posts| - 1;
    var earlier := FindPost(posts[..n], tenant, key);
    if earlier.Some? then earlier
    else if posts[n].tenant == tenant && posts[n].key == key then Some(n) else None
  }

  function FindPublication(publications: seq<Publication>, tenant: Id, key: string): (r: Option<Id>)
    ensures r.Some? ==>
      r.value < |publications| && publications[r.value].tenant == tenant && publications[r.value].key == key
    ensures r.None? ==> forall i :: 0 <= i < |publications| ==>
      !(publications[i].tenant == tenant && publications[i].key == key)
  {
    if publications == [] then None else
    var n := |publications| - 1;
    var earlier := FindPublication(publications[..n], tenant, key);
    if earlier.Some? then earlier
    else if publications[n].tenant == tenant && publications[n].key == key then Some(n) else None
  }

  /** The answer of a request whose key already has a row. */
  function ReplayDraft(db: Db, tenant: Id, key: string, payload: CreatePayload): Option<Result<Reply, Error>> {
    match FindPost(db.posts, tenant, key)
    case None => None
    case Some(id) =>
      if db.posts[id].fingerprint != payload then Some(Err(IdempotencyConflict)) else Some(Ok(Reply(id, false)))
  }

  /**
   * The insertion half of `create_post_draft`. A taken key violates the unique constraint and breaks the
   * transaction.
   */
  function InsertDraft(
    db: Db, tenant: Id, brand: Brand, key: string, payload: CreatePayload): (Db, Result<Reply, Error>)
  {
    if FindPost(db.posts, tenant, key).Some? then (db, Err(BrokenTransaction)) else
    match ReadyAssetsForPost(db.assets, tenant, brand, payload.mediaAssetIds)
    case Err(e) => (db, Err(e))
    case Ok(media) =>
      var id := |db.posts|;
      var title := if payload.title.Some? then payload.title.value else "";
      (db.(posts := db.posts + [Post(tenant, brand, title, payload.body, Draft, key, payload)],
           variants := db.variants + [Variant(id, payload.body, Elements(media), media)],
           log := db.log + [AuditLog(tenant, brand, PostDraftCreated(id))]), Ok(Reply(id, true)))
  }

  /** Which drafts are inserted, what stops the others, and what is written. */
  lemma InsertDraftMeaning(db: Db, tenant: Id, brand: Brand, key: string, payload: CreatePayload)
    ensures var media, t, r := payload.mediaAssetIds, InsertDraft(db, tenant, brand, key, payload).0,
        InsertDraft(db, tenant, brand, key, payload).1;
      var taken := exists i :: 0 <= i < |db.posts| && db.posts[i].tenant == tenant && db.posts[i].key == key;
      var attachable := |Elements(media)| <= 10 && forall id :: id in media ==>
        && id in db.assets && db.assets[id].tenant == tenant && db.assets[id].brand == brand
        && db.assets[id].uploadState == UploadReady;
      && (r == Err(BrokenTransaction) <==> taken)
      && (r == Err(InvalidMediaAsset) <==> !taken && !attachable)
      && (r.Ok? <==> !taken && attachable)
      && (r.Err? ==> t == db)
      && (r.Ok? ==>
           var id, title := |db.posts|, if payload.title.Some? then payload.title.value else "";
           && r.value == Reply(id, true)
           && t == db.(
                posts := db.posts + [Post(tenant, brand, title, payload.body, Draft, key, payload)],
                variants := db.variants + [Variant(id, payload.body, Elements(media), Dedup(media))],
                log := db.log + [AuditLog(tenant, brand, PostDraftCreated(id))]))
  {
    ReadyAssetsMeaning(db.assets, tenant, brand, payload.mediaAssetIds);
    DedupMeaning(payload.mediaAssetIds);
    assert Elements(Dedup(payload.mediaAssetIds)) == Elements(payload.mediaAssetIds);
  }

  function CreateDraft(
    db: Db, tenant: Id, brand: Brand, key: string, payload: CreatePayload): (Db, Result<Reply, Error>)
  {
    match ReplayDraft(db, tenant, key, payload)
    case Some(answer) => (db, answer)
    case None => InsertDraft(db, tenant, brand, key, payload)
  }

  /** The insertion half as the source carries it out: write the post, and undo it if that cannot stand. */
  method WriteDraft(store: Store, tenant: Id, brand: Brand, key: string, payload: CreatePayload)
    returns (r: Result<Reply, Error>)
    modifies store
    ensures (store.Rows(), r) == InsertDraft(old(store.Rows()), tenant, brand, key, payload)
    ensures r.Err? ==> store.Rows() == old(store.Rows())
  {
    var begin := store.Rows();
    var id := |store.posts|;
    var title := if payload.title.Some? then payload.title.value else "";
    store.posts := store.posts + [Post(tenant, brand, title, payload.body, Draft, key, payload)];
    assert forall i :: 0 <= i < id ==> store.posts[i] == begin.posts[i];
    if exists i :: 0 <= i < id && store.posts[i].tenant == tenant && store.posts[i].key == key {
      // The unique constraint: another request has inserted the key since the lookup.
      store.Rollback(begin);
      return Err(BrokenTransaction);
    }
    var media := ReadyAssetsForPost(store.assets, tenant, brand, payload.mediaAssetIds);
    if media.Err? {
      store.Rollback(begin);
      return Err(media.error);
    }
    var variant := Variant(id, payload.body, Elements(media.value), []);
    variant := variant.(mediaAssetOrder := media.value);
    store.variants := store.variants + [variant];
    store.log := store.log + [AuditLog(tenant, brand, PostDraftCreated(id))];
    return Ok(Reply(id, true));
  }

  /** A request that was answered with a row is answered with that row when it is repeated. */
  method CreatePostDraft(store: Store, tenant: Id, brand: Brand, key: string, payload: CreatePayload)
    returns (r: Result<Reply, Error>)
    modifies store
    ensures (store.Rows(), r) == CreateDraft(old(store.Rows()), tenant, brand, key, payload)
    ensures r.Err? || !r.value.created ==> store.Rows() == old(store.Rows())
    ensures r.Ok? ==>
      CreateDraft(store.Rows(), tenant, brand, key, payload) == (store.Rows(), Ok(Reply(r.value.row, false)))
  {
    var existing := FindPost(store.posts, tenant, key);
    if existing.Some? {
      if store.posts[existing.value].fingerprint != payload {
        return Err(IdempotencyConflict);
      }
      return Ok(Reply(existing.value, false));
    }
    ghost var before := store.posts;
    r := WriteDraft(store, tenant, brand, key, payload);
    assert r.Ok? ==> store.posts[..|before|] == before;
  }

  /** `approve_post` */
  function Approve(db: Db, id: Id, tenant: Id, brand: Brand): (Db, Result<Id, Error>) {
    if id >= |db.posts| || db.posts[id].tenant != tenant || db.posts[id].brand != brand then (db, Err(NotFound)) else
    var post := db.posts[id];
    if post.state == Approved then (db, Ok(id))
    else if post.state !in {Draft, PendingApproval} then (db, Err(InvalidStateTransition))
    else
      (db.(posts := db.posts[id := post.(state := Approved)],
           log := db.log + [AuditLog(tenant, brand, PostApproved(id))]), Ok(id))
  }

  /** Approving an approved post again succeeds and changes nothing. */
  method ApprovePost(store: Store, id: Id, tenant: Id, brand: Brand) returns (r: Result<Id, Error>)
    modifies store
    ensures (store.Rows(), r) == Approve(old(store.Rows()), id, tenant, brand)
    ensures r.Err? ==> store.Rows() == old(store.Rows())
    ensures r.Ok? ==> Approve(store.Rows(), id, tenant, brand) == (store.Rows(), Ok(id))
    ensures var db := old(store.Rows());
      var found := id < |db.posts| && db.posts[id].tenant == tenant && db.posts[id].brand == brand;
      && (r == Err(NotFound) <==> !found)
      && (r.Ok? <==> found && (db.posts[id].state == Draft || db.posts[id].state == PendingApproval
                               || db.posts[id].state == Approved))
      && (r.Err? && found ==> r == Err(InvalidStateTransition))
      && (r.Ok? ==>
           && store.posts == db.posts[id := db.posts[id].(state := Approved)]
           && store.log == if db.posts[id].state == Approved then db.log
                           else db.log + [AuditLog(tenant, brand, PostApproved(id))])
  {
    if id >= |store.posts| || store.posts[id].tenant != tenant || store.posts[id].brand != brand {
      return Err(NotFound);
    }
    var post := store.posts[id];
    if post.state == Approved {
      return Ok(id);
    }
    if post.state !in {Draft, PendingApproval} {
      return Err(InvalidStateTransition);
    }
    post := post.(state := Approved);
    store.posts := store.posts[id := post];
    store.log := store.log + [AuditLog(tenant, brand, PostApproved(id))];
    return Ok(id);
  }

  /** What the schedule view has read before the service starts its transaction. */
  datatype Snapshot = Snapshot(
    postTenant: Id, postBrand: Brand, postState: LifecycleState,
    accountTenant: Id, accountBrand: Brand, isActive: bool)

  /**
   * The reads of the schedule view: the time must be in the future, the variant and the channel must be visible to
   * a caller who may use `brands`.
   */
  function ReadForSchedule(
    db: Db, tenant: Id, brands: set<Brand>, payload: SchedulePayload, now: Time): Result<Snapshot, Error>
  {
    if payload.scheduledFor <= now then Err(ScheduleInPast) else
    if payload.variant >= |db.variants| || db.variants[payload.variant].post >= |db.posts| then Err(NotFound) else
    var post := db.posts[db.variants[payload.variant].post];
    if post.tenant != tenant || post.brand !in brands || payload.connection >= |db.connections| then Err(NotFound) else
    var connection := db.connections[payload.connection];
    if connection.tenant != tenant || connection.brand != post.brand then Err(NotFound)
    else Ok(Snapshot(post.tenant, post.brand, post.state, connection.tenant, connection.brand, connection.isActive))
  }

  function ReplaySchedule(db: Db, tenant: Id, key: string, payload: SchedulePayload): Option<Result<Reply, Error>> {
    match FindPublication(db.publications, tenant, key)
    case None => None
    case Some(id) =>
      if db.publications[id].fingerprint != payload then Some(Err(IdempotencyConflict)) else Some(Ok(Reply(id, false)))
  }

  /** The attached images are read inside the transaction, unlike the post and the channel. */
  predicate Deliverable(db: Db, media: set<Id>) {
    1 <= |media| <= MAX_POST_IMAGES && forall a :: a in media ==>
      a in db.assets && db.assets[a].uploadState == UploadReady
  }

  /** The checking and inserting half of `schedule_publication`. */
  function InsertPublication(
    db: Db, tenant: Id, brand: Brand, key: string, payload: SchedulePayload, seen: Snapshot): (Db, Result<Reply, Error>)
  {
    if seen.postTenant != tenant || seen.postBrand != brand then (db, Err(InvalidSchedule))
    else if seen.accountTenant != tenant || seen.accountBrand != brand || !seen.isActive then (db, Err(InvalidSchedule))
    else if seen.postState != Approved then (db, Err(InvalidStateTransition))
    else if payload.variant >= |db.variants| || !Deliverable(db, db.variants[payload.variant].mediaAssets) then
      (db, Err(InvalidSchedule))
    else if FindPublication(db.publications, tenant, key).Some? then (db, Err(BrokenTransaction))
    else
      var id := |db.publications|;
      (db.(publications := db.publications + [Publication(
             tenant, brand, payload.variant, payload.connection, payload.scheduledFor, Scheduled,
             key, payload, "", "", "")],
           log := db.log + [AuditLog(tenant, brand, PublicationScheduled(id))]), Ok(Reply(id, true)))
  }

  /** Which publications are inserted, what stops the others, and what is written. */
  lemma InsertPublicationMeaning(
    db: Db, tenant: Id, brand: Brand, key: string, payload: SchedulePayload, seen: Snapshot)
    requires payload.variant < |db.variants|
    ensures var media := db.variants[payload.variant].mediaAssets;
      var t := InsertPublication(db, tenant, brand, key, payload, seen).0;
      var r := InsertPublication(db, tenant, brand, key, payload, seen).1;
      var taken := exists i ::
        0 <= i < |db.publications| && db.publications[i].tenant == tenant && db.publications[i].key == key;
      var owned := && seen.postTenant == tenant && seen.postBrand == brand
                   && seen.accountTenant == tenant && seen.accountBrand == brand && seen.isActive;
      var ready := 1 <= |media| <= 10 && forall a :: a in media ==>
        a in db.assets && db.assets[a].uploadState == UploadReady;
      && (r == Err(InvalidSchedule) <==> !owned || (seen.postState == Approved && !ready))
      && (r == Err(InvalidStateTransition) <==> owned && seen.postState != Approved)
      && (r == Err(BrokenTransaction) <==> owned && seen.postState == Approved && ready && taken)
      && (r.Ok? <==> owned && seen.postState == Approved && ready && !taken)
      && (r.Err? ==> t == db)
      && (r.Ok? ==>
           var id := |db.publications|;
           && r.value == Reply(id, true)
           && t == db.(
                publications := db.publications + [Publication(tenant, brand, payload.variant, payload.connection,
                  payload.scheduledFor, Scheduled, key, payload, "", "", "")],
                log := db.log + [AuditLog(tenant, brand, PublicationScheduled(id))]))
  {
  }

  function Schedule(
    db: Db, tenant: Id, brand: Brand, key: string, payload: SchedulePayload, seen: Snapshot): (Db, Result<Reply, Error>)
  {
    match ReplaySchedule(db, tenant, key, payload)
    case Some(answer) => (db, answer)
    case None => InsertPublication(db, tenant, brand, key, payload, seen)
  }

  /** The checking and inserting half as the source carries it out. */
  method WritePublication(
    store: Store, tenant: Id, brand: Brand, key: string, payload: SchedulePayload, seen: Snapshot)
    returns (r: Result<Reply, Error>)
    requires payload.variant < |store.variants|
    modifies store
    ensures (store.Rows(), r) == InsertPublication(old(store.Rows()), tenant, brand, key, payload, seen)
    ensures r.Err? ==> store.Rows() == old(store.Rows())
  {
    if seen.postTenant != tenant || seen.postBrand != brand {
      return Err(InvalidSchedule);
    }
    if seen.accountTenant != tenant || seen.accountBrand != brand || !seen.isActive {
      return Err(InvalidSchedule);
    }
    if seen.postState != Approved {
      return Err(InvalidStateTransition);
    }
    var media := store.variants[payload.variant].mediaAssets;
    if !(1 <= |media| <= MAX_POST_IMAGES)
       || exists a :: a in media && (a !in store.assets || store.assets[a].uploadState != UploadReady) {
      return Err(InvalidSchedule);
    }
    var begin := store.Rows();
    var id := |store.publications|;
    store.publications := store.publications + [Publication(
      tenant, brand, payload.variant, payload.connection, payload.scheduledFor, Scheduled, key, payload, "", "", "")];
    assert forall i :: 0 <= i < id ==> store.publications[i] == begin.publications[i];
    if exists i :: 0 <= i < id && store.publications[i].tenant == tenant && store.publications[i].key == key {
      // The unique constraint: another request has inserted the key since the lookup.
      store.Rollback(begin);
      return Err(BrokenTransaction);
    }
    store.log := store.log + [AuditLog(tenant, brand, PublicationScheduled(id))];
    return Ok(Reply(id, true));
  }

  /** A request that was answered with a row is answered with that row when it is repeated, whatever it now reads. */
  method SchedulePublication(
    store: Store, tenant: Id, brand: Brand, key: string, payload: SchedulePayload, seen: Snapshot)
    returns (r: Result<Reply, Error>)
    requires payload.variant < |store.variants|
    modifies store
    ensures (store.Rows(), r) == Schedule(old(store.Rows()), tenant, brand, key, payload, seen)
    ensures r.Err? || !r.value.created ==> store.Rows() == old(store.Rows())
    ensures r.Ok? ==> forall other: Snapshot ::
      Schedule(store.Rows(), tenant, brand, key, payload, other) == (store.Rows(), Ok(Reply(r.value.row, false)))
  {
    var existing := FindPublication(store.publications, tenant, key);
    if existing.Some? {
      if store.publications[existing.value].fingerprint != payload {
        return Err(IdempotencyConflict);
      }
      return Ok(Reply(existing.value, false));
    }
    ghost var before := store.publications;
    r := WritePublication(store, tenant, brand, key, payload, seen);
    assert r.Ok? ==> store.publications[..|before|] == before;
  }
}
