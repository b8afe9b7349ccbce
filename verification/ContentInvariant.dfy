/** Ownership, slide order and readiness: what a publication relies on at delivery without checking it again. */
module ContentInvariant {
  import opened Types
  import opened Tables
  import opened ContentServices
  import opened ApiServices
  import opened Machine
  import opened Growth

  /** Every post has one variant; its images are ready, of its brand, and stored in the order the author asked for. */
  ghost predicate VariantOk(db: Db, v: Id) {
    && v < |db.variants| && v < |db.posts|
    && var variant, post := db.variants[v], db.posts[v];
    && variant.post == v
    && variant.body == post.body == post.fingerprint.body
    && post.title == (if post.fingerprint.title.Some? then post.fingerprint.title.value else "")
    && post.tenant == post.brand.workspace && post.fingerprint.brand == post.brand
    && variant.mediaAssetOrder == Dedup(post.fingerprint.mediaAssetIds)
    && variant.mediaAssets == Elements(variant.mediaAssetOrder)
    && |variant.mediaAssets| <= MAX_POST_IMAGES
    && forall a :: a in variant.mediaAssets ==> Usable(db.assets, post.tenant, post.brand, a)
  }

  /** A publication shares tenant and brand with its post and its channel, and its post is APPROVED. */
  ghost predicate PublicationOwned(db: Db, p: Id) {
    && p < |db.publications|
    && var row := db.publications[p];
    && row.variant < |db.variants| && row.variant < |db.posts| && row.connection < |db.connections|
    && row.fingerprint.variant == row.variant && row.fingerprint.connection == row.connection
    && row.tenant == row.brand.workspace
    && db.posts[row.variant].tenant == row.tenant && db.posts[row.variant].brand == row.brand
    && db.posts[row.variant].state == Approved
    && db.connections[row.connection].tenant == row.tenant && db.connections[row.connection].brand == row.brand
    && db.variants[row.variant].mediaAssets != {}
  }

  /** No two posts, and no two publications, of a tenant have the same idempotency key. */
  ghost predicate KeysUnique(db: Db) {
    && (forall i, j :: 0 <= i < j < |db.posts| ==>
         !(db.posts[i].tenant == db.posts[j].tenant && db.posts[i].key == db.posts[j].key))
    && (forall i, j :: 0 <= i < j < |db.publications| ==>
         !(db.publications[i].tenant == db.publications[j].tenant && db.publications[i].key == db.publications[j].key))
  }

  ghost predicate OwnersOk(db: Db) {
    && (forall a :: a in db.assets ==>
         && db.assets[a].tenant == db.assets[a].brand.workspace
         && db.assets[a].contentType in {"image/jpeg", "image/png"} && 0 < db.assets[a].sizeBytes <= MAX_IMAGE_BYTES)
    && (forall c :: 0 <= c < |db.connections| ==> db.connections[c].tenant == db.connections[c].brand.workspace)
  }

  /** What a request remembers from its earlier steps still holds of the database, but for the channel being active. */
  ghost predicate SessionOk(db: Db, c: Session) {
    match c
    case CreateMissed(brand, _, create) => create.brand == brand
    case _ =>
      && c.schedule.variant < |db.variants| && db.variants[c.schedule.variant].post < |db.posts|
      && c.schedule.connection < |db.connections|
      && var post, connection := db.posts[db.variants[c.schedule.variant].post], db.connections[c.schedule.connection];
      && c.seen.postTenant == post.tenant == c.brand.workspace && c.seen.postBrand == post.brand == c.brand
      && (c.seen.postState == Approved ==> post.state == Approved)
      && c.seen.accountTenant == connection.tenant && c.seen.accountBrand == connection.brand
  }

  ghost predicate TablesOk(db: Db) {
    && |db.variants| == |db.posts|
    && (forall v: Id :: v < |db.variants| ==> VariantOk(db, v))
    && (forall p: Id :: p < |db.publications| ==> PublicationOwned(db, p))
  }

  ghost predicate SessionsOk(s: Sys) {
    forall k :: k in s.sessions ==> SessionOk(s.db, s.sessions[k])
  }

  ghost predicate ContentInv(s: Sys) {
    TablesOk(s.db) && KeysUnique(s.db) && OwnersOk(s.db) && SessionsOk(s)
  }

  lemma VariantGrows(a: Db, b: Db, v: Id)
    requires Grows(a, b) && VariantOk(a, v)
    ensures VariantOk(b, v)
  {
  }

  lemma PublicationGrows(a: Db, b: Db, p: Id)
    requires Grows(a, b) && PublicationOwned(a, p)
    ensures PublicationOwned(b, p)
  {
  }

  lemma SessionGrows(a: Db, b: Db, c: Session)
    requires Grows(a, b) && SessionOk(a, c)
    ensures SessionOk(b, c)
  {
  }

  /** The rows a step adds satisfy the invariant; the others keep it because nothing they rely on is rewritten. */
  lemma TablesGrow(a: Db, b: Db)
    requires Grows(a, b) && TablesOk(a) && |b.variants| == |b.posts|
    requires forall v: Id :: |a.variants| <= v < |b.variants| ==> VariantOk(b, v)
    requires forall p: Id :: |a.publications| <= p < |b.publications| ==> PublicationOwned(b, p)
    ensures TablesOk(b)
  {
    forall v: Id | v < |b.variants| ensures VariantOk(b, v) {
      if v < |a.variants| { VariantGrows(a, b, v); }
    }
    forall p: Id | p < |b.publications| ensures PublicationOwned(b, p) {
      if p < |a.publications| { PublicationGrows(a, b, p); }
    }
  }

  lemma InsertDraftContent(db: Db, brand: Brand, key: string, payload: CreatePayload)
    requires TablesOk(db) && payload.brand == brand
    ensures var t := InsertDraft(db, brand.workspace, brand, key, payload).0;
      |t.variants| == |t.posts| && forall v: Id :: |db.variants| <= v < |t.variants| ==> VariantOk(t, v)
  {
    var t := InsertDraft(db, brand.workspace, brand, key, payload).0;
    if t != db {
      ReadyAssetsMeaning(db.assets, brand.workspace, brand, payload.mediaAssetIds);
      DedupMeaning(payload.mediaAssetIds);
      NoDuplicatesCardinality(Dedup(payload.mediaAssetIds));
      assert VariantOk(t, |db.variants|);
    }
  }

  lemma InsertPublicationContent(db: Db, c: Session)
    requires TablesOk(db) && OwnersOk(db) && !c.CreateMissed? && SessionOk(db, c)
    ensures var t := InsertPublication(db, c.brand.workspace, c.brand, c.key, c.schedule, c.seen).0;
      forall p: Id :: |db.publications| <= p < |t.publications| ==> PublicationOwned(t, p)
  {
    assert VariantOk(db, c.schedule.variant);
  }

  lemma StepTables(s: Sys, step: Step)
    requires ContentInv(s)
    ensures TablesOk(NextDb(s, step))
  {
    var t := NextDb(s, step);
    StepGrows(s, step);
    if step.CreateCommit? && t != s.db {
      var c := s.sessions[step.session];
      assert SessionOk(s.db, c);
      InsertDraftContent(s.db, c.brand, c.key, c.create);
    } else if step.ScheduleCommit? && t != s.db {
      var c := s.sessions[step.session];
      assert SessionOk(s.db, c);
      InsertPublicationContent(s.db, c);
    } else {
      NoNewRows(s, step);
    }
    TablesGrow(s.db, t);
  }

  lemma NoNewRows(s: Sys, step: Step)
    requires NextDb(s, step) == s.db || !(step.CreateCommit? || step.ScheduleCommit?)
    ensures var t := NextDb(s, step);
      |t.posts| == |s.db.posts| && t.variants == s.db.variants && |t.publications| == |s.db.publications|
  {
  }

  lemma StepKeys(s: Sys, step: Step)
    requires KeysUnique(s.db)
    ensures KeysUnique(NextDb(s, step))
  {
    StepGrows(s, step);
    if !(step.CreateCommit? || step.ScheduleCommit?) {
      NoNewRows(s, step);
    }
  }

  lemma StepOwners(s: Sys, step: Step)
    requires OwnersOk(s.db)
    ensures OwnersOk(NextDb(s, step))
  {
    hide NextDb;
    if step.CreateUpload? || step.ConfirmAsset? || step.ConnectChannel? || step.SetActive? {
      OwnerStep(s, step);
    } else {
      SameOwners(s, step);
    }
  }

  lemma OwnerStep(s: Sys, step: Step)
    requires OwnersOk(s.db) && (step.CreateUpload? || step.ConfirmAsset? || step.ConnectChannel? || step.SetActive?)
    ensures OwnersOk(NextDb(s, step))
  {
  }

  lemma SameOwners(s: Sys, step: Step)
    requires !(step.CreateUpload? || step.ConfirmAsset? || step.ConnectChannel? || step.SetActive?)
    ensures NextDb(s, step).assets == s.db.assets && NextDb(s, step).connections == s.db.connections
  {
  }

  lemma StepSessions(s: Sys, step: Step)
    requires ContentInv(s)
    ensures SessionsOk(Next(s, step))
  {
    StepGrows(s, step);
    var t := Next(s, step);
    forall k | k in t.sessions ensures SessionOk(t.db, t.sessions[k]) {
      if k in s.sessions {
        SessionGrows(s.db, t.db, s.sessions[k]);
      }
    }
  }

  lemma ContentStep(s: Sys, step: Step)
    requires ContentInv(s)
    ensures ContentInv(Next(s, step))
  {
    hide TablesOk, KeysUnique, OwnersOk, SessionsOk, NextDb, NextSessions;
    StepTables(s, step);
    StepKeys(s, step);
    StepOwners(s, step);
    StepSessions(s, step);
  }

  lemma {:induction false} ContentRun(s: Sys, steps: seq<Step>)
    requires ContentInv(s)
    ensures ContentInv(Run(s, steps))
    decreases |steps|
  {
    hide ContentInv, Next;
    if steps != [] {
      ContentStep(s, steps[0]);
      ContentRun(Next(s, steps[0]), steps[1..]);
    }
  }
}
