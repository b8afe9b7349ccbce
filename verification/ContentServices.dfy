/** relay/content/services.py */
module ContentServices {
  import opened Types
  import opened Tables

  const MAX_POST_IMAGES := 10
  const MAX_IMAGE_BYTES := 10 * 1024 * 1024

  /** An asset row that `tenant` and `brand` may attach. */
  predicate Usable(assets: map<Id, Asset>, tenant: Id, brand: Brand, id: Id) {
    id in assets && assets[id].tenant == tenant && assets[id].brand == brand && assets[id].uploadState == UploadReady
  }

  /** The images of a new post, in the order the author gave. */
  function ReadyAssetsForPost(assets: map<Id, Asset>, tenant: Id, brand: Brand, ids: seq<Id>): Result<seq<Id>, Error> {
    var normalized := Dedup(ids);
    if |normalized| > MAX_POST_IMAGES then Err(InvalidMediaAsset) else
    var found := set id | id in normalized && Usable(assets, tenant, brand, id);
    if |found| != |normalized| then Err(InvalidMediaAsset) else Ok(normalized)
  }

  /** Comparing two counts decides whether every requested image may be attached. */
  lemma ReadyAssetsMeaning(assets: map<Id, Asset>, tenant: Id, brand: Brand, ids: seq<Id>)
    ensures ReadyAssetsForPost(assets, tenant, brand, ids).Ok? <==>
      && |Elements(ids)| <= 10
      && forall id :: id in ids ==>
           && id in assets && assets[id].tenant == tenant && assets[id].brand == brand
           && assets[id].uploadState == UploadReady
    ensures ReadyAssetsForPost(assets, tenant, brand, ids) in {Ok(Dedup(ids)), Err(InvalidMediaAsset)}
  {
    var normalized := Dedup(ids);
    DedupMeaning(ids);
    NoDuplicatesCardinality(normalized);
    assert Elements(normalized) == Elements(ids);
    var found := set id | id in normalized && Usable(assets, tenant, brand, id);
    assert found <= Elements(normalized);
    if |found| == |normalized| {
      SubsetOfSameSize(found, Elements(normalized));
      assert forall id :: id in ids ==> id in Elements(ids);
    } else {
      assert found != Elements(normalized);
      var id :| id in normalized && id !in found;
      assert id in ids;
    }
  }

  lemma SubsetOfSameSize<T>(a: set<T>, b: set<T>)
    requires a <= b && |a| == |b|
    ensures a == b
  {
    if x :| x in b && x !in a {
      assert a <= b - {x};
      SubsetSize(a, b - {x});
    }
  }

  /** The `order_by("created_at", "id")` of two attached images. */
  predicate Before(assets: map<Id, Asset>, a: Id, b: Id)
    requires a in assets && b in assets
  {
    assets[a].createdAt < assets[b].createdAt || (assets[a].createdAt == assets[b].createdAt && a <= b)
  }

  lemma {:induction false} EarliestExists(assets: map<Id, Asset>, s: set<Id>)
    requires s != {} && s <= assets.Keys
    ensures exists x :: x in s && forall y :: y in s ==> Before(assets, x, y)
  {
    var z :| z in s;
    if s == {z} {
      assert Before(assets, z, z);
    } else {
      var rest := s - {z};
      assert s == {z} + rest;
      EarliestExists(assets, rest);
      var x :| x in rest && forall y :: y in rest ==> Before(assets, x, y);
      var first := if Before(assets, x, z) then x else z;
      assert forall y :: y in s ==> y in rest || y == z;
      assert first in s && forall y :: y in s ==> Before(assets, first, y);
    }
  }

  function Earliest(assets: map<Id, Asset>, s: set<Id>): (x: Id)
    requires s != {} && s <= assets.Keys
    ensures x in s && forall y :: y in s ==> Before(assets, x, y)
  {
    EarliestExists(assets, s);
    var x :| x in s && forall y :: y in s ==> Before(assets, x, y);
    x
  }

  /** The rows of the attached-images relation in creation order. */
  function ByCreation(assets: map<Id, Asset>, s: set<Id>): seq<Id>
    requires s <= assets.Keys
  {
    if s == {} then [] else
      var x := Earliest(assets, s);
      [x] + ByCreation(assets, s - {x})
  }

  lemma {:induction false} ByCreationOrdered(assets: map<Id, Asset>, s: set<Id>)
    requires s <= assets.Keys
    ensures NoDuplicates(ByCreation(assets, s)) && Elements(ByCreation(assets, s)) == s
    ensures forall i, j :: 0 <= i < j < |ByCreation(assets, s)| ==>
      Before(assets, ByCreation(assets, s)[i], ByCreation(assets, s)[j])
  {
    if s != {} {
      var x := Earliest(assets, s);
      var rest := ByCreation(assets, s - {x});
      ByCreationOrdered(assets, s - {x});
      assert forall y :: y in rest ==> y in Elements(rest);
      assert Elements([x] + rest) == {x} + Elements(rest);
    }
  }

  /** The attached images, each once, ordered by the time of their creation and then by their id. */
  lemma ByCreationMeaning(assets: map<Id, Asset>, s: set<Id>)
    requires s <= assets.Keys
    ensures var rows := ByCreation(assets, s);
      && NoDuplicates(rows) && Elements(rows) == s
      && (forall i :: 0 <= i < |rows| ==> rows[i] in assets)
      && forall i, j :: 0 <= i < j < |rows| ==>
           var a, b := assets[rows[i]], assets[rows[j]];
           a.createdAt < b.createdAt || (a.createdAt == b.createdAt && rows[i] <= rows[j])
  {
    ByCreationOrdered(assets, s);
    var rows := ByCreation(assets, s);
    hide ByCreation;
    forall i | 0 <= i < |rows| ensures rows[i] in assets {
      assert rows[i] in Elements(rows);
    }
  }

  /** `ordered_media_assets`: `rows` are the attached images in creation order. */
  function OrderedMediaAssets(rows: seq<Id>, stored: seq<Id>): seq<Id> {
    var ordered := Restrict(stored, Elements(rows));
    ordered + Restrict(rows, Elements(rows) - Elements(ordered))
  }

  /**
   * Rebuilding the slide order loses no attached image and invents none, whatever was stored. The
   * stored images come first and the others keep their creation order. No image is repeated exactly
   * when no attached image is stored twice.
   */
  lemma OrderReconstruction(rows: seq<Id>, stored: seq<Id>)
    requires NoDuplicates(rows)
    ensures var r, k := OrderedMediaAssets(rows, stored), |Restrict(stored, Elements(rows))|;
      && Elements(r) == Elements(rows)
      && r[..k] == Restrict(stored, Elements(rows))
      && r[k..] == Restrict(rows, Elements(rows) - Elements(stored))
      && (NoDuplicates(r) <==> KeptOnce(stored, Elements(rows)))
  {
    var all := Elements(rows);
    var ordered := Restrict(stored, all);
    var others := all - Elements(ordered);
    var rest := Restrict(rows, others);
    RestrictMeaning(stored, all);
    RestrictMeaning(rows, others);
    assert others == all - Elements(stored);
    assert Elements(ordered + rest) == Elements(ordered) + Elements(rest) == all;
    assert NoDuplicates(ordered + rest) <==> KeptOnce(stored, all) by {
      RestrictNoDuplicates(stored, all);
      RestrictNoDuplicates(rows, others);
      NoDuplicatesConcat(ordered, rest);
    }
  }

  lemma NoDuplicatesConcat(a: seq<Id>, b: seq<Id>)
    requires NoDuplicates(b) && forall x :: x in a ==> x !in b
    ensures NoDuplicates(a + b) <==> NoDuplicates(a)
  {
    assert forall i :: 0 <= i < |a| ==> (a + b)[i] == a[i] && a[i] in a;
    assert forall i :: |a| <= i < |a + b| ==> (a + b)[i] == b[i - |a|] && b[i - |a|] in b;
    if NoDuplicates(a + b) {
      assert forall i, j :: 0 <= i < j < |a| ==> (a + b)[i] != (a + b)[j];
    }
  }

  /** What is handed out for a stored order that lists exactly the attached images: that order. */
  lemma StoredOrderIsRestored(assets: map<Id, Asset>, attached: set<Id>, stored: seq<Id>)
    requires attached <= assets.Keys && Elements(stored) == attached
    ensures OrderedMediaAssets(ByCreation(assets, attached), stored) == stored
  {
    var rows := ByCreation(assets, attached);
    ByCreationMeaning(assets, attached);
    assert forall x :: x in stored ==> x in Elements(stored);
    RestrictAll(stored, Elements(rows));
    assert Elements(rows) - Elements(stored) == {};
    RestrictNone(rows);
  }

  function LowerHex(c: char): char {
    if 'A' <= c <= 'F' then c - 'A' + 'a' else c
  }

  function Lower(s: string): string {
    if s == "" then "" else [LowerHex(s[0])] + Lower(s[1..])
  }

  /** The letters A to F become small and no other character changes. */
  lemma {:induction false} LowerMeaning(s: string)
    ensures |Lower(s)| == |s|
    ensures forall i :: 0 <= i < |s| ==>
      match s[i]
      case 'A' => Lower(s)[i] == 'a'
      case 'B' => Lower(s)[i] == 'b'
      case 'C' => Lower(s)[i] == 'c'
      case 'D' => Lower(s)[i] == 'd'
      case 'E' => Lower(s)[i] == 'e'
      case 'F' => Lower(s)[i] == 'f'
      case _ => Lower(s)[i] == s[i]
  {
    if s != "" {
      LowerMeaning(s[1..]);
    }
  }

  predicate ValidChecksum(s: string) {
    s == "" || (|s| == 64 && forall i :: 0 <= i < |s| ==> LowerHex(s[i]) in "0123456789abcdef")
  }

  lemma ChecksumMeaning(s: string)
    ensures ValidChecksum(s) <==> s == "" || (|s| == 64 && forall c :: c in s ==> c in "0123456789abcdefABCDEF")
  {
    assert forall c: char :: LowerHex(c) in "0123456789abcdef" <==> c in "0123456789abcdefABCDEF" by {
      forall c: char ensures LowerHex(c) in "0123456789abcdef" <==> c in "0123456789abcdefABCDEF" {
        HexDigit(c);
      }
    }
    if ValidChecksum(s) && s != "" {
      forall c | c in s ensures c in "0123456789abcdefABCDEF" {
        var i :| 0 <= i < |s| && s[i] == c;
      }
    }
  }

  lemma HexDigit(c: char)
    ensures LowerHex(c) in "0123456789abcdef" <==> c in "0123456789abcdefABCDEF"
  {
  }

  /** `create_media_upload_intent`; `id` is a fresh key, `configured` says whether storage can sign a URL. */
  function UploadIntent(
    db: Db, id: Id, tenant: Id, brand: Brand, contentType: string, sizeBytes: int, checksum: string,
    configured: bool, now: Time): (Db, Result<Id, Error>)
  {
    if contentType !in {"image/jpeg", "image/png"} || !(0 < sizeBytes <= MAX_IMAGE_BYTES)
      || !ValidChecksum(checksum) then
      (db, Err(InvalidMediaAsset))
    else if !configured then
      (db, Err(MediaUploadUnavailable))
    else
      var asset := Asset(tenant, brand, contentType, sizeBytes, Lower(checksum), UploadPending, now);
      (db.(assets := db.assets[id := asset],
           log := db.log + [AuditLog(tenant, brand, MediaUploadIntentCreated(id))]), Ok(id))
  }

  /** An image cannot be attached before its upload is confirmed. */
  method CreateMediaUploadIntent(
    store: Store, id: Id, tenant: Id, brand: Brand, contentType: string, sizeBytes: int, checksum: string,
    configured: bool, now: Time) returns (r: Result<Id, Error>)
    requires id !in store.assets
    modifies store
    ensures (store.Rows(), r) ==
      UploadIntent(old(store.Rows()), id, tenant, brand, contentType, sizeBytes, checksum, configured, now)
    ensures r.Err? ==> store.Rows() == old(store.Rows())
    ensures r.Ok? ==> !Usable(store.assets, tenant, brand, id)
    ensures var db := old(store.Rows());
      var valid :=
        && (contentType == "image/jpeg" || contentType == "image/png") && 0 < sizeBytes <= 10_485_760
        && (checksum == "" || (|checksum| == 64 && forall c :: c in checksum ==> c in "0123456789abcdefABCDEF"));
      && (r == Err(InvalidMediaAsset) <==> !valid)
      && (r == Err(MediaUploadUnavailable) <==> valid && !configured)
      && (r.Ok? <==> valid && configured)
      && (r.Ok? ==>
           && r.value == id
           && store.assets ==
                db.assets[id := Asset(tenant, brand, contentType, sizeBytes, Lower(checksum), UploadPending, now)]
           && store.log == db.log + [AuditLog(tenant, brand, MediaUploadIntentCreated(id))])
  {
    ChecksumMeaning(checksum);
    if contentType !in {"image/jpeg", "image/png"} || !(0 < sizeBytes <= MAX_IMAGE_BYTES) {
      return Err(InvalidMediaAsset);
    }
    if checksum != "" && !ValidChecksum(checksum) {
      return Err(InvalidMediaAsset);
    }
    store.assets := store.assets[id :=
      Asset(tenant, brand, contentType, sizeBytes, Lower(checksum), UploadPending, now)];
    if !configured {
      store.assets := store.assets - {id};
      assert store.assets == old(store.assets);
      return Err(MediaUploadUnavailable);
    }
    store.log := store.log + [AuditLog(tenant, brand, MediaUploadIntentCreated(id))];
    return Ok(id);
  }

  /** The stored object as storage describes it; type and checksum are in lower case, the type without parameters. */
  datatype ObjectMetadata = ObjectMetadata(contentLength: int, contentType: string, sha256: string)

  predicate Matches(asset: Asset, remote: ObjectMetadata) {
    && remote.contentLength == asset.sizeBytes
    && remote.contentType == asset.contentType
    && (asset.checksum != "" && remote.sha256 != "" ==> remote.sha256 == asset.checksum)
  }

  /** `confirm_media_upload`; `remote` is None when storage cannot be asked. */
  function ConfirmUpload(db: Db, id: Id, tenant: Id, remote: Option<ObjectMetadata>): (Db, Result<Id, Error>) {
    if id !in db.assets || db.assets[id].tenant != tenant then (db, Err(NotFound)) else
    var asset := db.assets[id];
    if asset.uploadState == UploadReady then (db, Ok(id))
    else if asset.uploadState != UploadPending then (db, Err(InvalidMediaAsset))
    else if remote == None then (db, Err(MediaUploadUnavailable))
    else if !Matches(asset, remote.value) then (db, Err(InvalidMediaAsset))
    else
      (db.(assets := db.assets[id := asset.(uploadState := UploadReady)],
           log := db.log + [AuditLog(tenant, asset.brand, MediaUploadConfirmed(id))]), Ok(id))
  }

  /**
   * A confirmed image can be attached. The FAILED states written on a mismatch are undone when the exception leaves
   * the atomic block.
   */
  method ConfirmMediaUpload(store: Store, id: Id, tenant: Id, remote: Option<ObjectMetadata>)
    returns (r: Result<Id, Error>)
    modifies store
    ensures (store.Rows(), r) == ConfirmUpload(old(store.Rows()), id, tenant, remote)
    ensures r.Err? ==> store.Rows() == old(store.Rows())
    ensures r.Ok? ==> id in store.assets && Usable(store.assets, tenant, store.assets[id].brand, id)
    ensures var db := old(store.Rows());
      var found := id in db.assets && db.assets[id].tenant == tenant;
      var pending := found && db.assets[id].uploadState == UploadPending;
      var agrees := && remote.Some? && pending
        && remote.value.contentLength == db.assets[id].sizeBytes
        && remote.value.contentType == db.assets[id].contentType
        && (remote.value.sha256 == db.assets[id].checksum || remote.value.sha256 == "" || db.assets[id].checksum == "");
      && (r == Err(NotFound) <==> !found)
      && (r == Err(MediaUploadUnavailable) <==> pending && remote == None)
      && (r == Err(InvalidMediaAsset) <==>
           (pending && remote.Some? && !agrees) || (found && db.assets[id].uploadState == UploadFailed))
      && (r.Ok? <==> agrees || (found && db.assets[id].uploadState == UploadReady))
      && (agrees ==>
           && store.assets == db.assets[id := db.assets[id].(uploadState := UploadReady)]
           && store.log == db.log + [AuditLog(tenant, db.assets[id].brand, MediaUploadConfirmed(id))])
      && (r.Ok? && !agrees ==> store.Rows() == db)
  {
    var begin := store.Rows();
    if id !in store.assets || store.assets[id].tenant != tenant {
      return Err(NotFound);
    }
    var asset := store.assets[id];
    if asset.uploadState == UploadReady {
      return Ok(id);
    }
    if asset.uploadState != UploadPending {
      return Err(InvalidMediaAsset);
    }
    if remote == None {
      return Err(MediaUploadUnavailable);
    }
    if remote.value.contentLength != asset.sizeBytes || remote.value.contentType != asset.contentType {
      store.assets := store.assets[id := asset.(uploadState := UploadFailed)];
      store.Rollback(begin);
      return Err(InvalidMediaAsset);
    }
    if asset.checksum != "" {
      if remote.value.sha256 != "" && remote.value.sha256 != asset.checksum {
        store.assets := store.assets[id := asset.(uploadState := UploadFailed)];
        store.Rollback(begin);
        return Err(InvalidMediaAsset);
      }
    }
    store.assets := store.assets[id := asset.(uploadState := UploadReady)];
    store.log := store.log + [AuditLog(tenant, asset.brand, MediaUploadConfirmed(id))];
    return Ok(id);
  }
}
