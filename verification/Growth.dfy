/** What no step ever rewrites. */
module Growth {
  import opened Types
  import opened Machine

  /** Only the state of a post changes, and APPROVED is final. */
  ghost predicate PostsGrow(a: seq<Post>, b: seq<Post>) {
    && |a| <= |b|
    && forall i :: 0 <= i < |a| ==>
      b[i] == a[i].(state := b[i].state) && (a[i].state == Approved ==> b[i].state == Approved)
  }

  /** Only the upload state of an asset changes, from PENDING to READY. */
  ghost predicate AssetsGrow(a: map<Id, Asset>, b: map<Id, Asset>) {
    && a.Keys <= b.Keys
    && (forall id :: id in a ==>
      b[id] == a[id] || (a[id].uploadState == UploadPending && b[id] == a[id].(uploadState := UploadReady)))
    && (forall id :: id in b && id !in a ==> b[id].uploadState != UploadFailed)
  }

  ghost predicate ConnectionsGrow(a: seq<Connection>, b: seq<Connection>) {
    && |a| <= |b|
    && forall i :: 0 <= i < |a| ==> b[i] == a[i].(isActive := b[i].isActive)
  }

  /** A link that was decided or revoked never changes again. */
  ghost predicate RequestsGrow(a: seq<ApprovalRequest>, b: seq<ApprovalRequest>) {
    && |a| <= |b|
    && forall i :: 0 <= i < |a| ==>
         && b[i].brand == a[i].brand && b[i].post == a[i].post && b[i].expiresAt == a[i].expiresAt
         && (a[i].decision != Undecided || a[i].revokedAt.Some? ==> b[i] == a[i])
  }

  ghost predicate PublicationsGrow(a: seq<Publication>, b: seq<Publication>) {
    && |a| <= |b|
    && forall i :: 0 <= i < |a| ==>
         && b[i].tenant == a[i].tenant && b[i].brand == a[i].brand && b[i].variant == a[i].variant
         && b[i].connection == a[i].connection && b[i].key == a[i].key && b[i].fingerprint == a[i].fingerprint
  }

  /** Rows are never removed, keys and owners never change, slide orders and audit rows are never rewritten. */
  ghost predicate Grows(a: Db, b: Db) {
    && PostsGrow(a.posts, b.posts) && a.variants <= b.variants && AssetsGrow(a.assets, b.assets)
    && ConnectionsGrow(a.connections, b.connections) && RequestsGrow(a.requests, b.requests) && a.comments <= b.comments
    && PublicationsGrow(a.publications, b.publications) && |a.attempts| <= |b.attempts| && a.log <= b.log
  }

  lemma GrowsTransitive(a: Db, b: Db, c: Db)
    requires Grows(a, b) && Grows(b, c)
    ensures Grows(a, c)
  {
  }

  lemma SameGrows(db: Db)
    ensures PostsGrow(db.posts, db.posts) && AssetsGrow(db.assets, db.assets)
    ensures ConnectionsGrow(db.connections, db.connections) && RequestsGrow(db.requests, db.requests)
    ensures PublicationsGrow(db.publications, db.publications)
  {
  }

  lemma ClaimGrows(s: Sys, step: Step)
    requires step.ClaimTask?
    ensures Grows(s.db, NextDb(s, step))
  {
    hide PostsGrow, AssetsGrow, ConnectionsGrow, RequestsGrow;
    SameGrows(s.db);
  }

  lemma FinishGrows(s: Sys, step: Step)
    requires step.FinishOk? || step.FinishError?
    ensures Grows(s.db, NextDb(s, step))
  {
    hide PostsGrow, AssetsGrow, ConnectionsGrow, RequestsGrow;
    SameGrows(s.db);
  }

  lemma AssetGrows(s: Sys, step: Step)
    requires step.CreateUpload? || step.ConfirmAsset?
    ensures Grows(s.db, NextDb(s, step))
  {
    hide PostsGrow, ConnectionsGrow, RequestsGrow, PublicationsGrow;
    SameGrows(s.db);
  }

  lemma InsertGrows(s: Sys, step: Step)
    requires step.CreateCommit? || step.ScheduleCommit?
    ensures Grows(s.db, NextDb(s, step))
  {
    hide AssetsGrow, ConnectionsGrow, RequestsGrow;
    SameGrows(s.db);
  }

  lemma ApprovalGrows(s: Sys, step: Step)
    requires step.ApproveDirectly? || step.RequestLink?
    ensures Grows(s.db, NextDb(s, step))
  {
    hide AssetsGrow, ConnectionsGrow, PublicationsGrow;
    SameGrows(s.db);
  }

  lemma RevokeGrows(s: Sys, step: Step)
    requires step.RevokeLink?
    ensures Grows(s.db, NextDb(s, step))
  {
    hide PostsGrow, AssetsGrow, ConnectionsGrow, PublicationsGrow;
    SameGrows(s.db);
  }

  lemma DecisionGrows(s: Sys, step: Step)
    requires step.DecideLink?
    ensures Grows(s.db, NextDb(s, step))
  {
    hide AssetsGrow, ConnectionsGrow, PublicationsGrow;
    SameGrows(s.db);
  }

  lemma OtherGrows(s: Sys, step: Step)
    requires !(step.ClaimTask? || step.FinishOk? || step.FinishError?)
    requires !(step.CreateUpload? || step.ConfirmAsset? || step.CreateCommit? || step.ScheduleCommit?)
    requires !(step.ApproveDirectly? || step.RequestLink? || step.RevokeLink? || step.DecideLink?)
    ensures Grows(s.db, NextDb(s, step))
  {
    hide PostsGrow, AssetsGrow, RequestsGrow, PublicationsGrow;
    SameGrows(s.db);
  }

  lemma StepGrows(s: Sys, step: Step)
    ensures Grows(s.db, NextDb(s, step))
  {
    hide NextDb, Grows;
    match step {
      case ClaimTask(_) => ClaimGrows(s, step);
      case FinishOk(_, _) => FinishGrows(s, step);
      case FinishError(_, _) => FinishGrows(s, step);
      case CreateUpload(_, _, _, _, _, _) => AssetGrows(s, step);
      case ConfirmAsset(_, _, _) => AssetGrows(s, step);
      case CreateCommit(_) => InsertGrows(s, step);
      case ScheduleCommit(_) => InsertGrows(s, step);
      case ApproveDirectly(_, _, _) => ApprovalGrows(s, step);
      case RequestLink(_, _, _, _) => ApprovalGrows(s, step);
      case RevokeLink(_, _) => RevokeGrows(s, step);
      case DecideLink(_, _, _, _) => DecisionGrows(s, step);
      case _ => OtherGrows(s, step);
    }
  }

  lemma {:induction false} RunGrows(s: Sys, steps: seq<Step>)
    ensures Grows(s.db, Run(s, steps).db)
    decreases |steps|
  {
    if steps != [] {
      RunGrowsStep(s, steps);
    }
  }

  lemma RunGrowsStep(s: Sys, steps: seq<Step>)
    requires steps != []
    ensures Grows(s.db, Run(s, steps).db)
    decreases |steps|, 0
  {
    hide Grows, NextDb, NextQueue, NextSessions, NextWorkers;
    StepGrows(s, steps[0]);
    RunGrows(Next(s, steps[0]), steps[1..]);
    GrowsTransitive(s.db, Next(s, steps[0]).db, Run(s, steps).db);
  }
}
