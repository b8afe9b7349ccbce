/** The approval workflow: posts, links, decisions, and the audit rows that tell the same story. */
module EditorialInvariant {
  import opened Types
  import opened ApiServices
  import opened ApprovalServices
  import opened Machine

  /** What the audit rows of one post add up to. */
  datatype Tally = Tally(created: nat, state: Option<LifecycleState>, entries: nat, changes: nat)

  const UNTOLD := Tally(0, None, 0, 0)

  /** One audit row: it may create the post, move it, or enter it into PENDING_APPROVAL. */
  function Tell(t: Tally, e: Event, p: Id): Tally {
    match e
    case PostDraftCreated(q) => if q == p then t.(created := t.created + 1, state := Some(Draft)) else t
    case PostApproved(q) => if q == p then t.(state := Some(Approved)) else t
    case ApprovalRequested(_, q) =>
      if q != p then t
      else t.(state := Some(PendingApproval), entries := t.entries + if t.state == Some(PendingApproval) then 0 else 1)
    case ApprovalApproved(_, q) => if q == p then t.(state := Some(Approved)) else t
    case ApprovalChangesRequested(_, q) => if q == p then t.(state := Some(Draft), changes := t.changes + 1) else t
    case _ => t
  }

  /** The audit log folded for one post, in commit order. */
  function Told(log: seq<AuditLog>, p: Id): Tally {
    if log == [] then UNTOLD else Tell(Told(log[..|log| - 1], p), log[|log| - 1].event, p)
  }

  lemma ToldAppend(log: seq<AuditLog>, row: AuditLog, p: Id)
    ensures Told(log + [row], p) == Tell(Told(log, p), row.event, p)
  {
    assert (log + [row])[..|log|] == log;
  }

  /** The links of a post on which changes were requested. */
  function ChangesDecided(requests: seq<ApprovalRequest>, p: Id): nat {
    if requests == [] then 0 else
      var last := requests[|requests| - 1];
      ChangesDecided(requests[..|requests| - 1], p) + if last.post == p && last.decision == ChangesRequested then 1
        else 0
  }

  lemma ChangesAppend(requests: seq<ApprovalRequest>, r: ApprovalRequest, p: Id)
    ensures ChangesDecided(requests + [r], p) ==
      ChangesDecided(requests, p) + if r.post == p && r.decision == ChangesRequested then 1 else 0
  {
    assert (requests + [r])[..|requests|] == requests;
  }

  lemma {:induction false} ChangesUpdate(requests: seq<ApprovalRequest>, i: Id, r: ApprovalRequest, p: Id)
    requires i < |requests| && requests[i].decision == Undecided && r.post == requests[i].post
    ensures ChangesDecided(requests[i := r], p) ==
      ChangesDecided(requests, p) + if r.post == p && r.decision == ChangesRequested then 1 else 0
  {
    var n := |requests| - 1;
    if i == n {
      assert requests[i := r][..n] == requests[..n];
    } else {
      ChangesUpdate(requests[..n], i, r, p);
      assert requests[i := r][..n] == requests[..n][i := r];
    }
  }

  ghost predicate HasUndecided(requests: seq<ApprovalRequest>, p: Id) {
    exists i :: 0 <= i < |requests| && requests[i].post == p && requests[i].decision == Undecided
  }

  /** One post agrees with its audit rows and with its links. */
  ghost predicate PostOk(post: Post, t: Tally, changes: nat, undecided: bool) {
    && t.created == 1
    && t.state == Some(post.state)
    && t.changes == changes
    && match post.state
       case Draft => t.entries == changes
       case PendingApproval => t.entries == changes + 1 && undecided
       case Approved => changes <= t.entries <= changes + 1
       case _ => false
  }

  ghost predicate PostsOk(db: Db) {
    && (forall p: Id :: p < |db.posts| ==>
         PostOk(db.posts[p], Told(db.log, p), ChangesDecided(db.requests, p), HasUndecided(db.requests, p)))
    && (forall p: Id :: p >= |db.posts| ==> Told(db.log, p) == UNTOLD && ChangesDecided(db.requests, p) == 0)
  }

  /**
   * A decision was made before the link expired, on a link that is not revoked, and with a comment if it asks for
   * changes.
   */
  ghost predicate DecisionOk(r: ApprovalRequest, commented: bool) {
    && (r.decision == Undecided <==> r.decidedAt == None)
    && (r.decidedAt.Some? ==> r.decidedAt.value < r.expiresAt && r.revokedAt == None)
    && (r.decision == ChangesRequested ==> commented)
  }

  ghost predicate Commented(comments: seq<Comment>, link: Id) {
    exists c :: 0 <= c < |comments| && comments[c].request == link && comments[c].body != ""
  }

  /** A link belongs to a post of its brand; once it recorded APPROVED the post is APPROVED, and no other link did. */
  ghost predicate LinksOk(db: Db) {
    && (forall i: Id :: i < |db.requests| ==> DecisionOk(db.requests[i], Commented(db.comments, i)))
    && (forall i :: 0 <= i < |db.requests| ==>
         && db.requests[i].post < |db.posts|
         && db.requests[i].brand == db.posts[db.requests[i].post].brand
         && (db.requests[i].decision == LinkApproved ==> db.posts[db.requests[i].post].state == Approved))
    && (forall i, j :: 0 <= i < j < |db.requests|
         && db.requests[i].decision == LinkApproved && db.requests[j].decision == LinkApproved
         ==> db.requests[i].post != db.requests[j].post)
  }

  ghost predicate EditorialInv(db: Db) {
    PostsOk(db) && LinksOk(db)
  }

  /** An event that leaves every tally alone. */
  predicate Untelling(e: Event) {
    !(e.PostDraftCreated? || e.PostApproved? || e.ApprovalRequested? || e.ApprovalApproved?
      || e.ApprovalChangesRequested?)
  }

  /** Steps that touch neither posts nor links add at most one row, which says nothing about posts. */
  ghost predicate EditorialFrame(a: Db, b: Db) {
    && b.posts == a.posts && b.requests == a.requests && b.comments == a.comments
    && (b.log == a.log || (|b.log| == |a.log| + 1 && b.log == a.log + [b.log[|a.log|]]
      && Untelling(b.log[|a.log|].event)))
  }

  lemma FrameKeepsEditorial(a: Db, b: Db)
    requires EditorialInv(a) && EditorialFrame(a, b)
    ensures EditorialInv(b)
  {
    if b.log != a.log {
      forall p: Id ensures Told(b.log, p) == Told(a.log, p) {
        ToldAppend(a.log, b.log[|a.log|], p);
      }
    }
  }

  lemma OtherStepsEditorial(s: Sys, step: Step)
    requires !(step.CreateCommit? || step.ApproveDirectly? || step.RequestLink? || step.RevokeLink? || step.DecideLink?)
    ensures EditorialFrame(s.db, NextDb(s, step))
  {
  }

  lemma InsertDraftKeeps(db: Db, tenant: Id, brand: Brand, key: string, payload: CreatePayload)
    requires EditorialInv(db)
    ensures EditorialInv(InsertDraft(db, tenant, brand, key, payload).0)
  {
    var t := InsertDraft(db, tenant, brand, key, payload).0;
    if t != db {
      forall p: Id ensures Told(t.log, p) == Tell(Told(db.log, p), PostDraftCreated(|db.posts|), p) {
        ToldAppend(db.log, t.log[|db.log|], p);
      }
      assert t.requests == db.requests;
      forall p: Id | p < |t.posts|
        ensures PostOk(t.posts[p], Told(t.log, p), ChangesDecided(t.requests, p), HasUndecided(t.requests, p))
      {
        if p < |db.posts| { assert t.posts[p] == db.posts[p]; }
      }
    }
  }

  lemma ApproveKeeps(db: Db, id: Id, tenant: Id, brand: Brand)
    requires EditorialInv(db)
    ensures EditorialInv(Approve(db, id, tenant, brand).0)
  {
    var t := Approve(db, id, tenant, brand).0;
    if t.log != db.log {
      forall p: Id ensures Told(t.log, p) == Tell(Told(db.log, p), PostApproved(id), p) {
        ToldAppend(db.log, t.log[|db.log|], p);
      }
      forall p: Id | p < |t.posts|
        ensures PostOk(t.posts[p], Told(t.log, p), ChangesDecided(t.requests, p), HasUndecided(t.requests, p))
      {
        assert PostOk(db.posts[p], Told(db.log, p), ChangesDecided(db.requests, p), HasUndecided(db.requests, p));
      }
    }
  }

  lemma RequestKeepsLinks(db: Db, id: Id, tenant: Id, brand: Brand, days: int, now: Time)
    requires LinksOk(db)
    ensures LinksOk(Request(db, id, tenant, brand, days, now).0)
  {
    var t := Request(db, id, tenant, brand, days, now).0;
    assert forall i :: 0 <= i < |db.requests| ==> t.requests[i] == db.requests[i];
  }

  lemma RequestKeepsPosts(db: Db, id: Id, tenant: Id, brand: Brand, days: int, now: Time)
    requires PostsOk(db)
    ensures PostsOk(Request(db, id, tenant, brand, days, now).0)
  {
    var t := Request(db, id, tenant, brand, days, now).0;
    if t.log != db.log {
      var n := |db.requests|;
      forall p: Id
        ensures Told(t.log, p) == Tell(Told(db.log, p), ApprovalRequested(n, id), p)
        ensures ChangesDecided(t.requests, p) == ChangesDecided(db.requests, p)
      {
        ToldAppend(db.log, t.log[|db.log|], p);
        ChangesAppend(db.requests, t.requests[n], p);
      }
      forall p: Id | p < |t.posts|
        ensures PostOk(t.posts[p], Told(t.log, p), ChangesDecided(t.requests, p), HasUndecided(t.requests, p))
      {
        assert PostOk(db.posts[p], Told(db.log, p), ChangesDecided(db.requests, p), HasUndecided(db.requests, p));
        if p == id {
          assert t.requests[n].post == p;
        } else if HasUndecided(db.requests, p) {
          var i :| 0 <= i < n && db.requests[i].post == p && db.requests[i].decision == Undecided;
          assert t.requests[i] == db.requests[i];
        }
      }
    }
  }

  lemma UndecidedUpdate(requests: seq<ApprovalRequest>, i: Id, r: ApprovalRequest, p: Id)
    requires i < |requests| && r.post == requests[i].post && r.decision == requests[i].decision
    ensures HasUndecided(requests[i := r], p) == HasUndecided(requests, p)
  {
    var t := requests[i := r];
    assert forall k :: 0 <= k < |t| ==> t[k].post == requests[k].post && t[k].decision == requests[k].decision;
  }

  lemma RevokeKeepsLinks(db: Db, id: Id, tenant: Id, now: Time)
    requires LinksOk(db)
    ensures LinksOk(Revoke(db, id, tenant, now).0)
  {
  }

  lemma RevokeKeepsPosts(db: Db, id: Id, tenant: Id, now: Time)
    requires PostsOk(db)
    ensures PostsOk(Revoke(db, id, tenant, now).0)
  {
    hide PostOk, HasUndecided, ChangesDecided, Told;
    var t := Revoke(db, id, tenant, now).0;
    if t.log != db.log {
      var r, row := t.requests[id], t.log[|db.log|];
      assert t.requests == db.requests[id := r] && t.log == db.log + [row] && t.posts == db.posts;
      forall p: Id
        ensures Told(t.log, p) == Told(db.log, p)
        ensures ChangesDecided(t.requests, p) == ChangesDecided(db.requests, p)
        ensures HasUndecided(t.requests, p) == HasUndecided(db.requests, p)
      {
        ToldAppend(db.log, row, p);
        ChangesUpdate(db.requests, id, r, p);
        UndecidedUpdate(db.requests, id, r, p);
      }
    }
  }

  lemma DecideKeepsLinks(db: Db, token: Id, decision: Decision, comment: string, author: string, now: Time)
    requires LinksOk(db)
    ensures LinksOk(Decide(db, token, decision, comment, author, now).0)
  {
    var t := Decide(db, token, decision, comment, author, now).0;
    if t.log != db.log {
      assert forall i :: 0 <= i < |db.requests| && i != token ==> t.requests[i] == db.requests[i];
      assert forall i :: 0 <= i < |db.posts| && i != db.requests[token].post ==> t.posts[i] == db.posts[i];
      forall i: Id | i < |t.requests| ensures DecisionOk(t.requests[i], Commented(t.comments, i)) {
        assert DecisionOk(db.requests[i], Commented(db.comments, i));
        if Commented(db.comments, i) {
          var c :| 0 <= c < |db.comments| && db.comments[c].request == i && db.comments[c].body != "";
          assert t.comments[c] == db.comments[c];
        }
        if i == token && comment != "" {
          assert t.comments[|db.comments|] == Comment(token, author, comment);
        }
      }
    }
  }

  lemma DecideKeepsPosts(db: Db, token: Id, decision: Decision, comment: string, author: string, now: Time)
    requires PostsOk(db) && (token < |db.requests| ==> db.requests[token].post < |db.posts|)
    ensures PostsOk(Decide(db, token, decision, comment, author, now).0)
  {
    hide HasUndecided, ChangesDecided, Told;
    var t := Decide(db, token, decision, comment, author, now).0;
    if t.log != db.log {
      var id, r, row := db.requests[token].post, t.requests[token], t.log[|db.log|];
      assert t.requests == db.requests[token := r] && t.log == db.log + [row];
      forall p: Id
        ensures Told(t.log, p) == Tell(Told(db.log, p), row.event, p)
        ensures ChangesDecided(t.requests, p) ==
          ChangesDecided(db.requests, p) + if p == id && decision == ChangesRequested then 1 else 0
        ensures p != id ==> HasUndecided(t.requests, p) == HasUndecided(db.requests, p)
      {
        ToldAppend(db.log, row, p);
        ChangesUpdate(db.requests, token, r, p);
        if p != id { OtherPostsUndecided(db.requests, token, r, p); }
      }
      forall p: Id | p < |t.posts|
        ensures PostOk(t.posts[p], Told(t.log, p), ChangesDecided(t.requests, p), HasUndecided(t.requests, p))
      {
        assert PostOk(db.posts[p], Told(db.log, p), ChangesDecided(db.requests, p), HasUndecided(db.requests, p));
      }
    }
  }

  lemma OtherPostsUndecided(requests: seq<ApprovalRequest>, i: Id, r: ApprovalRequest, p: Id)
    requires i < |requests| && r.post == requests[i].post && r.post != p
    ensures HasUndecided(requests[i := r], p) == HasUndecided(requests, p)
  {
    var t := requests[i := r];
    assert forall k :: 0 <= k < |t| && k != i ==> t[k] == requests[k];
  }

  lemma LinkHasPost(db: Db, token: Id)
    requires LinksOk(db) && token < |db.requests|
    ensures db.requests[token].post < |db.posts|
  {
  }

  lemma EditorialStep(s: Sys, step: Step)
    requires EditorialInv(s.db)
    ensures EditorialInv(NextDb(s, step))
  {
    hide PostsOk, LinksOk, InsertDraft, Approve, Request, Revoke, Decide;
    match step {
      case CreateCommit(k) =>
        if k in s.sessions && s.sessions[k].CreateMissed? {
          var c := s.sessions[k];
          InsertDraftKeeps(s.db, c.brand.workspace, c.brand, c.key, c.create);
        }
      case ApproveDirectly(p, tenant, brand) => ApproveKeeps(s.db, p, tenant, brand);
      case RequestLink(p, tenant, brand, days) =>
        RequestKeepsPosts(s.db, p, tenant, brand, days, s.clock);
        RequestKeepsLinks(s.db, p, tenant, brand, days, s.clock);
      case RevokeLink(r, tenant) =>
        RevokeKeepsPosts(s.db, r, tenant, s.clock);
        RevokeKeepsLinks(s.db, r, tenant, s.clock);
      case DecideLink(token, decision, comment, author) =>
        if token < |s.db.requests| { LinkHasPost(s.db, token); }
        DecideKeepsPosts(s.db, token, decision, comment, author, s.clock);
        DecideKeepsLinks(s.db, token, decision, comment, author, s.clock);
      case _ =>
        OtherStepsEditorial(s, step);
        FrameKeepsEditorial(s.db, NextDb(s, step));
    }
  }

  lemma {:induction false} EditorialRun(s: Sys, steps: seq<Step>)
    requires EditorialInv(s.db)
    ensures EditorialInv(Run(s, steps).db)
    decreases |steps|
  {
    hide EditorialInv, NextDb, NextQueue, NextSessions, NextWorkers;
    if steps != [] {
      EditorialStep(s, steps[0]);
      EditorialRun(Next(s, steps[0]), steps[1..]);
    }
  }
}
