/** relay/approvals/services.py. An approval link's raw token is fresh and opaque, so it is named by the link's row. */
module ApprovalServices {
  import opened Types

  /** `get_active_approval_request`: a link still opens while it is neither revoked nor expired, decided or not. */
  function ActiveRequest(db: Db, token: Id, now: Time): Result<Id, Error> {
    if token >= |db.requests| || db.requests[token].revokedAt.Some? || db.requests[token].expiresAt <= now
    then Err(InvalidApprovalLink) else Ok(token)
  }

  /** A link opens exactly while it is not revoked and not expired; having been decided does not close it. */
  lemma ActiveMeaning(db: Db, token: Id, now: Time)
    ensures ActiveRequest(db, token, now) ==
      if token < |db.requests| && db.requests[token].revokedAt == None && now < db.requests[token].expiresAt
      then Ok(token) else Err(InvalidApprovalLink)
  {
  }

  /** `request_approval` */
  function Request(db: Db, id: Id, tenant: Id, brand: Brand, expiresInDays: int, now: Time): (Db, Result<Id, Error>) {
    if id >= |db.posts| || db.posts[id].tenant != tenant || db.posts[id].brand != brand then (db, Err(NotFound)) else
    var post := db.posts[id];
    if post.state !in {Draft, PendingApproval} then (db, Err(InvalidApprovalState)) else
    var link := |db.requests|;
    (db.(requests := db.requests + [ApprovalRequest(brand, id, now + expiresInDays * DAY, None, None, Undecided)],
         posts := db.posts[id := post.(state := PendingApproval)],
         log := db.log + [AuditLog(tenant, brand, ApprovalRequested(link, id))]), Ok(link))
  }

  /** The new link opens until it expires. */
  method RequestApproval(store: Store, id: Id, tenant: Id, brand: Brand, expiresInDays: int, now: Time)
    returns (r: Result<Id, Error>)
    modifies store
    ensures (store.Rows(), r) == Request(old(store.Rows()), id, tenant, brand, expiresInDays, now)
    ensures r.Err? ==> store.Rows() == old(store.Rows())
    ensures r.Ok? ==> forall t: Time :: ActiveRequest(store.Rows(), r.value, t).Ok? <==> t < now + expiresInDays * DAY
    ensures var db := old(store.Rows());
      var found := id < |db.posts| && db.posts[id].tenant == tenant && db.posts[id].brand == brand;
      && (r == Err(NotFound) <==> !found)
      && (r == Err(InvalidApprovalState) <==>
        found && db.posts[id].state != Draft && db.posts[id].state != PendingApproval)
      && (r.Ok? <==> found && (db.posts[id].state == Draft || db.posts[id].state == PendingApproval))
      && (r.Ok? ==>
           && r.value == |db.requests|
           && store.requests == db.requests
                + [ApprovalRequest(brand, id, now + expiresInDays * 86_400_000_000, None, None, Undecided)]
           && store.posts == db.posts[id := db.posts[id].(state := PendingApproval)]
           && store.log == db.log + [AuditLog(tenant, brand, ApprovalRequested(|db.requests|, id))])
  {
    if id >= |store.posts| || store.posts[id].tenant != tenant || store.posts[id].brand != brand {
      return Err(NotFound);
    }
    var post := store.posts[id];
    if post.state !in {Draft, PendingApproval} {
      return Err(InvalidApprovalState);
    }
    var link := |store.requests|;
    store.requests := store.requests + [ApprovalRequest(brand, id, now + expiresInDays * DAY, None, None, Undecided)];
    if post.state != PendingApproval {
      store.posts := store.posts[id := post.(state := PendingApproval)];
    }
    assert store.posts == old(store.posts)[id := post.(state := PendingApproval)];
    store.log := store.log + [AuditLog(tenant, brand, ApprovalRequested(link, id))];
    return Ok(link);
  }

  /** `revoke_approval` */
  function Revoke(db: Db, id: Id, tenant: Id, now: Time): (Db, Result<Id, Error>) {
    if id >= |db.requests| || db.requests[id].brand.workspace != tenant then (db, Err(NotFound)) else
    var request := db.requests[id];
    if request.revokedAt.Some? || request.decision != Undecided then (db, Err(ApprovalAlreadyRevoked)) else
    (db.(requests := db.requests[id := request.(revokedAt := Some(now))],
         log := db.log + [AuditLog(tenant, request.brand, ApprovalRevoked(id, request.post))]), Ok(id))
  }

  /** A revoked link never opens again. */
  method RevokeApproval(store: Store, id: Id, tenant: Id, now: Time) returns (r: Result<Id, Error>)
    modifies store
    ensures (store.Rows(), r) == Revoke(old(store.Rows()), id, tenant, now)
    ensures r.Err? ==> store.Rows() == old(store.Rows())
    ensures r.Ok? ==> forall t: Time :: ActiveRequest(store.Rows(), id, t).Err?
    ensures var db := old(store.Rows());
      var found := id < |db.requests| && db.requests[id].brand.workspace == tenant;
      var standing := found && db.requests[id].revokedAt == None && db.requests[id].decision == Undecided;
      && (r == Err(NotFound) <==> !found)
      && (r == Err(ApprovalAlreadyRevoked) <==> found && !standing)
      && (r.Ok? <==> standing)
      && (r.Ok? ==>
           && store.requests == db.requests[id := db.requests[id].(revokedAt := Some(now))]
           && store.log == db.log + [AuditLog(tenant, db.requests[id].brand, ApprovalRevoked(id, db.requests[id].post))]
           && store.posts == db.posts && store.comments == db.comments)
  {
    if id >= |store.requests| || store.requests[id].brand.workspace != tenant {
      return Err(NotFound);
    }
    var request := store.requests[id];
    if request.revokedAt.Some? || request.decision != Undecided {
      return Err(ApprovalAlreadyRevoked);
    }
    request := request.(revokedAt := Some(now));
    store.requests := store.requests[id := request];
    store.log := store.log + [AuditLog(tenant, request.brand, ApprovalRevoked(id, request.post))];
    return Ok(id);
  }

  /** `decide_approval`; an unsupported decision is given as `Undecided`. */
  function Decide(
    db: Db, token: Id, decision: Decision, comment: string, author: string, now: Time): (Db, Result<Id, Error>)
  {
    if ActiveRequest(db, token, now).Err? then (db, Err(InvalidApprovalLink)) else
    var request := db.requests[token];
    if request.decision != Undecided then (db, Err(ApprovalAlreadyDecided))
    else if decision == Undecided || (decision == ChangesRequested && comment == "") then (db, Err(UnsupportedDecision))
    else if request.post >= |db.posts| then (db, Err(NotFound)) else
    var post := db.posts[request.post];
    if post.state != PendingApproval then (db, Err(InvalidApprovalState)) else
    var event := if decision == LinkApproved then ApprovalApproved(token, request.post)
                 else ApprovalChangesRequested(token, request.post);
    (db.(requests := db.requests[token := request.(decision := decision, decidedAt := Some(now))],
         posts := db.posts[request.post := post.(state := if decision == LinkApproved then Approved else Draft)],
         comments := if comment == "" then db.comments else db.comments + [Comment(token, author, comment)],
         log := db.log + [AuditLog(request.brand.workspace, request.brand, event)]), Ok(token))
  }

  /** A link that was decided takes no other decision. */
  method DecideApproval(store: Store, token: Id, decision: Decision, comment: string, author: string, now: Time)
    returns (r: Result<Id, Error>)
    requires token < |store.requests| ==> store.requests[token].post < |store.posts|
    modifies store
    ensures (store.Rows(), r) == Decide(old(store.Rows()), token, decision, comment, author, now)
    ensures r.Err? ==> store.Rows() == old(store.Rows())
    ensures r.Ok? ==> forall other: Decision, words: string, name: string, t: Time ::
      Decide(store.Rows(), token, other, words, name, t).1.Err?
    ensures var db := old(store.Rows());
      var open := token < |db.requests| && db.requests[token].revokedAt == None && now < db.requests[token].expiresAt;
      var standing := open && db.requests[token].decision == Undecided;
      var supported := decision == LinkApproved || (decision == ChangesRequested && comment != "");
      && (r == Err(InvalidApprovalLink) <==> !open)
      && (r == Err(ApprovalAlreadyDecided) <==> open && !standing)
      && (r == Err(UnsupportedDecision) <==> standing && !supported)
      && (r == Err(InvalidApprovalState) <==>
           standing && supported && db.posts[db.requests[token].post].state != PendingApproval)
      && (r.Ok? <==> standing && supported && db.posts[db.requests[token].post].state == PendingApproval)
      && (r.Ok? ==>
           var link := db.requests[token];
           var outcome := if decision == LinkApproved then Approved else Draft;
           && store.requests == db.requests[token := link.(decision := decision, decidedAt := Some(now))]
           && store.posts == db.posts[link.post := db.posts[link.post].(state := outcome)]
           && store.comments == (if comment == "" then db.comments else db.comments + [Comment(token, author, comment)])
           && store.log == db.log + [AuditLog(link.brand.workspace, link.brand,
                if decision == LinkApproved then ApprovalApproved(token, link.post)
                else ApprovalChangesRequested(token, link.post))])
  {
    if token >= |store.requests| || store.requests[token].revokedAt.Some? || store.requests[token].expiresAt <= now {
      return Err(InvalidApprovalLink);
    }
    var request := store.requests[token];
    if request.decision != Undecided {
      return Err(ApprovalAlreadyDecided);
    }
    if decision !in {LinkApproved, ChangesRequested} {
      return Err(UnsupportedDecision);
    }
    if decision == ChangesRequested && comment == "" {
      return Err(UnsupportedDecision);
    }
    var post := store.posts[request.post];
    if post.state != PendingApproval {
      return Err(InvalidApprovalState);
    }
    request := request.(decision := decision, decidedAt := Some(now));
    store.requests := store.requests[token := request];
    post := post.(state := if decision == LinkApproved then Approved else Draft);
    store.posts := store.posts[request.post := post];
    if comment != "" {
      store.comments := store.comments + [Comment(token, author, comment)];
    }
    store.log := store.log + [AuditLog(request.brand.workspace, request.brand,
      if decision == LinkApproved then ApprovalApproved(token, request.post)
      else ApprovalChangesRequested(token, request.post))];
    return Ok(token);
  }
}
