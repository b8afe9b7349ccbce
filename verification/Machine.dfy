/**
 * The whole system as interleaved steps: the clock, the dispatcher, duplicated tasks, workers that crash,
 * requests whose reads, lookups and inserts are separate steps, and the editorial commands.
 */
module Machine {
  import opened Types
  import opened ContentServices
  import opened ApiServices
  import opened ApprovalServices
  import PS = PublicationServices
  import opened PublicationTasks

  /** A worker that has read the clock for a task, or that has claimed a publication and released its lock. */
  datatype Worker = Started(publication: Id, now: Time) | Holding(publication: Id, attempt: Id)

  /** A request between two of its steps. */
  datatype Session =
    | CreateMissed(brand: Brand, key: string, create: CreatePayload)
    | ScheduleRead(brand: Brand, key: string, schedule: SchedulePayload, seen: Snapshot)
    | ScheduleMissed(brand: Brand, key: string, schedule: SchedulePayload, seen: Snapshot)

  datatype Sys = Sys(
    clock: Time, maxAttempts: int, db: Db, queue: multiset<Id>, workers: map<Id, Worker>, sessions: map<Id, Session>)

  ghost predicate Initial(s: Sys) {
    && s.db == Db([], [], map[], [], [], [], [], [], [])
    && s.queue == multiset{} && s.workers == map[] && s.sessions == map[]
  }

  datatype Step =
    // environment
    | Tick(delta: nat)
    | ConnectChannel(brand: Brand, channel: Channel)
    | SetActive(connection: Id, active: bool)
    | Redeliver(publication: Id)
    // delivery
    | Dispatch(ids: seq<Id>)
    | StartTask(worker: Id, publication: Id)
    | ClaimTask(worker: Id)
    | FinishOk(worker: Id, providerId: Identifier)
    | FinishError(worker: Id, failure: PS.Failure)
    | CrashWorker(worker: Id)
    // media
    | CreateUpload(asset: Id, brand: Brand, contentType: string, sizeBytes: int, checksum: string, configured: bool)
    | ConfirmAsset(asset: Id, tenant: Id, remote: Option<ObjectMetadata>)
    // idempotent commands: the view's reads, the lookup and the insert are separate steps
    | CreateLookup(session: Id, brand: Brand, key: string, title: Option<string>, body: string, media: seq<Id>)
    | CreateCommit(session: Id)
    | ScheduleView(session: Id, tenant: Id, brands: set<Brand>, key: string, payload: SchedulePayload)
    | ScheduleLookup(session: Id)
    | ScheduleCommit(session: Id)
    | Abandon(session: Id)
    // editorial commands
    | ApproveDirectly(post: Id, tenant: Id, brand: Brand)
    | RequestLink(post: Id, tenant: Id, brand: Brand, days: int)
    | RevokeLink(request: Id, tenant: Id)
    | DecideLink(token: Id, decision: Decision, comment: string, author: string)

  /** What a caller is told: nothing, an exception, the row of a keyed command, or the row of another command. */
  datatype Answer = Silent | Raised(error: Error) | Replied(reply: Reply) | Accepted(id: Id)

  function KeyedAnswer(r: Result<Reply, Error>): Answer {
    match r
    case Ok(reply) => Replied(reply)
    case Err(error) => Raised(error)
  }

  function RowAnswer(r: Result<Id, Error>): Answer {
    match r
    case Ok(id) => Accepted(id)
    case Err(error) => Raised(error)
  }

  /** The database after a step. */
  ghost function NextDb(s: Sys, step: Step): Db {
    match step
    case ConnectChannel(brand, channel) =>
      s.db.(connections := s.db.connections + [Connection(brand.workspace, brand, channel, true)])
    case SetActive(c, active) =>
      if c < |s.db.connections| then
        s.db.(connections := s.db.connections[c := s.db.connections[c].(isActive := active)])
      else s.db
    case ClaimTask(w) =>
      if Claims(s, w) then PS.Claim(s.db, s.workers[w].publication, s.workers[w].now) else s.db
    case FinishOk(w, providerId) =>
      if Holds(s, w) then PS.Succeed(s.db, s.workers[w].publication, s.workers[w].attempt, providerId, s.clock)
        else s.db
    case FinishError(w, failure) =>
      if Holds(s, w) then
        PS.Fail(s.db, s.workers[w].publication, s.workers[w].attempt, failure, s.maxAttempts, s.clock)
      else s.db
    case CreateUpload(a, brand, contentType, size, checksum, configured) =>
      if a in s.db.assets then s.db
      else UploadIntent(s.db, a, brand.workspace, brand, contentType, size, checksum, configured, s.clock).0
    case ConfirmAsset(a, tenant, remote) => ConfirmUpload(s.db, a, tenant, remote).0
    case CreateCommit(k) =>
      if k in s.sessions && s.sessions[k].CreateMissed? then
        var c := s.sessions[k];
        InsertDraft(s.db, c.brand.workspace, c.brand, c.key, c.create).0
      else s.db
    case ScheduleCommit(k) =>
      if k in s.sessions && s.sessions[k].ScheduleMissed? then
        var c := s.sessions[k];
        InsertPublication(s.db, c.brand.workspace, c.brand, c.key, c.schedule, c.seen).0
      else s.db
    case ApproveDirectly(p, tenant, brand) => Approve(s.db, p, tenant, brand).0
    case RequestLink(p, tenant, brand, days) => Request(s.db, p, tenant, brand, days, s.clock).0
    case RevokeLink(r, tenant) => Revoke(s.db, r, tenant, s.clock).0
    case DecideLink(token, decision, comment, author) => Decide(s.db, token, decision, comment, author, s.clock).0
    case _ => s.db
  }

  /** The worker has started a task whose publication it can claim. */
  ghost predicate Claims(s: Sys, w: Id) {
    w in s.workers && s.workers[w].Started? && PS.Due(s.db.publications, s.workers[w].publication, s.workers[w].now)
  }

  /** The worker is between its two transactions; `get` finds both rows. */
  ghost predicate Holds(s: Sys, w: Id) {
    && w in s.workers && s.workers[w].Holding?
    && s.workers[w].publication < |s.db.publications| && s.workers[w].attempt < |s.db.attempts|
  }

  ghost function NextWorkers(s: Sys, step: Step): map<Id, Worker> {
    match step
    case StartTask(w, p) => if w !in s.workers && p in s.queue then s.workers[w := Started(p, s.clock)] else s.workers
    case ClaimTask(w) =>
      if Claims(s, w) then s.workers[w := Holding(s.workers[w].publication, |s.db.attempts|)]
      else if w in s.workers && s.workers[w].Started? then s.workers - {w}
      else s.workers
    case FinishOk(w, _) => if Holds(s, w) then s.workers - {w} else s.workers
    case FinishError(w, _) => if Holds(s, w) then s.workers - {w} else s.workers
    case CrashWorker(w) => s.workers - {w}
    case _ => s.workers
  }

  ghost function NextQueue(s: Sys, step: Step): multiset<Id> {
    match step
    case Redeliver(p) => s.queue + multiset{p}
    case Dispatch(ids) => if IsDueBatch(s.db.publications, s.clock, ids) then s.queue + multiset(ids) else s.queue
    case StartTask(w, p) => if w !in s.workers then s.queue - multiset{p} else s.queue
    case _ => s.queue
  }

  /**
   * The view passes the brand it read from the post; `get_brand` checks that it belongs to the caller's workspace.
   * The active brands that a caller may use are an input; there are none in an inactive workspace.
   */
  ghost function NextSessions(s: Sys, step: Step): map<Id, Session> {
    match step
    case CreateLookup(k, brand, key, title, body, media) =>
      var payload := CreatePayload(brand, title, body, media);
      if k !in s.sessions && ReplayDraft(s.db, brand.workspace, key, payload).None? then
        s.sessions[k := CreateMissed(brand, key, payload)]
      else s.sessions
    case CreateCommit(k) => if k in s.sessions && s.sessions[k].CreateMissed? then s.sessions - {k} else s.sessions
    case ScheduleView(k, tenant, brands, key, payload) =>
      if k in s.sessions then s.sessions else
      (match ReadForSchedule(s.db, tenant, brands, payload, s.clock)
       case Ok(seen) =>
         if seen.postBrand.workspace == tenant then s.sessions[k := ScheduleRead(seen.postBrand, key, payload, seen)]
         else s.sessions
       case Err(_) => s.sessions)
    case ScheduleLookup(k) =>
      if k in s.sessions && s.sessions[k].ScheduleRead? then
        var c := s.sessions[k];
        if ReplaySchedule(s.db, c.brand.workspace, c.key, c.schedule).Some? then s.sessions - {k}
        else s.sessions[k := ScheduleMissed(c.brand, c.key, c.schedule, c.seen)]
      else s.sessions
    case ScheduleCommit(k) => if k in s.sessions && s.sessions[k].ScheduleMissed? then s.sessions - {k} else s.sessions
    case Abandon(k) => s.sessions - {k}
    case _ => s.sessions
  }

  ghost function Next(s: Sys, step: Step): Sys {
    Sys(if step.Tick? then s.clock + step.delta else s.clock, s.maxAttempts,
        NextDb(s, step), NextQueue(s, step), NextWorkers(s, step), NextSessions(s, step))
  }

  /** What the caller of a command is told. */
  ghost function AnswerOf(s: Sys, step: Step): Answer {
    match step
    case CreateUpload(a, brand, contentType, size, checksum, configured) =>
      if a in s.db.assets then Silent
      else RowAnswer(UploadIntent(s.db, a, brand.workspace, brand, contentType, size, checksum, configured, s.clock).1)
    case ConfirmAsset(a, tenant, remote) => RowAnswer(ConfirmUpload(s.db, a, tenant, remote).1)
    case CreateLookup(k, brand, key, title, body, media) =>
      (match ReplayDraft(s.db, brand.workspace, key, CreatePayload(brand, title, body, media))
       case Some(r) => KeyedAnswer(r)
       case None => Silent)
    case CreateCommit(k) =>
      if k in s.sessions && s.sessions[k].CreateMissed? then
        var c := s.sessions[k];
        KeyedAnswer(InsertDraft(s.db, c.brand.workspace, c.brand, c.key, c.create).1)
      else Silent
    case ScheduleView(k, tenant, brands, key, payload) =>
      (match ReadForSchedule(s.db, tenant, brands, payload, s.clock)
       case Ok(seen) => if seen.postBrand.workspace == tenant then Silent else Raised(NotFound)
       case Err(e) => Raised(e))
    case ScheduleLookup(k) =>
      if k in s.sessions && s.sessions[k].ScheduleRead? then
        var c := s.sessions[k];
        (match ReplaySchedule(s.db, c.brand.workspace, c.key, c.schedule)
         case Some(r) => KeyedAnswer(r)
         case None => Silent)
      else Silent
    case ScheduleCommit(k) =>
      if k in s.sessions && s.sessions[k].ScheduleMissed? then
        var c := s.sessions[k];
        KeyedAnswer(InsertPublication(s.db, c.brand.workspace, c.brand, c.key, c.schedule, c.seen).1)
      else Silent
    case ApproveDirectly(p, tenant, brand) => RowAnswer(Approve(s.db, p, tenant, brand).1)
    case RequestLink(p, tenant, brand, days) => RowAnswer(Request(s.db, p, tenant, brand, days, s.clock).1)
    case RevokeLink(r, tenant) => RowAnswer(Revoke(s.db, r, tenant, s.clock).1)
    case DecideLink(token, decision, comment, author) =>
      RowAnswer(Decide(s.db, token, decision, comment, author, s.clock).1)
    case _ => Silent
  }

  /** The state after a run; a step that is not possible where it occurs changes nothing. */
  ghost function Run(s: Sys, steps: seq<Step>): Sys
    decreases |steps|
  {
    if steps == [] then s else Run(Next(s, steps[0]), steps[1..])
  }

  lemma RunLast(s: Sys, steps: seq<Step>)
    requires steps != []
    ensures var n := |steps| - 1; Run(s, steps) == Next(Run(s, steps[..n]), steps[n])
  {
    hide Next;
    var n := |steps| - 1;
    RunConcat(s, steps[..n], [steps[n]]);
    assert steps[..n] + [steps[n]] == steps && [steps[n]][1..] == [];
  }

  lemma {:induction false} RunConcat(s: Sys, a: seq<Step>, b: seq<Step>)
    ensures Run(s, a + b) == Run(Run(s, a), b)
    decreases |a|
  {
    hide Next;
    if a == [] {
      assert a + b == b;
    } else {
      RunConcat(Next(s, a[0]), a[1..], b);
      assert (a + b)[1..] == a[1..] + b;
    }
  }
}
