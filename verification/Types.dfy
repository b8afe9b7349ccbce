/** The rows of Relay's database, as values. */
module Types {

  datatype Option<+T> = None | Some(value: T)

  datatype Result<+T, +E> = Ok(value: T) | Err(error: E)

  /** A primary key. Tables that are sequences use the row's position as its key. */
  type Id = nat

  /** An instant or a duration, in microseconds. */
  type Time = int

  /** An identifier given by the provider; a published row always has one. */
  type Identifier = id: string | id != "" witness "0"

  const MINUTE: Time := 60_000_000
  const DAY: Time := 24 * 60 * MINUTE

  /** A brand is owned by one workspace (tenant) for its whole life. */
  datatype Brand = Brand(id: Id, workspace: Id)

  datatype LifecycleState =
    Draft | PendingApproval | Approved | Scheduled | Publishing | Published | Failed | Cancelled

  /** The body of a create-draft request. It stands for its own fingerprint. */
  datatype CreatePayload = CreatePayload(brand: Brand, title: Option<string>, body: string, mediaAssetIds: seq<Id>)

  /** The body of a schedule request. It stands for its own fingerprint. */
  datatype SchedulePayload = SchedulePayload(variant: Id, connection: Id, scheduledFor: Time)

  datatype Post = Post(
    tenant: Id, brand: Brand, title: string, body: string, state: LifecycleState,
    key: string, fingerprint: CreatePayload)

  datatype UploadState = UploadPending | UploadReady | UploadFailed

  datatype Asset = Asset(
    tenant: Id, brand: Brand, contentType: string, sizeBytes: int, checksum: string,
    uploadState: UploadState, createdAt: Time)

  /** The attached images are an unordered relation; the author's order is kept beside it. */
  datatype Variant = Variant(post: Id, body: string, mediaAssets: set<Id>, mediaAssetOrder: seq<Id>)

  datatype Channel = FacebookPage | InstagramBusiness | OtherChannel

  /** A channel connection together with the tenant and brand of its social account. */
  datatype Connection = Connection(tenant: Id, brand: Brand, channel: Channel, isActive: bool)

  datatype Publication = Publication(
    tenant: Id, brand: Brand, variant: Id, connection: Id, scheduledFor: Time, state: LifecycleState,
    key: string, fingerprint: SchedulePayload,
    providerId: string, lastErrorCode: string, lastErrorMessage: string)

  /** The outcome column of an attempt; it is blank while the attempt is open. */
  datatype Outcome = AttemptOpen | AttemptRetry | AttemptPublished | AttemptFailed

  datatype Attempt = Attempt(
    publication: Id, attemptNumber: nat, startedAt: Time, completedAt: Option<Time>,
    outcome: Outcome, errorCode: string, errorMessage: string)

  datatype Decision = Undecided | LinkApproved | ChangesRequested

  datatype ApprovalRequest = ApprovalRequest(
    brand: Brand, post: Id, expiresAt: Time, revokedAt: Option<Time>, decidedAt: Option<Time>, decision: Decision)

  datatype Comment = Comment(request: Id, author: string, body: string)

  datatype Event =
    | PostDraftCreated(post: Id)
    | PostApproved(post: Id)
    | ApprovalRequested(request: Id, post: Id)
    | ApprovalRevoked(request: Id, post: Id)
    | ApprovalApproved(request: Id, post: Id)
    | ApprovalChangesRequested(request: Id, post: Id)
    | PublicationScheduled(publication: Id)
    | PublicationPublished(publication: Id, attempt: nat)
    | PublicationRetryScheduled(publication: Id, attempt: nat, errorCode: string)
    | PublicationFailed(publication: Id, attempt: nat, errorCode: string)
    | MediaUploadIntentCreated(asset: Id)
    | MediaUploadConfirmed(asset: Id)

  datatype AuditLog = AuditLog(tenant: Id, brand: Brand, event: Event)

  /** The exceptions that commands raise. A command that raises leaves the database unchanged. */
  datatype Error =
    | NotFound | IdempotencyConflict | InvalidStateTransition | InvalidSchedule | ScheduleInPast
    | InvalidMediaAsset | MediaUploadUnavailable | BrokenTransaction
    | InvalidApprovalState | InvalidApprovalLink | ApprovalAlreadyDecided | ApprovalAlreadyRevoked | UnsupportedDecision

  /** The row a create or schedule command answers with. */
  datatype Reply = Reply(row: Id, created: bool)

  datatype Db = Db(
    posts: seq<Post>, variants: seq<Variant>, assets: map<Id, Asset>, connections: seq<Connection>,
    requests: seq<ApprovalRequest>, comments: seq<Comment>,
    publications: seq<Publication>, attempts: seq<Attempt>, log: seq<AuditLog>)

  /** The database as one object whose tables the services reassign. */
  class Store {
    var posts: seq<Post>
    var variants: seq<Variant>
    var assets: map<Id, Asset>
    var connections: seq<Connection>
    var requests: seq<ApprovalRequest>
    var comments: seq<Comment>
    var publications: seq<Publication>
    var attempts: seq<Attempt>
    var log: seq<AuditLog>

    constructor ()
      ensures Rows() == Db([], [], map[], [], [], [], [], [], [])
    {
      posts, variants, assets, connections := [], [], map[], [];
      requests, comments, publications, attempts, log := [], [], [], [], [];
    }

    function Rows(): Db
      reads this
    {
      Db(posts, variants, assets, connections, requests, comments, publications, attempts, log)
    }

    /** What leaving an atomic block by an exception does. */
    method Rollback(rows: Db)
      modifies this
      ensures Rows() == rows
    {
      posts, variants, assets, connections := rows.posts, rows.variants, rows.assets, rows.connections;
      requests, comments := rows.requests, rows.comments;
      publications, attempts, log := rows.publications, rows.attempts, rows.log;
    }
  }
}
