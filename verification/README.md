# Relay: delivery, idempotent commands, approvals and slide order

Relay schedules social posts for several tenants. Its safety rests on facts that no single function checks: a
publication is claimed by one worker, some states are never left, some fields are never rewritten. This project
models the code behind those facts and proves them for every run.

## What is modelled

| module | models |
|---|---|
| Types, Tables | the database rows, the store that commands reassign, and facts about ordered lists of ids |
| ContentServices | uploads, the images of a new post, and the rebuilding of the slide order (`relay/content/services.py`) |
| ApiServices | create draft, approve, schedule, and the early reads of the schedule view (`relay/api/services.py`, `relay/api/views.py`) |
| ApprovalServices | approval links: request, revoke, decide (`relay/approvals/services.py`) |
| MetaPublishing, MetaScript | the requests sent to Meta, against a provider that may answer anything (`relay/social/publishing.py`) |
| PublicationServices, PublicationTasks | claim, delivery, retry and finish; the dispatcher (`relay/publications/`) |
| Machine | all of it as interleaved steps of clock, dispatcher, workers, crashes and concurrent requests |
| Growth, DeliveryInvariant, EditorialInvariant, ContentInvariant, AuditInvariant | what every step keeps |
| DeliveryTheorems, Fairness, Replay, Requests, Theorems | the results over whole runs |
| Provenance | what was sent to Meta for the rows that say so: attempts against requests, and where a provider id comes from |
| Scenarios | concrete runs that break a promise of the documentation, or that no invariant excludes |

Every command exists twice: as a method over the class `Types.Store` in the shape of the source, and as a function from
rows to rows that says what one transaction does. The method's contract equates the two for all inputs, and says what that
means for the caller. The state machine takes every step that writes with such a function: the commits of a keyed request
are those of `ApiServices.WriteDraft` and `ApiServices.WritePublication`, which the commands call after their lookup. Lookups
and the view's reads write nothing.

Conventions:

- A transaction is one step at one instant. A command that raises leaves the database as it was. This includes the FAILED
  states that `confirm_media_upload` writes before it raises.
- The `IntegrityError` branches query inside a transaction that has already failed. They are modelled as the error
  `BrokenTransaction`: the row is written, found to violate the unique constraint, and rolled back. Nothing is claimed about
  what the branch then answers.
- A row's key is its position in its table, except for assets, which take a fresh key from the caller. Keys are never reused.
- Foreign keys resolve, as the database guarantees; commands that follow one require it.
- Time is counted in microseconds and does not run backwards. A worker reads the clock before its claim, in a step of its own.
- A brand carries its workspace. A fingerprint is the canonical payload itself, so it does not collide. The raw token of an
  approval link is named by the link's row.
- The provider's answer to the k-th request is an arbitrary value; the HTTP client may also raise an exception that is not a
  request error, for an identifier that makes no valid URL, say. A request that raised counts as made.
- The tasks in the queue are a multiset from which any worker may take any task, and any task may be delivered again at any time.
- Validation and reads of a schedule request, its lookup and its insert are three separate steps; anything may happen between
  them. Creating a draft has two.
- A step that is impossible where it occurs changes nothing, so a run is any list of steps.

## Where code and documentation disagree

The code is followed.

- `DOMAIN.md:73-74` says that repeating a creation request returns the original publication. A repeated schedule request
  gets it exactly when its view lets it through and the row is there when it looks for its key
  (`Requests.RepetitionAnswered`). Two families fail. The serializer checks the time before the service looks for the key,
  so a repetition of an existing row by a caller who may use the brand passes the view exactly while its time is to come
  (`Replay.RepeatedOverHttp`, with a run in `Scenarios.RepetitionRefused`). And a repetition that looks before the original
  commits finds the key taken at its own commit and is turned away (`Replay.SecondCommitLoses`).
- `ARCHITECTURE.md:83-84` says that only an active connection can be scheduled. The flag is the one the view read. The channel
  is active when the publication is created exactly when it was not last deactivated between the view and the commit
  (`Requests.ActiveAtCommit`, with a run in `Scenarios.ScheduledOnInactiveChannel`).
- A scheduled time must lie in the future (`relay/api/serializers.py:118-121`). Validation and commit are separate, so it does
  when the publication is created exactly when less time passed between them than was left (`Requests.FutureAtCommit`, with
  a run in `Scenarios.CommittedInThePast`). The no-starvation bound counts the others.
- `DOMAIN.md:71` allows at most one image and `ARCHITECTURE.md:88-89` delivers exactly one. The code takes up to ten; a post
  has, and a delivery carries, as many images as the request named different ones, so the promises hold exactly when that is
  at most one, or one (`ContentServices.ReadyAssetsMeaning`, `Theorems.ImageCounts`, with a run in `Scenarios.TwoImagesAccepted`).
- `ARCHITECTURE.md:86` says that every Meta request creates a PublicationAttempt. A delivery creates one, however many
  requests it makes; the two agree exactly when the delivery is not refused beforehand, its channel is supported, and it
  either posts a single image to Facebook or has its first request rejected (`Provenance.AttemptsAndRequests`, with a
  delivery of three requests in `Scenarios.ThreeRequestsOneAttempt`).

## Model

| member | source | states |
|---|---|---|
| Types.Store.Rollback | relay/content/services.py:91-114 | leaving an atomic block by an exception restores every table |
| Tables.DedupMeaning | relay/content/services.py:132 | an author's list loses only later repetitions: no id is lost, none is repeated, and ids keep the order of their first appearance |
| ContentServices.ReadyAssetsMeaning | relay/content/services.py:131-147 | comparing two counts accepts exactly the lists of at most ten distinct images that all exist, are READY and belong to the tenant and brand; the answer is the author's order |
| ContentServices.ByCreationMeaning | relay/content/services.py:156 | the attached images, each once, by creation time and then id |
| ContentServices.OrderReconstruction | relay/content/services.py:150-164 | for any stored order, stale or partial: no attached image is lost or invented, stored ones come first in stored order and the rest in creation order; no image repeats if and only if no attached image is stored twice |
| ContentServices.StoredOrderIsRestored | relay/content/services.py:156-164 | an order that lists exactly the attached images is handed out unchanged |
| ContentServices.CreateMediaUploadIntent | relay/content/services.py:42-88 | accepted exactly for a JPEG or PNG of 1 to 10485760 bytes with no checksum or 64 hex digits, on configured storage; then PENDING, reported in the log and not yet attachable; otherwise no row, and which error |
| ContentServices.LowerMeaning | relay/content/services.py:71 | a stored checksum is the given one with its hex letters made small |
| ContentServices.ConfirmMediaUpload | relay/content/services.py:91-128 | succeeds exactly for a READY asset, or a PENDING one whose size, type and (when both are known) checksum storage reports; which error otherwise; every error, with its FAILED write, is undone |
| Theorems.ReadyWasConfirmed | relay/content/services.py:103-117 | over any run, every READY asset was made so by a confirmation for which storage reported its size, type and checksum |
| ApiServices.FindPost | relay/api/services.py:61-63 | finds a post of this tenant and key if there is one |
| ApiServices.FindPublication | relay/api/services.py:149-151 | finds a publication of this tenant and key if there is one |
| ApiServices.WriteDraft | relay/api/services.py:69-106 | the insertion as the source carries it out: write, and roll back on a taken key or an image that may not be attached |
| ApiServices.InsertDraftMeaning | relay/api/services.py:69-97 | inserted exactly when the key is free and at most ten different images are named, all READY and of the tenant and brand; which error otherwise; and every field of post, variant and audit row |
| Requests.DraftCommits | relay/api/services.py:60-97 | whatever others do between lookup and commit, a draft is created if and only if its key is still free and the images it names are attachable then |
| ApiServices.CreatePostDraft | relay/api/services.py:51-106 | replay, conflict, or all rows together; an error leaves nothing, and a request answered with a row is answered with it again |
| ApiServices.ApprovePost | relay/api/services.py:109-129 | succeeds exactly for a DRAFT, PENDING_APPROVAL or APPROVED post of the tenant and brand, which error otherwise; the post is then APPROVED, with an audit row unless it was before; approving again changes nothing |
| ApiServices.WritePublication | relay/api/services.py:157-202 | the insertion as the source carries it out: refusals in order, write, and roll back on a taken key |
| ApiServices.InsertPublicationMeaning | relay/api/services.py:157-193 | inserted exactly when post and channel as read are of the tenant and brand, the channel active, the post APPROVED, one to ten images attached and READY, and the key free; which error otherwise; and every field of the rows |
| ApiServices.SchedulePublication | relay/api/services.py:132-202 | replay, conflict, refusal, or both rows together; a request answered with a row is answered with it again whatever the view has read since |
| ApprovalServices.RequestApproval | relay/approvals/services.py:47-76 | succeeds exactly for a DRAFT or PENDING_APPROVAL post of the tenant and brand, which error otherwise; every field of the new link, which opens until it expires; the post is pending |
| ApprovalServices.RevokeApproval | relay/approvals/services.py:92-113 | succeeds exactly for an undecided, unrevoked link of the workspace, expired or not; which error otherwise; the link then never opens |
| ApprovalServices.DecideApproval | relay/approvals/services.py:116-169 | succeeds exactly for an open undecided link of a pending post, approved or sent back with a comment; which error otherwise, in the order of the checks; the post is then APPROVED or DRAFT, and link, comment and audit row say so |
| ApprovalServices.ActiveMeaning | relay/approvals/services.py:79-89 | a link opens exactly while it is neither revoked nor expired, decided or not |
| MetaPublishing.MetaPublishingClient.Post | relay/social/publishing.py:139-151 | one request is sent; which responses are transient, permanent, uncaught, or a body |
| MetaPublishing.CreatedIdMeaning | relay/social/publishing.py:139-186 | an identifier is given only by a JSON object with a truthy id in an answer below 400; unreachable, 429 and 5xx are transient; the rest are permanent, or uncaught if not an object |
| MetaPublishing.PollMeaning | relay/social/publishing.py:157-178 | polling ends well only on the code FINISHED, permanently on ERROR, EXPIRED, a 4xx or an unreadable answer, transiently on 429, 5xx or no answer, and goes on after any other code |
| MetaPublishing.MetaPublishingClient.WaitForInstagramContainer | relay/social/publishing.py:153-179 | one to five checks two seconds apart, all but the last answered with a code that is not final; success exactly when the last was answered FINISHED, and which last answers give which error, five undecided checks being transient |
| MetaPublishing.MetaPublishingClient.CreateContainer | relay/social/publishing.py:120-131 | success means that the container was accepted and then seen FINISHED |
| MetaPublishing.MetaPublishingClient.PublishContainer | relay/social/publishing.py:56-68 | media_publish is sent only for the container that was just seen FINISHED |
| MetaPublishing.MetaPublishingClient.PublishFacebookCarousel | relay/social/publishing.py:71-96 | uploads in slide order until one fails; the post attaches the ids of all uploads in that order |
| MetaPublishing.MetaPublishingClient.PublishInstagramCarousel | relay/social/publishing.py:98-137 | children in slide order, each FINISHED before the next; the parent names all of them |
| MetaPublishing.MetaPublishingClient.PublishImages | relay/social/publishing.py:29-69 | nothing is sent for no image, more than ten, or an unsupported channel; otherwise what was sent is a run of the channel's script |
| MetaScript.PublishOnlyFinished | relay/social/publishing.py:98-137 | whatever the provider answers: media_publish is sent at most once and last, after a status check was answered FINISHED for the parent and, before the parent was created, for every child; success is the non-empty id in the answer to it |
| MetaScript.RunFollowsScript | relay/social/publishing.py:98-179 | up to repeated status checks an Instagram run sends a prefix of the success script and all of it on success; with c containers at most c + 1 POSTs, 5c checks and 8c seconds of sleep |
| MetaScript.FacebookFollowsScript | relay/social/publishing.py:71-96 | a Facebook run sends a prefix of its script, all of it on success; at most n + 1 requests, one for a single image |
| PublicationServices.ClaimDuePublication | relay/publications/services.py:34-51 | claims exactly a SCHEDULED row whose time has come; one open attempt is added, started at the worker's clock and numbered next; otherwise nothing changes |
| PublicationServices.RecordSuccess | relay/publications/services.py:70-82 | PUBLISHED with the provider's id and no error, the attempt ended, every other publication and attempt as it was |
| PublicationServices.FinishFailure | relay/publications/services.py:85-101 | a retry exactly for a transient failure below the limit; then SCHEDULED after the delay of the attempt, otherwise FAILED at the same time; code, message and audit row are the failure's; every other publication and attempt is as it was |
| DeliveryTheorems.FinishDecides | relay/publications/services.py:89-98 | in every reachable state: a failure ends its publication if and only if it is permanent or as many attempts were made as the setting allows |
| PublicationServices.RetryDelayMeaning | relay/publications/services.py:28-29 | 2, 4, 8 and 16 minutes after the first four attempts, 30 after each later one |
| PublicationServices.Urls | relay/publications/services.py:63 | one URL for each image in order, or none if any image has none |
| PublicationServices.TryPublish | relay/publications/services.py:53-68 | nothing is sent when the delivery is refused, and which exception refuses it; otherwise what was sent, for these images in this order with this text, and how it ended |
| PublicationServices.RefusalMeaning | relay/publications/services.py:55-63 | the guards are checked in this order, and which exception each raises |
| PublicationServices.PublishDuePublication | relay/publications/services.py:32-101 | undisturbed between its transactions: what was sent, and the answer and state that belong to how it ended: a permanent error always fails, a transient one retries below the limit, an uncaught exception leaves the claimed rows |
| PublicationTasks.DueBatch | relay/publications/tasks.py:11-15 | the dispatcher's query answers in every database: at most 100 due publications, each once, earliest first, none passed over for a later one |
| PublicationTasks.DueBatchMeaning | relay/publications/tasks.py:11-15 | a batch holds at most 100 publications, all SCHEDULED with their time come, and every such one unless it is full |
| PublicationTasks.DispatchDuePublications | relay/publications/tasks.py:9-18 | a batch of due publications, earliest first, gets exactly one more task each, and the answer counts them |
| DeliveryInvariant.FinishFindsItsOwn | relay/publications/services.py:70-72 | in every interleaving the unchecked finishing writes find PUBLISHING and their own attempt, still open and the publication's latest |
| DeliveryInvariant.DeliveryStep | relay/publications/services.py:32-101 | every step of every interleaving keeps the delivery invariant |
| DeliveryTheorems.RowIsItsHistory | relay/publications/services.py:45-99 | attempts are numbered 1..n and end RETRY, ..., RETRY and then anything; they and the requested time determine state, scheduled_for and the error fields; PUBLISHED if and only if there is a provider id |
| DeliveryTheorems.ClaimExclusivity | relay/publications/services.py:35-51 | PUBLISHING if and only if an attempt is open; never two open attempts, never two workers; the holder's attempt is the open one |
| DeliveryTheorems.ChangedByItsWorker | relay/publications/services.py:32-101 | only a claim, or the finish of the worker that holds it, changes a publication or its history |
| DeliveryTheorems.CrashOrphans | config/settings.py:63 | a worker killed between its transactions leaves the row PUBLISHING with nobody to finish it |
| DeliveryTheorems.CrashedForever | relay/publications/services.py:35-44 | such a publication is never claimed, retried or finished again, whatever runs afterwards |
| DeliveryTheorems.RankFalls | relay/publications/services.py:43-95 | 2(M - attempts), plus 1 when PUBLISHING and 0 when ended, falls on every change of a publication |
| DeliveryTheorems.DeliveryTerminates | config/settings.py:103 | however many tasks are queued, at most M = max(MAX_ATTEMPTS, 1) attempts and at most 2M changes over any run |
| DeliveryTheorems.BackoffClosedForm | relay/publications/services.py:28-29 | the first n delays add up to 2^(n+1) - 2 minutes for n <= 4 and to 30(n - 3) minutes for n >= 4 |
| DeliveryTheorems.AttemptsKeepTheirDistance | relay/publications/services.py:92-96 | attempt n + 1 never starts before the originally requested time plus the first n delays, though each retry overwrites scheduled_for |
| Fairness.LineStep | relay/api/serializers.py:118-121 | once p is due, exactly the publications validated in time but committed late join those that may stand before it; retries never do |
| Fairness.RoundShortensLine | relay/publications/tasks.py:11-18 | a round that passes over p takes a hundred publications out of the line, but for late commits |
| Fairness.NoStarvation | relay/publications/tasks.py:9-18 | p is passed over in at most (m + late commits)/100 rounds, m being the length of the line; with none late it is enqueued within floor(m/100) + 1 rounds |
| Growth.RunGrows | relay/api/services.py:70-87 | over any run no row is removed, owners, keys and slide orders are never rewritten, APPROVED, READY and decided or revoked links are final, and log and comments only grow |
| EditorialInvariant.EditorialStep | relay/approvals/services.py:47-169 | every step keeps posts, links and audit rows telling the same story |
| ContentInvariant.ContentStep | relay/api/services.py:157-171 | every step keeps ownership, readiness, slide order and unique keys, and what requests in flight remember |
| AuditInvariant.EventsStep | relay/publications/services.py:81-100 | every step keeps a publication's audit rows in agreement with its attempts |
| AuditInvariant.OwnedStep | relay/publications/services.py:81-100 | every audit row carries the tenant and brand of its subject |
| Replay.ReplayAnswersForever | relay/api/services.py:60-67 | once a key has a row, every later lookup of it gives the same answer, whatever happened in between |
| Replay.CreatedThenReplayed | relay/api/services.py:148-155 | the request that created a row gets that row whenever it is repeated, and any other body under its key conflicts |
| Replay.SecondCommitLoses | relay/api/services.py:98-104 | of two requests whose lookups of one key both missed, the one that commits later, however much later, is turned away and leaves no row, variant or audit row |
| Replay.RepeatedOverHttp | relay/api/views.py:540-564 | a schedule request that repeats an existing row is turned away if and only if its time has come or its caller may no longer use the brand; otherwise it gets that row, whatever others do meanwhile |
| Replay.OnlyCreatingWrites | relay/api/services.py:60-106 | a step of a create or schedule request changes the database if and only if it is answered with a row that it created |
| Replay.DeletionIsNeutral | relay/api/services.py:60-67 | from any state: deleting all steps of any requests that created no row changes no table, no other answer, and nothing the other requests in flight remember |
| Replay.RepeatIsDismissed | relay/api/services.py:148-155 | a request that finds its key taken, at its lookup or only when it commits, is answered with a replay, a conflict or a refusal, even if the row was written after its view |
| Replay.DismissedIsTraceless | relay/api/services.py:60-67 | a request that is so answered has created no row and never will |
| Requests.CommitsWhatTheViewAccepted | relay/api/views.py:540-564 | whatever others do between its steps, a schedule request creates a publication if and only if, when its view ran, its time was to come, the caller could use the brand, the post was APPROVED with images, the channel was of that brand and active, and the key is still free at the commit |
| Requests.VisibleIsRead | relay/api/views.py:540-558 | the view lets exactly those requests through whose time is to come and whose post and channel share a brand the caller may use, and passes on the rows as they are |
| Requests.RepetitionAnswered | relay/api/services.py:148-155 | any repetition gets the original row if and only if its view lets it through and the row is there at its lookup; otherwise the view or, if the row was written in between, the commit turns it away |
| Requests.ActiveAtCommit | relay/api/services.py:159-164 | a publication is created on an active channel if and only if the channel was not last deactivated between the view and the commit |
| Requests.FutureAtCommit | relay/api/serializers.py:118-121 | a publication is created with its time still to come if and only if less time passed between the view and the commit than was left at the view |
| Theorems.DeliveredSlides | relay/publications/services.py:54-64 | at every delivery the images are those the author requested, in order, one to ten, all READY JPEG or PNG files of the publication's tenant and brand, with the requested text |
| Theorems.ImageCounts | relay/content/services.py:131-147 | every post has, and every delivery of it carries, as many images as its request named different ones |
| Theorems.GuardsNeverFire | relay/publications/services.py:55-58 | a delivery is refused before anything is sent if and only if settings, token or URLs are missing; never because of its images |
| Theorems.SlidesReachInstagram | relay/social/publishing.py:106-125 | a successful delivery published the requested text with the containers of the requested images, in slide order, and its identifier answers the final request |
| Theorems.SlidesReachFacebook | relay/social/publishing.py:79-92 | a successful delivery posted the requested text with the uploads of the requested images, in slide order, and its identifier answers the final request |
| Provenance.PublishedAsRequested | relay/publications/services.py:54-80 | with an account of what each worker sent: every PUBLISHED row was published by exactly one step of the run, and its provider id answers the final request in that step's own account, whose delivery carried the author's text and images in the author's order |
| Provenance.WorkAtTheProvider | relay/publications/services.py:45-101 | over any run the finished deliveries of a publication are its ended attempts, at most M; together they make at most M times the requests of one delivery of its images, and at most M media_publish, feed or single-photo requests |
| Provenance.DeliveryWork | relay/social/publishing.py:29-69 | a delivery of n images makes at most n + 1 requests to Facebook (1 if n = 1) and 6c + 1 to Instagram with c containers, and at most one that makes it visible |
| Provenance.DeliveriesAreAttempts | relay/publications/services.py:45-99 | the deliveries that finish in a run are, one for one, the attempts that ended |
| DeliveryTheorems.EndedForever | relay/publications/services.py:40 | a PUBLISHED or FAILED publication and its attempts never change again, whatever tasks are still queued |
| Provenance.TriedStays | relay/publications/services.py:53-64 | a delivery reads the same rows whenever it reads them between claim and finish |
| Provenance.RequestsMade | relay/social/publishing.py:29-69 | a delivery makes no request if and only if it is refused or unsupported, and a single one if and only if it posts one image to Facebook or its first request is rejected |
| Provenance.AttemptsAndRequests | relay/publications/services.py:45-64 | attempts added equal requests made if and only if a single request is made, in terms of channel, images and the first answer |
| Theorems.BrandClosure | relay/api/services.py:157-164 | a publication, its post, all its images, its channel and every audit row about it share one tenant and one brand |
| Theorems.ReplayKeepsBrand | relay/api/services.py:61-67 | a repeated request is answered with a row of the brand it asked for, although keys are looked up by tenant only |
| Theorems.UnlockedApprovalIsSound | relay/api/views.py:543-562 | a post read as APPROVED without a lock is APPROVED at the commit, and the post of a publication is APPROVED ever after |
| Theorems.InactiveChannelIsScheduled | relay/api/services.py:159-164 | deactivating the channel of any request that is about to commit does not change its answer |
| Theorems.ApprovalAccounting | relay/approvals/services.py:52-65 | folding a post's audit rows gives its state; entries into PENDING_APPROVAL minus changes requested is 0, 1, or 0 or 1 in DRAFT, PENDING_APPROVAL and APPROVED; a pending post has an undecided link; at most one link records APPROVED |
| Theorems.ApprovedPostClosesItsLinks | relay/approvals/services.py:139-141 | once a post is APPROVED every decision on any of its links is refused, for ever |
| Theorems.LinkDecisions | relay/approvals/services.py:126-150 | a decision came before expiry, on a link that is not revoked, with a comment if it asks for changes; decided and revoked links never change |
| Theorems.PublicationLogReplays | relay/publications/services.py:81-100 | a publication's audit rows are one scheduled and one for each ended attempt, in attempt order; replaying them never gets stuck and gives its state unless an attempt is open |
| Theorems.OneRowPerKey | relay/api/services.py:61-104 | however lookups and inserts interleave, a tenant's key has at most one post and one publication; each post has one variant and one creation event |
| Theorems.UploadsNeverFail | relay/content/services.py:94-117 | FAILED is unreachable, and a READY asset never changes |
| Theorems.EndedAttemptsAreFinal | relay/publications/services.py:45-49 | an attempt that has ended is never rewritten |
| Theorems.DeletingReplays | relay/api/services.py:148-155 | deleting from any history any create or schedule requests that were answered with a replay, a conflict, a refusal or a lost race changes neither the final database, queue and workers nor any other answer |
| Scenarios.ScheduledOnInactiveChannel | relay/api/views.py:549-562 | a run from an empty database that ends with a publication on an inactive channel |
| Scenarios.CommittedInThePast | relay/api/serializers.py:118-121 | a run that commits a publication whose time has passed |
| Scenarios.RepetitionRefused | relay/api/serializers.py:118-121 | a run after which the service would return the original publication and the API refuses the request |
| Scenarios.TwoImagesAccepted | relay/content/services.py:131-147 | a run that accepts a draft with two images |
| Scenarios.ThreeRequestsOneAttempt | relay/social/publishing.py:71-96 | a delivery of two images that makes three requests and adds one attempt |
| Scenarios.DeliveryPublishes | relay/publications/services.py:32-82 | a run from an empty database in which a delivery of two images is dispatched, claimed, sent and published, with its account |
| Scenarios.CrashLosesPublication | config/settings.py:63 | a run after which, whatever follows, a publication stays PUBLISHING with its one attempt |

## Left out

- HTTP views, serializers, scopes, roles, sessions and JWTs, but for the early reads of the schedule view and the check that the time is in the future.
- Encryption, hashing, random tokens, storage and HTTP transport: a stored token decrypts or not, storage metadata and the provider's responses are arbitrary inputs, a URL exists or not.
- OAuth connection and the command that revokes connections, with their audit rows: connecting, activating and deactivating a channel are steps of the environment. Nothing is claimed about a channel being active at delivery.
- Exactly-once publication at Meta: a transient error on the last request is retried, so the provider may see two; the bounds are per run and per publication.
- Which answer the `IntegrityError` branches give, since they query inside a failed transaction.
- In the state machine a delivery may end in any way its worker reports. What was sent enters as an account of each finishing step, which `Provenance.Genuine` ties to that step.
- Provenance.WorkAtTheProvider: counts finished deliveries only; a worker that crashes may have sent a part of one more, after which its publication is never delivered again.
- Column widths (a provider id of more than 255 characters, say): text and integers are unbounded.
- Several readings of the clock inside one transaction are one instant; `updated_at` is not modelled.
- Acting subjects, request ids and audit metadata other than the attempt number and the error code.
- Upload file names, storage keys and signed URLs.
- Members, invitations, panel summaries, workspace provisioning, the frontend, and operations.
- Variants that predate the stored order: only the order reconstruction speaks about them.
- ApiServices.CreatePostDraft: nothing else touches the database between its lookup and its write; a key inserted in between is `WriteDraft`'s case and the state machine's.
- ApiServices.SchedulePublication: the same; a key inserted in between is `WritePublication`'s case and the state machine's.
- PublicationServices.PublishDuePublication: assumes that nothing else touches the database between its two transactions; the interleaved case is the state machine's, whose steps are the same transactions.
- DeliveryTheorems.RowIsItsHistory: which identifier the provider gave is not determined by the attempts.
