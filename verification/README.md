# Verified models of the assistant's stateful core

The assistant's back end keeps several pieces of state that many callers change at once: scan works
for uploaded attachments, catalog sources fed from OneDrive, background jobs, rate-limit windows,
monthly schedules and remembered texts. This project models that logic in Dafny and proves what the
code promises about it, together with the exact behaviour of the small algorithms around it (message
splitting, citation splicing, drive traversal, embedding order, cron coverage).

Objects whose methods change their fields are classes whose methods are proved against
specification functions on values; the properties of whole runs are then proved of those functions.
Where callers suspend, every suspension is a point at which other callers act or the caller dies.

| module | what it models |
|---|---|
| `Jobs`, `JobsRedis`, `JobsRedisRuns`, `JobsAgreement` | background jobs in memory and as Redis scripts, runs of the scripts, and where the two agree |
| `ScanWork`, `ScanWorkStore`, `ScanRedisStore`, `ScanShape`, `ScanAgreement`, `ScanClaims` | the scan-work state machine, two stores that implement it, the shape of what they store, where they agree, and what claims and other operations do in every reachable state |
| `ScanOutbox` | send-then-mark dispatch and the pending index |
| `ScanWorker`, `ScanProtocol`, `ScanInvariant`, `ScanGuarantees` | the worker cut at its awaits, the distributed protocol, its invariant and what never happens in it |
| `ScanAnswers`, `ScanProgress` | what the end of a work rests on in every run, and what one uninterrupted run comes to |
| `CatalogItems`, `CatalogMeaning`, `CatalogStore` | the items and what a publication makes of them, what a reader sees, and the store with its revision fence |
| `CatalogSync`, `CatalogSyncRuns` | what a OneDrive feed publishes, and concurrent syncs |
| `RateLimit`, `RateBound`, `RateLimitRedis`, `RateSources` | the two-bucket limiter, its bound over any interval, its Redis script, and whose quota a call uses up |
| `ScheduleDates`, `ScheduleMemory`, `ScheduleStore`, `ScheduleRuns` | batch validation, the canonical schedule, and its whole runs |
| `TextMemory`, `EmbeddingBackfill` | remembered texts, their embeddings, concurrent backfills |
| `Citations`, `CitationSplicing`, `CitationOrder` | citation splicing, why it is a simultaneous replacement, and the exact order in which it is |
| `LineReply`, `DriveTraversal`, `EmbeddingOrder`, `CronCoverage` | the other algorithms |

Results that differ from what one might expect of the code, each proved with its exact condition:

- A sliding interval admits at most twice the limit minus one, not twice the limit, and this is reached.
- A text is delivered whole up to 15002 UTF-16 units, and some text of 15003 is not.
- A OneDrive delta leaves a visible file behind exactly when it skips an entry that was visible, such
  as a file renamed to an extension that is not allowed.
- The two scan stores answer a claim alike exactly when the work is not a live one with an empty text field, and such a
  work, while pending, is the only kind that can drop out of the outbox index.
- A Redis renewal that reaches the server late takes a job from uncertain back to pending exactly when the lease has
  lapsed by then and the new one is ahead.
- A Redis completion, read in one step and written in another, does what one step would do, whatever runs in between,
  exactly when it is written before the key it read dies; later it can hide another job from every reader.
- Citations that do not overlap are spliced without loss exactly when no empty one is listed before one that starts
  with it and is not empty.
- A valid schedule input makes a memory that is never active and never purged exactly when its expiry is the empty text,
  and a saved text exactly when its expiry is given and is no date.
- A suggested cron rule closes its gap exactly when any rule could.

## Model

| member | source | states |
|---|---|---|
| Jobs.InMemoryAgentJobStore.CreatePending | src/agent/jobs.ts:92-114 | drops every expired job, returns a live one with this id if the scope agrees, conflicts exactly when it does not, else stores a new pending job |
| Jobs.InMemoryAgentJobStore.MarkStarted | src/agent/jobs.ts:116-129 | starts exactly a pending, unstarted, unexpired job |
| Jobs.InMemoryAgentJobStore.RenewExecution | src/agent/jobs.ts:130-142 | renews exactly a pending job whose execution lease is still ahead |
| Jobs.InMemoryAgentJobStore.CompleteJob | src/agent/jobs.ts:144-164 | completes an open unexpired job with this result, and the capability given or else its own, and leaves every other one |
| Jobs.InMemoryAgentJobStore.FailJob | src/agent/jobs.ts:166-176 | fails a pending job, as uncertain for that one error |
| Jobs.InMemoryAgentJobStore.GetJob | src/agent/jobs.ts:178-188 | returns the projected job of its own scope only, and drops it once expired |
| Jobs.RunForward | src/agent/jobs.ts:92-188 | through any run within one lifetime a job keeps its identity and only moves forward, and closed ones do not change |
| Jobs.ViewMonotone | src/agent/jobs.ts:396-402 | over a clock that does not go back, the status read through get only moves pending, uncertain, closed; a closed reading never changes |
| Jobs.StartsAtMostOnce | src/agent/jobs.ts:116-129 | within one record lifetime markStarted succeeds at most once, whatever runs in between |
| Jobs.LapsedLeaseIsNotRenewed | src/agent/jobs.ts:130-142 | once a job reads as uncertain, no later renewal changes anything |
| JobsRedis.RedisAgentJobStore.CreateScript | src/agent/jobs.ts:403-415 | returns the stored job untouched, or stores the new one, stamped by its caller, with a life of its own |
| JobsRedis.RedisAgentJobStore.ExecutionScript | src/agent/jobs.ts:416-431 | starts or renews exactly a pending job whose key is alive, on the stamp of its caller, and keeps the life of the key |
| JobsRedis.RedisAgentJobStore.FailScript | src/agent/jobs.ts:56-67 | fails exactly a pending job whose key is alive |
| JobsRedis.RedisAgentJobStore.CompleteScript | src/agent/jobs.ts:432-440 | overwrites exactly an open record, with what the caller made of its earlier reading: completed with this result, and the capability given or else the one read |
| JobsRedis.RedisAgentJobStore.ReadOpen | src/agent/jobs.ts:268-282 | the first half of complete returns a record that is there, open and unexpired on the caller's clock, and no other |
| JobsRedis.RedisAgentJobStore.GetJob | src/agent/jobs.ts:307-316 | a reader gets the projected job of its own scope while key and record last |
| JobsRedisRuns.ReachedIsGood | src/agent/jobs.ts:403-440 | in every state reached from the empty store records stand under their own id, are leased only when started, expire by the death of their key, and readings are of open records |
| JobsRedisRuns.RunFollows | src/agent/jobs.ts:403-440 | over any run of scripts within one lifetime, late stamps and split completions included, closed records do not change and open ones keep identity, start and capability until they close |
| JobsRedisRuns.StartsAtMostOnce | src/agent/jobs.ts:416-431 | after any run from the empty store, within one record lifetime the start script succeeds at most once, whatever scripts run in between |
| JobsRedisRuns.SplitCompletionAgrees | src/agent/jobs.ts:268-297 | within the lifetime of the record it read, a completion in two scripts ends an open record as one step would and touches no closed one |
| JobsRedisRuns.SplitCompletionAgreesIff | src/agent/jobs.ts:268-297 | a caller that has read an open record and writes at a given time does what one step would do, over every run of other scripts in between, exactly when that time is before the death of the key it read |
| JobsRedisRuns.LateWriteHides | src/agent/jobs.ts:432-440 | a write from the death of its key on hides the record it goes over from every reader, for good |
| JobsRedisRuns.SeenIsMonotone | src/agent/jobs.ts:307-316 | after any run from the empty store, and over any scripts that revive no lapsed lease, the status a reader gets never goes back, a closed answer never changes, and an uncertain job is not seen as pending again |
| JobsRedisRuns.OnTimeNeverRevives | src/agent/jobs.ts:257-266 | callers whose clock is the server's revive nothing |
| JobsRedisRuns.LateRenewalRevivesIff | src/agent/jobs.ts:257-266 | of all scripts exactly a renewal accepted after the lease lapsed, with a new lease still ahead, takes a reader's answer back |
| JobsRedisRuns.LateRenewalIsReachable | src/agent/jobs.ts:416-431 | from an empty store a job is seen as uncertain and then as pending again |
| JobsRedisRuns.LateCompletionHidesTheNextJob | src/agent/jobs.ts:268-297 | from the empty store: a new job under a reused id is seen until the late completion of the old one is written, and by no reader at any time afterwards; the witness of JobsRedisRuns.SplitCompletionAgreesIff |
| JobsAgreement.StepAgrees | src/agent/jobs.ts:403-440 | with stamps on time each script makes the step of the store in memory on the unexpired jobs |
| JobsAgreement.ReadersAgree | src/agent/jobs.ts:207-316 | over any such run both stores give every reader the same answer |
| ScanWork.StepEvolves | src/attachments/scan-work-store.ts:577-813 | every accepted operation keeps identity, the write-once descriptor, the absorbing statuses, and never takes publishing back to queued or claimed |
| ScanWork.RunEvolves | src/attachments/scan-work-store.ts:577-813 | the same over every run of operations: a work only evolves, and one that is gone stays gone |
| ScanWork.SupersededForever | src/attachments/scan-work-store.ts:709-730 | a token that no longer holds its work never holds it again |
| ScanWork.FencedForever | src/attachments/scan-work-store.ts:635-730 | every later operation with a released or superseded token is refused and changes nothing |
| ScanWork.LosingTheClaimSupersedes | src/attachments/scan-work-store.ts:709-730 | release, ending and another claim each supersede the token |
| ScanShape.RunKeepsShape | src/attachments/scan-work-store.ts:43-65 | in every run each record has the fields of its status and no others, and owes no update but that of its own ending |
| ScanShape.BoundedExpiryIsLatest | src/attachments/scan-work-store.ts:1308-1321 | the end of a lease is the latest time within its length, the work's life and the deadline |
| ScanShape.PublicationLeaseIsBounded | src/attachments/scan-work-store.ts:635-664 | a publication begins only with time left, and its lease ends within all three bounds |
| ScanShape.RunKeepsSchema | src/attachments/scan-work-store.ts:115-218 | works created with their text fields filled in stay readable by every script, after any run |
| ScanShape.NewWorkReads | src/attachments/scan-work-store.ts:115-218 | a new work is readable exactly when it names its requester and none of its texts is empty |
| ScanClaims.NoStuckWork | src/attachments/scan-work-store.ts:614-633 | no stuck work: after any operations of any callers a claim takes over every live work that is queued or was claimed a lease ago, gives up a publication whose lease is over (one begun a lease ago is such a one), tells how an ended work ended, and leaves every other work and status alone; in memory and in the scripts |
| ScanClaims.StoresDoAsAsked | src/attachments/scan-work-store.ts:557-831 | after any operations each other operation is done exactly when its caller may do it (a live token within a lease of its claim, or within the lease of its publication), does just that to its one work, and is otherwise refused without a change; in memory and in the scripts |
| ScanWorkStore.CollectPending | src/attachments/scan-work-store.ts:564-570 | the pending works, all of them, each once |
| ScanWorkStore.InMemoryAttachmentScanWorkStore.CreateWork | src/attachments/scan-work-store.ts:539-555 | stores a pending work under its new id |
| ScanWorkStore.InMemoryAttachmentScanWorkStore.MarkEnqueuedWork | src/attachments/scan-work-store.ts:557-562 | queues exactly a live pending work |
| ScanWorkStore.InMemoryAttachmentScanWorkStore.ListPendingEnqueue | src/attachments/scan-work-store.ts:564-570 | unexpired pending works, as many as the limit allows, each once |
| ScanWorkStore.InMemoryAttachmentScanWorkStore.ClaimRecord | src/attachments/scan-work-store.ts:577-633 | a queued work or one whose claim has lapsed is granted under the new token, a publication whose lease has lapsed is failed as abandoned, an ended work says how, any other answers active; nothing else changes |
| ScanWorkStore.InMemoryAttachmentScanWorkStore.ReconcileTerminalJobUpdate | src/attachments/scan-work-store.ts:815-831 | the requester's job is told the pending update, which is then cleared |
| ScanWorkStore.InMemoryAttachmentScanWorkStore.ClaimForProcessing | src/attachments/scan-work-store.ts:577-633 | the same, and uninterrupted a claim of an ended work also tells its job the update and clears it |
| ScanWorkStore.InMemoryAttachmentScanWorkStore.BeginPublishingWork | src/attachments/scan-work-store.ts:635-664 | begins exactly under a live claim, with a lease bounded by the work and the deadline |
| ScanWorkStore.InMemoryAttachmentScanWorkStore.RecordAssetId | src/attachments/scan-work-store.ts:666-683 | records under a live claim only |
| ScanWorkStore.InMemoryAttachmentScanWorkStore.RecordUploadDescriptor | src/attachments/scan-work-store.ts:685-707 | writes the descriptor once; the same one again is accepted and changes nothing |
| ScanWorkStore.InMemoryAttachmentScanWorkStore.ReleaseForRetry | src/attachments/scan-work-store.ts:709-730 | releases a claim, never a publication |
| ScanWorkStore.InMemoryAttachmentScanWorkStore.CancelPendingEnqueue | src/attachments/scan-work-store.ts:732-742 | fails exactly a live pending work |
| ScanWorkStore.InMemoryAttachmentScanWorkStore.TerminalStatus | src/attachments/scan-work-store.ts:744-749 | the status of a live work that has ended, and of no other |
| ScanWorkStore.InMemoryAttachmentScanWorkStore.TransitionTerminal | src/attachments/scan-work-store.ts:775-813 | ends the work under a live claim or publication, keeping the update to report |
| ScanWorkStore.InMemoryAttachmentScanWorkStore.FinishWork | src/attachments/scan-work-store.ts:751-773 | uninterrupted, the work is terminal, its job told and its update cleared |
| ScanRedisStore.RedisAttachmentScanWorkStore.CreateScript | src/attachments/scan-work-store.ts:109-114 | the work is stored with its life and enters the index |
| ScanRedisStore.RedisAttachmentScanWorkStore.ClaimScript | src/attachments/scan-work-store.ts:219-275 | one atomic claim on the live view, status by status as in memory: grants what is queued or lapsed, abandons a lapsed publication, leaves the rest |
| ScanRedisStore.RedisAttachmentScanWorkStore.BeginPublishingScript | src/attachments/scan-work-store.ts:276-306 | begins publishing under the lease end it is given |
| ScanRedisStore.RedisAttachmentScanWorkStore.BeginPublishingWork | src/attachments/scan-work-store.ts:956-970 | reading the expiry first and running the script refines beginPublishing |
| ScanRedisStore.RedisAttachmentScanWorkStore.RecordAssetScript | src/attachments/scan-work-store.ts:307-330 | refines recordAsset |
| ScanRedisStore.RedisAttachmentScanWorkStore.RecordUploadDescriptorScript | src/attachments/scan-work-store.ts:331-363 | refines recordUploadDescriptor |
| ScanRedisStore.RedisAttachmentScanWorkStore.ReleaseScript | src/attachments/scan-work-store.ts:364-389 | refines releaseForRetry |
| ScanRedisStore.RedisAttachmentScanWorkStore.MarkEnqueuedScript | src/attachments/scan-work-store.ts:390-410 | refines markEnqueued and takes the id out of the index |
| ScanRedisStore.RedisAttachmentScanWorkStore.CancelScript | src/attachments/scan-work-store.ts:411-433 | refines cancelPendingEnqueue |
| ScanRedisStore.RedisAttachmentScanWorkStore.TerminalTransitionScript | src/attachments/scan-work-store.ts:434-487 | refines complete and fail |
| ScanRedisStore.RedisAttachmentScanWorkStore.ClearPendingJobUpdateScript | src/attachments/scan-work-store.ts:488-510 | refines the clearing of a reported update |
| ScanAgreement.StoresAgreeIffReadable | src/attachments/scan-work-store.ts:115-218 | after any run, over a clock that does not go back, both stores hold the same readable works and accept the same operations on them, and answer a claim alike exactly when the work is not a live one whose text fields are not filled in |
| ScanAgreement.ReadableCreatesAgree | src/attachments/scan-work-store.ts:219-510 | when works are created with their text fields filled in the two stores cannot be told apart |
| ScanAgreement.UntitledIsClaimableOnlyInMemory | src/attachments/scan-work-store.ts:1323-1327 | a work without a title is accepted, queued and granted by one store, and never found by the other |
| ScanRedisStore.ReadBeforeScriptIsSafe | src/attachments/scan-work-store.ts:956-970 | whatever runs between the read of the expiry and the script, the outcome is that of one step |
| ScanOutbox.SendThenMark | src/attachments/scan-outbox.ts:16-27 | a work is marked queued only after its id was sent, and is whenever the send succeeds and the work is live and pending |
| ScanOutbox.DispatchAttachmentScanWork | src/attachments/scan-outbox.ts:12-28 | queued exactly when the send succeeds and the work is live and pending; otherwise the work is left for a later flush, or the failure is passed on |
| ScanOutbox.FlushAttachmentScanOutbox | src/attachments/scan-outbox.ts:30-44 | the count is the number of works that moved to queued, each of them was sent, and no more are left than sends failed |
| ScanOutbox.OnlyUnreadableIsLost | src/attachments/scan-work-store.ts:1086-1098 | in every run an unexpired pending work is missing from the index only if its text fields are not filled in, although the index is read and trimmed in two steps, and every queued work was sent |
| ScanOutbox.NoLostWork | src/attachments/scan-work-store.ts:1086-1098 | when works are created with their text fields filled in, every unexpired pending work is in the index in every run |
| ScanOutbox.DispatchQueues | src/attachments/scan-work-store.ts:390-410 | a dispatcher that nobody interrupts queues a readable pending work and takes it out of the index |
| ScanOutbox.LostIffUnreadable | src/attachments/scan-work-store.ts:1086-1106 | from any reachable state an unexpired pending work can drop out of the index exactly when its text fields are not filled in |
| ScanOutbox.UntitledIsLost | src/attachments/scan-work-store.ts:865-885 | a work without a title is created, indexed, and dropped by the first pass over the index |
| ScanInvariant.StepKeepsInv | src/attachments/asset-worker.ts:30-197 | every step of every worker, lapse, lost answer and crash keeps what the safety results rest on: one holder a token, publications after a clean scan of the uploaded file, ends that are remembered; where runs lead is the subject of ScanProgress |
| ScanGuarantees.AtMostOncePublication | src/attachments/asset-worker.ts:127-180 | publishVerifiedResource is called at most once a work, by the worker that began publishing, after a clean scan with a signature version, with bytes, name and type of the persisted descriptor, whose size and digest are those of the scanned asset |
| ScanGuarantees.RunRemembers | src/attachments/scan-work-store.ts:577-813 | descriptors, publication starts and outcomes are written once, even past the record's life |
| ScanGuarantees.NoTwoWorkersOverlap | src/attachments/scan-timing.ts:3-12 | two workers inside a claim of one work are never both within the replica limit of their claims |
| ScanGuarantees.ReportsAreTruthful | src/attachments/asset-worker.ts:248-260 | completed and permanent failures are reported only when the work ended that way |
| ScanGuarantees.OneUpdatePerWork | src/attachments/scan-work-store.ts:815-831 | all reconciliations of one work carry the same update |
| ScanGuarantees.RedeliveryAgrees | src/attachments/scan-work-store.ts:577-633 | wherever earlier runs crashed, one uninterrupted redelivery leaves a waiting job with the work's own outcome and nothing owed |
| ScanAnswers.EndsAsPublished | src/attachments/asset-worker.ts:169-180 | in every run a work ends completed only after its publication was called and answered ok, and with the result of that answer, which is the update of its job; it fails as a failed publication only if the answer was not ok |
| ScanAnswers.AnswersAreFinal | src/attachments/asset-worker.ts:169-180 | the answer of a publication is given once: no later one takes its place |
| ScanProgress.UninterruptedRunConcludes | src/attachments/asset-worker.ts:30-197 | from every reachable state, a message for a live work that is queued or whose claim has lapsed, with a waiting job: whatever the services answer, an uninterrupted run gets at most 17 answers besides polls, can always go on until it returns, and then the first answer that is not a good one has decided the status and code of the work, the status, result and error of its job, the publications and the report; nothing else has changed, and a work that cannot be published is failed before any service is asked |
| ScanProgress.PublicationDecides | src/attachments/asset-worker.ts:169-180 | when such a run heard the publication, exactly one publication of this work was added, and it ended completed with the answered result in its job, or failed as publish_failed, as the publication answered |
| ScanProgress.InfectedIsNotPublished | src/attachments/asset-worker.ts:130-140 | when such a run saw the uploaded file infected, the work and its job failed as scan_infected and nothing was published |
| ScanProgress.NeverStuck | src/attachments/asset-worker.ts:63-197 | wherever such a run stands it takes every kind of answer of the service it waits for, or its own next call is enabled |
| ScanProgress.NewWorkCanRun | src/attachments/scan-outbox.ts:12-22 | from every reachable state a new job, and a work created for it and queued, make such a run possible |
| ScanProgress.UnclaimedReturns | src/attachments/asset-worker.ts:47-61 | a run whose claim is not granted reports the work missing, contention without touching it, or the way it had ended |
| ScanProgress.ThrownCallLeads | src/attachments/asset-worker.ts:181-195 | when a store call throws, whether or not the store acted, the run reports a retry, contention or what it meant to report, and under a claim goes on as the exception says |
| ScanWorker.MediaTypesCompare | src/attachments/asset-worker.ts:345-347 | media types are compared without parameters, surrounding white space and case |
| CatalogStore.InMemoryCatalogStore.UpdateSourceSyncCursor | src/catalog/store.ts:208-214 | changes the cursor and nothing else, in particular not the revision |
| CatalogStore.InMemoryCatalogStore.AssertPublicationScope | src/catalog/store.ts:513-521 | accepts exactly inputs of the source with pairwise different identities |
| CatalogStore.InMemoryCatalogStore.PublishSourceSnapshot | src/catalog/store.ts:216-255 | refused on a stale revision, thrown out of scope, both without any change; else the snapshot's items, a new revision, the cursor given, health ready, no error, and a stored count that is the number of inputs and of visible identities; other sources stay |
| CatalogStore.InMemoryCatalogStore.PublishSourceDelta | src/catalog/store.ts:257-299 | the same fence, the delta's items, and the same of the source, its stored count being the number of visible identities |
| CatalogStore.InMemoryCatalogStore.MarkSourceSyncFailure | src/catalog/store.ts:301-318 | marks the failure under the same fence and keeps revision, cursor and items |
| CatalogStore.InMemoryCatalogStore.UpsertItem | src/catalog/store.ts:340-362 | writes the item even when the source is missing, and then throws; else the source keeps its cursor and stores the number of visible identities as its count |
| CatalogStore.InMemoryCatalogStore.TombstoneItemById | src/catalog/store.ts:369-374 | tombstones the item and leaves the source's count as it was |
| CatalogItems.PutAllStores | src/catalog/store.ts:273-292 | a batch stores each input under the id its identity had, or a new one, and keeps one item for each source and identity |
| CatalogMeaning.SnapshotShows | src/catalog/store.ts:216-255 | a reader sees exactly the snapshot, under the ids it knew; other sources are as before |
| CatalogMeaning.DeltaShows | src/catalog/store.ts:257-299 | a reader sees the upserts over what was visible and not deleted |
| CatalogMeaning.ActiveCount | src/catalog/store.ts:453-458 | the items that promoteSource counts are as many as the visible identities, which is what the publishing methods store |
| CatalogMeaning.SnapshotCount | src/catalog/store.ts:216-255 | after a snapshot the visible identities are those of its inputs, as many as there are inputs |
| CatalogMeaning.DeltaMeansSnapshot | src/catalog/store.ts:216-299 | a delta leaves the same visible items, ids and count, for every source, as the snapshot of the visible items minus the deletions overlaid with the upserts |
| CatalogStore.DeltaCountsLikeSnapshot | src/catalog/store.ts:254-338 | a delta stores in the source the count that the snapshot of the overlaid items stores, which is what a reader sees of either |
| CatalogSync.CollectDelta | src/catalog/onedrive-sync.ts:139-173 | every entry of a feed is an upsert, a deletion or a skip, in order |
| CatalogSync.AllowedFiles | src/catalog/onedrive-sync.ts:134-173 | a named entry is published exactly when it is no folder and its extension, in any case, is allowed or all are; its title, path and extension are its own, and its media type is that of the extension |
| CatalogSync.CollectedUpserts | src/catalog/onedrive-sync.ts:139-173 | the upserts are accepted entries of the feed and pass the publication scope |
| CatalogSync.DeltaDescribesIff | src/catalog/onedrive-sync.ts:150-159 | after an incremental sync the visible items are the allowed files of the folder exactly when no skipped entry was visible |
| CatalogSync.SnapshotDescribes | src/catalog/onedrive-sync.ts:185-191 | after a first or reset sync they always are |
| CatalogSyncRuns.StepKeepsInv | src/catalog/onedrive-sync.ts:25-65 | every step of concurrent syncs, including the cursor reset that does not change the revision, keeps cursor and items in step |
| CatalogSyncRuns.CursorDescribesItems | src/catalog/onedrive-sync.ts:25-192 | whenever the source has a cursor, its visible items are exactly the allowed files of the folder at that cursor |
| CatalogSyncRuns.RevisionNeverReturns | src/catalog/store.ts:508-511 | a revision once replaced never comes back |
| CatalogSyncRuns.LateSyncChangesNothing | src/catalog/store.ts:223-224 | a sync that read the source before another publication publishes nothing |
| CatalogSyncRuns.UndisturbedSyncCatchesUp | src/catalog/onedrive-sync.ts:38-192 | from every reachable state a sync that nobody disturbs, after a cursor reset or without one, leaves the source ready under a new revision, at the version its feed reached, with exactly the allowed files of that version visible |
| CatalogSyncRuns.ErrorsLead | src/catalog/onedrive-sync.ts:45-66 | a sync starts from the source as it is; a reset cursor is dropped and the folder fetched once more under the same revision; without a delta the folder is listed |
| CatalogSyncRuns.CountIsWhatIsSeen | src/catalog/store.ts:320-338 | from the first publication on, over whole runs of syncs, failures and uses of other sources, the source's count is the number of its visible identities |
| CatalogSyncRuns.PublicationStoresTheCount | src/catalog/store.ts:320-338 | a publication that is not turned away has just stored that number, made the source ready and cleared its error |
| CatalogSyncRuns.RenamedOutOfTheFilterStaysVisible | src/catalog/onedrive-sync.ts:156-159 | a published file renamed to an extension that is not allowed stays visible after the next delta |
| RateLimit.InMemoryRateLimiter.Prune | src/rate-limit.ts:73-76 | exactly the buckets past their reset are gone |
| RateLimit.InMemoryRateLimiter.HitBucket | src/rate-limit.ts:77-94 | one hit counts, decides and claims the notification |
| RateLimit.InMemoryRateLimiter.Check | src/rate-limit.ts:68-99 | the answer and the buckets after one check are those that RateSources.AnswersByOwnWindows describes by user, member and chat |
| RateBound.TwoHits | src/rate-limit.ts:77-94 | two hits of one key share a window with rising counts, or their windows are a full length apart |
| RateBound.AdmittedIffQuotaLeft | src/rate-limit.ts:68-99 | a check is admitted exactly when every bucket it asks has had fewer hits than its limit in its open window |
| RateBound.RateBoundHolds | src/rate-limit.ts:68-99 | every half-open interval of one window length admits at most twice the limit minus one, for each bucket |
| RateBound.RateBoundIsTight | src/rate-limit.ts:68-99 | for every positive limit, of a user, of a group or of a room, and every window of two milliseconds or more some run reaches that bound |
| RateBound.RefusedRequesterSparesGroup | src/rate-limit.ts:95-96 | a check refused at its requester bucket leaves the group bucket untouched |
| RateBound.AnswerNotifies | src/rate-limit.ts:85-98 | the caller is told to notify exactly when some bucket it hit notifies |
| RateBound.NotifiesAtFirstRefusal | src/rate-limit.ts:85-87 | a window notifies at its first refusal and at no other hit |
| RateBound.OneNotificationAWindow | src/rate-limit.ts:85-87 | two notifications of one key are a full window apart |
| RateLimitRedis.RedisRateLimiter.HitScript | src/rate-limit.ts:34-47 | one hit of the script, including the repair of a counter without expiry |
| RateLimitRedis.ViewLater | src/rate-limit.ts:34-47 | between checks nothing but expiry happens to counters that expire and their claims |
| RateLimitRedis.RedisRateLimiter.Check | src/rate-limit.ts:105-131 | the script decides as the limiter in memory does on the view of its keys, counters left without an expiry included, leaves the same view, and gives exactly the counters it hit an expiry |
| RateLimitRedis.SameAnswers | src/rate-limit.ts:33-58 | over any run both limiters give every caller the same answer |
| RateSources.AnswersByOwnWindows | src/rate-limit.ts:66-157 | over any run each answer is decided by the windows of the call's own user, or of its own member and chat, computed from their calls alone: groups, rooms, members (all nameless ones as one), users and profiles share no quota, and a chat counts only calls whose member had quota |
| RateSources.RedisAnswersByOwnWindows | src/rate-limit.ts:102-131 | the limiter over Redis answers by the same windows |
| RateSources.OthersDoNotMatter | src/rate-limit.ts:145-157 | the calls of other users, chats, kinds of chat and profiles might as well not have been made |
| RateSources.UnidentifiedIff | src/rate-limit.ts:145-176 | a call is refused outright exactly when its chat or user id is missing, and then uses up nothing |
| RateSources.DisabledAllows | src/rate-limit.ts:70-71 | switched off, the limiter lets everybody through and counts nothing |
| RateSources.ChatBoundHolds | src/rate-limit.ts:95-97 | in every half-open interval of one window length one group or one room of one profile gets at most twice the group quota minus one admitted calls, whoever the members are |
| RateSources.RequesterBoundHolds | src/rate-limit.ts:95-97 | and one user, or one member of one chat, at most twice the requester quota minus one |
| RateSources.SourceBoundsAreTight | src/rate-limit.ts:68-99 | one user, one group and one room each reach their bound |
| ScheduleDates.AcceptsCalendarDates | src/agent/memory-store.ts:157-164 | the parse, render and compare check accepts exactly the days of the calendar, leap years included |
| ScheduleDates.ValidateScheduleMemoryBatch | src/agent/memory-store.ts:140-171 | the first input at fault decides the error, in the order of its checks |
| ScheduleDates.FaultOrder | src/agent/memory-store.ts:140-171 | a period that is malformed or taken and a missing entry come before the expiry, and the expiry before any entry |
| ScheduleDates.AcceptedIffValid | src/agent/memory-store.ts:140-171 | a batch is accepted exactly when its months are well-formed and distinct, its entries are days of their month, and nothing is blank |
| ScheduleMemory.SearchableIsCanonical | src/agent/memory-store.ts:621-644 | every searchable entry is listed, as it is, by the one active memory of its profile, type and month |
| ScheduleMemory.ForgetKeepsInv | src/agent/memory-store.ts:745-756 | forgetting keeps one active memory to a key and every live entry backed |
| ScheduleMemory.ForgetShows | src/agent/memory-store.ts:745-756 | forgetting a memory removes exactly its own entries from every search |
| ScheduleMemory.ReplaceShows | src/agent/memory-store.ts:551-610 | a replacement shows its entries in place of those of its key and nothing else changes |
| ScheduleMemory.NewEntriesCarryTheInput | src/agent/memory-store.ts:572-606 | a new memory's entries are those of the input, each once and in place, with the memory's title, owner and expiry; an absent expiry is the time to live |
| ScheduleMemory.BatchReplacesItsKeys | src/agent/memory-store.ts:543-549 | a batch replaces exactly its own keys, whatever was deleted, expired or moved before |
| ScheduleStore.InMemoryScheduleStore.ClearKey | src/agent/memory-store.ts:557-570 | the loop deletes what is active under the key |
| ScheduleStore.InMemoryScheduleStore.ReplaceScheduleMemory | src/agent/memory-store.ts:551-610 | one replacement, with the invariant |
| ScheduleStore.InMemoryScheduleStore.SaveScheduleMemories | src/agent/memory-store.ts:543-549 | a valid batch is stored as a whole, any other changes nothing |
| ScheduleStore.InMemoryScheduleStore.AddScheduleEntry | src/agent/memory-store.ts:646-676 | the entry joins the active memory of its month, or there is none |
| ScheduleStore.InMemoryScheduleStore.UpdateScheduleEntry | src/agent/memory-store.ts:678-695 | the fields that are given change, the others stay, and the entry and its listing change together |
| ScheduleStore.InMemoryScheduleStore.DeleteScheduleEntry | src/agent/memory-store.ts:697-705 | only the entry is marked; its memory's list keeps it |
| ScheduleStore.InMemoryScheduleStore.ForgetScheduleMemory | src/agent/memory-store.ts:745-756 | only an owner or administrator forgets, and the memory and its entries go together |
| ScheduleStore.InMemoryScheduleStore.PurgeExpired | src/agent/memory-store.ts:758-778 | deleted and expired memories and entries go, with the entries of the memories that go |
| ScheduleStore.AppendShows | src/agent/memory-store.ts:646-676 | a new entry joins what a search sees and nothing else changes |
| ScheduleStore.ChangeShows | src/agent/memory-store.ts:678-695 | a search sees the changed entry in place of the one it was, even out of its month |
| ScheduleStore.DropShows | src/agent/memory-store.ts:697-705 | a deleted entry leaves every search and stays listed |
| ScheduleStore.PurgeShows | src/agent/memory-store.ts:758-778 | a purge removes nothing that a later search could see |
| ScheduleStore.ExpiryDecides | src/agent/memory-store.ts:551-610 | a new memory is active until it expires and goes with the first purge from then on; without an expiry, neither |
| ScheduleStore.InvisibleForeverIffEmptyExpiry | src/agent/memory-store.ts:154-156 | a valid input passes validation whatever its expiry, and makes a memory that is never active and never purged exactly when the expiry is the empty text |
| ScheduleStore.EmptyExpiryIsNeverFound | src/agent/memory-store.ts:621-644 | no search ever sees an entry of such a memory |
| ScheduleRuns.ScheduleIsCanonical | src/agent/memory-store.ts:543-778 | in every reachable state no two active memories share a profile, type and month, and every searchable entry stands in an active memory |
| ScheduleRuns.DeletedStaysDeleted | src/agent/memory-store.ts:697-705 | a deleted or purged entry never comes back, although its memory's list keeps an undeleted copy |
| TextMemory.InMemoryTextMemoryStore.SaveTextMemory | src/agent/memory-store.ts:434-451 | a new record with revision one and what the input says, that expires after the time to live when no expiry is given; and, if given, its embedding |
| TextMemory.InvisibleForeverIffUnparsedExpiry | src/agent/memory-store.ts:434-451 | a saved text is never active and never purged exactly when its expiry was given and does not parse as a date |
| TextMemory.InMemoryTextMemoryStore.UpdateTextMemory | src/agent/memory-store.ts:453-476 | exactly an administrator or the owner, of the same profile and scope, with the current revision of a live record, changes the text; the old embedding goes |
| TextMemory.InMemoryTextMemoryStore.UpdateTextMemoryEmbedding | src/agent/memory-store.ts:515-531 | stores exactly for an active record without embedding and, when given, the same revision |
| TextMemory.InMemoryTextMemoryStore.ForgetMemory | src/agent/memory-store.ts:707-725 | exactly such a caller forgets |
| TextMemory.InMemoryTextMemoryStore.PurgeExpired | src/agent/memory-store.ts:758-762 | expired and deleted records go; embeddings stay |
| TextMemory.InMemoryTextMemoryStore.ListTextMemoriesMissingEmbedding | src/agent/memory-store.ts:504-513 | the newest active records without embedding, newest first, all of them up to the limit |
| EmbeddingBackfill.FillEach | src/agent/text-memory-embedding-backfill.ts:30-39 | undisturbed, every usable vector is stored for its own candidate, and counted |
| EmbeddingBackfill.BackfillAgentTextMemoryEmbeddings | src/agent/text-memory-embedding-backfill.ts:10-41 | one undisturbed backfill: what it scans, stores and reports |
| EmbeddingBackfill.StepKeepsInv | src/agent/text-memory-embedding-backfill.ts:15-39 | every step of backfills and writers keeps embeddings of current texts only |
| EmbeddingBackfill.EmbeddingsAreNeverStale | src/agent/memory-store.ts:453-531 | however backfills and writers interleave, no record carries the embedding of another text |
| EmbeddingBackfill.RevisionRefusesTheOldText | src/agent/memory-store.ts:525 | listed, rewritten, filled: the revision refuses the old vector, and without it the stored one is stale |
| LineReply.SplitText | src/line-reply.ts:20-34 | the loop cuts the parts the specification names |
| LineReply.BuildLineTextMessages | src/line-reply.ts:20-48 | one message a part; the last one alone has quick replies, the first thirteen in order, if there are any |
| LineReply.CutFallsWell | src/line-reply.ts:24-27 | a cut falls behind the last newline that leaves half a message or more, else at the limit, one less inside a pair |
| LineReply.PartSizes | src/line-reply.ts:20-34 | one to five parts of 1 to 5000 units, all but the last of 2500 or more |
| LineReply.WholeIff | src/line-reply.ts:31-34 | the parts spell out the text exactly when it is not empty and four cuts leave at most one message |
| LineReply.NoticesStandIn | src/line-reply.ts:31-34 | an empty text is one notice; of a text that is cut short four parts that begin it are followed by the notice that says so |
| LineReply.TwoCuts | src/line-reply.ts:23-30 | two consecutive cuts take at least 5001 units together |
| LineReply.WholeUpTo15002 | src/line-reply.ts:20-34 | every non-empty text of at most 15002 units is delivered whole |
| LineReply.NotWholeAt15003 | src/line-reply.ts:31-33 | a text of 15003 units is not |
| LineReply.FitsIff | src/line-reply.ts:51-58 | a preview fits exactly for non-empty texts of at most 24000 units that are not truncated |
| LineReply.PartsKeepPairs | src/line-reply.ts:26-27 | no part of a well-formed text cuts a surrogate pair |
| Citations.RenderBlocks | src/clients/public-web-search.ts:112-140 | the nested loops compute the specified splicing, or reject |
| CitationSplicing.SpliceOne | src/clients/public-web-search.ts:136-137 | replacing a range that ends before all the replaced ones gives the simultaneous replacement of one more |
| CitationSplicing.SpliceSafe | src/clients/public-web-search.ts:117-138 | in a safe order the text after k citations is the simultaneous replacement of those k |
| CitationSplicing.NeverRejects | src/clients/public-web-search.ts:120-129 | ranges that are valid and do not overlap are never rejected, in any order |
| CitationSplicing.SortEmits | src/clients/public-web-search.ts:117-119 | the stable sort does not change what a simultaneous replacement emits |
| CitationOrder.UnsafeOrderLoses | src/clients/public-web-search.ts:117-138 | an empty range spliced before the range it starts with loses a bracket of its marker |
| CitationOrder.RenderReadsPlaces | src/clients/public-web-search.ts:110-140 | where each unit of the output comes from depends on the ranges alone, whatever the text |
| CitationOrder.SplicingIsSimultaneousIff | src/clients/public-web-search.ts:110-140 | for ranges that are valid and do not overlap nothing is rejected and the sources are the cited URLs, each once; every range becomes its intact marker and every other character is kept exactly when no empty range is listed before a range that starts with it and is not empty |
| CitationOrder.EqualStartsBreakAMarker | src/clients/public-web-search.ts:117-119 | an empty range listed before one that starts with it damages a marker, although the two do not overlap |
| CitationOrder.LossMayReadTheSame | src/clients/public-web-search.ts:136-137 | the loss can leave a text that happens to read the same |
| Citations.MarkerResolves | src/clients/public-web-search.ts:130-137 | the marker of every cited range stands intact before its start, with the place of its URL in the source list |
| Citations.MarkersDiffer | src/clients/public-web-search.ts:136-137 | different places have different markers |
| DriveTraversal.Traversal.Visit | src/clients/graph.ts:158-182 | one recursive visit: what it newly visits it explores, and what it adds was found on a walk from there |
| DriveTraversal.WholeTraversal | src/clients/graph.ts:155-186 | the visited folders are exactly the reachable ones, and the files exactly those they list, one a listing |
| DriveTraversal.ShortcutsLead | src/clients/graph.ts:261-269 | a shortcut leads to the drive and item it names, each missing one being the shortcut's own, or the drive it was listed in |
| DriveTraversal.SpellsNames | src/clients/graph.ts:170 | a file's path is the names on the walk to it with slashes between them |
| DriveTraversal.FilesKeepTheirDrive | src/clients/graph.ts:170-180 | a file keeps its own drive, or is in that of the folder that lists it |
| DriveTraversal.ListFolderFilesRecursive | src/clients/graph.ts:155-186 | it ends on every finite graph, cyclic or not, and fails exactly when some reachable folder cannot be listed |
| EmbeddingOrder.PlaceEmbeddings | src/clients/azure-openai-embedding.ts:64-89 | succeeds exactly when the response can be put in the order of the inputs, each vector of the form asked for, and then does so; of any other the first entry at fault decides: malformed, out of range or repeated, else of the wrong length or not finite; the final check never fires |
| EmbeddingOrder.EverySlotFilled | src/clients/azure-openai-embedding.ts:88 | as many distinct indices in range as slots leave none empty |
| EmbeddingOrder.FilledSlotsReorder | src/clients/azure-openai-embedding.ts:73-89 | slot i is the embedding of the one entry with index i |
| CronCoverage.ParsedWindowsAreValid | scripts/meeting-cron-drift.py:40-51 | what parses to a window ends by 23:59, after it starts |
| CronCoverage.ParsedDaysAreWeekdays | scripts/meeting-cron-drift.py:40-51 | what parses names a minute of the day and weekdays from Sunday, 0, to Saturday, 6 |
| CronCoverage.WeekdaysGoRound | scripts/meeting-cron-drift.py:205 | weekdays follow one another from midnight to midnight, in step with the calendar |
| CronCoverage.CoveringRule | scripts/meeting-cron-drift.py:201-211 | the first rule that covers, or none does |
| CronCoverage.CoversIffOpenThroughout | scripts/meeting-cron-drift.py:195-211 | a rule covers an occurrence exactly when its window is open at every instant from five minutes before to ten minutes after |
| CronCoverage.CronTextParses | scripts/meeting-cron-drift.py:214-222 | parse_cron reads back what suggested_rule prints |
| CronCoverage.SuggestionClosesTheGap | scripts/meeting-cron-drift.py:195-222 | the suggestion re-parses to a rule that covers exactly when any rule at all can |
| CronCoverage.AddingTheSuggestion | scripts/meeting-cron-drift.py:201-222 | added to any rules it makes the occurrence covered; where it does not, nothing could |

## Left out

- Ids and tokens are opaque numbers, new ones never used before; key strings are tuples, so ids that contain the separators are outside the model.
- Time is a number of milliseconds (microseconds for the cron script); text fields that only travel along are opaque or plain strings.
- The PostgreSQL stores and migrations, configuration, start-up and composition code.
- HTTP, Graph, LINE, asset and search services, timeouts and abort signals: their answers are arbitrary, within the forms the code checks.
- `latest` of both job stores and the order in which works, items and memories are listed, which follow insertion order.
- JSON encoding, ISO timestamp syntax and the schema of stored records beyond their text fields.
- ScanWorker is the worker's suspension points and the steps between them, since other workers act at each of them; `prepareResourceBinary` and the digest are uninterpreted functions, and lower case is that of ASCII letters.
- ScanGuarantees and ScanInvariant run over the store in memory; over Redis they are about works with their text fields filled in, for which ScanAgreement.ReadableCreatesAgree says that the stores cannot be told apart.
- ScanGuarantees.NoTwoWorkersOverlap: says nothing of a worker that outlives the replica limit, which the platform stops.
- ScanGuarantees.AtMostOncePublication: the published bytes are those of the scanned asset as far as size and digest tell, which is all that the code compares.
- ScanProgress.UninterruptedRunConcludes: is about a run whose store and job calls answer and that ends before the work, its job or a lease expires, within the 14 minutes of a publication lease; runs that are cut short are the subject of ScanGuarantees.RedeliveryAgrees and ScanClaims.NoStuckWork.
- CatalogSyncRuns publishes arbitrary items for the listing fallback, which stores no cursor; its loop filters as CatalogSync.CollectDelta does.
- CatalogSyncRuns.CursorDescribesItems: its premises are a faithful feed with each identity once, no file that crosses the extension filter while it exists, and no writer of the source but syncs; `upsertSource` can change the allowed extensions and keep the cursor.
- The other tombstone methods of the catalog, search ranking and text normalisation, which is a parameter.
- RateLimitRedis.RedisRateLimiter.Check: the script's and the caller's clock agree, the window is positive, and a key is gone at the instant it expires; a server that keeps it through that millisecond shifts windows by one.
- The requester name used for an unnamed group member is distinct from every real name.
- JobsRedisRuns.SeenIsMonotone: is about one lifetime of a record in which no lapsed lease is revived; JobsRedisRuns.LateRenewalRevivesIff and JobsRedisRuns.SplitCompletionAgreesIff say what happens otherwise.
- RateBound.RateBoundIsTight: for a group or a room it needs a requester limit of one or more; with none no check is admitted.
- ScheduleStore reads the clock once for each call, and draws identifiers after clearing a key instead of before; neither is observable.
- The resource and alias part of the memory store, visibility rules of searches and their ranking.
- EmbeddingBackfill.EmbeddingsAreNeverStale: direct writers pass the embedding of the text they save.
- Citations leaves out the later replacement of bare URLs and the limits on sources and length; CitationOrder.SplicingIsSimultaneousIff says nothing of ranges that overlap.
- DriveTraversal lists each folder once, so that a folder that changes during a traversal is what its one listing said; paging inside a listing is not modelled.
- CronCoverage reads ASCII digits; the script's pattern also matches other decimal digits. Reading the YAML manifest and the report are left out.
- Confirmation, invite, cache, quota, conversation and access stores, intent matching and every other part of the assistant.
