# Askora backend: verified models of its stateful protocols

This project models five parts of the backend in Dafny and proves what they promise over every input and every run.

1. **Durable erasure** (`DeletionPlans`, `ForeignKeys`, `PlanExecution`, `HeldRows`, `PlanMerging`, `AccountManifest`,
   `RecordIds`, `PlanImpacts`, `PlanDigest`, `ErasureWorkflow`, `ErasureGuards`, `ErasurePreviews`,
   `ErasureCoordinator`). A workflow writes a fail-closed marker, commits its row, journals the files, deletes rows
   under the schema's foreign keys together with a receipt and a checkpoint in one commit, purges the files and updates
   the marker. `ErasureWorkflow` is the protocol as a transition system whose steps are single commits and single file
   effects, with any number of workflows interleaving and a possible stop before each step. `ErasureCoordinator` is the
   class itself, with real fields for tables and files, and with every point where a stop or an exception can strike as
   an input; every call is shown to be a run of the transition system, and its postconditions say which outcome the
   faults lead to and give its exact final state.
2. **Token bucket, audit ring and key store** (`RateLimiter`, `AuditTrail`, `ApiKeys`). The stored token count is shown
   to be the least room over all windows of the call history, and the bucket to be the most permissive policy that
   respects every window.
3. **Book-learning transcript** (`TurnLocks`, `BookTranscript`, `BookLearning`). Turn acceptance as a transition system
   in which list, number, decision and commit are separate steps of interleaving tasks; the weak lock table; and the
   service methods of one undisturbed request.
4. **Two migrations** (`GoalBackfill`, `ActivityBackfill`). Renumbering by meaning, and lifecycle states by precedence
   of evidence with the reconciliation that checks them.
5. **Render-payload adapter** (`LearningMessages`). Exactly when a valid payload becomes a valid message.

Where the code falls short of what its documentation suggests, the model keeps the code, a lemma shows a concrete case,
and another gives the exact condition:

- The document planner names tag, collection and project assignments by one column of a two-column primary key, and the
  merge reduces the ids to one: a document with several tags is announced as one row and loses them all, and a tag added
  after the preview changes neither plan nor digest and is deleted too (`TagsAreAnnouncedAsOne`). A preview understates
  no database exactly when every key of the plan holds its table's whole primary key (`PreviewNeverUnderstatesIff`).
- The document plan never names OCR candidates or session materials, whose foreign keys hold OCR runs and documents in
  place, so a document cannot be erased while it has either (`OcrOrSessionStopsTheDocumentPlan`, `OcrDocument`,
  `HeldDocumentIsNeverErased`).
- The account plan moves rows of tables with several key columns behind all others, so an account cannot be deleted
  while it has a tagged document (`CompositeRowStopsTheAccount`, `TaggedDocument`). A plan runs exactly when no row goes
  before one that refers to it (`RunsIffChildrenGoFirst`); retries over unchanged rows succeed exactly when the
  workflow's own plan does (`RetryErasesIff`).
- Rows that a cascading foreign key takes along are not counted (`CascadeIsNotCounted`, `EverythingIsCountedIff`).
- A stop between the receipt's commit and the end of the purge, or on the way from its failure to PARTIAL, leaves a
  journal that no later run purges, since only PARTIAL is resumed; completion does not look at it
  (`StopStrandsTheJournalIff`, `StrandedForever`, `PurgeCanFinishIffPartial`, `StrandedWorkflowStillCompletes`).
- A stop, or an exception nobody catches, can leave a workflow that no call retries, resumes or completes: between
  marker and row, where there is only the marker; between row and receipt, where it stays RUNNING; behind the COMPLETED
  commit, where the marker stays; and anywhere it is AWAITING behind a later checkpoint (`StopIsFinalIff`,
  `UnmovableIff`, `StopBeforeTheRow`, `LeftMarkerStays`, `StoppedKeepsTheMarkerForever`).
- With several workflows in flight the completion of one removes the only marker while another is still open, and a
  workflow behind the receipt can still complete exactly while its checkpoint is the highest
  (`SecondCompletionUnguardsTheFirst`, `RemovalKeepsTheGuardIff`, `SupersededNeverCompletes`, `IdleCompletesIff`).
- The transcript is listed and numbered by two statements; unless both see one snapshot, a system start can be accepted
  as turn 2 and a turn can miss its predecessor (`StatementReadsMisplaceTheStart`, `ChainedIffEverythingWasListed`,
  `NumberFitsListIff`, `SnapshotsMakeOneChain`).
- A valid render payload can fail to adapt because a generated citation id equals another block's id
  (`ValidPayloadMayCollide`, `MessageValidIffAdaptable`).
- A clock that steps back over more than the stored level's refill time makes that level negative
  (`ClockStepBackOverdraws`, `NextLevelIsNegativeIff`, `StoredLevelIsNegativeIff`).

Five more hold of a function by itself, on inputs that its callers do not pass to it. Each has its exact condition too,
and a lemma that what the callers do pass meets it:

- Merging loses ids when one owner and table has both id-based and predicate-based operations (`MixedGroupLosesAnId`,
  `MergeKeepsEffectIff`). Both calls of the merge pass plans of ids only (`IdPlansMergeFaithfully`).
- Merging can move a row ahead of one that holds it in place (`MergeMovesAParentAhead`, `RunsIffChildrenGoFirst`). Both
  calls pass plans over different tables, whose operations keep their places (`DifferentGroupsMergeInPlace`).
- The plan digest lists record ids and not predicates, so it fixes the effect exactly when the record ids tell the keys
  apart (`DigestOmitsPredicates`, `DigestFixesEffectIff`). A record id has one reading exactly when no value holds the
  separator of a neighbouring column (`AnotherReadingIff`), as the schema's id columns never do (`NoBarNoOtherReading`).
- The plan digest lists file names and not directories, so it fixes the files exactly when the names differ
  (`DigestOmitsDirectories`, `DigestFixesFilesIff`). Uploads differ by their document's id (`UploadsAreFixed`); only
  orphans found by the manifest's recursive scan can share a name.
- A system start with a text is stored without it and its repetition is a conflict (`RepetitionIsReplayedIff`). The
  request contract refuses such a start (`AcceptedRequestsAreReplayed`).

SHA-256 (also where a user reference keeps only part of it), MD5 and uuid5 are modelled as injective constructors,
floating point as `real`, randomness, the clock and faults as parameters, and each exception path as an error value or
an end without a report.

## Model

| member | source | states |
|---|---|---|
| RateLimiters.LevelIsLeastRoom | apps/backend/app/security.py:53-85 | for any history, even with the clock stepping back, the stored level is a lower bound of the room in every window and some window attains it |
| RateLimiters.AdmitsIffEveryWindowFits | apps/backend/app/security.py:78-85 | a call passes exactly when every window ending at it has room for one more |
| RateLimiters.NoWindowExceedsItsAllowance | apps/backend/app/security.py:53-85 | between any two calls at most limit + rate * elapsed calls are let through |
| RateLimiters.NoRespectfulPolicyAdmitsMore | apps/backend/app/security.py:53-85 | no policy that respects every window is ever ahead of the bucket over the same instants |
| RateLimiters.LimiterRespectsWindows | apps/backend/app/security.py:53-85 | what the bucket lets through fits every window, whatever the clock does |
| RateLimiters.BucketIsTheMostPermissive | apps/backend/app/security.py:53-85 | the bucket respects every window, and over the same instants no policy that does is ever ahead of it |
| RateLimiters.StoredLevelIsNegativeIff | apps/backend/app/security.py:66-85 | the stored level never exceeds the limit and is negative exactly when some window is overdrawn |
| RateLimiters.NextLevelIsNegativeIff | apps/backend/app/security.py:66-85 | known before the call: the level turns negative exactly when the clock steps back over more than the time that refills the level stored so far |
| RateLimiters.StoredLevelStaysInRange | apps/backend/app/security.py:66-85 | with ordered times it stays between 0 and the limit |
| RateLimiters.ClockStepBackOverdraws | apps/backend/app/security.py:66-85 | two calls, the second at an earlier time, that leave a negative level |
| RateLimiters.RemainingIsAPromise | apps/backend/app/security.py:87-92 | as many further calls as the level left holds are admitted at any later non-decreasing times |
| RateLimiters.NoMoreThanRemainingAtOnce | apps/backend/app/security.py:78-92 | at the instant of the last call exactly as many further calls pass as the level left holds whole tokens |
| RateLimiters.OneWindowAdmitsAtMostTwice | apps/backend/app/security.py:53-85 | a bucket that regains its limit in one window lets at most twice the limit through in any stretch of that length |
| RateLimiters.FullAgainAfterOneWindow | apps/backend/app/security.py:66-80 | such a bucket with a level of at least 0, left alone for one window, is full again |
| RateLimiters.RateLimiter.IsAllowed | apps/backend/app/security.py:53-85 | a first call makes a bucket that holds `limit` and regains as much in one window; every call is decided by the windows of the key's own history and recorded, every other bucket is kept; a zero window fails before anything changes |
| RateLimiters.RateLimiter.GetRemaining | apps/backend/app/security.py:87-92 | the whole number next to the level left by the last call on the side of zero, without refilling; 0 for an unknown key |
| RateLimiters.RateLimiter.Reset | apps/backend/app/security.py:94-96 | forgets one key and nothing else |
| AuditTrails.AuditTrail.LogAuditEvent | apps/backend/app/security.py:371-409 | the ring always holds the last 10000 events of the full log |
| AuditTrails.AuditTrail.GetRecentAuditEvents | apps/backend/app/security.py:412-425 | newest first on that suffix, cut like a Python slice, negative limits included |
| AuditTrails.AuditTrail.GetAuditEventsByType | apps/backend/app/security.py:428-433 | exactly the suffix's events of that type, newest first, cut like a Python slice |
| AuditTrails.OfKindIsTheFilter | apps/backend/app/security.py:428-433 | the events of a type are all those of that type and no other, in their order |
| AuditTrails.RecentIsCompleteIff | apps/backend/app/security.py:371-425 | the answer is that of the full log exactly when limit or log fits the ring |
| AuditTrails.ByKindIsCompleteIff | apps/backend/app/security.py:371-433 | by type: exactly when no event of the type was dropped or enough of them are left |
| ApiKeys.KeyStore.CreateApiKey | apps/backend/app/security.py:536-582 | issues a key for the user with its scopes, read-only by default; index and store stay consistent |
| ApiKeys.KeyStore.ValidateApiKey | apps/backend/app/security.py:585-621 | accepts exactly the issued keys not revoked, with their own id, user and scopes |
| ApiKeys.KeyStore.RevokeApiKey | apps/backend/app/security.py:624-632 | a known key is revoked for good; issued keys are unchanged |
| DeletionPlans.SameEffectIffEachCovers | apps/backend/app/data_control/erasure.py:1546-1550 | two plans delete the same rows from every database exactly when each hits every key the other names |
| ForeignKeys.CascadeIsLeast | apps/backend/app/models/ledger.py:136-143 | what a DELETE takes along is the least set of rows around those it hits that cascading references do not leave |
| ForeignKeys.GoneIsTheCascade | apps/backend/app/data_control/erasure.py:1542-1556 | whatever the order of the operations, what is gone is the rows hit and their cascade closure |
| ForeignKeys.RunsIffChildrenGoFirst | apps/backend/app/core/database.py:78-80 | a plan is not refused exactly when after each operation no remaining row refers, without cascading, to one that is gone |
| ForeignKeys.RunsInTurn | apps/backend/app/data_control/erasure.py:1542-1556 | two plans run in turn exactly when their concatenation runs, and leave the same rows |
| ForeignKeys.UnnamedChildRefuses | apps/backend/app/core/database.py:78-80 | a row of a table that no operation names and no reference drags along stops every plan that hits the row it refers to |
| HeldRows.OcrOrSessionStopsTheDocumentPlan | apps/backend/app/data_control/erasure.py:1306-1333 | no document plan runs on a database where a planned row has an OCR candidate or a session material |
| HeldRows.OcrDocument | apps/backend/app/models/document.py:475-479 | such a database: a document, its OCR run and one candidate |
| HeldRows.HeldDocumentIsNeverErased | apps/backend/app/data_control/erasure.py:574-592 | a document's failed erasure is never carried out, however often it is retried, while an OCR candidate or a session material is there |
| HeldRows.CompositeRowStopsTheAccount | apps/backend/app/data_control/erasure.py:1501-1525 | the account plan is refused whenever a row of a table with several key columns holds a planned row of a table with one in place |
| HeldRows.TaggedDocument | apps/backend/app/models/document.py:300-307 | such an account: two manifest entries, their plan, and a database it cannot run on |
| HeldRows.CascadeIsNotCounted | apps/backend/app/models/ledger.py:200-206 | a recovery event goes with the user row, and the report counts one row of two |
| PlanExecution.ExecutePlan | apps/backend/app/data_control/erasure.py:1535-1578 | succeeds exactly when no planned owner fails and no foreign key refuses an operation, and otherwise reports the first that does; the planned rows and their cascade closure go, and the per-owner counts share out the rows the operations found |
| PlanExecution.EverythingIsCountedIff | apps/backend/app/data_control/erasure.py:1555-1557 | every removed row is counted exactly when each operation leaves no row to be dragged along |
| PlanExecution.CountedIsAttributed | apps/backend/app/data_control/erasure.py:1555-1557 | an owner is counted only rows its operations are the first to hit |
| PlanMerging.MergePlans | apps/backend/app/data_control/erasure.py:1839-1861 | groups in first-seen order, ids as a deduplicated union, predicates concatenated, files as a sorted union |
| PlanMerging.MergeNamesNothingNew | apps/backend/app/data_control/erasure.py:1839-1861 | a merge never deletes a row that its parts would not |
| PlanMerging.MergeKeepsEffectIff | apps/backend/app/data_control/erasure.py:1839-1861 | a merge keeps the effect exactly when every id shadowed by predicates of its group is still hit |
| PlanMerging.UnmixedGroupsMergeFaithfully | apps/backend/app/data_control/erasure.py:1839-1861 | groups wholly of ids or wholly of predicates merge without changing the effect |
| PlanMerging.IdPlansMergeFaithfully | apps/backend/app/data_control/erasure.py:1093-1100 | merges of plans of ids, the only ones the planners ask for, keep the effect and name no predicate |
| PlanMerging.MixedGroupLosesAnId | apps/backend/app/data_control/erasure.py:1839-1861 | the merge function alone, on a mixed group that no planner passes to it, leaves a row the parts delete |
| PlanMerging.DifferentGroupsMergeInPlace | apps/backend/app/data_control/erasure.py:1093-1096 | plans over different tables, the only ones merged, are refused merged exactly where they are in turn, and delete the same |
| PlanMerging.MergeMovesAParentAhead | apps/backend/app/data_control/erasure.py:1839-1861 | the merge function alone, on two plans over one table, that run in turn and are refused merged |
| AccountManifest.AllPersonalDataPlan | apps/backend/app/data_control/erasure.py:1470-1533 | refused exactly without the user's own manifest of this policy, on blocking issues, on a path that does not resolve or an entry the schema lacks; otherwise the plan names exactly the manifest's rows and the user row, single-column tables first, then row by row, the user row last; its files are the named ones, sorted |
| AccountManifest.AccountDigestFixesEffect | apps/backend/app/data_control/erasure.py:1470-1533 | two manifests of a user whose plans share a digest ask for the same rows, are refused by the same databases and delete the same from all others, once either one's record ids have one reading |
| AccountManifest.ClearEntriesClearPlan | apps/backend/app/data_control/erasure.py:1501-1515 | entries whose record ids have one reading make a plan the digest fixes |
| RecordIds.AnotherReadingIff | apps/backend/app/infrastructure/privacy.py:863-864 | a record id is that of another key as well exactly when some value holds the bar, name and equals sign of its own or the next column |
| RecordIds.NoBarNoOtherReading | apps/backend/app/infrastructure/privacy.py:863-864 | the id of a key without a bar in its values is no other key's |
| PlanImpacts.Impacts | apps/backend/app/data_control/erasure.py:1716-1734 | announced ids per owner, files under their own name, never empty |
| PlanImpacts.PreviewNeverUnderstatesIff | apps/backend/app/data_control/erasure.py:1716-1734 | no database that respects its primary keys loses more rows of any owner than announced exactly when every key the plan names is a whole primary key |
| PlanImpacts.ReportNeverExceedsThePreview | apps/backend/app/data_control/erasure.py:1716-1734 | where keys identify rows no owner is reported more rows than announced, whatever cascades |
| PlanImpacts.TagsAreAnnouncedAsOne | apps/backend/app/data_control/erasure.py:1286-1305 | however many tags a document has, the merged plan is the same, announces one row and deletes them all |
| PlanImpacts.OpenKeyUnderstates | apps/backend/app/data_control/erasure.py:1268-1305 | for any plan that leaves a primary-key column open, a database that loses more than announced |
| PlanDigest.DigestsAgreeIff | apps/backend/app/data_control/erasure.py:400-412 | digests agree exactly on equal owner, table and id lists up to order, and equal file names up to order |
| PlanDigest.ReorderingKeepsTheDigest | apps/backend/app/data_control/erasure.py:400-412 | a plan whose ids and files come back in another order has the same digest |
| PlanDigest.SameDigestSameEffect | apps/backend/app/data_control/erasure.py:400-412 | plans of id columns or whole rows with one digest have one effect, and the same databases refuse them whatever the foreign keys, once the record ids of either have one reading |
| PlanDigest.DigestFixesEffectIff | apps/backend/app/data_control/erasure.py:400-412 | over the keys a database can hold the digest fixes effect, refusals and cascade of every plan exactly when their record ids differ |
| PlanDigest.BarFreeIsUnambiguous | apps/backend/app/infrastructure/privacy.py:863-864 | a key whose values hold no bar, as the schema's id columns do, is fixed by its record id |
| PlanDigest.DigestFixesFilesIff | apps/backend/app/data_control/erasure.py:410 | over the stored files the digest fixes the files of every plan exactly when no two share a name |
| PlanDigest.UploadsAreFixed | apps/backend/app/services/storage/local_storage.py:99-112 | the uploads of one user, one for each document, are fixed by the digest |
| PlanDigest.DigestOmitsPredicates | apps/backend/app/data_control/erasure.py:401-409 | the digest function alone, on ids that hold a separator, gives two plans of different effect one digest |
| PlanDigest.DigestOmitsDirectories | apps/backend/app/data_control/erasure.py:410 | two orphans of one name in different directories with one digest |
| ErasureWorkflow.CommitNeedsCurrentCheckpoint | apps/backend/app/data_control/erasure.py:738-801 | the receipt commits exactly when every delete has run and the session's checkpoint is still current |
| ErasureWorkflow.StepKeepsInv | apps/backend/app/data_control/erasure.py:550-838 | every step keeps numbering, status, journal and key invariants |
| ErasureWorkflow.EveryReachableStateIsConsistent | apps/backend/app/data_control/erasure.py:724-838 | in every reachable state receipts are numbered 1..n, a receipt exists exactly in the committed statuses, and behind it every planned file is gone or still journalled |
| ErasureWorkflow.FilesGoOnlyBehindTheReceipt | apps/backend/app/data_control/erasure.py:1896-1912 | no file is removed before its workflow's receipt |
| ErasureWorkflow.RowsGoOnlyWithTheReceipt | apps/backend/app/data_control/erasure.py:734-801 | rows go only in the commit that issues the receipt, and only planned ones or those a chain of cascading references ties to one |
| ErasureWorkflow.PlanKeepsItsDigest | apps/backend/app/data_control/erasure.py:566-592 | over any run and retries a workflow's plan keeps its confirmed digest, and is fixed once committed |
| ErasureWorkflow.DeletesWhatWasConfirmed | apps/backend/app/data_control/erasure.py:559-592 | whatever retries lie between, the plan that finally runs, of id columns or whole rows, has the effect of the one first confirmed, once the record ids of either have one reading |
| ErasureWorkflow.RemovesTheFilesConfirmed | apps/backend/app/data_control/erasure.py:559-592 | whatever retries lie between, the files finally removed are those first confirmed, as long as stored names differ |
| ErasureWorkflow.AtMostOneCommit | apps/backend/app/data_control/erasure.py:550-592 | no run contains two deleting commits of one workflow |
| ErasureWorkflow.LoserOfTheRaceDeletesNothing | apps/backend/app/data_control/erasure.py:803-838 | the loser of a checkpoint race ends FAILED_RETRYABLE with no row, file or receipt touched, and can be retried |
| ErasureWorkflow.ResumeFinishesThePurge | apps/backend/app/data_control/erasure.py:640-666 | from any PARTIAL state one successful resume reaches the files of an uninterrupted purge and AWAITING, and changes no receipt, checkpoint or row |
| ErasureGuards.AlwaysFailClosed | apps/backend/app/data_control/erasure.py:605-636 | one erasure at a time: the marker is present at every point from before the row until COMPLETED is committed |
| ErasureGuards.MarkerGoesOnlyOnCompletion | apps/backend/app/data_control/erasure.py:1816-1828 | the marker is removed only by the completed workflow it names |
| ErasureGuards.CompletionIsCheckedAtTheTop | apps/backend/app/data_control/erasure.py:684-703 | completion starts only for the highest issued checkpoint |
| ErasureGuards.RemovalKeepsTheGuardIff | apps/backend/app/data_control/erasure.py:1816-1828 | removal keeps the system guarded exactly when no other workflow is unfinished |
| ErasureGuards.SupersededNeverCompletes | apps/backend/app/data_control/erasure.py:691-703 | a workflow whose checkpoint was passed can never complete |
| ErasureGuards.IdleCompletesIff | apps/backend/app/data_control/erasure.py:574-722 | with retries that run what the planner gives over the rows they find, an idle workflow can still complete exactly when it is FAILED_RETRYABLE and some database gives a plan with its digest (and, if nobody else changes rows during a retry, does not refuse it), AWAITING or PARTIAL at the highest checkpoint, or COMPLETED already |
| ErasureGuards.RetryErasesAsBuiltIff | apps/backend/app/data_control/erasure.py:574-592 | by its own steps over unchanged rows a failed workflow reaches its receipt exactly when the planner gives a plan with the confirmed digest there that no foreign key refuses |
| ErasureGuards.RetryErasesIff | apps/backend/app/data_control/erasure.py:574-592 | for planners that name each table by one column or row by row, exactly when no foreign key refuses the workflow's own plan |
| ErasureGuards.UnmovableIff | apps/backend/app/data_control/erasure.py:566-722 | an idle workflow is the same after every run exactly when it has no row, or is RUNNING, COMPLETED, or AWAITING with a checkpoint that has been passed |
| ErasureGuards.StopIsFinalIff | apps/backend/app/data_control/erasure.py:605-838 | a stop leaves such a workflow exactly between marker and row, between row and receipt, on the way back from there, behind the COMPLETED commit, or in an AWAITING phase behind a later checkpoint |
| ErasureGuards.StopBeforeTheRow | apps/backend/app/data_control/erasure.py:605-636 | a stop between marker and row leaves a marker of a workflow that no table knows and nothing can move |
| ErasureGuards.LeftMarkerStays | apps/backend/app/data_control/erasure.py:605-722 | the marker a workflow leaves that cannot move, even one without a row, stays until another workflow's step |
| ErasureGuards.StoppedKeepsTheMarkerForever | apps/backend/app/data_control/erasure.py:605-638 | one erasure at a time, a workflow stopped before its receipt keeps the system fail-closed through every run |
| ErasureGuards.SecondCompletionUnguardsTheFirst | apps/backend/app/data_control/erasure.py:668-722 | a run that leaves an open workflow without a marker |
| ErasureGuards.StopStrandsTheJournalIff | apps/backend/app/data_control/erasure.py:799-830 | a stop strands the journal exactly in the first purge or between its failure and PARTIAL |
| ErasureGuards.StrandedForever | apps/backend/app/data_control/erasure.py:640-652 | a stranded journal survives every further run unchanged |
| ErasureGuards.PurgeCanFinishIffPartial | apps/backend/app/data_control/erasure.py:640-652 | an idle journalled workflow can still be purged exactly when its status is PARTIAL |
| ErasureGuards.StrandedWorkflowStillCompletes | apps/backend/app/data_control/erasure.py:668-722 | completion succeeds with the journal and every file in place |
| ErasurePreviews.PreviewRegistry.Register | apps/backend/app/data_control/erasure.py:430-433 | drops expired entries and adds one |
| ErasurePreviews.PreviewRegistry.Get | apps/backend/app/data_control/erasure.py:435-457 | hands an entry out exactly to its own user and token before it expires |
| ErasureCoordinators.ErasureCoordinator.Preview | apps/backend/app/data_control/erasure.py:481-548 | refuses account deletion, a bad target and whatever the planner refuses, without a trace; otherwise registers, for ten minutes, the user's own entry with the digest of the plan the present data gives and a phrase that names target or scope, and returns the plan's impacts |
| ErasureCoordinators.ErasureCoordinator.ExecuteAuthorizedAccountDeletion | apps/backend/app/data_control/erasure.py:495-514 | preview and confirmation in one: over unchanged data refused exactly by the planner, by an expired preview, or when this user has used the key for something else; under a new key, with nothing striking, the plan is carried out |
| ErasureCoordinators.UnchangedDataIsNotRefused | apps/backend/app/data_control/erasure.py:550-592 | with unchanged rows, read in any order, a confirmation is refused exactly when this user has confirmed something else under its key |
| ErasureCoordinators.ErasureCoordinator.Confirm | apps/backend/app/data_control/erasure.py:550-638 | exactly when a confirmation is refused, by the registry, the phrase, the planner, the digest or what this user (and nobody else) has confirmed under the key; otherwise the one workflow this user has confirmed under it is started, retried, resumed or reported, with the outcome that the faults lead to and its exact state |
| ErasureCoordinators.ErasureCoordinator.ConsistentAtEveryPoint | apps/backend/app/data_control/erasure.py:550-838 | every intermediate point of everything the coordinator has done satisfies the protocol's invariant |
| ErasureCoordinators.ErasureCoordinator.RepeatWorkflow | apps/backend/app/data_control/erasure.py:566-592 | refused exactly for a different confirmation, or for a retry without a plan of the same digest; otherwise PARTIAL is resumed, FAILED_RETRYABLE run again, anything else reported unchanged, with the outcome the faults lead to |
| ErasureCoordinators.ErasureCoordinator.RunWorkflow | apps/backend/app/data_control/erasure.py:724-838 | the receipt is issued exactly when no planned owner fails, no foreign key refuses an operation and nothing strikes before the commit is through; which end follows for any faults, with nothing deleted before the receipt and exactly the planned rows and their cascade closure behind it |
| ErasureCoordinators.ErasureCoordinator.UndisturbedIsCarriedOut | apps/backend/app/data_control/erasure.py:724-838 | with nothing striking, a plan that can run ends AWAITING with rows, files and journal gone and the next checkpoint, and any other ends FAILED_RETRYABLE with everything in place |
| ErasureCoordinators.ErasureIsAllOrNothing | apps/backend/app/data_control/erasure.py:724-838 | corollary: however a run ends, rows, checkpoint and receipt changed together or not at all, and no file went first |
| ErasureCoordinators.RepetitionDeletesNothingMore | apps/backend/app/data_control/erasure.py:566-573 | corollary: confirming again after the commit deletes nothing more |
| ErasureCoordinators.ErasureCoordinator.CommitErasure | apps/backend/app/data_control/erasure.py:738-800 | rows, receipt, checkpoint row and workflow row change together |
| ErasureCoordinators.ErasureCoordinator.PurgeFileJournal | apps/backend/app/data_control/erasure.py:1896-1912 | succeeds exactly when nothing strikes at a file, the journal or its directory; then exactly the planned files and the journal are gone, otherwise a part of them; no row, receipt or status changes |
| ErasureCoordinators.ErasureCoordinator.ResumeCommittedWorkflow | apps/backend/app/data_control/erasure.py:640-666 | refused exactly without a row; a PARTIAL one ends AWAITING, PARTIAL or stopped as the faults say, with its exact state; any other status is reported unchanged |
| ErasureCoordinators.ErasureCoordinator.CompleteOperationalNoResurrection | apps/backend/app/data_control/erasure.py:668-722 | accepted exactly off SQLite with workflow, receipt and checkpoint row at this number, a sha256 barrier and status AWAITING or COMPLETED; then only the status and the marker that names both change, as far as the faults let them |
| TurnLocks.NeverTwoInside | apps/backend/app/application/book_learning.py:105-115 | two tasks with one event loop and key are never both inside, though entries vanish when unused |
| TurnLocks.BlockedOnlyByTheSameKey | apps/backend/app/application/book_learning.py:714-716 | a waiting task can enter exactly when no task with its key is inside |
| TurnLocks.EntriesLastAsLongAsTheyAreUsed | apps/backend/app/application/book_learning.py:105-115 | an entry can vanish exactly when no task uses its key |
| TurnLocks.CollectingTooEarlyBreaksIt | apps/backend/app/application/book_learning.py:105-115 | from a state with a lock dropped while in use, which the weak table never reaches, a second task gets in |
| BookTranscripts.EveryTranscriptIsNumbered | apps/backend/app/application/book_learning.py:797-799 | under any interleaving every session is numbered 1..n and no key occurs twice |
| BookTranscripts.CommitsAreConsecutive | apps/backend/alembic/versions/a80d4f9c2b61_add_book_learning_transcript.py:127-141 | the unique constraints admit a commit only with the number after the last |
| BookTranscripts.ChainedIffEverythingWasListed | apps/backend/app/application/book_learning.py:805-876 | a turn follows its predecessor's action and trace, and is a system start only as turn 1, exactly when its task had listed every earlier turn |
| BookTranscripts.NumberFitsListIff | apps/backend/app/infrastructure/book_learning_transcript.py:35-55 | the number read fits the list read exactly when no turn was committed in between |
| BookTranscripts.SnapshotsMakeOneChain | apps/backend/app/application/book_learning.py:780-876 | with snapshot reads every transcript is one chain |
| BookTranscripts.StatementReadsMisplaceTheStart | apps/backend/app/application/book_learning.py:780-799 | a run with statement-level reads that accepts a system start as turn 2 |
| BookLearning.StripCutsOnlySpace | apps/backend/app/application/book_learning.py:792-795 | stripping cuts white space off the two ends and nothing else |
| BookLearning.StripsToNothingIff | apps/backend/app/application/book_learning.py:792-795 | a text strips to nothing exactly when it is white space throughout |
| BookLearning.AcceptedForGood | apps/backend/app/application/book_learning.py:759-778 | once a turn is accepted under a key, every later look-up meets that turn |
| BookLearning.RepetitionIsReplayedIff | apps/backend/app/application/book_learning.py:763-778 | for the service alone: an identical repetition is replayed exactly when it is a learner turn or carries no text |
| BookLearning.AcceptedRequestsAreReplayed | apps/backend/app/contracts/book_learning.py:128-135 | every request the contract lets through is replayed when repeated |
| BookLearning.AcceptedTurnIsNext | apps/backend/app/application/book_learning.py:731-1070 | a new turn gets the next number and is chained to the last; any other answer changes nothing |
| BookLearning.AcceptIsARun | apps/backend/app/application/book_learning.py:731-1070 | an undisturbed acceptance is a run of the transition system |
| BookLearning.BookLearningService.StartTeachingRound | apps/backend/app/application/book_learning.py:731-1070 | under a used key the stored turn for the same request and a conflict for any other; under a new key, named for each refusal, exactly the first check that fails (readiness, empty transcript for a start, a text that is not blank, agreeing scope, trace and action, a storable decision under an unused turn id), and otherwise one turn appended as decided |
| BookLearning.AcceptRounds | apps/backend/app/application/book_learning.py:731-1070 | the specification function gives just these answers |
| BookLearning.BookLearningService.GetTranscript | apps/backend/app/application/book_learning.py:409-464 | two messages for each stored turn, with the fields and numbers its row gives; the conversation always passes its own ordered-unique validator and names the next turn number |
| BookLearning.BookLearningService.InvokeMessageInteraction | apps/backend/app/application/book_learning.py:1072-1173 | named for each refusal, exactly the first check that fails on revision, conversation, message, block, action and text; otherwise the turn acceptance for the stripped text under the same key |
| BookLearning.FollowUpFollowsUp | apps/backend/app/application/book_learning.py:1072-1173 | the specification of a follow-up gives just these answers |
| BookLearning.FollowUpAnswersTheNewestMessage | apps/backend/app/application/book_learning.py:1117-1125 | a follow-up adds a turn only right behind the newest message, chained to that message's action |
| BookLearning.FollowUpCanBeRepeated | apps/backend/app/application/book_learning.py:1117-1125 | an accepted follow-up repeated after any further run is answered with its own turn |
| GoalBackfills.FingerprintsAgreeIff | apps/backend/alembic/versions/d2f1010a37a1_add_goal_definition_draft_replan.py:209-224 | fingerprints agree exactly when all semantic fields do, absent and null being the same |
| GoalBackfills.RowsShareAVersionIff | apps/backend/alembic/versions/d2f1010a37a1_add_goal_definition_draft_replan.py:225-229 | two legacy rows share a version exactly when they agree in every semantic field |
| GoalBackfills.FirstRowMakesTheDefinition | apps/backend/alembic/versions/d2f1010a37a1_add_goal_definition_draft_replan.py:225-268 | each meaning's definition is made from its first row, in order of first appearance |
| GoalBackfills.DefinitionsFormOneChain | apps/backend/alembic/versions/d2f1010a37a1_add_goal_definition_draft_replan.py:243-258 | versions are 1..k, each superseding the one before, all of different meaning |
| GoalBackfills.MoreHistoryOnlyAppends | apps/backend/alembic/versions/d2f1010a37a1_add_goal_definition_draft_replan.py:202-268 | further legacy rows never renumber earlier definitions |
| GoalBackfills.BackfillGoal | apps/backend/alembic/versions/d2f1010a37a1_add_goal_definition_draft_replan.py:202-335 | fails exactly on an unreadable row or an incomplete current one; each definition carries the fields of the first row that means it, and the one draft or state the latest row's own fields and the definition that means what it means |
| GoalBackfills.FirstRowTells | apps/backend/alembic/versions/d2f1010a37a1_add_goal_definition_draft_replan.py:225-268 | the first row of a meaning has a definition that carries its fields |
| GoalBackfills.HistoryTells | apps/backend/alembic/versions/d2f1010a37a1_add_goal_definition_draft_replan.py:202-335 | a goal's definitions and current row say what its legacy rows say |
| GoalBackfills.LatestRowIsTheGreatestVersion | apps/backend/alembic/versions/d2f1010a37a1_add_goal_definition_draft_replan.py:199-201 | the deciding row is the goal's greatest version |
| GoalBackfills.Backfill | apps/backend/alembic/versions/d2f1010a37a1_add_goal_definition_draft_replan.py:189-335 | every goal is migrated from its own rows only, in scan order, with what those rows say; one unreadable goal stops all |
| GoalBackfills.BackfillPlanStates | apps/backend/alembic/versions/d2f1010a37a1_add_goal_definition_draft_replan.py:336-357 | one first state for each plan row, with its status and the payload's date, or the row's where that is missing |
| ActivityBackfills.OwningRowIsGreatest | apps/backend/alembic/versions/e30c06a1b2c3_add_activity_lifecycle.py:52-57 | the owner is taken from a row of the goal's greatest version |
| ActivityBackfills.OwnerIsOrderIndependent | apps/backend/alembic/versions/e30c06a1b2c3_add_activity_lifecycle.py:52-57 | with unique versions the owner does not depend on the scan order |
| ActivityBackfills.DeriveOwners | apps/backend/alembic/versions/e30c06a1b2c3_add_activity_lifecycle.py:52-57 | the two dictionaries hold that owner for every goal |
| ActivityBackfills.StatusRestsOnEvidence | apps/backend/alembic/versions/e30c06a1b2c3_add_activity_lifecycle.py:76-128 | completed exactly on a completion event matching owner and plan; otherwise transcript, selection, initial status in that order |
| ActivityBackfills.GoalOfIsTheLast | apps/backend/alembic/versions/e30c06a1b2c3_add_activity_lifecycle.py:58-61 | the plan row that decides is the last one with the activity's plan and version |
| ActivityBackfills.FirstStateTells | apps/backend/alembic/versions/e30c06a1b2c3_add_activity_lifecycle.py:76-148 | the first state of an activity says what events, transcript and plan say about it |
| ActivityBackfills.Backfill | apps/backend/alembic/versions/e30c06a1b2c3_add_activity_lifecycle.py:42-148 | appends one state for each activity without one, in their order, and no other; each has the status, evidence and time of its first proof or last lesson |
| ActivityBackfills.BackfillAdds | apps/backend/alembic/versions/e30c06a1b2c3_add_activity_lifecycle.py:64-148 | which activities get a state, in which order, and what it says |
| ActivityBackfills.Reconcile | apps/backend/alembic/versions/e30c06a1b2c3_add_activity_lifecycle.py:151-176 | raises exactly on a disagreeing state, naming the first, or, when all agree, on activities without one, naming all of them |
| ActivityBackfills.BackfillEstablishesTheReconciliation | apps/backend/alembic/versions/e30c06a1b2c3_add_activity_lifecycle.py:42-176 | after the backfill the check can fail only for a state that was there and disagreed before |
| ActivityBackfills.SecondRunInsertsNothing | apps/backend/alembic/versions/e30c06a1b2c3_add_activity_lifecycle.py:64-73 | a second run at any time inserts nothing |
| LearningMessages.CitationIdsNeverCollide | apps/backend/app/contracts/learning_messages.py:592-605 | two citation items get one id only if they are the same item |
| LearningMessages.DistinctIffNoCollision | apps/backend/app/contracts/learning_messages.py:338-342 | the expanded ids are distinct exactly when no citation id is that of a non-citation block |
| LearningMessages.ExpansionValidIff | apps/backend/app/contracts/learning_messages.py:523-605 | a valid render block expands to valid blocks unless it is a source card over 2000 characters |
| LearningMessages.OrderIsKept | apps/backend/app/contracts/learning_messages.py:522-605 | a block's expansion stands where the block stood |
| LearningMessages.MessageValidIffAdaptable | apps/backend/app/contracts/learning_messages.py:324-349 | the message validates exactly when envelope, block count, ids and source cards fit |
| LearningMessages.AdaptRenderPayload | apps/backend/app/contracts/learning_messages.py:508-620 | succeeds exactly then, with a valid message under the envelope given, every block at its place with the text, titles, labels and excerpts of its render block, and no capability; otherwise names the first block that does not fit |
| LearningMessages.ExpansionShowsPayload | apps/backend/app/contracts/learning_messages.py:522-605 | the expansion shows every render block's content in full, in its own kind of block and at its place |
| LearningMessages.ValidPayloadMayCollide | apps/backend/app/contracts/rendering.py:51-63 | a valid payload that cannot be adapted |

## Left out

- ErasureCoordinators.ErasureCoordinator.Confirm: within one call no other workflow takes a step and a lost checkpoint race appears as a failed commit; free interleaving is in ErasureWorkflow. Step rows, report reason codes, result digests and the row's target and user reference are not stored. A commit that succeeds in the database but is reported as failed is not modelled.
- ErasureWorkflow.EveryReachableStateIsConsistent: two executions of the same workflow at once are excluded, as the code assumes; the rest of the application never stores a file again under a path some plan names, and the checkpoint row exists from the migration on.
- PlanMerging.MergeKeepsEffectIff: assumes one key column for each owner and table, as the planners use.
- PlanImpacts.PreviewNeverUnderstatesIff: for operations with no more predicates than listed ids, the only ones the planners build.
- PlanDigest.SameDigestSameEffect: each table is named by one column of one type, or row by row with its whole key, as the planners do; column names hold no bar.
- ForeignKeys.RunsIffChildrenGoFirst: references are single columns onto unique ones, checked at the end of each statement; the one checked row by row (ON DELETE RESTRICT) is between the workflow's own tables, which no plan names.
- HeldRows.OcrOrSessionStopsTheDocumentPlan: the tables a document plan can name are listed as a constant, and the schema is any that holds the two references.
- ErasureGuards.RetryErasesIff: for plans whose record ids have one reading; RetryErasesAsBuiltIff is for any planner.
- ErasureGuards.IdleCompletesIff: the planner is any relation between a workflow, the rows a retry finds and its plan.
- PlanDigest.UploadsAreFixed: that a stored name starts with its document's id is assumed of the file store, whose writing and quotas are not part of this model.
- AccountManifest.AllPersonalDataPlan: how the inventory finds the manifest's rows and files is not part of this model; symbolic links are an unresolvable path.
- ErasureCoordinators.ErasureCoordinator.Preview: plan building for learning records, documents and models is a function of user, scope, target, rows and the order of the answers, with its refusals; its SELECTs are not part of this model.
- BookTranscripts.ChainedIffEverythingWasListed: the teaching result is any action and trace on the context saved for the request; transcripts are append-only here, so deletion by erasure is not interleaved with turns.
- BookLearning.BookLearningService.StartTeachingRound: goal, plan and activity look-ups, readiness, policy, retrieval, rendering and event records are one readiness flag and one optional decision, whose failure is reported after the other checks; the goal and plan of a repetition are those the caller resolves.
- BookLearning.BookLearningService.GetTranscript: rows written before messages were stored, and the refusal on evidence a learner may not see, are not modelled.
- BookLearning.BookLearningService.InvokeMessageInteraction: the availability check before it and the result envelope around its answer are left out.
- GoalBackfills.Backfill: payload values are JSON without objects, and the target tables start empty.
- LearningMessages.AdaptRenderPayload: a failed block and a failed message are both validation errors; the plain-text adapter is left out.
- RateLimiters.RateLimiter.IsAllowed: real arithmetic, so rounding of floats is not covered.
- ApiKeys.KeyStore.ValidateApiKey: the scopes list is a value, so a caller changing the returned list is not covered; listing a user's keys is left out.
- Request routing by the marker, redaction, content classification, masking, Redis and telemetry.
- Recovery baselines, desktop completion and the recovery catalogue.
- Schema definitions of the migrations other than the unique constraints used here.
