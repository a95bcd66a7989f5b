# Voodoo governed operations, verified

A Dafny model of the durable state machines behind a governed-operations control plane, with proofs
about every run of them. Tables are maps or sequences, a transaction is one all-or-nothing step,
time is whole milliseconds or seconds, and SHA-256 is a function parameter. Where distinct digests
matter, the lemma assumes them of the finitely many values of its run, or shows which two texts collide.

| file | what it models |
|---|---|
| `CanonicalJson.dfy`, `SortedStrings.dfy` | canonical JSON text and the order of strings |
| `AuditLedger.dfy` | the hash-chained audit log |
| `AuthRateLimit.dfy` | the authentication rate limiter |
| `ProjectRegistry.dfy`, `ControlPlane.dfy`, `ControlPlaneRuns.dfy` | the event-sourced control-plane registry and its interleaved callers |
| `Manifest.dfy`, `Checkpoint.dfy` | checkpoint manifests, verification and finalization |
| `EvidencePublication.dfy` | crash-safe publication of review evidence by several writers |
| `Requirements.dfy` | the recursive requirement manifests and their lock |
| `Migrations.dfy` | the migration runner over a database's whole life |
| `ChangeRequest.dfy` | review of change requests and the resolution of approval evidence |
| `Snapshots.dfy` | authorization snapshots, the revocation epoch and grant issuance |
| `DispatchContracts.dfy`, `DispatchInbox.dfy`, `ExecutionLeases.dfy` | dispatch identity, deduplicated admission, execution leases |
| `OperationLineage.dfy` | the whole lineage of an operation beside the authority that can be revoked or stopped, the epoch from end to end, and what the digest of an entry stands for |
| `OperationResume.dfy`, `OperationPreparation.dfy` | the preparation of an operation among other callers, when it succeeds among them, and its resumption |
| `Timestamps.dfy` | canonical UTC timestamps (section 5.1 of RFC 3339) |

State that the system changes in place is a class whose methods are proved against functions on
values; the run theorems are about those functions. `dafny verify dfyconfig.toml` checks everything.

Four results are worth knowing beforehand. A checkpoint candidate can be accepted and still not be
finalized (`DirectoryAtManifest`); `FinalizeCheckpoint` states exactly when. The no-clobber link of the evidence
writer never refuses a writer that holds the reservation (`LinksNeverCollide`), so it is a second line
of defence. Leases of one admission never overlap even when the callers' clocks disagree
(`AtMostOneLeaseIsValid`). And the emergency stop is checked before the epoch, so a grant can be issued
under a stop (`GrantUnderStop`), exactly when that was set between these two reads (`GrantSawNoStop`).

## Model

| member | source | states |
|---|---|---|
| `CanonicalJson.DecodeInvertsPrint` | voodoo_product/evidence_primitives.py:22-25 | stored text decodes to a value exactly when it is the canonical text of that value with sorted keys: printing and decoding invert each other in both directions |
| `CanonicalJson.RoundTrip` | voodoo_product/evidence_primitives.py:22-25 | every printed value is read back whole, whatever text follows it |
| `CanonicalJson.PrintIsInjective` | voodoo_product/evidence_primitives.py:22-25 | values with the same canonical text are the same value, so a digest of the text binds the value |
| `CanonicalJson.DecodedIsOrdered` | voodoo_product/evidence_primitives.py:22-25 | text that decodes is in canonical order: in no object, however deep, is a key repeated or followed by a smaller one |
| `CanonicalJson.EscapesAre` | voodoo_product/evidence_primitives.py:22-25 | strings use the short escapes where there are any, leave every other character but control characters as it is, and contain no control character |
| `CanonicalJson.NumbersArePlain` | voodoo_product/evidence_primitives.py:22-25 | integers are printed as plain decimals without leading zeros, signed only when negative |
| `AuditLedger.WrittenIsChained` | voodoo_product/audit.py:30-66 | every run of appends leaves a log that verifies, holding exactly the appended events in order |
| `AuditLedger.SameHeadOrCollision` | voodoo_product/evidence_primitives.py:28-32 | two logs that verify with the same head but hold different events, whatever their lengths, contain a row each whose different chain texts have the same digest |
| `AuditLedger.SameHeadSameLog` | voodoo_product/audit.py:76-98 | two logs that verify with the same head are the same log, events and rows, unless two of their own chain texts collide |
| `AuditLedger.Ledger.Append` | voodoo_product/audit.py:30-66 | appends one row chained to the old head and keeps every earlier row |
| `AuditLedger.Ledger.Verify` | voodoo_product/audit.py:76-98 | accepts exactly the chained logs, with their count and head, and names the first bad row of any other |
| `AuthRateLimit.StoredRowsAreGood` | voodoo_product/auth_rate_limit.py:98-136 | in every reachable table a row counts from 1 to its maximum and is locked exactly when it has reached it |
| `AuthRateLimit.CleanUpIsUnobservable` | voodoo_product/auth_rate_limit.py:71-96 | with a clock that never goes back, deleting old rows changes no answer of any call sequence, neither allow nor deny nor the seconds to wait |
| `AuthRateLimit.FailuresAreBounded` | voodoo_product/auth_rate_limit.py:98-136 | since the last clear of a key, any half-open interval as long as the shorter of window and lockout holds at most 2 * maximum - 2 counted failures |
| `AuthRateLimit.AnswersFollowHistory` | voodoo_product/auth_rate_limit.py:72-141 | over every run the table, clean-up included, answers every attempt and every failure as a limiter that remembers all failure times since the last clear: with the longest lockout they have earned for one of the subject's keys |
| `AuthRateLimit.LockoutIsServed` | voodoo_product/auth_rate_limit.py:82-96 | once the failures of a key reach its maximum every attempt of a subject it limits is refused until the lockout is over, whatever is called meanwhile but a clear of that key |
| `AuthRateLimit.AuthenticationRateLimitService.Enforce` | voodoo_product/auth_rate_limit.py:71-96 | restarts expired rows and answers with the longest lockout of the subject's stored rows: more than zero exactly when one of them is blocked after now, and then at least every such remainder and equal to one |
| `AuthRateLimit.AuthenticationRateLimitService.RecordFailure` | voodoo_product/auth_rate_limit.py:98-136 | old rows are deleted, every key of the subject not under lockout gets its next failure, and the answer is the longest lockout of the rows as stored now |
| `AuthRateLimit.AuthenticationRateLimitService.Reset` | voodoo_product/auth_rate_limit.py:138-144 | removes exactly the rows of the subject's keys |
| `ProjectRegistry.Build` | voodoo_product/control_plane_contracts.py:173-209 | filling the two dictionaries succeeds exactly when no two projects share an identity or a folded repository, and the index then answers as the list does |
| `ProjectRegistry.AddIdentities` | voodoo_product/control_plane_contracts.py:183-187 | adds every identity of a project, or fails exactly when one is taken |
| `ProjectRegistry.OwnerIsUnique` | voodoo_product/control_plane_contracts.py:131-161 | an identity belongs to one project of a compatible list only |
| `ProjectRegistry.OrderDoesNotMatter` | voodoo_product/control_plane_registry_persistence.py:152-162 | rebuilding the registry from the same rows in another order gives the same answers |
| `ProjectRegistry.ResolutionIsStable` | voodoo_product/control_plane_registry_persistence.py:164-198 | registering one more compatible project changes no answer already given |
| `ControlPlane.PointerRoundTrip` | voodoo_product/control_plane_registry_persistence.py:106-129 | a valid pointer survives being stored: its text decodes to itself |
| `ControlPlane.DecodedIsWhole` | voodoo_product/control_plane_contracts.py:402-465 | whatever text is stored, a pointer read from it is canonical, of this schema, at genesis exactly at revision zero, and otherwise carries the hash of its own state |
| `ControlPlane.GenerationIsExact` | voodoo_product/control_plane_registry_persistence.py:341-390 | the generation of a stored record is exactly the positive number that it names |
| `ControlPlane.ReplayCountsTransitions` | voodoo_product/control_plane_foundation.py:36-59 | the revision after a replay is the number of replayed events that carry a transition |
| `ControlPlaneRuns.CommitIsSound` | voodoo_product/control_plane_registry_persistence.py:284-332 | one commit keeps every pointer equal to its replay, changes at most the value its caller read, and only if that text is still stored |
| `ControlPlaneRuns.CommitIsReplayStep` | voodoo_product/control_plane_registry_persistence.py:284-332 | a caller that read the latest text is refused exactly when the event does not fit the replay of the log, and is given the replay of one more event |
| `ControlPlaneRuns.StoredPointerIsReplay` | voodoo_product/control_plane_registry_persistence.py:284-332 | after every interleaved run, refused calls included, each stored pointer is the fold of the log's events of its project, and its revision is the number of transitions among them |
| `ControlPlaneRuns.TransitionsFormChain` | voodoo_product/control_plane_foundation.py:34-60 | after every run of interleaved callers the logged transitions of a project form a chain from the genesis hash, and the stored pointer shows state, hash, event, correlation, time and number of the last |
| `ControlPlaneRuns.LogTells` | voodoo_product/control_plane_foundation.py:48-49 | in every consistent state an event is refused exactly when it carries a transition whose previous hash is not the one the logged chain ends in |
| `ControlPlaneRuns.GenerationsRunUpward` | voodoo_product/control_plane_registry_persistence.py:341-390 | the generations logged for a connector or server are 1, 2, 3, ... up to the stored one, one entry each |
| `ControlPlaneRuns.NoTextRecurs` | voodoo_product/control_plane_registry_persistence.py:50-58 | a stored text that was replaced never comes back, even when the state it describes does |
| `ControlPlaneRuns.CommitSawTheLatest` | voodoo_product/control_plane_registry_persistence.py:315-332 | with read and commit as separate steps, a commit that changed a value had read the value stored at every moment in between: no update is lost |
| `ControlPlaneRuns.UndisturbedCommit` | voodoo_product/control_plane_registry_persistence.py:284-332 | a caller that checks, reads and commits with nobody in between has its event logged and the pointer moved on exactly when its project is registered as described and the transition extends the logged chain; otherwise nothing changes |
| `ControlPlaneRuns.RegistrationTakesEffect` | voodoo_product/control_plane_registry_persistence.py:164-198 | a registration takes effect exactly when the projects stay compatible |
| `ControlPlaneRuns.IdentitiesAreForever` | voodoo_product/control_plane_registry_persistence.py:164-198 | over every run an identity that once resolves keeps its project |
| `ControlPlaneRuns.RowsStayCompatible` | voodoo_product/control_plane_registry_persistence.py:152-162 | over every run the stored projects stay compatible, so rebuilding the registry never fails |
| `ControlPlaneRuns.RunIsSound` | voodoo_product/control_plane_registry_persistence.py:291-296 | over every run the descriptor a caller checked before its transaction is still the registered one when it commits |
| `ControlPlaneRuns.DurableControlPlaneRegistry.RegisterProject` | voodoo_product/control_plane_registry_persistence.py:164-198 | adds the row and one log entry, or changes nothing; keeps the registry consistent |
| `ControlPlaneRuns.DurableControlPlaneRegistry.AppendAndReconcile` | voodoo_product/control_plane_registry_persistence.py:284-332 | succeeds exactly when the event's project is registered as described and its transition, if any, extends the logged chain; then the event is logged and the stored pointer shows the last transition, otherwise nothing changes |
| `ControlPlaneRuns.DurableControlPlaneRegistry.RecordGeneration` | voodoo_product/control_plane_registry_persistence.py:341-390 | accepts exactly the generation after the stored one and writes value and log entry together |
| `Manifest.PrintThenParse` | voodoo_product/checkpoint_evidence.py:873-907 | a manifest written for clean, sorted entries parses back to exactly those entries |
| `Manifest.ParsedIsClean` | voodoo_product/checkpoint_evidence.py:924-939 | whatever text a manifest has, if it parses then its paths are clean and sorted |
| `Manifest.ParseTextIsExact` | voodoo_product/checkpoint_evidence.py:873-907 | a manifest is accepted exactly when it has a line, every line can be read, and the paths increase; its entries are those of its lines |
| `Manifest.LineIsExact` | voodoo_product/checkpoint_evidence.py:873-907 | a line is read exactly when it is a lower-case digest of 64 characters, two spaces and a safe path |
| `Manifest.NormalizeIsExact` | voodoo_product/checkpoint_evidence.py:924-939 | a path is safe exactly when it is relative, without backslash, NUL or parent step, and names something; its normal form has the same names |
| `Manifest.SplitAtBreak` | voodoo_product/checkpoint_evidence.py:876 | a line ends at the first boundary, and a carriage return takes the line feed after it along |
| `Manifest.SplitLastLine` | voodoo_product/checkpoint_evidence.py:876 | the last line needs no boundary |
| `Manifest.LineBreaksAre` | voodoo_product/checkpoint_evidence.py:876 | the ten characters at which text is split into lines |
| `Manifest.CleanBelow` | voodoo_product/checkpoint_evidence.py:924-939 | a path below a clean directory is clean exactly when its relative part is |
| `Manifest.ParseManifest` | voodoo_product/checkpoint_evidence.py:873-907 | the parsing loop computes the parse function, errors included |
| `Checkpoint.WritingMakesFresh` | voodoo_product/checkpoint_producer.py:740-760 | writing the listing of a directory of clean paths makes its manifest list every file with its digest |
| `Checkpoint.FreshSurvives` | voodoo_product/checkpoint_producer.py:119-144 | a nested manifest stays right when files outside its directory are written |
| `Checkpoint.LaterWriteIsDetected` | voodoo_product/checkpoint_producer.py:119-144 | changing any covered file after the outer manifest makes the outer check fail, so the outer one must be written last |
| `Checkpoint.AcceptedPathsAreClean` | voodoo_product/checkpoint_evidence.py:117-154 | acceptance of the outer manifest alone proves every path clean enough for print-then-parse |
| `Checkpoint.VerifyIsExact` | voodoo_product/checkpoint_evidence.py:117-154 | a tree is accepted exactly when the outer manifest lists every other file with its digest, README, other checks and legacy exception hold and nested manifests can be read; exactly the files a nested manifest lists with another digest are reported |
| `Checkpoint.FinalizationRepairsEveryWarning` | voodoo_product/checkpoint_producer.py:46-144 | every accepted candidate whose manifests can be rewritten is finalized into a well-formed tree with full coverage, matching digests and no nested warning, that differs only in the three manifests |
| `Checkpoint.FinalizeCheckpoint` | voodoo_product/checkpoint_producer.py:46-144 | succeeds exactly for accepted candidates without legacy exception evidence, without a regular file in place of the commit directory, without an empty commit directory and whose manifest paths are neither directories nor closed to writing; the staged tree is then well formed and verifies without warnings |
| `Checkpoint.WriteManifest` | voodoo_product/checkpoint_producer.py:740-760 | writes the sorted listing of the directory, or refuses a directory without payload and fails when the manifest's path is a directory or may not be written |
| `Checkpoint.DirectoryAtManifest` | voodoo_product/checkpoint_evidence.py:665-671 | any accepted candidate without a nested manifest, with one more file below that manifest's path, is well formed and gets the same verdict, and yet that manifest cannot be written; the other checks are only taken not to look there |
| `Checkpoint.LayoutIsGood` | voodoo_product/checkpoint_evidence.py:667 | the two directory names of the code satisfy what the results ask of a layout |
| `SortedStrings.Sort` | voodoo_product/checkpoint_producer.py:753-758 | the elements of a set in increasing order, each once |
| `EvidencePublication.NoFinalIsOverwritten` | scripts/publish_review_branch.py:357-376 | no step of any writer replaces or removes a final file, whoever made it, over every run |
| `EvidencePublication.StepNeverClobbers` | scripts/publish_review_branch.py:336-362 | in any directory whatsoever no call changes what a final name or the reservation holds, and a link onto an existing name starts the clean-up |
| `EvidencePublication.FaultsTakeEffect` | scripts/publish_review_branch.py:336-354 | a failed write leaves its bytes in the temporary file, and a failed or last call leaves the directory alone |
| `EvidencePublication.VisibleDocumentIsSealed` | scripts/publish_review_branch.py:389-426 | in every reachable directory a document that appeared during the run has a sidecar with the digest of exactly its bytes, crashes and failed calls included |
| `EvidencePublication.AtMostOnePublishes` | scripts/publish_review_branch.py:389-426 | at most one of any number of writers publishes, only under an identity free at first, and at most one holds the reservation |
| `EvidencePublication.LinksNeverCollide` | scripts/publish_review_branch.py:357-376 | the reservation keeps the final names free: no link of a writer that holds it finds its name taken |
| `EvidencePublication.SuccessLasts` | scripts/publish_review_branch.py:379-426 | a writer that returned normally has both of its files in place for the rest of the run |
| `EvidencePublication.QuietOutcome` | scripts/publish_review_branch.py:336-426 | once all writers have finished and nothing failed to be removed, the directory is the initial one, or with one writer's sidecar, or with that writer's sidecar and document |
| `EvidencePublication.AloneOutcome` | scripts/publish_review_branch.py:379-426 | in the step machine a lone writer, whatever of its calls failed, that has finished and removed what it had to remove leaves the directory as it was, with its sidecar, or with both files, and succeeds only in the last case |
| `EvidencePublication.AloneSucceeds` | scripts/publish_review_branch.py:379-426 | an undisturbed writer of a free identity has, after fifteen system calls, published both files and left nothing else, and stays finished |
| `EvidencePublication.RunPublishes` | scripts/publish_review_branch.py:379-426 | in the runs of the step machine too: after fifteen or more calls of one writer of a free identity both files are there, with its document and seal, and nothing else |
| `EvidencePublication.EvidenceDirectory.WriteEvidence` | scripts/publish_review_branch.py:379-426 | whichever system calls raise, no final file is touched, the document appears only beside its sidecar and only on a free identity, and unless a removal failed nothing else is left; without failures it succeeds exactly on a free identity |
| `EvidencePublication.EvidenceDirectory.WriteTemporary` | scripts/publish_review_branch.py:336-354 | a temporary file is created and filled, or removed again when filling raises; it stays behind only when that removal raises too |
| `EvidencePublication.EvidenceDirectory.PublishNoClobber` | scripts/publish_review_branch.py:357-362 | links the temporary file to its final name unless that exists or the call raises, then removes the temporary name unless that raises |
| `Requirements.ParseIsExact` | scripts/check_requirements_lock_drift.py:53-111 | the recursive read succeeds exactly when every reachable file is confined, readable and well formed, no include walk returns to a file and no two reachable pins conflict, and then returns the union of all reachable pins |
| `Requirements.LinesParse` | scripts/check_requirements_lock_drift.py:67-108 | the lines of one file are read exactly when each can be read and no two of their pins conflict |
| `Requirements.ManifestReader.ParseManifest` | scripts/check_requirements_lock_drift.py:53-111 | the loop over the shared set of active files computes the recursive function, terminates on every finite include graph and leaves the set as it was |
| `Requirements.ManifestReader.MergeInto` | scripts/check_requirements_lock_drift.py:87-94 | the loop over included pins gives the union, or an error exactly when a key has two versions |
| `Requirements.ParseLock` | scripts/check_requirements_lock_drift.py:114-131 | succeeds exactly when the lock is confined and readable, no matching line has an empty extra and no key has two versions, and returns exactly its pins |
| `Requirements.CheckPair` | scripts/check_requirements_lock_drift.py:134-155 | succeeds exactly when the manifest can be read and the lock is confined, readable, well formed and gives no key two versions; the pair is then ok exactly when every pin reachable from the manifest is in the lock with the same version |
| `Requirements.ComparePins` | scripts/check_requirements_lock_drift.py:138-155 | missing keys, and mismatched keys each with the manifest's and the lock's version, both sorted, and the verdict they imply |
| `Migrations.StagedUpgrade` | voodoo_product/db.py:529-587 | when an earlier release has started, a later one with a longer list starts exactly when it would have started at once, with the same schema, record and user_version |
| `Migrations.StartIsFold` | voodoo_product/db.py:562-581 | a database whose record is a prefix of the release starts exactly when the pending scripts execute and the outcome validates; the new schema is the fold of those scripts |
| `Migrations.StartIsExact` | voodoo_product/db.py:529-587 | a start succeeds exactly when version and record are in step with the release, every pending script is complete, all their statements lead one after the other from the old schema to an accepted one; rows and version follow the list |
| `Migrations.StartRecordsOnce` | voodoo_product/db.py:566-581 | a row recorded by a start shares version and name with no row before it |
| `Migrations.RestartChangesNothing` | voodoo_product/db.py:529-587 | a second start of a release is a no-op, recorded times included |
| `Migrations.StartRecordsAll` | voodoo_product/db.py:552-581 | a successful start keeps every recorded row, records the whole list and ends at its last version with a valid schema |
| `Migrations.LifeIsOneStart` | voodoo_product/db.py:529-587 | after any succession of releases and refusals the database is new or exactly what one of the releases makes of a new database |
| `Migrations.SQLiteProductDatabase.Initialize` | voodoo_product/db.py:529-587 | one transaction: all pending migrations applied and validated, or the database unchanged |
| `Migrations.LoadMigrations` | voodoo_product/db.py:359-385 | succeeds exactly for a non-empty directory of well-named, non-blank scripts numbered 1, 2, 3, ... in the order of their names |
| `Migrations.WellNamedIsExact` | voodoo_product/db.py:26 | a migration file is named exactly by four digits, an underscore, a word of lower-case letters, digits and underscores, and the suffix |
| `ChangeRequest.SameDigestSameContent` | voodoo_product/change_request.py:274-293 | two contents with one review digest are the same content, or their own review texts are different and have the same digest |
| `ChangeRequest.ReviewDigestIsExact` | voodoo_product/change_request.py:274-293 | a content can be reviewed exactly when its payload is stored as the canonical text of an object |
| `ChangeRequest.SameDigestSamePayload` | voodoo_product/approval_evidence_resolver.py:88-174 | contents with one payload digest have the same payload, or their payload texts collide |
| `ChangeRequest.ResolvePolicy` | voodoo_product/approval_policy.py:117-130 | whatever evaluator is injected, a policy that is given asks for the current number of approvals and bars the requester |
| `ChangeRequest.CurrentPolicyTells` | voodoo_product/approval_policy.py:70-115 | two independent approvals in production and one elsewhere, never the requester's, with the reason codes that say so |
| `ChangeRequest.ReviewerIsHeard` | voodoo_product/change_request.py:163-243 | in every consistent state a decision on a request under review is refused only to its requester, to someone who has decided or when the policy diverged; a denial settles it at once, an approval exactly when it is the last one required |
| `ChangeRequest.DecideIsExact` | voodoo_product/change_request.py:153-243 | on any tables: exactly when a decision is accepted, what row it stores, and that the request is settled by a denial or when the votes stored for it reach the quorum |
| `ChangeRequest.SubmitIsExact` | voodoo_product/change_request.py:127-151 | a draft without digest in its own workspace, and no other request, is submitted, with the digest of its content |
| `ChangeRequest.CreateIsExact` | voodoo_product/change_request.py:51-107 | a request is created exactly in an existing workspace of its environment under a new id, as a draft |
| `ChangeRequest.OthersAreExact` | voodoo_product/change_request.py:51-107 | exactly when a workspace is new and when an approved request is taken over for execution, and what changes |
| `ChangeRequest.OperationsTakeEffect` | voodoo_product/change_request.py:51-243 | in a run an accepted operation takes effect and a refused one has none |
| `ChangeRequest.ApprovedMeansQuorum` | voodoo_product/change_request.py:127-243 | in every reachable state APPROVED means exactly two distinct approvers in production and one elsewhere, other than the requester, no denial, all bound to the digest of the stored content; REVIEW_REQUIRED means fewer and no denial |
| `ChangeRequest.ServiceMeansQuorum` | voodoo_product/approval_policy.py:117-130 | the same for the rules of the service, whatever evaluator is injected |
| `ChangeRequest.LoadApprovalEvidence` | voodoo_product/approval_evidence_resolver.py:70-174 | succeeds exactly when the request is approved, at home and bound, and its stored rows are in-time, unexpired approvals of its digest by a quorum of others; returns all of them with the earliest deadline |
| `ChangeRequest.ApprovedResolvesUnlessExpired` | voodoo_product/approval_evidence_resolver.py:88-174 | for an approved request, with a clock that has not gone back, matching environments and no larger quorum, resolution fails only by expiry |
| `ChangeRequest.CreateEvidence` | voodoo_product/execution_contract.py:330-375 | the evidence set refuses repeated ids, repeated reviewers and approvals after its own deadline |
| `ChangeRequest.ChangeRequestService.SubmitChangeRequest` | voodoo_product/change_request.py:127-151 | binds the digest of the content and keeps every request consistent |
| `ChangeRequest.ChangeRequestService.ApproveChangeRequest` | voodoo_product/change_request.py:153-243 | inserts, counts again and sets the status in one transaction, or changes nothing; keeps every request consistent |
| `Snapshots.SameKeySameSnapshot` | voodoo_product/authorization_snapshot_store.py:99-108 | all successful calls with one idempotency key, whenever made, return the same snapshot |
| `Snapshots.OneWitnessEach` | voodoo_product/authorization_snapshot_creator.py:354-372 | in every reachable state each stored snapshot has exactly one authority-witness entry, no two keys share a snapshot, and the loader accepts it |
| `Snapshots.StoredWasInserted` | voodoo_product/authoritative_grant.py:233-344 | the epoch the loader returns is the one in force in the transaction that stored the snapshot |
| `Snapshots.StoredWasApproved` | voodoo_product/authorization_snapshot_creator.py:374-410 | every stored snapshot was stored at a moment at which its change request was in the table, approved, for its workspace, environment and content, and no stop was active |
| `Snapshots.CreateIsExact` | voodoo_product/authorization_snapshot_creator.py:262-372 | exactly when a snapshot is created or returned, over the fields of the tables, and the row and the two audit entries that are written |
| `Snapshots.KnownKeyIsExact` | voodoo_product/authorization_snapshot_store.py:99-108 | with a known key a call succeeds exactly when it repeats every input but generated ids and time |
| `Snapshots.LoadIsExact` | voodoo_product/authoritative_grant.py:233-344 | on any log, forged or not, evidence is loaded exactly when one entry alone speaks of the snapshot, is whole and attests it field by field |
| `Snapshots.LoadIsStable` | voodoo_product/authoritative_grant.py:233-344 | what the loader once returned for a snapshot it returns ever after |
| `Snapshots.GrantImpliesConstantEpoch` | voodoo_product/authoritative_grant.py:673-717 | for every interleaving of all callers' reads, an issued grant implies that the epoch was the granted one at every moment from the storing of the snapshot to the issuer's last read; only the snapshots the run speaks of need distinct digests |
| `Snapshots.NoGrantAfterRevocation` | voodoo_product/authoritative_grant.py:762-785 | once the epoch has moved past the recorded one no later issuance from that snapshot succeeds, re-creation under the same key included |
| `Snapshots.RevocationBars` | voodoo_product/authoritative_grant.py:762-785 | a revocation of a stored snapshot's scope bars every later issuance from it |
| `Snapshots.EpochIsSum` | voodoo_product/authoritative_grant.py:762-785 | after every run the epoch of a scope is the sum of its revocations |
| `Snapshots.UndisturbedIssue` | voodoo_product/authoritative_grant.py:673-717 | an undisturbed issuance from a stored snapshot succeeds exactly when authority, binding, precondition and validity allow it, no stop is active and the epoch is still the recorded one |
| `Snapshots.GrantMadeSixReads` | voodoo_product/authoritative_grant.py:673-717 | every grant comes after six reads of its issuer, in order and each with its demand met at its own moment: no stop twice, loaded evidence, the recorded epoch twice, the other authorities' consent |
| `Snapshots.ReadIsExact` | voodoo_product/authoritative_grant.py:673-717 | each read denies exactly when its demand is not met; only the last one issues |
| `Snapshots.GrantSawNoStop` | voodoo_product/authoritative_grant.py:762-785 | every grant was preceded by its own issuer's second check, at which no emergency stop was active and after which the issuer made no other move; a stop is active at the grant exactly when it was set between these two reads and not lifted |
| `Snapshots.StopIsMissed` | voodoo_product/authoritative_grant.py:673-717 | every issuance that would succeed undisturbed also succeeds when a stop is set between its last two reads |
| `Snapshots.GrantUnderStop` | voodoo_product/authoritative_grant.py:762-785 | whatever the digests, there is a run that ends in a grant while a stop is active |
| `Snapshots.ValidityFitsGrant` | voodoo_product/authoritative_grant.py:854-897 | resolved times exist exactly within the authority and a fresh precondition, satisfy the grant constructor and are the longest allowed |
| `Snapshots.AuthorizationSnapshotCreator.CreateInTransaction` | voodoo_product/authorization_snapshot_creator.py:262-372 | returns the stored snapshot of the key or stores a new one with its two audit rows; a refusal changes nothing |
| `DispatchContracts.SameDispatchSameEntry` | voodoo_product/dispatch_envelope.py:111-149 | when the digested texts of the two entries do not collide, bound envelopes with one dispatch_id carry the same outbox entry in every field |
| `DispatchContracts.RedeliveryIsExact` | voodoo_product/dispatch_inbox.py:252-271 | a redelivery of an admitted dispatch is DUPLICATE exactly when the envelope revision is the same, and a content conflict otherwise |
| `DispatchInbox.AdmitIsExact` | voodoo_product/dispatch_inbox_persistence.py:227-293 | what each delivery of a valid envelope does, in four exclusive cases; the first admission never runs into a constraint |
| `DispatchInbox.DeliveryIsExact` | voodoo_product/dispatch_inbox_persistence.py:227-293 | on any tables with distinct keys: exactly when a delivery is admitted, a duplicate or refused, field by field |
| `DispatchInbox.MadeAdmissionTells` | voodoo_product/dispatch_inbox.py:80-200 | a new admission repeats envelope, entry and place, and its id and digest are those of its content |
| `DispatchInbox.CallsTakeEffect` | voodoo_product/dispatch_inbox_persistence.py:227-293 | in a run an accepted delivery takes effect and a refused one has none |
| `DispatchInbox.RunKeepsTables` | voodoo_product/dispatch_inbox_persistence.py:227-293 | after every run, whatever the digests, no two outbox or inbox rows share an identity, a digest or an execution |
| `DispatchInbox.AdmittedOnce` | voodoo_product/dispatch_inbox_persistence.py:227-293 | over every run whose digested texts do not collide an admitted dispatch is never admitted again: the same envelope is answered with the admission made then, any other with a conflict |
| `DispatchInbox.DurableDispatchInboxService.AdmitEnvelope` | voodoo_product/dispatch_inbox_persistence.py:227-293 | admits, answers or refuses in one transaction and keeps the store sound |
| `ExecutionLeases.AtMostOneLeaseIsValid` | voodoo_product/execution_lease_persistence.py:277-365 | at no instant are two leases of one admission valid, whatever the callers' clocks said |
| `ExecutionLeases.EpochsAreNumbered` | voodoo_product/execution_lease.py:114-132 | the epochs of an admission run 1, 2, 3, ... up to the current one |
| `ExecutionLeases.StaleLeaseCannotComplete` | voodoo_product/execution_lease_persistence.py:367-448 | a lease that is not the current one can complete nothing, not even as a duplicate |
| `ExecutionLeases.CompletionIsFinal` | voodoo_product/execution_lease_persistence.py:367-448 | a completed execution keeps its completion for the rest of every run and gets no new lease |
| `ExecutionLeases.CompleteIsExact` | voodoo_product/execution_lease_persistence.py:367-448 | exactly when a lease completes: its admission's state repeats it, nothing is completed, and the clock of its environment shows a time from its start and before its expiry; exactly when it is a duplicate; and what is stored |
| `ExecutionLeases.NamedIsCurrent` | voodoo_product/execution_lease_persistence.py:367-448 | in a reachable state the lease that the admission's state names by id is repeated there in every field |
| `ExecutionLeases.CallsTakeEffect` | voodoo_product/execution_lease_persistence.py:277-448 | in a run an accepted acquisition or completion takes effect and a refused one has none |
| `ExecutionLeases.CompletionWasInTime` | voodoo_product/execution_lease.py:310-336 | over every run each stored completion was made by one call under the lease current then, at a time within that lease |
| `ExecutionLeases.RunKeepsTable` | voodoo_product/execution_lease_persistence.py:277-365 | after every run, whatever the digests, no two leases share an id, a digest or an epoch of one admission, and none is longer than an hour |
| `ExecutionLeases.AcquireIsExact` | voodoo_product/execution_lease_persistence.py:277-365 | a lease is had exactly when the clock is that of the environment, the length is allowed, and the admission has no lease yet or its own current lease has expired and it is not completed; it starts then, lasts as asked, has the next epoch and becomes current; table constraints never refuse it |
| `ExecutionLeases.DurableExecutionLeaseService.AcquireLease` | voodoo_product/execution_lease_persistence.py:277-365 | looks the admission up, inserts the next lease and moves the current-epoch row together, or changes nothing |
| `OperationLineage.AfterAllKeepsConsistent` | voodoo_product/dispatch_outbox_persistence.py:206-309 | after any interleaving of service calls, revocations and stops every grant follows a stored snapshot and carries its recorded epoch, every outbox entry a consumed grant, every admission an entry, every lease and state an admission |
| `OperationLineage.EntryImpliesConstantEpoch` | voodoo_product/grant_consumption.py:663-696 | over every interleaving, an outbox entry implies that the epoch of its scope was the one of its grant at every moment from the call that stored its snapshot to the accepted call that consumed this grant and wrote the entry; that consumption was permitted, within the times of the grant by the clock of its environment, and under no stop |
| `OperationLineage.EntriesWereInTime` | voodoo_product/grant_consumption.py:663-696 | after every run each outbox entry has its consumption and grant rows, which repeat one another field by field, and was consumed from the grant's issue and before its expiry |
| `OperationLineage.GrantsWereInTime` | voodoo_product/grant_consumption.py:663-696 | after every run each stored grant was stored from its issue and before its expiry, by the clock of its environment, with a conformance witness that repeats it |
| `OperationLineage.GrantsFollowSnapshots` | voodoo_product/authoritative_grant.py:437-520 | after every run each stored grant repeats subject and policy of a stored snapshot and carries the epoch recorded for it |
| `OperationLineage.IssueIsExact` | voodoo_product/grant_consumption.py:504-549 | an issued grant is stored exactly when its times, environment, stop, permission, epoch and identities allow it, and the row repeats what was issued |
| `OperationLineage.ConsumeIsExact` | voodoo_product/grant_consumption.py:551-609 | a stored grant is consumed exactly when its times, environment, stop, permission, epoch and identities allow it, and what is then written |
| `OperationLineage.MadeRowsTell` | voodoo_product/grant_consumption.py:309-343 | consumption, conformance witness and outbox entry repeat the grant, the time of the clock and the given identities, each with the digest of its content |
| `OperationLineage.NoGrantNoConsumption` | voodoo_product/grant_consumption.py:551-609 | a token that no stored grant has consumes nothing |
| `OperationLineage.AfterAllGrows` | voodoo_product/migrations/sqlite/0010_durable_execution_grants.sql:64-74 | no service call changes or removes a lineage row |
| `OperationLineage.SameDigestSameLineage` | voodoo_product/grant_consumption.py:309-343 | two outbox entries with one digest, in any two consistent worlds, have the same body, consumption, conformance, grant and snapshot, or two of these values are different and have one digest |
| `OperationResume.ResumeRebuildsPrepared` | voodoo_product/canonical_operation_resume.py:192-400 | a successful resume, each read at any later moment, returns what prepare returned on every field but lease id, lease digest and epoch, and on those too when that lease is still current |
| `OperationResume.ResumeIsExact` | voodoo_product/canonical_operation_resume.py:719-858 | with each row read at its own moment, a leased execution can be resumed exactly when its actor asks, has the permission, envelope revision and allowlist match, it is not completed, and the lease found is still current and runs when the fence is read |
| `OperationResume.ResumeIsWhole` | voodoo_product/canonical_operation_resume.py:719-858 | whatever the tables hold, forged or damaged rows included: the rows found are resumed exactly when every digest is that of its content, every row repeats the one before field by field, and actor, permission, allowlist and fence agree |
| `OperationResume.GatherIsExact` | voodoo_product/canonical_operation_resume.py:192-400 | exactly which rows are found: for each kind the only one of the execution |
| `OperationResume.PreparedIsResumable` | voodoo_product/canonical_operation_resume.py:192-400 | after prepare, whatever is called later and between the reads, its actor can resume exactly while permission and current lease last, and gets back the prepared summary |
| `OperationPreparation.GoodOrderIsPrepared` | voodoo_product/canonical_pipeline.py:216-433 | in every consistent world an order with unused identities, agreeing authorities and clocks in time is prepared by its twelve calls, with any calls of others between them that neither move its epoch, set a stop nor claim its identities; its lease has epoch 1 and is current |
| `OperationResume.CanonicalOperationPipeline.ReadAuthority` | voodoo_product/authoritative_grant.py:673-717 | the issuer reads six times with other callers at work before each read, and answers with its own grant for the snapshot, with the times the authorities allow, or with a denial |
| `OperationResume.CanonicalOperationPipeline.Store` | voodoo_product/grant_consumption.py:504-549 | after others have acted once more the issuer's own grant is stored exactly when the clock of its environment is within its times, nothing is stopped, the actor is permitted, the epoch is its own and its identities are unused |
| `OperationResume.CanonicalOperationPipeline.Prepare` | voodoo_product/canonical_pipeline.py:216-433 | drives the services in order with other callers before each of its reads and transactions; on success every part is stored and passes all equality checks, and its grant was made from what its own issuer issued during the run |
| `OperationResume.PreparedIsAligned` | voodoo_product/canonical_pipeline.py:216-433 | a preparation that returned has parts that agree from one to the next, and its summary repeats them |
| `OperationResume.CanonicalOperationPipeline.Authorize` | voodoo_product/canonical_pipeline.py:250-288 | the snapshot matches actor and request, its capability is on the allowlist, and required profile and capability are enforced before any grant |
| `Timestamps.TextOrderIsInstantOrder` | voodoo_product/canonical_operation_resume.py:546 | comparing canonical UTC millisecond texts is comparing instants, equality included, over all month lengths and leap years |
| `Timestamps.EveryInstant` | voodoo_product/canonical_operation_resume.py:546 | every millisecond of the years 1 to 9999 has its timestamp, so the calendar has no gap |
| `Timestamps.DatesRise` | voodoo_product/authoritative_grant.py:115-126 | a later date has a higher day number, across month lengths and leap years |
| `Timestamps.CalendarIsGregorian` | voodoo_product/authoritative_grant.py:115-126 | the lengths of the months, and leap years with the century rule |

## Left out

- HTTP, CLI, logging, composition and configuration loading: plumbing without rules of its own.
- Git, Docker, archives, and runtime evidence: taken in `Checkpoint` as one predicate that does not read the three manifests.
- Checkpoint locking, staging promotion and clean-up of a failed finalization: single runs of the manifest rewrite are modelled; the lock path is unlinked even when acquiring it failed, so mutual exclusion of finalizers is not claimed.
- Shared state looked up by alias: results are stated for the canonical project id.
- Availability of an MCP server whose connector is revoked later: only the numbering of generations is modelled.
- Project rows as text: `ProjectRegistry` starts from decoded descriptors; pointers and generation records are modelled down to their text.
- JSON floats, and texts that are valid JSON but not canonical: `Decode` accepts canonical texts only, and the code compares with the canonical text wherever it matters to these results.
- Unknown names of environments, risks and adapters, and the size limit of a payload: refused before the modelled part of a change request begins.
- Identifier, digest and capability patterns of value objects: checked field by field in the code, without a cross-object argument.
- Columns beside the stored JSON of lineage rows: a row is modelled as the value it was written from, so the column comparisons hold by construction.
- Precondition guards, permission stores, capability registries and monotonic authority: their answers are parameters of an issuance, a store or a consumption; the child authority of a pipeline grant equals its parent.
- The re-check of a change request's stored content when a snapshot is created: `Snapshots` takes its approval, place and review digest; `ChangeRequest` proves that an approved request's digest is that of its content.
- Snapshots persisted directly, without the creator: that path writes no witness entry, so the witness results are about the creator only.
- Line syntax of requirement files and the normalisation of names and extras: `Requirements` starts from lines already told apart and includes already resolved.
- Cutting a migration script into statements: a parameter, with its incomplete-script error kept; migrations are taken not to touch `schema_migrations` or `user_version` themselves.
- Keyed hashing of rate-limit subjects and password checking: keys are the hashes.
- Authority revision of the epoch state row and the clock witness stored with a completion: one service revision is assumed.
- Migrations.LoadMigrations: does not model the file-system listing; the directory holds the files that match `*.sql`, and which texts are blank is a parameter.
- Checkpoint.FinalizeCheckpoint: does not model links, special files or the copying of the candidate into staging; of file modes only whether a manifest may be opened for writing.
- Digests of clock witnesses: parameters, since the witness has claims of its clock source that are not modelled; the digests of snapshots, grants, conformance, consumptions, entries, envelopes, admissions and leases are computed from their content.
