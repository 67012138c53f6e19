# Verification of PrimeQA's queues, fingerprints, link gate and key rotation

This Dafny project models the parts of PrimeQA whose correctness spans many functions or many
concurrent actors, and proves what their documentation promises about them. Run
`dafny verify dfyconfig.toml` to check it.

**UI inspection jobs** (`LeaseLedger`, `Evidence`, `RunManifest`, `ManifestStore`, `JobQueue`,
`PortalSession`, `Protocol*`, `PunctualTheorems`, `LateWriteConditions`, `LateWriters`,
`LostReports`, `Leases`, `Reports`, `JobConsumer`). Every SQL statement commits on its own.
`JobQueue`, `Evidence` and `PortalSession` hold the statements, the object store and the login as
classes; `Protocol` is the transition system of any number of workers, the reaper, new jobs, other
tenants' uploads and crashes. Finishing and result writes carry the job id only, so a worker whose
lease was reaped still moves. Theorems come in three kinds: those of every execution; those of
punctual executions, in which a worker records and reports only while its own claim is in progress
(a late heartbeat does no harm); and, for the latter, the exact conditions on the steps of any
execution under which they survive late writers (`LateWriteConditions`), with two executions in
which they do not (`LateWriters`). `Leases` derives punctuality from the heartbeat, `Reports` says
what each ending leaves behind. `JobConsumer` proves that the consumer's own code, with the rest of
the system moving between its statements, is a run of that system.

**Enrichment queue** (`EnrichmentBooks`, `EnrichmentBatch`, `EnrichmentWorker`, `EnrichmentRuns`).
The embedding subtick claims a batch, groups it by API key and settles each group by one call. The
grouped loop is shown to agree with a row-by-row one, and the claims of a row are bounded by its
reaps over any run of the table.

**Canonical forms and comparison** (`Sorting`, `Trees`, `Fingerprint`, `PageSummary`, `QuietGate`,
`FlowCanon`, `CompareJobs`). The page fingerprint and the flow comparison canonicalise unordered
trees by recursive sorting. The digest is an arbitrary function: hash equality under reordering
needs nothing of it; the converse assumes non-empty hex digests and no collision among the strings
actually hashed, which an injective digest satisfies for all trees.

**Dead-link gate** (`TemplateBranches`, `RouteMatch`, `TargetPaths`, `DeadLinks`). Targets are
token sequences, paths are segment sequences with wildcards, and "dead" and "alive" are related to
the addresses a template can render.

**Graphs, forests, keys** (`SectionForest`, `AuthzWalk`, `Crypto`, `CredentialStore`,
`KeyRotation`, `KeySweep`, `KeyRotationLimits`). Flattening sections with dangling or circular
parents, reading gates off a closure graph, and rotating the credential key under concurrent
writes. Fernet is assumed to open a token exactly under the key that made it, and to make tokens
with the version prefix that are longer than their text.

`Text`, `Bags` and `Folding` hold shared facts about strings, bags and folds.

Where a result rests on a constant, a list or a pattern of the code, its statement spells that out
again, in other terms than the function that computes with it; lemmas named `...Exactly` prove the
two the same.

Results where the code does not do what one might expect, each with its exact condition and a
concrete input or run:

- a bar in a role makes fingerprints ambiguous (`Fingerprint.EqualHashesExactly`,
  `Fingerprint.BarsAreAmbiguous`);
- late writers can break evidence and completeness guarantees
  (`LateWriteConditions.MarkedVerifiedExactly`, `LateWriteConditions.CompleteExactly`,
  `LateWriters.LateReference`, `LateWriters.LateSuccess`);
- a password the portal rejected is submitted again, though only by a job whose attempt died
  before its report was recorded (`PunctualTheorems.ReclaimNeverFollowsARejectedPassword`,
  `LostReports.PasswordIsSubmittedAgain`);
- the enrichment reaper bounds nothing: a row's claims are bounded exactly when its reaps are, and
  for every n a run of the table with n reaps has MAX + n claims
  (`EnrichmentRuns.ClaimsAreBounded`, `EnrichmentRuns.MostClaimsAreReached`);
- a write between the rotation's read of a row and its commit can be lost
  (`KeyRotation.CommitReadsExactly`, `KeySweep.ReadsAtTheEndExactly`,
  `KeyRotationLimits.LosingRun`);
- a token of the old key that a request read before the sweep committed, and hands back after it,
  is lost when the key is dropped (`KeyRotation.DropIsSafeExactly`, `KeySweep.SweptKeyDropsExactly`,
  `KeyRotationLimits.CarriedTokenRun`);
- new secret text that begins like a token is stored in the clear and is unreadable
  (`KeyRotationLimits.LookalikeIsLost`);
- an update that changes a connection's kind leaves secrets unsealed or sealed ones unread
  (`KeyRotationLimits.KindAloneReadsExactly`, `KeyRotationLimits.KindChangeReadsExactly`,
  `KeyRotationLimits.KindChangeLosesAKey`): the repository method accepts such an update, though
  its only caller (`primeqa/views.py:1650`) passes a name and a config and never a kind;
- two comparisons that are not refused can compose to one that is
  (`CompareJobs.WhenTheThirdIsRefused`, `CompareJobs.RefusedThird`).

## Model

| member | source | states |
|---|---|---|
| `ProtocolTheorems.RecordedEvidenceIsExact` | `primeqa/browser_worker/consume.py:90-157` | In every interleaving of claims, crashes, reaps, late writes and uploads of other tenants, a result row that records evidence keys records the keys of its own job, surface and attempt, and both objects are in the store with exactly the recorded size, digests and content type. |
| `ProtocolTheorems.TablesStayConsistent` | `primeqa/browser_worker/queue.py:80-251` | In every reachable state the tables' CHECK constraints hold, job payloads carry the surfaces of the manifest named, and every row belongs to a surface of the job's manifest. |
| `ProtocolTheorems.SweepReportsExactlyTheUnrecorded` | `primeqa/browser_worker/evidence.py:220-243` | Among listed keys whose first segment is the tenant, a sweep reports exactly the objects whose attempt the row for their job and surface does not record, uploads that raised after storing included. |
| `ProtocolTheorems.ClaimsAreBounded` | `primeqa/browser_worker/queue.py:80-109` | In every interleaving, late writers included, a job is claimed at most 2*MAX-1 times, and at most its number of reaps plus MAX times. |
| `ProtocolTheorems.StepFollowsLedger` | `primeqa/browser_worker/queue.py:202-251` | Every step of the whole system is, for each job, one step of the claim ledger or none. |
| `ProtocolTheorems.AttemptsCountClaims` | `primeqa/browser_worker/queue.py:91-98` | The attempts column counts exactly the claims of the job in the run so far. |
| `ProtocolSafety.StepKeepsInv` | `primeqa/browser_worker/consume.py:121-197` | Every step of a worker, the reaper or the environment keeps the invariant on jobs, rows, uploads and the workers' places in their program. |
| `ProtocolSafety.InvThroughout` | `primeqa/browser_worker/consume.py:121-197` | The invariant holds in every state of every run. |
| `ProtocolPunctual.StepKeepsPunctual` | `primeqa/browser_worker/consume.py:121-197` | With no late writer every step also keeps: a current worker has written all its surfaces up to its place itself, and a referenced row's record was verified. |
| `ProtocolPunctual.PunctualThroughout` | `primeqa/browser_worker/consume.py:121-197` | The punctual invariant holds in every state of every run without late writers. |
| `PunctualTheorems.ReferencedWasVerified` | `primeqa/browser_worker/consume.py:106-118` | With no late writer, a REFERENCED row's own record was accepted by an earlier verification step. |
| `PunctualTheorems.SucceededJobsAreComplete` | `primeqa/browser_worker/consume.py:121-197` | With no late writer, a succeeded job has a row for every surface of its manifest and for nothing else, all written by its last attempt, over any history of interrupted and reaped attempts. |
| `PunctualTheorems.AttemptsAreAccounted` | `primeqa/browser_worker/queue.py:202-251` | With no late writer attempts are at most MAX and equal reaps plus finishes plus the claim in progress. |
| `PunctualTheorems.ReclaimNeverFollowsARejectedPassword` | `primeqa/browser_worker/session.py:57-74` | With no late writer, when a job is claimed again after an attempt whose LoginError was recorded, that attempt submitted no password or its login had succeeded; a claim follows a rejected password only when the attempt died before its report. |
| `LostReports.PasswordIsSubmittedAgain` | `primeqa/browser_worker/queue.py:202-223` | That boundary is real: a run without late writers in which each of the MAX attempts submits a password the portal rejects, the first MAX-1 dying before their report. |
| `PunctualTheorems.OvertakingIsBounded` | `primeqa/browser_worker/queue.py:86-103` | With no late writer, while a job waits unclaimed the claims that go by are at most MAX per job enqueued before it, however many jobs come later and however often older ones are retried. |
| `LateWriteConditions.MarkedVerifiedExactly` | `primeqa/browser_worker/queue.py:176-186` | Over every run, late writers included: a step that marks a row REFERENCED finds its record verified exactly when the marking worker is of the attempt that uploaded the record, or that attempt had accepted its own record before. |
| `LateWriteConditions.ReferencesVerifiedExactly` | `primeqa/browser_worker/consume.py:106-118` | Every reference of a run was verified when it was made exactly when every marking step meets that test. |
| `LateWriteConditions.ReferencedVerifiedExactly` | `primeqa/browser_worker/consume.py:106-118` | In every state of every run a REFERENCED row goes back to a marking step on the same upload, and its record is verified exactly when the attempt that uploaded it has accepted it; that is so whenever that attempt did the marking. |
| `LateWriteConditions.CompleteExactly` | `primeqa/browser_worker/consume.py:121-197` | In every state of every run a job has rows for exactly its manifest's surfaces, all of its last attempt, exactly when the last row write of each surface was by its last attempt. |
| `LateWriteConditions.RowWriteKeepsExactly` | `primeqa/browser_worker/queue.py:129-173` | A row write keeps all rows of a job one attempt's own exactly when it is that attempt's. |
| `LateWriteConditions.SuccessCompletesExactly` | `primeqa/browser_worker/queue.py:226-233` | An accepted success leaves a complete job exactly when it was complete; of a worker whose rows are all still its own, exactly when its claim is the last one. |
| `LateWriters.LateReference` | `primeqa/browser_worker/queue.py:176-186` | In every deployment whose tenant name is not empty and has no slash and no double dot, a reachable state in which a worker that lost its lease marked a row REFERENCED whose record nobody verified. |
| `LateWriters.LateSuccess` | `primeqa/browser_worker/queue.py:226-233` | A reachable state in which a late success leaves a succeeded job whose row is not its last attempt's. |
| `Protocol.DeploymentIsGood` | `primeqa/browser_worker/evidence.py:110-121` | The key scheme gives well-formed tags different keys, all inside the tenant's prefix. |
| `LeaseLedger.AccountedStep` | `primeqa/browser_worker/queue.py:202-251` | Claims, reaps, late finishes and losses each keep the account of stale executions and of the claims they can still revive. |
| `LeaseLedger.ClaimsBounded` | `primeqa/browser_worker/queue.py:202-251` | Over every ledger history attempts are at most MAX plus reaps, with the capped reaper never more than 2*MAX-1. |
| `EnrichmentRuns.StatementFollowsLedger` | `primeqa/worker.py:213-298` | Every statement on the enrichment table, batch claims and reaps included, is for each row one step of the claim ledger with the uncapped reaper, or none. |
| `EnrichmentRuns.ClaimsAreBounded` | `primeqa/worker.py:213-298` | Over any run of the enrichment table, late marks included, a row is claimed at least as often as it is reaped and at most MAX times more, so that its claims are bounded exactly when its reaps are. |
| `EnrichmentRuns.MostClaimsAreReached` | `primeqa/worker.py:213-298` | That bound is reached for every number n of reaps: a run of the table that reaps a row n times and claims it MAX + n times. |
| `LeaseLedger.UncappedClaimsAreUnbounded` | `primeqa/worker.py:213-224` | With the uncapped reaper no number bounds the claims: a history with any wanted number of them, without a late writer. |
| `LeaseLedger.SecondLifeIsReachable` | `primeqa/browser_worker/queue.py:202-251` | The bound 2*MAX-1 is reached by a ledger history of late retryable failures. |
| `LateWriters.MostClaimsAreReached` | `primeqa/browser_worker/queue.py:202-251` | The bound 2*MAX-1 is reached by a run of the whole system: five leases die and four of their workers report late retryable failures. |
| `LeaseLedger.PunctualStep` | `primeqa/browser_worker/queue.py:202-251` | With no late writer each step keeps attempts = reaps + finishes + [in progress] and the attempt cap. |
| `LeaseLedger.RankFalls` | `primeqa/browser_worker/queue.py:202-251` | With no late writer a well-founded measure falls on each claim, finish and reap. |
| `LeaseLedger.PunctualLifeIsFinite` | `primeqa/browser_worker/queue.py:202-251` | With no late writer a job is claimed, reaped and finished at most 2*MAX times in all. |
| `JobQueue.FinishRefusedExactlyWhenPending` | `alembic/versions/tenant/20260821_0010_ui_s2_3_ui_inspection_queue.py:52-64` | Of all statements only a finishing write can break the timing CHECK, and it does exactly on a job that is back to pending. |
| `JobQueue.InspectionTables.ClaimOne` | `primeqa/browser_worker/queue.py:80-109` | Takes the oldest job that is pending or to be retried, stamps its lease and charges one attempt, or reports that there is none. |
| `JobQueue.InspectionTables.Heartbeat` | `primeqa/browser_worker/queue.py:112-120` | Touches the heartbeat of a job in progress and nothing else. |
| `JobQueue.InspectionTables.FinalizeSurface` | `primeqa/browser_worker/queue.py:129-173` | Upserts the row of one surface with the custody state reached, and refuses REFERENCED. |
| `JobQueue.InspectionTables.MarkEvidenceReferenced` | `primeqa/browser_worker/queue.py:176-186` | Moves an UPLOADED row to REFERENCED whoever wrote it; refused exactly when the row records no keys. |
| `JobQueue.InspectionTables.SetEvidenceIncomplete` | `primeqa/browser_worker/queue.py:189-199` | Marks an existing row incomplete with the stage reached. |
| `JobQueue.InspectionTables.ReapStalled` | `primeqa/browser_worker/queue.py:202-223` | A job in progress whose last beat is at most 120 seconds old is left alone; one whose beat is older goes back to pending, or is parked once five attempts are used up; the number of changed rows is returned. |
| `JobQueue.InspectionTables.MarkFinished` | `primeqa/browser_worker/queue.py:226-251` | Stores the status its own attempt number calls for, whatever the job's current claim; refused exactly on a pending job. |
| `ProtocolTheorems.ManifestsAndUploadsLast` | `primeqa/browser_worker/manifest.py:26-84` | In every run a stored manifest, the payload of a job built from it, and an object a worker uploaded stay as they are from then on, whatever workers, reaps and other tenants do. |
| `ProtocolTheorems.UploadsStayInTenant` | `primeqa/browser_worker/evidence.py:142-162` | In every run every object a worker put has a key of the tenant without two dots in a row, whatever surface keys the manifests hold. |
| `ManifestStore.Manifests.EnqueueForManifest` | `primeqa/browser_worker/manifest.py:49-84` | Creates a pending job whose payload is the manifest's, or names the refusal and creates nothing. |
| `JobConsumer.Consumer.Others` | `primeqa/browser_worker/queue.py:28-251` | Before each statement of the consumer any steps of other workers, claims, the reaper and other tenants may take effect on the tables, the bucket and the clock. |
| `JobConsumer.Consumer.Upload` | `primeqa/browser_worker/consume.py:90-104` | Whatever others do before each of its two PUTs, the sink's upload is a run of the protocol's PUT moves, one that raises after storing included, and ends with a record or with the stage CAPTURED. |
| `JobConsumer.Consumer.FinalizeSurface` | `primeqa/browser_worker/consume.py:139-152` | The result write records exactly the custody the upload reached. |
| `JobConsumer.Consumer.VerifyAndReference` | `primeqa/browser_worker/consume.py:106-118` | Returns REFERENCED exactly when verification accepted both objects, and applies the mark to whatever row is there by then, another attempt's included. |
| `JobConsumer.Consumer.RunSurfaces` | `primeqa/browser_worker/consume.py:121-160` | Amid the steps of all other actors the surface loop is a run of the worker's program, and stops early only between surfaces or when the session is lost. |
| `JobConsumer.Consumer.Report` | `primeqa/browser_worker/consume.py:181-218` | Stores the status of its own ending on whatever the job is by then; refused exactly when the job is pending by then. |
| `JobConsumer.Consumer.OpenSession` | `primeqa/browser_worker/consume.py:241-275` | Credentials, heartbeat and one login, each as the protocol's move, with the LoginError's code as the ending. |
| `JobConsumer.Consumer.ConsumeJob` | `primeqa/browser_worker/consume.py:163-218` | From any reachable state and amid the steps of all other actors, the whole consumer is a run of the protocol machine from its claim to its report, or leaves the lease to the reaper; an accepted report of a portal not reached or a session lost makes the job claimable again below the fifth attempt, and every other coded fault is final. |
| `Reports.ReportsStore` | `primeqa/browser_worker/session.py:40-74` | In every run a finishing step is refused exactly when the job is back to pending, and else stores success, or, for a fault, a retry exactly when the code is PAGE_NOT_REACHED or SESSION_LOST and the attempt is below the fifth. |
| `Leases.HeartbeatIsLastBeat` | `primeqa/browser_worker/queue.py:80-120` | In every run the heartbeat of a job in progress is the time of its last claim or beat. |
| `Leases.ClaimEndsExactly` | `primeqa/browser_worker/queue.py:202-251` | In every run, late writers included, a claim in progress ends exactly at a report on the job or at a reap more than 120 seconds after the job's last claim or beat. |
| `Leases.ClaimLasts` | `primeqa/browser_worker/queue.py:112-120` | A claim beaten for at least every 120 seconds before each reap stays in progress until somebody reports on the job. |
| `Leases.BeatingInTimeIsTimely` | `primeqa/browser_worker/queue.py:112-120` | A run in which no reap comes more than 120 seconds after the last beat for a job some worker still runs has no late writer, so that all that is proved of such runs holds of it. |
| `Evidence.BuildKeyInjective` | `primeqa/browser_worker/evidence.py:110-121` | Equal object keys have equal manifest, job, surface, attempt and artifact, even when surface keys contain slashes. |
| `Evidence.BuildKeyStaysInTenant` | `primeqa/browser_worker/evidence.py:87-121` | Every built key's first segment is the tenant. |
| `Evidence.FirstSegmentIsPrefix` | `primeqa/browser_worker/evidence.py:87-107` | A key whose first segment is the tenant is listed under the tenant prefix. |
| `Evidence.TenantScopedExactly` | `primeqa/browser_worker/evidence.py:87-107` | The guard lets a key through exactly when, leading slashes apart, its first segment is the tenant, which is not empty, and no two dots follow each other in it. |
| `Evidence.BuildKeyText` | `primeqa/browser_worker/evidence.py:110-121` | A key is tenant, manifest, job, surface, attempt and file name with slashes between them. |
| `Evidence.HonestVerification` | `primeqa/browser_worker/evidence.py:165-193` | Against a store that answers honestly about its objects, a stored record is accepted. |
| `Evidence.VerifyEvidence` | `primeqa/browser_worker/evidence.py:165-193` | Accepts exactly when both HEAD answers exist and agree on size, digest and, for an etag of 32 hex digits, MD5 in either case; reports for each artifact which of the three differed. |
| `Evidence.Bucket.PutEvidence` | `primeqa/browser_worker/evidence.py:142-162` | Refuses keys outside the tenant, puts both artifacts in order, and records exactly what it stored; when a PUT raises, before or after storing, there is no record and what was stored stays. |
| `Evidence.Bucket.SweepOrphans` | `primeqa/browser_worker/evidence.py:233-243` | Lists by string prefix, the tenant by default, refuses a prefix outside the tenant, and reports exactly the listed keys no row records. |
| `Evidence.CollectReferenced` | `primeqa/browser_worker/evidence.py:220-230` | The keys recorded by any row. |
| `PortalSession.LoginFormExactlyOne` | `primeqa/browser_worker/session.py:155-184` | A login form is recognised exactly when one password field, one text or email field named like a user and one button labelled like a login can be told apart, and the indices are theirs. |
| `PortalSession.CodeFormExactlyOne` | `primeqa/browser_worker/session.py:155-184` | A code form is recognised when there is no password field, and one code field and one verify button can be told apart, and the indices are theirs. |
| `PortalSession.RecognisedFormsAreUnambiguous` | `primeqa/browser_worker/session.py:155-184` | A recognised login or code form has exactly one candidate for each role. |
| `PortalSession.RetryableLoginSubmittedNothing` | `primeqa/browser_worker/session.py:57-74` | A login that raised a retryable error had submitted no password. |
| `PortalSession.LoginPage.NavigateWithRetry` | `primeqa/browser_worker/spike.py:123-138` | At most three navigations, stopping at the first success or when time is up. |
| `PortalSession.LoginPage.StableClassify` | `primeqa/browser_worker/session.py:191-208` | Looks at most six times; the answer is what the last look showed, no form was recognised before it, and unknown is concluded only after six looks or when time is up. |
| `PortalSession.LoginPage.SubmitPassword` | `primeqa/browser_worker/session.py:276-310` | Performs a front part of fill user, fill password, click, and no more than one password submit. |
| `PortalSession.LoginPage.SubmitCode` | `primeqa/browser_worker/session.py:311-362` | After the password at most one code is submitted, and each refusal has its code. |
| `PortalSession.LoginPage.Login` | `primeqa/browser_worker/session.py:247-373` | Whatever the page does, at most one password and then at most one code is submitted, in that order, and success is reported only off the login route. |
| `EnrichmentBooks.StatementsFollowTheLedger` | `primeqa/worker.py:213-298` | Each statement on the enrichment queue is a step of the claim ledger with the uncapped reaper; a mark breaks the CHECK exactly on a pending row. |
| `EnrichmentBooks.BatchOrderIsIrrelevant` | `primeqa/worker.py:453-518` | Queue, embeddings, tallies and marks do not depend on the order in which a batch's rows are handled. |
| `EnrichmentBooks.RowsAreConserved` | `primeqa/worker.py:116-131` | Every handled row is marked exactly once, and the per-org tallies plus the rows without an org add up to the rows, whatever the outcomes. |
| `EnrichmentBooks.TalliesCountEndings` | `primeqa/worker.py:116-131` | However a batch is handled, each org's three counters grow by the numbers of its rows that the queue then holds as succeeded, as to be retried and as failed, and no other org is tallied. |
| `EnrichmentBooks.StatusesAfter` | `primeqa/worker.py:271-298` | Each row ends with the status its own outcome and attempt number call for, and rows outside the batch are untouched. |
| `EnrichmentBatch.GroupsPartition` | `primeqa/worker.py:433-471` | Rows without text and the groups by key together hold every claimed row once. |
| `EnrichmentBatch.BatchedLikeAlone` | `primeqa/worker.py:472-518` | For a provider that maps texts pointwise, a row's fate in its group is its fate in a batch of its own: done without text, failed for good without a key, else as the service under its key answers its own text. |
| `EnrichmentBatch.KeyOfExactly` | `primeqa/worker.py:764-798` | A row has a key exactly when its org has a proper name and an environment whose connection yields text that is not blank, and the key is that text trimmed. |
| `EnrichmentBatch.RowsEndAsFated` | `primeqa/worker.py:404-518` | Over a whole batch with such a provider, every claimed row ends with the status its own fate calls for, retried below the fifth attempt only. |
| `EnrichmentBatch.BatchingChangesNothing` | `primeqa/worker.py:404-518` | For such a provider the key-grouped batch leaves the same state as handling the claimed rows one at a time. |
| `EnrichmentWorker.TickResult.Credit` | `primeqa/worker.py:116-131` | Adds one to the counter of the org that the status names; other orgs are untouched, and a row without an org is dropped. |
| `EnrichmentWorker.EnrichmentTables.ReapStalled` | `primeqa/worker.py:213-224` | Returns every row in progress for more than ten minutes to pending, whatever its attempts. |
| `EnrichmentWorker.EnrichmentTables.ClaimBatch` | `primeqa/worker.py:227-268` | Claims up to the limit of distinct claimable rows, none passed over for a younger one, fewer only when none is left. |
| `EnrichmentWorker.EnrichmentTables.MarkFailed` | `primeqa/worker.py:279-298` | Stores and returns the failure class of the attempt. |
| `EnrichmentWorker.ResolveOrgKeys` | `primeqa/worker.py:764-798` | Gives every named org its environment's trimmed key or none, calling the resolver exactly once for each environment of those orgs and for no other. |
| `EnrichmentWorker.EnrichmentTables.GroupRows` | `primeqa/worker.py:466-471` | Groups rows by key, keys in order of first appearance, each group in claim order. |
| `EnrichmentWorker.EnrichmentTables.EmbedGroup` | `primeqa/worker.py:473-494` | One call per group: no key fails it permanently, a provider error as that error says, a count mismatch retryably, else each row gets the vector at its place. |
| `EnrichmentWorker.EnrichmentTables.EmbeddingSubtick` | `primeqa/worker.py:404-518` | Claims up to 128 rows that are pending, to be retried or in progress for more than ten minutes, fewer only when none is left, and handles them like some reordering one by one with the fates the groups decide; each row is marked once, the tallies plus rows without an org equal `claimed`, and each org's counters are the numbers of its rows by the status the queue ends with. |
| `Sorting.SortIsCanonical` | `primeqa/browser_worker/spike.py:306-307` | Sorting by a total order gives two sequences the same result exactly when they hold the same elements. |
| `Trees.IsoByKeys` | `primeqa/browser_worker/spike.py:303-310` | If a key tells children apart exactly up to order, two trees are equal up to order exactly when labels and bags of child keys agree. |
| `Fingerprint.ReorderingIsInvisible` | `primeqa/browser_worker/spike.py:303-310` | Trees equal up to reordering siblings at every level have equal hashes, whatever the digest. |
| `Fingerprint.EqualHashesExactly` | `primeqa/browser_worker/spike.py:303-310` | For a hex digest without a collision on the strings hashed, hashes agree exactly when the printed labels form the same unordered tree, for any labels. |
| `Fingerprint.FingerprintDecides` | `primeqa/browser_worker/spike.py:303-310` | When no role or tag contains a bar, hashes agree exactly when the trees are equal up to reordering siblings. |
| `Fingerprint.BarsAreAmbiguous` | `primeqa/browser_worker/spike.py:308-309` | With a bar in a role two different pages have equal hashes under every digest. |
| `Fingerprint.HypothesesAreConsistent` | `primeqa/browser_worker/spike.py:310` | Some digest satisfies the hypotheses of the fingerprint theorems. |
| `PageSummary.FingerprintFromTree` | `primeqa/browser_worker/spike.py:313-335` | The stack loop's count, role counts and first fifty named elements in alphabetical order are those of the recursive definitions, beside the recursive hash. |
| `PageSummary.OrderKeepsSummary` | `primeqa/browser_worker/spike.py:313-335` | Pages that differ only in sibling order have one summary. |
| `PageSummary.EqualHashesEqualSummaries` | `primeqa/browser_worker/spike.py:313-335` | For labels without bars and a hex digest without a collision on the strings hashed, equal fingerprints have equal summaries. |
| `QuietGate.StructQuiet` | `primeqa/browser_worker/spike.py:79-111` | The debounce loop answers true exactly when some stretch of quietMs, wherever it begins, in which no element comes or goes and no attribute that makes up a role or name changes, ends before timeoutMs, ties excluded. |
| `QuietGate.AnyGapIsATimersGap` | `primeqa/browser_worker/spike.py:84-107` | Such a stretch exists exactly when one begins where the timer was set. |
| `QuietGate.AnswerMeansGap` | `primeqa/browser_worker/spike.py:79-111` | The same for the gate started at any moment. |
| `QuietGate.ChurnIsIgnored` | `primeqa/browser_worker/spike.py:58-111` | Deleting all non-structural mutations never changes the answer, ties or not. |
| `CompareJobs.SideDrifts` | `primeqa/browser_worker/compare.py:82-91` | Reports drift exactly when a clean surface of the side was scanned by an engine other than the pinned one. |
| `CompareJobs.BrowsersDrift` | `primeqa/browser_worker/compare.py:92-97` | Reports drift exactly when a surface clean on both sides was scanned by different browsers. |
| `CompareJobs.Compare` | `primeqa/browser_worker/compare.py:71-124` | Refuses different manifests and drifted tools, else labels exactly the manifest's surfaces: SAME when both sides are clean with one fingerprint, the three counts agree and every rule is listed by neither side or ends with the same number of nodes on both, DIFFERS when both are clean with one fingerprint and that fails. |
| `CompareJobs.OutcomeInWords` | `primeqa/browser_worker/compare.py:33-124` | The same of the specification all laws of the labels are about: the refusals and the labels follow from the stored observations alone. |
| `CompareJobs.Symmetric` | `primeqa/browser_worker/compare.py:71-124` | The verdict and every label are the same with the jobs swapped. |
| `CompareJobs.SameIsTransitive` | `primeqa/browser_worker/compare.py:71-124` | SAME carries over exactly when the third comparison is not refused. |
| `CompareJobs.WhenTheThirdIsRefused` | `primeqa/browser_worker/compare.py:92-101` | The third comparison is refused exactly when different browsers scanned a surface that the middle job does not cover cleanly. |
| `CompareJobs.RefusedThird` | `primeqa/browser_worker/compare.py:92-101` | Three jobs whose first two comparisons are not refused and whose third is. |
| `CompareJobs.AllSameIsTransitive` | `primeqa/browser_worker/compare.py:71-124` | For jobs that recorded only manifest surfaces, comparable and SAME throughout is transitive, and the third comparison is never refused. |
| `FlowCanon.LocalNameDropsNamespace` | `scripts/verify_flow_fixture.py:285` | The tag compared is what follows the namespace. |
| `FlowCanon.TreesAreOrdered` | `scripts/verify_flow_fixture.py:287-290` | Tuple comparison is a total order on canonical forms, so sorting them is well defined. |
| `FlowCanon.CanonDecides` | `scripts/verify_flow_fixture.py:284-291` | Canonical forms are equal exactly when the documents are equal as unordered trees of local names and trimmed texts, children that only say storeOutputAutomatically is false left out at every level. |
| `FlowCanon.SpelledOutDefault` | `scripts/verify_flow_fixture.py:277-291` | Spelling a default out anywhere among the children changes nothing. |
| `TemplateBranches.BranchesAreFlat` | `scripts/deadlinks_gate.py:169-175` | No branch of any target still holds a complete if. |
| `TemplateBranches.BranchesAreRenderings` | `scripts/deadlinks_gate.py:169-175` | For else-free ifs without nesting the branches are exactly the 2^k renderings, in order. |
| `RouteMatch.HitExactlyWhenFillable` | `scripts/deadlinks_gate.py:221-261` | For a rule whose path parameter, if any, is last, the segment test succeeds exactly when some slash-free filling of the wildcards is routed to the rule, by a router whose converters take the texts spelled out under `RouteMatch.Takes`. |
| `RouteMatch.ConverterExactly` | `scripts/deadlinks_gate.py:190-201` | One final newline aside, uuid takes exactly five groups of 8, 4, 4, 4 and 12 hexadecimal digits joined by hyphens, int an optional minus and digits, float that with an optional point and digits; string and any take exactly non-empty text without a slash. |
| `RouteMatch.RefusedText` | `scripts/deadlinks_gate.py:221-230` | A literal segment its parameter's converter does not take reaches no rule through that parameter. |
| `RouteMatch.SlashedText` | `scripts/deadlinks_gate.py:246-261` | Segments joined by slashes satisfy no fixed text and no converter with a pattern. |
| `RouteMatch.Hits` | `scripts/deadlinks_gate.py:246-261` | Returns exactly the rules some filling is routed to, in table order. |
| `RouteMatch.Match` | `scripts/deadlinks_gate.py:263-271` | Alive exactly when some rule with the method has such a filling; otherwise no route, or the methods that are allowed. |
| `TargetPaths.Normalise` | `scripts/deadlinks_gate.py:178-187` | The normal path has no slash inside a segment and no trailing slash but the root's. |
| `TargetPaths.RenderedPathFills` | `scripts/deadlinks_gate.py:178-187` | Every address a target can render asks for a filling of the target's normal path. |
| `TargetPaths.RenderedAddressFills` | `scripts/deadlinks_gate.py:178-187` | Every address the tokens render to asks for exactly one path, what stands before the query string and fragment without trailing slashes, and that is a filling of the target's normal path. |
| `DeadLinks.Resolver.constructor` | `scripts/deadlinks_gate.py:236-244` | The rules without HEAD and OPTIONS, and for each endpoint the parameter sets of its rules in table order. |
| `DeadLinks.Resolver.ResolveEndpoint` | `scripts/deadlinks_gate.py:275-283` | A url_for target is alive exactly when the endpoint exists and some rule's parameters are all given. |
| `DeadLinks.Resolver.ResolveBranch` | `scripts/deadlinks_gate.py:291-304` | One branch is alive, dead or unresolvable by its path, with one more segment tried for a script prefix. |
| `DeadLinks.Resolver.Resolve` | `scripts/deadlinks_gate.py:273-305` | Trimmed targets that are empty or begin with Jinja are unresolvable, those not below one slash are not judged; else the first branch that is not alive decides, below /static nothing is judged, and scripts' addresses that end in a slash may take one more segment. |
| `DeadLinks.DeadMeansUnserved` | `scripts/deadlinks_gate.py:273-305` | Dead: some rendering has no filling routed for the method, and no address that rendering can produce is served. |
| `DeadLinks.AliveMeansRouted` | `scripts/deadlinks_gate.py:273-305` | Alive exactly when every non-static rendering has something literal and a filling routed for the method. |
| `SectionForest.ChainUnique` | `primeqa/views.py:4728-4744` | A row hangs below one parent chain only, so circles of parents are on none. |
| `SectionForest.SectionList.constructor` | `primeqa/views.py:4730-4732` | Groups the rows by parent reference in query order. |
| `SectionForest.SectionList.Walk` | `primeqa/views.py:4735-4743` | Terminates for any parent references and appends exactly what hangs below a row. |
| `SectionForest.SectionList.Flatten` | `primeqa/views.py:4734-4744` | Produces the page of all rows. |
| `SectionForest.PageIsPreorder` | `primeqa/views.py:4720-4744` | The page lists exactly the rows whose parent chain ends at a top-level row, each once, in preorder with siblings in query order, with depth one less than the chain's length. |
| `AuthzWalk.Walk` | `primeqa/core/authz_gates.py:55-75` | Terminates on any heap; returns only functions reachable through followed cells and `__wrapped__`, each once, and all of them when at most 61 objects are reachable; it visits everything exactly in that case and 61 objects otherwise. |
| `AuthzWalk.TierInClosure` | `primeqa/core/authz_gates.py:78-87` | The first tier in the closure's cells, if any. |
| `AuthzWalk.GatesOf` | `primeqa/core/authz_gates.py:90-108` | Every gate and the tier reported belong to reachable functions; when at most 61 objects are reachable every gate is reported and no reachable ladder gate demands a higher tier. |
| `Crypto.ReadExactly` | `primeqa/core/crypto.py:67-85` | A stored string is read as p exactly when a configured key made it from p. |
| `Crypto.RefusedExactly` | `primeqa/core/crypto.py:43-85` | Without a primary key nothing is encrypted or opened; with one, what neither configured key opens is refused as an invalid token. |
| `Crypto.RoundTrip` | `primeqa/core/crypto.py:61-85` | What is encrypted is decrypted, also after its key has become the fallback. |
| `Crypto.LawsAreConsistent` | `primeqa/core/crypto.py:38-41` | Some cipher satisfies the laws assumed of Fernet. |
| `CredentialStore.EncryptConfig` | `primeqa/core/repository.py:414-420` | Seals exactly the sensitive values that are not empty and do not look like tokens; fails exactly when one needs sealing and no key is set. |
| `CredentialStore.DecryptConfig` | `primeqa/core/repository.py:376-391` | Opens every sensitive field, or fails as a whole exactly when one cannot be opened. |
| `CredentialStore.RewrapConfig` | `scripts/rotate_credential_encryption_key.py:72-86` | Moves exactly the fields the old key opens to the new key and tells whether there was one. |
| `CredentialStore.CredentialTables.UpdateConnection` | `primeqa/core/repository.py:333-347` | Replaces the given columns and no other; of a given config exactly the secrets of the kind the row had that are neither empty nor tokens already are encrypted; unknown or foreign rows and a missing key change nothing. |
| `CredentialStore.CredentialTables.GetConnectionDecrypted` | `primeqa/core/repository.py:371-398` | Returns the row with every sensitive field opened, or an error exactly when one cannot be: no token leaves as a secret. |
| `CredentialStore.CredentialTables.StoreCredentials` | `primeqa/core/repository.py:232-256` | Every credential given is stored as a token that reads back as given, now and while its key is the fallback; other environments are untouched, and without a key nothing is stored. |
| `CredentialStore.CredentialTables.GetCredentialsDecrypted` | `primeqa/core/repository.py:263-278` | Returns every credential opened, or none of them when one cannot be. |
| `CredentialStore.CredentialTables.RotateConnections` | `scripts/rotate_credential_encryption_key.py:69-92` | With nobody writing meanwhile, rewraps every connection and counts exactly those that held a value under the old key. |
| `CredentialStore.CredentialTables.RotateEnvironmentCredentials` | `scripts/rotate_credential_encryption_key.py:95-114` | The same for the four fields of every environment credential. |
| `KeyRotation.StepShows` | `primeqa/core/crypto.py:61-85` | Writes of new text, writes that hand tokens back, reads of the sweep and its commits all leave every stored value readable as some known text. |
| `KeyRotation.TouchedRows` | `scripts/rotate_credential_encryption_key.py:75-88` | The sweep's test of whether it has a row to write holds exactly when some sensitive field opens under the old key. |
| `KeyRotation.CommitReadsExactly` | `scripts/rotate_credential_encryption_key.py:69-114` | A commit of what the sweep read earlier leaves a row reading as last written exactly when it re-encrypted nothing, or the text of what it overwrites (a connection's config, a credential's re-encrypted columns) is unchanged since the read. |
| `KeyRotation.ReadsThroughoutExactly` | `scripts/rotate_credential_encryption_key.py:69-127` | In any interleaving of writes with a sweep that reads before it commits, every field reads as last written all along exactly when every commit meets that test. |
| `KeyRotation.RowReadsExactly` | `scripts/rotate_credential_encryption_key.py:69-127` | At any moment of any run a row reads as last written exactly when the text its last effective step left is the text written last. |
| `KeyRotation.AtomicRotation` | `scripts/rotate_credential_encryption_key.py:63-114` | A row committed as it is read keeps its text and needs the old key no more. |
| `KeyRotation.DropReadsExactly` | `primeqa/core/crypto.py:51-58` | Without the old key a row reads as given exactly when it does with both keys and no field of it needs the old one. |
| `KeyRotation.LastStepDecides` | `scripts/rotate_credential_encryption_key.py:63-114` | Whether a row still needs the old key is decided by the last effective step on it. |
| `KeyRotation.DropIsSafeExactly` | `scripts/rotate_credential_encryption_key.py:63-127` | After any run the old key can be dropped without losing a field exactly when every field reads as last written and every row was renewed by its last effective step. |
| `KeySweep.ReadsAtTheEndExactly` | `scripts/rotate_credential_encryption_key.py:69-127` | At the end of any run every row reads as last written exactly when the commits after each row's last write were harmless. |
| `KeySweep.SweptKeyDropsExactly` | `scripts/rotate_credential_encryption_key.py:63-127` | When every row was committed from a snapshot taken since its last write, or rewritten, and no old token came back later, the old key can be dropped exactly when the commits after each row's last write were harmless. |
| `KeyRotationLimits.LosingRun` | `scripts/rotate_credential_encryption_key.py:69-92` | A run in which a secret written between the sweep's read and its commit is lost. |
| `KeyRotationLimits.UntouchedRun` | `scripts/rotate_credential_encryption_key.py:86-88` | The same run on a row already under the new key, which loses nothing. |
| `KeyRotationLimits.CarriedTokenRun` | `primeqa/views.py:1630-1650` | A run in which a request that read the row before the sweep committed hands the old token back: it reads until the old key is dropped and is lost then. |
| `KeyRotationLimits.LookalikeIsLost` | `primeqa/core/repository.py:417-419` | New text survives a write exactly when it does not begin with the token prefix. |
| `KeyRotationLimits.KindAloneReadsExactly` | `primeqa/core/repository.py:333-347` | An update of the kind alone keeps a connection readable exactly when the two kinds agree on which of its fields are sensitive. |
| `KeyRotationLimits.KindChangeReadsExactly` | `primeqa/core/repository.py:337-342` | An update of kind and config together seals the old kind's fields, and keeps the config readable exactly when the two kinds agree on which of its fields are sensitive. |
| `KeyRotationLimits.KindChangeLosesAKey` | `primeqa/core/repository.py:337-342` | A Jira connection made an LLM one with its key in the same update: the key is stored in the clear and cannot be read. |

## Left out

- SQL text, sessions, search paths, Playwright, boto3, the Voyage call, Flask and signals: each is an atomic step or an arbitrary function. `FOR UPDATE SKIP LOCKED` is taken as an atomic oldest-first claim.
- Assumptions on the deployment: surface keys are unique within a manifest, enqueue times are distinct and increasing, manifest and job ids contain no slash, a tenant's name contains none, and the store never deletes.
- Error texts, audit events, prints, stabilisation arguments and error details inside scans: recorded by the code, decided on by nothing modelled.
- PortalSession.LoginPage.Login: regular expressions on labels are predicate parameters, and the waits before an action are one settle step; the event list of a failed login is not kept.
- Evidence.Bucket.SweepOrphans: the report is a set, where the code sorts a list; it lists by raw string prefix as the code does, and the theorem about sweeps restricts itself to keys whose first segment is the tenant.
- `worker.py`'s summary subtick, which settles its rows one at a time with the same claim, mark and credit statements, is not modelled. Usage telemetry and the readiness counters are not modelled; no conservation of run counters is claimed.
- EnrichmentWorker.EnrichmentTables.EmbeddingSubtick: a row that another worker reaps during the tick makes a mark break the timing CHECK and the whole tick roll back; the model shows a tick that nobody interferes with. `queue` holds the embedding rows of one tenant.
- EnrichmentWorker.ResolveOrgKeys: orgs are resolved in an arbitrary order, where the code sorts them; the answers do not depend on it.
- Fingerprint.FingerprintDecides: the page walk in the browser that builds the tree, and UTF-8 encoding before hashing, are not modelled.
- QuietGate.StructQuiet: a mutation at the very moment a timer is due may go either way in a browser; the meaning of the answer is stated without such ties.
- CompareJobs.Compare: the details attached to a label or refusal are not modelled, only labels and reasons.
- RouteMatch.Hits: `_rule_segments` reads a rule's text with a pattern; the model starts from its segments. Digits are ASCII digits. Rules with a path parameter before the end are outside the equivalence.
- TargetPaths.Normalise: a target that contains the literal text of the wildcard marker is not distinguished from a wildcard by the code; the model keeps them apart. Joining a value to its neighbours never forms a new template tag in the model.
- TemplateBranches.BranchesAreRenderings: nested ifs and else branches are treated approximately by the pattern; for them only `BranchesAreFlat` and termination are stated.
- Collecting targets from files, and the sweep over them: a loop over `Resolver.Resolve`.
- SectionForest.SectionList.Walk: Python's recursion limit is not modelled.
- AuthzWalk.GatesOf: gates are a set, where the code sorts their names; computing the gate code objects is not modelled.
- CredentialStore.CredentialTables.UpdateConnection: config values are strings, with the empty string for every falsy value; timestamps and other columns are not modelled.
- KeyRotation.ReadsThroughoutExactly: the rows of a sweep are read and committed one by one in any order, which includes the script's own order of reading all rows before it commits any; rows deleted or given another kind during a sweep are not modelled.
- `scripts/control_coverage_report.py`, authorization tiers, navigation, conversations and the rest of `views.py` are not modelled.
