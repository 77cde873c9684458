# Verified model of codex-control-plane

The repository is a governance control plane: a relational store and a handful of services that
change it, most of them small state machines whose steps are database commits. This project models
those machines in Dafny and proves what they are for.

How the model is organised:

- **Audit log.** `EventHash` and `CanonicalJson` give the hashed text of an event and show that it
  loses nothing. `AuditLog` is the append-only table as a class, with the fifty-attempt `record` loop
  and the two verification loops. `AuditRace` interleaves any number of writers, commit by commit.
  `AuditTamper` compares verified logs, `AuditEdit` says what verification of the table reports after
  an edit, a deletion or an insertion, the re-sorting by seq included, and `AuditRows` what both checks
  read and report over the rows of the table.
- **Governed send.** `PolicyText` holds the two text classifiers. `SendModel` is the state machine of
  chat job, approval, send job, single worker, provider and operator retry; the worker advances one
  commit at a time and may die between any two. `SendSafety` proves what every run keeps, `SendScope`
  tenant separation and the edge of the fault model, `SendEdge` when the three tables disagree,
  `SendDrain` the polling loop, `SendGate` the text gate from message to send job. `SendCalls` gives the
  whole state that each call and each handled job leaves, and when it is refused. `SendService` is the
  same services as a class whose methods assign fields, each proved against the state machine.
- **Evidence.** `EvidenceGraph` and `EvidencePacket` assemble one action's graph and a packet over
  many; `EvidenceRows` and `PacketRows` say what graph and packet report in terms of the store's rows.
  `TrustScore` scores a packet, `ScorePoints` counts what each dimension earns, `ScoreLaws` relates
  scores of different stores, `ScoreStore` keeps them. `JsonText` prints and parses a packet;
  `PacketStore`, `PacketCalls`, `PacketVerdict` and `PacketService` version, sign, revoke and verify it.
- **Verification lifecycle.** `VerificationModel`, `VerificationSafety`, `VerificationRuns`,
  `VerificationScope`, the outcome of every call in `VerificationCalls`, and the class in
  `VerificationService`.
- **Policy versions and the gate.** `PolicyRegistry`, `PolicyRuns`, `PolicyCalls`, `PolicyService`;
  `Governance`, `GovernanceRuns`, `GovernanceLaws`, `GovernanceService`.
- `Prelude` holds options, results and the list operations behind the queries, and what a query
  returns stated without them (`Selects`, `Sorted`).

Modelling decisions that matter when reading a statement:

- SHA-256, Ed25519, `str.strip`, `str.lower` and `datetime.isoformat` are function parameters. No
  statement assumes a hash without collisions: where one is needed it is a hypothesis about the rows
  at hand (`CollisionFree`, `NoCollision`, `NoForgery`). `Sound` asks of the signature pair only
  that what was signed verifies, that digests and signatures are not empty, and that a digest, being
  hexadecimal, has no colon.
- An edited or inserted audit row has a seq the unique column accepts (`SeqIsFree`, `SeqTaken`,
  `db/models.py:185`); a row without a seq sorts first, as SQLite sorts NULL.
- A service call that commits once is one step. The send handler and the review submission are split
  at each commit, and a submission may die after any of them. A dead worker is a step; an exception
  after the provider accepted a message and before its id is committed is outside the fault model of
  `SendSafety`
  (`workers/runner.py:24-28` turns it into a retryable failure), and `LateExceptionSendsTwice` shows
  why it has to be.
- Generated keys are parameters of the step that inserts the row; a key that is already taken is
  refused, as the primary key does.
- Python `round` is half-even rounding of an exact fraction.

Properties that turned out false of the code, with their exact conditions:

- A succeeded send job does not always have a sent delivery row. If the worker dies between the
  draft merge and the delivery insert, the row is never written, and the approval can still be granted
  and sent. Whatever happens later, a succeeded send leaves the three tables in agreement if and only
  if the delivery row was there when the chat job was over (`SendEdge.ThreeTablesAgreeIff`,
  `SendEdge.DeadWorkerLosesDelivery`).
- Seeding the default policy at start-up does not supersede another active system version. It keeps
  one active version per key if and only if no system default other than v1 is active
  (`PolicyRuns.SeedKeepsInvIff`, `PolicyRuns.RestartUndoesActivation`).
- The two displayed statuses of a review agree if and only if its submission got as far as linking the
  approval it needs and no override was recorded on it (`GovernanceLaws.StatusesAgreeIff`). A gated
  submission that dies before that link, its eighth commit, disagrees for good
  (`GovernanceLaws.HalfSubmittedDisagrees`).

## Model

| member | source | states |
|---|---|---|
| EventHash.PayloadCommits | services/audit_service.py:63-102 | two events have the same canonical payload text if and only if they agree on position, previous hash and every hashed field, timestamps compared as canonical UTC |
| EventHash.HashCommitsToInstant | services/audit_service.py:49-60 | an event read back with another timestamp has the same payload if and only if the timestamp stands for the same UTC instant, whatever happened to its offset |
| CanonicalJson.ObjectInjective | services/audit_service.py:102 | the compact sorted JSON text of an object, escapes and surrogate pairs included, determines its members |
| AuditLog.AuditStore.Record | services/audit_service.py:138-207 | the retry loop succeeds in the first attempt with no foreign commit and no lock, fails exactly when all fifty attempts are disturbed, and adds its own row, with the time of that attempt, once or not at all, keeping the chain |
| AuditLog.AuditStore.Attempt | services/audit_service.py:167-203 | an attempt commits exactly when nobody else committed since the head was read and the database was not locked |
| AuditLog.AuditStore.VerifyChain | services/audit_service.py:223-264 | the loop with its expected previous hash returns the verdict at the first row whose link or hash fails |
| AuditLog.AuditStore.VerifyTenantEvents | services/audit_service.py:298-332 | the loop over one tenant's hashed rows returns the verdict at the first row that does not recompute |
| AuditLog.VerdictMeaning | services/audit_service.py:235-264 | a verification fails exactly when some row does not check, counts the rows before the first such row and names its seq and whether link or hash broke |
| AuditRows.RowChecksMeans | services/audit_service.py:235-264 | a row checks exactly if it repeats the hash of the row before it, 64 zeros for the first, and carries the hash of its own core |
| AuditRows.TenantVerdictOverRows | services/audit_service.py:298-332 | over the whole table, a tenant's check is empty exactly without hashed rows of the tenant and fails exactly if one of those does not hash to itself |
| AuditRows.TenantVerdictMeaning | services/audit_service.py:298-332 | a failed tenant check counts the rows before the first mismatch and names its seq |
| AuditRows.TenantChainReads | services/audit_service.py:298-314 | it reads the tenant's hashed rows and no others, each once, ordered by seq |
| AuditRows.HeadIsGreatest | services/audit_service.py:127-135 | the head a new row builds on is a hashed row, and none has a greater seq |
| AuditLog.InvariantVerifies | services/audit_service.py:223-264 | every table the write path can leave passes the full check and every tenant's check |
| AuditRace.ChainNeverForks | services/audit_service.py:167-203 | for any number of writers interleaving head reads, commits, lock errors and retries, the table only grows and its hashed rows are numbered 1..n, linked from GENESIS and self-hashed |
| AuditRace.FailureIsPaidFor | services/audit_service.py:36-207 | a call that gives up is charged fifty times, each for a distinct commit of another writer during the call or for a lock error |
| AuditRace.SuccessIsOneRow | services/audit_service.py:167-203 | a call that returns appended exactly one row, its own, during the call |
| AuditTamper.HeadHashFixesLog | docs/AUDIT_INTEGRITY.md:91-99 | two verified logs ending in the same hash have the same length and the same payloads and hashes row by row |
| AuditTamper.HeadHashFixesFields | services/audit_service.py:63-124 | for the canonical payload that is agreement on every hashed field of every row |
| AuditEdit.EditVerdict | services/audit_service.py:223-264 | the exact report of verify_chain, which reads rows ordered by seq, on any edit of one hashed row of the table, seq included as far as the unique column lets it change |
| AuditEdit.EditIsReported | docs/AUDIT_INTEGRITY.md:91-99 | an edit of any fields with the stored hash left alone is always reported, after the rows in front of the nearer of the row's old and new place; as a broken link where the row links wrongly or left a gap, as a hash mismatch otherwise |
| AuditEdit.EditNoticedIff | docs/AUDIT_INTEGRITY.md:91-99 | an edit of a hashed row goes unnoticed if and only if the row keeps its place and link, hashes to itself, and keeps its hash or has no successor |
| AuditEdit.ForgeryIsReported | docs/AUDIT_INTEGRITY.md:91-99 | a row rewritten together with its hash is reported at its own link, at its successor, or at the gap its new seq leaves, and goes unnoticed exactly as the last row with its place and link kept |
| AuditEdit.ErasedHashIsReported | services/audit_service.py:231-235 | clearing a row's hash, which makes the check skip it, is reported at its successor like a deletion and goes unnoticed only for the last row |
| AuditEdit.InsertionVerdict | docs/AUDIT_INTEGRITY.md:91-99 | the exact report on any hashed row inserted under a free seq: unnoticed only at the end, linked and hashed like a recorded row, or as the first row of an empty log |
| AuditTamper.DeletionIsReported | services/audit_service.py:235-264 | of a verified list, after dropping any set of rows the check reports a broken link at the first survivor behind a dropped row, with as many verified rows as stand before it |
| AuditEdit.TableDeletionIsReported | services/audit_service.py:231-264 | the same for any DELETE on a table the write path left, read back in seq order |
| AuditEdit.TableDeletionNoticedIff | docs/AUDIT_INTEGRITY.md:91-99 | a DELETE of any rows of the table is noticed if and only if some hashed row behind a deleted one survives |
| AuditTamper.PrefixChecks | docs/AUDIT_INTEGRITY.md:96-99 | every prefix of a verified log verifies: truncation is the stated limit |
| PolicyText.OutboundIsGated | services/policy_service.py:76-90 | a message the email classifier calls outbound never ends completed, and one the policy calls outbound_send always goes through a drafted gate |
| PolicyText.DispositionInWords | services/policy_service.py:39-90 | a message is blocked exactly if it contains one of the five destructive phrases, needs approval exactly if it contains a publish or outbound phrase instead, and gets a gated draft exactly if it is outbound and not destructive |
| PolicyText.CategoryInWords | services/email_service.py:27-45 | category and intent of a message, each as an if and only if over the phrases |
| SendSafety.RunKeepsInv | workers/tasks.py:60-95 | the invariant over jobs, approvals, deliveries, worker and provider holds after every run of API calls, worker commits, failures, retries and deaths |
| SendSafety.RunIsReachable | workers/runner.py:38-64 | every run of the machine from the empty database within the fault model ends in a reachable state, the one the next rows speak of |
| SendSafety.AtMostOneSend | services/email_service.py:220-284 | in every reachable state the provider has accepted at most one message per approval |
| SendSafety.EverySendHasConsent | services/email_service.py:208-239 | every accepted message belongs to an approved job.gate approval with that draft, an existing source job, and a send job of its tenant bound to it by payload and unique key |
| SendSafety.EveryCallHasConsent | services/approval_service.py:18-42 | the same already holds in every state in which the provider is about to be called |
| SendSafety.SentDeliveryMatchesApproval | services/email_persistence.py:90-118 | a delivery marked sent carries the message id of its approval, which the provider issued |
| SendSafety.SucceededSendIsRecorded | workers/tasks.py:60-78 | a succeeded send job implies the message id on its approval and a sent delivery with it wherever a delivery row exists |
| SendSafety.DecisionMatchesStatus | services/approval_service.py:76-141 | in every reachable state a row has a decision exactly once it is decided, and the decision says the status; which call writes which is stated by the two rows after this one |
| SendCalls.RejectDecides | services/approval_service.py:111-141 | a rejection succeeds exactly on a pending approval of the caller's, makes that row rejected with this actor and reason, and changes no other row; refused, it changes nothing |
| SendCalls.ApproveDecides | services/approval_service.py:76-108 | an approval succeeds exactly on a pending row of the caller's without a draft or with a sound gate, makes that row approved with this actor and note, and changes no other row; refused, it changes nothing |
| SendCalls.RejectedNeverSends | services/approval_service.py:111-141 | from any reachable state, over every tolerated run after a rejection, the row stays rejected by that decision, no send job is keyed to it and the provider accepts no message for it |
| SendCalls.EnqueueCreates | services/approval_service.py:208-238 | an enqueue succeeds exactly for an approved, drafted approval with a sound gate, returns the job keyed to it, and creates it, pending and for the approval's tenant, only if there is none |
| SendCalls.RetryRequeues | services/job_service.py:101-142 | a retry succeeds exactly on the caller's own failed send job whose approval is not rejected and whose message is not recorded, and makes it pending without an error |
| SendCalls.ClaimTakesOldest | services/job_service.py:63-80 | a claim takes the first pending job due, in creation order, and sets only its status |
| SendCalls.AcceptedSendOutcome | services/email_service.py:220-284 | the whole state after a send the provider accepts: job succeeded, message id on approval and delivery, exactly one message sent, with the approved draft |
| SendCalls.RefusedSendOutcome | workers/tasks.py:60-95 | the whole state after a send the provider refuses: job and delivery failed with the error, nothing else changed |
| SendCalls.RecordedSendOutcome | services/email_service.py:229-247 | a send whose message id is recorded does not call the provider and brings job and delivery up to date |
| SendCalls.DraftedChatOutcome | services/email_service.py:120-163 | the whole state after an outbound message whose draft is created: one gate with the draft and its workflow, one delivery awaiting approval, the job succeeded |
| SendCalls.UndraftedChatOutcome | services/chat_orchestrate.py:73-98 | a message to publish, or one to send whose draft fails, leaves a gate without a draft; only the second fails the job |
| SendCalls.UngatedChatOutcome | services/chat_orchestrate.py:99-107 | a message with no phrase to gate opens nothing; the connector's error fails the job exactly if the message is about mail |
| SendCalls.InvalidChatOutcome | services/chat_orchestrate.py:20-33 | a chat job without session, message or a positive step count fails for the first of them and opens nothing |
| SendSafety.RunUndoesNothing | services/approval_service.py:172-192 | over any further run approved and rejected are final, message ids are never overwritten, drafts never go missing, a sent delivery never becomes failed and no send is forgotten |
| SendScope.StepStaysInTenant | services/approval_service.py:144-154 | every step leaves the jobs, approvals and deliveries of every tenant but the one it acts for as they were |
| SendScope.ApprovingDraftEnqueuesOne | app/api/approvals.py:54-79 | approving a pending gate with a draft always succeeds and enqueues exactly one send job, however often the enqueue is repeated |
| SendScope.DraftMakesGateSendable | services/email_service.py:130-163 | when draft creation for an outbound message succeeds the approval carries what approving needs to enqueue |
| SendScope.LateExceptionSendsTwice | workers/runner.py:20-35 | from every reachable state with an accepted but unrecorded message in which no older job is due, an exception and a retry make the provider send a second one |
| SendScope.NoJobIsDelayed | services/job_service.py:63-80 | no job of any reachable state waits for a run_after date |
| SendGate.OutboundChatEndsSendable | services/chat_orchestrate.py:50-107 | a claimed chat job whose message the policy routes to outbound_send, with its draft created, ends succeeded with one drafted gate; after any further run that left it undecided, approving it succeeds and enqueues exactly one send job |
| SendScope.LostDeliveryStaysLost | services/email_persistence.py:56-106 | a delivery row lost to a worker death is never written by any later step |
| SendEdge.ThreeTablesAgreeIff | services/email_service.py:241-266 | once the chat job of an approval is over, every later succeeded send of it leaves approval, delivery and job in agreement if and only if the delivery row existed at that earlier moment |
| SendEdge.DeadWorkerLosesDelivery | services/email_service.py:149-163 | a concrete reachable run in which the send job succeeds and no delivery row exists |
| SendDrain.FinishHandlesOneJob | workers/tasks.py:34-95 | carrying a claimed job on to the end leaves it succeeded or failed and every other job as it was |
| SendDrain.PollHandlesOldest | workers/runner.py:38-50 | a poll takes the oldest eligible pending job, ends it, changes no other job, and shortens the list of eligible jobs by exactly that one |
| SendService.ControlPlane.Drain | workers/runner.py:53-64 | polling until idle takes as many productive polls as there were eligible jobs, in creation order, and leaves each succeeded or failed |
| SendService.ControlPlane.PollOnce | workers/runner.py:38-50 | one poll is exactly the claim and the complete handling of the state machine |
| SendService.ControlPlane.RunSendApprovedJob | services/email_service.py:220-284 | the send handler, field by field, reaches the state the commit-by-commit machine reaches |
| SendService.ControlPlane.HandleChatOrchestrate | workers/tasks.py:42-57 | the chat handler reaches the state of the machine: failed on bad input, blocked, gated with a draft, or completed |
| SendService.ControlPlane.EnqueueEmailSendJob | services/approval_service.py:208-238 | an existing send job is returned instead of a second one, an ineligible approval is refused with its reason |
| SendService.ControlPlane.ApproveRequest | services/approval_service.py:76-108 | the approve call refuses, in the source's order, what is missing, foreign or already decided, and otherwise records status and decision together |
| SendService.ControlPlane.RetryJob | services/job_service.py:101-142 | a retry is refused for jobs that did not fail and for send jobs whose message id is recorded |
| SendService.ControlPlane.ClaimNextPending | services/job_service.py:63-80 | the claim loop marks the oldest due pending job running |
| EvidenceGraph.GraphSeesOnlyOwn | services/evidence_graph.py:215-285 | a tenant's graph of any action is the graph computed from that tenant's rows and the catalog alone, whatever ids its rows point at |
| EvidenceGraph.ListSeesOnlyOwn | services/evidence_graph.py:182-199 | a tenant's list of actions depends on its own rows only |
| EvidenceGraph.WriteLeavesOthersAlone | services/evidence_graph.py:56-145 | creating a system, data source, workflow, action, risk assessment, approval, mapping, artifact or audit event, or recording an override, for one tenant leaves everything another tenant can see as it was |
| EvidenceGraph.ControlMappings | services/evidence_graph.py:252-264 | the loop over mapping rows returns the graph's mapped controls; which rows those are is `EvidenceRows.GraphMappings` |
| EvidenceRows.GraphMappings | services/evidence_graph.py:252-264 | the mapped controls are those of the mapping rows in scope that name the action, each once, resolved in the catalog to control, framework and regulation |
| EvidenceRows.GraphArtifacts | services/evidence_graph.py:202-210 | the artifacts are the rows in scope that name the action, each once, newest first |
| EvidenceRows.GraphOverrides | services/evidence_graph.py:268-271 | the overrides are the rows in scope that name the action, each once |
| EvidenceRows.GraphEvents | services/evidence_graph.py:240-250 | the audit events are the rows in scope about the action itself, its approval or one of its two jobs, each once |
| EvidenceRows.GraphEventsInOrder | services/evidence_graph.py:247-250 | ... ordered by seq |
| EvidenceRows.GraphLinks | services/evidence_graph.py:225-235 | approval, jobs, workflow and AI system are the rows in scope that the columns name, and are missing exactly if there is none |
| EvidenceRows.GraphIsOfAction | services/evidence_graph.py:221-223 | there is a graph exactly for an action of that id in scope, and it is that action's |
| EvidenceRows.ListMeans | services/evidence_graph.py:182-199 | the listing has exactly the actions in scope of the workflow and in the time range, each once, newest first |
| EvidenceRows.ArtifactIsRead | services/evidence_graph.py:133-145 | a recorded artifact joins the graph of the action it names and no other's, for all who may see it |
| EvidenceRows.OverrideOutcome | services/override_service.py:50-75 | an override of a visible action is accepted exactly at medium or high risk, stored with the risk it accepts or else the action's own, and marks that action and no other |
| EvidencePacket.Assemble | services/evidence_packet.py:75-226 | the loop over graphs with its accumulators builds the join of the graphs' contributions and adds the broken-chain gap exactly on a failed verification |
| EvidencePacket.AssemblyIsHomomorphic | services/evidence_packet.py:75-226 | assembling two lists of graphs gives the concatenation of their per-action lists and the union of their regulations and gaps |
| EvidencePacket.GapsMeanMissing | services/evidence_packet.py:98-205 | each missing_* gap is present exactly when some action lacks the item, and broken_audit_chain exactly when the verification failed |
| EvidencePacket.RegulationsMeanMapped | services/evidence_packet.py:152-170 | a regulation is listed exactly when some action is mapped to it |
| EvidencePacket.PacketsSeeOnlyOwn | services/evidence_packet.py:247-319 | two stores that agree on a tenant's rows and the catalog give it the same action, workflow and tenant packets |
| PacketRows.ActionPacketReports | services/evidence_packet.py:247-262 | an action packet is built exactly for an action in scope, holds its graph, and names a missing_* gap exactly if the store has no row in scope of that kind for the action |
| PacketRows.WorkflowPacketReports | services/evidence_packet.py:265-289 | a workflow packet is built exactly for a workflow in scope and reports on its actions, gaps over the rows included |
| PacketRows.TenantPacketReports | services/evidence_packet.py:292-319 | a tenant packet reports on the tenant's actions created in the range, gaps over the rows and its own audit check included |
| PacketRows.ContentColumns | services/evidence_packet.py:98-197 | each list of a packet holds, in order, exactly the columns named of exactly the rows of its graphs |
| TrustScore.ScorePacket | services/trust_score_service.py:208-222 | the scoring loop returns the sum of ten dimensions, its band and breakdown, and the clamp never acts |
| TrustScore.EarnedInRange | services/trust_score_service.py:64-184 | every dimension of every packet earns between 0 and its maximum |
| ScorePoints.PointsEarned | services/trust_score_service.py:64-153 | the points of seven dimensions in full and short of it: four lost per gap down to none, half outside production, four of seven with overrides and none on a failed chain |
| ScorePoints.SharesEarned | services/trust_score_service.py:76-166 | approvals and policy bindings earn the whole number nearest to their share of 12 and 7 points, the even one of two |
| ScorePoints.TraceEarned | services/trust_score_service.py:169-184 | three points for an event whose action ends in submitted, four for one that contains approv |
| ScorePoints.BandMeans | services/trust_score_service.py:28-41 | each band as an interval of scores |
| TrustScore.ScoreIs100Iff | services/trust_score_service.py:64-222 | the score is at most 100 and is 100 if and only if every dimension is full, which after half-even rounding means 24 times the approved at least 23 times all approvals and 14 times the bound more than 13 times all decisions |
| TrustScore.FullShare | services/trust_score_service.py:84-162 | a rounded share of m points is full exactly when it misses m by less than half a point, or by half a point where m is even |
| ScoreLaws.ActionScoreNeverDrops | services/trust_score_service.py:260-272 | mapping a control, linking a regulation, attaching an artifact, approving a pending approval together with the event that records it, or recording any event never lowers an action's score, in any scope and whatever state the audit log is in |
| AuditLog.AppendIsNoWorse | services/audit_service.py:223-264 | an event recorded on any table, tampered or not, leaves a failed full check failed and turns an empty or verified one verified |
| AuditLog.TenantAppendIsNoWorse | services/audit_service.py:298-332 | the same for every tenant's check |
| ScoreLaws.WorkflowScoreNeverDrops | services/trust_score_service.py:275-287 | the same for a workflow's score |
| ScoreLaws.TenantScoreNeverDrops | services/trust_score_service.py:290-298 | the same for a tenant's score over any time range |
| ScoreLaws.ScoresSeeOnlyOwn | services/trust_score_service.py:260-298 | a tenant's scores are the same in two stores that agree on its rows, at whatever time they are computed |
| ScoreStore.StoredIsLatest | services/trust_score_service.py:225-246 | a stored score is at once the latest of its scope and its version exceeds every earlier one |
| ScoreStore.LatestIsStored | services/trust_score_service.py:301-310 | get_latest returns a stored row of the scope with the greatest version, or nothing when there is none |
| ScoreStore.ScoreBook.Persist | services/trust_score_service.py:225-246 | storing a scored packet appends exactly the next version of its scope with that score |
| JsonText.LoadsDump | services/evidence_packet.py:324-325 | every JSON document printed with indent 2 parses back to itself, members in order |
| PacketStore.VersionsOverRuns | services/evidence_store.py:45-74 | over any mix of scoped and unscoped persists, signings and revocations, versions within one tenant and scope strictly increase and only the latest may be active |
| PacketStore.NewRowIsOnlyActive | services/evidence_store.py:52-74 | right after a persist the new row is the one active row of its key, after an unscoped one of its scope in any tenant |
| PacketCalls.PersistOutcome | services/evidence_store.py:52-74 | every row after a persist: refused on a taken key, else one new row with the export and hash of the packet, unsigned until it is signed, and earlier rows of the scope superseded |
| PacketCalls.NextVersionIs | services/evidence_store.py:48-54 | the version is 1 for the first packet of a scope and else one more than the greatest |
| PacketCalls.ScopeMeans | services/evidence_store.py:45-46 | a packet is stored under its packet_type, governed_action if it has none, and its scope_id |
| PacketCalls.MarkOutcome | services/evidence_signature_service.py:90-145 | signing and revoking set exactly their fields of the row, the expiry that many days later, and touch no other row |
| PacketStore.StepStaysInTenant | services/evidence_store.py:28-74 | persisting for one tenant and signing or revoking a row that is not another tenant's leaves that tenant's packets alone |
| PacketVerdict.VerdictAfterRun | services/evidence_signature_service.py:172-210 | a stored and signed packet verifies revoked once it was revoked, else expired once its last signature ran out, else valid, after any further run |
| PacketCalls.VerdictMeans | services/evidence_signature_service.py:172-210 | the verdict on any row at all: unsigned before tampered before revoked before expired, and valid only if it is none of them |
| PacketVerdict.RevokedStaysRevoked | services/evidence_signature_service.py:124-145 | a revoked row never verifies valid again over any run of re-signing and passing time |
| PacketVerdict.HashIgnoresClock | services/evidence_store.py:21-25 | the packet hash does not depend on the generation time, wherever it stands in the packet |
| PacketVerdict.PayloadInjective | services/evidence_signature_service.py:85-87 | whatever the ids contain, two rows have the same signed bytes if and only if they have the same id, version and digest |
| PacketVerdict.EditIsTampered | services/evidence_signature_service.py:148-198 | a row carrying another row's signature verifies as tampered if and only if it lost that row's id, version or hash, or its export no longer holds a packet with the signed canonical text, which leaves out generation time, spacing and key order |
| PacketService.PacketTable.PersistPacket | services/evidence_store.py:36-91 | the persist method inserts the next version, supersedes the earlier ones and signs, or refuses a taken key and changes nothing |
| PacketService.PacketTable.Insert | services/evidence_store.py:45-74 | the loops over existing rows compute the next version and supersede exactly the active rows of the scope |
| VerificationRuns.RunKeepsRow | services/verification_service.py:84-225 | in every reachable state a verification's audit events spell out its lifecycle, one per transition plus one, its score exactly exists once approved, meets the minimum and is a stored score of its subject, and its packet is still there |
| VerificationRuns.ApprovalWasEarned | services/verification_service.py:131-201 | every approved or revoked verification was, earlier in the run, first reviewed and then approved while its packet verified valid, with the score its subject had at the approval |
| VerificationRuns.StatusFollowsLifecycle | services/verification_service.py:84-225 | status moves only from requested to under_review or rejected, to approved, to revoked |
| VerificationRuns.RefusalChangesNothing | services/verification_service.py:164-201 | a refused call changes no verification and no audit event; all it may leave is the score row of an approval below the minimum |
| VerificationRuns.EvidenceIsNeverMissing | services/verification_service.py:120-128 | a stored verification always finds its packet again |
| VerificationRuns.OtherTenantsUntouched | services/verification_service.py:56-64 | a caller of one tenant gets verification_not_found for another tenant's verification and leaves it as it was |
| VerificationScope.CallSeesOnlyOwn | services/verification_service.py:56-201 | in two worlds that look alike to a tenant, each of its calls returns the same and leaves it the same verifications and scores |
| VerificationSafety.StepMoves | services/verification_service.py:84-225 | a stored verification changes only by one of its own guarded moves, each audited exactly once |
| VerificationService.Desk.ApproveVerification | services/verification_service.py:164-201 | the method raises the source's errors in order, stores the score before the threshold and assigns the decision fields |
| VerificationService.Desk.ReviewVerification | services/verification_service.py:131-161 | the method moves to under_review on valid evidence and to rejected with the evidence status otherwise |
| VerificationService.Desk.RequestVerification | services/verification_service.py:67-117 | the method opens a verification or refuses as the step does; that the packet is the newest signed one is `VerificationCalls.RequestOutcome` |
| VerificationCalls.LatestIsNewest | services/verification_service.py:67-81 | the packet found is signed, for the subject and in scope, and no other such packet has a greater version; none is found exactly if there is none |
| VerificationCalls.RequestOutcome | services/verification_service.py:84-117 | a request is refused for a subject out of sight, without signed evidence or for a taken key, in this order; else it opens exactly one verification, on the newest signed packet |
| VerificationCalls.RestsOnNewest | services/verification_service.py:84-117 | over every run, each verification rests on the packet that was its subject's newest signed one when it was requested |
| VerificationCalls.ReviewSets | services/verification_service.py:131-161 | every field a review sets, and that it goes under review exactly on valid evidence and names the evidence status otherwise |
| VerificationCalls.ApproveAnswers | services/verification_service.py:164-189 | each refusal of an approval, in order and exactly when it applies |
| VerificationCalls.ApproveSets | services/verification_service.py:183-201 | every field an approval sets and the score row it stores; one below the minimum leaves only the score row |
| VerificationCalls.RevokeSets | services/verification_service.py:204-225 | every field a revocation sets, on an approved verification only |
| VerificationCalls.DeploymentApproves | services/verification_service.py:164-201 | with the real graph and score: an approval means valid evidence and a packet of the subject that scores at least the minimum |
| PolicyRuns.RunKeepsInv | services/policy_version_service.py:73-153 | over all runs with safe seeding each tenant and name has at most one active version, is_active equals the status, and superseded rows have an end date |
| PolicyRuns.SeedKeepsInvIff | services/policy_version_service.py:156-187 | seeding keeps one active version per key if and only if no system default other than v1 is active; an error changes nothing |
| PolicyRuns.RestartUndoesActivation | app/main.py:41-47 | a restart after activating a system v2 leaves two active versions and makes get_active return v1 again |
| PolicyRuns.GetActiveMeans | services/policy_version_service.py:50-70 | get_active returns exactly the tenant's one active version, or the system's when the tenant has none |
| PolicyRuns.ActivateSelects | services/policy_version_service.py:105-133 | an activated version is the one its tenant gets next, and no other key changes |
| PolicyRuns.RollbackRestores | services/policy_version_service.py:136-153 | after any activation, rolling back makes get_active return the previous version at its new date |
| PolicyRuns.InEffectMeans | services/governance_workflow.py:103-107 | the version a submission binds is the tenant's active one, or the system's where the tenant has none |
| GovernanceLaws.BindingsAreFinal | services/governance_workflow.py:103-128 | whatever is later linked, decided, overridden, activated, rolled back or seeded, a submitted review names a policy version if and only if it was the one in effect for its tenant at the submission |
| GovernanceLaws.ActionsAreFinal | services/override_service.py:66-70 | no later call touches anything but the status of a governed action: policy version, label, decision, risk and approval link stay |
| GovernanceRuns.RunsFromStart | services/governance_workflow.py:103-175 | over every run from a store without reviews, submissions that die after any commit included, each review's status, risk and approval fit together and its binding names a registered version of its tenant or the system |
| PolicyService.Policies.Activate | services/policy_version_service.py:105-133 | the loop activates or refuses as the step does; whom it refuses and which rows it touches are `PolicyCalls.SwitchRefusedIff`, `SwitchStaysInTenant` and `SwitchOutcome` |
| PolicyCalls.SwitchStaysInTenant | services/policy_version_service.py:27-37 | a tenant that activates or rolls back to another tenant's version, or the system's, gets not found; whatever id it names, every row that is not its own stays exactly as it was |
| PolicyCalls.SwitchRefusedIff | services/policy_version_service.py:105-145 | activation and rollback are refused exactly if the caller has no version of that id, and change nothing then |
| PolicyCalls.SwitchOutcome | services/policy_version_service.py:112-127 | every field of every row after an activation: the chosen row active from now without an end, active ones of its tenant and name ended now, no other changed |
| PolicyCalls.CreateOutcome | services/policy_version_service.py:84-96 | a new version is an inactive draft, refused exactly on a taken key or a tenant's taken name and version |
| PolicyCalls.SeedOutcome | services/policy_version_service.py:156-187 | seeding touches no row but the system's v1, whose dates it keeps where it has them |
| PolicyService.Policies.SeedDefaultPolicy | services/policy_version_service.py:156-187 | the method inserts v1, reactivates it without closing others, or reports duplicate v1 rows |
| Governance.WorseIntakeNeverLowers | services/risk_service.py:57-100 | an intake with at least the points and the exposure of another never has a lower risk nor escapes an approval the other needs, through its own points or its category, and a review scores at most 9; which words have which effect are the next two rows |
| Governance.ApprovalInWords | services/risk_service.py:15-94 | over the normalised words, unknown and missing ones included: a review needs approval exactly if it is exposed, semi-autonomous or autonomous, on phi or regulated data, or on confidential or pii data with any autonomy but none |
| Governance.HighInWords | services/risk_service.py:15-94 | exactly which exposure, sensitivity and autonomy words make the risk high |
| Governance.CategoryAdds | services/risk_service.py:33-39 | a policy category adds 3 to the score if it is destructive, 1 if it sends or publishes, else nothing |
| Governance.CategoryFollowsAutonomy | services/governance_workflow.py:37-42 | an intake is routed to outbound_send exactly when it is exposed or its autonomy scores at least 2, although category and risk read a missing autonomy differently |
| Governance.GateIsCoherent | services/governance_workflow.py:37-99 | for every intake a review requires approval exactly when its risk is medium or high, exactly when it is overridable, and outbound routing already scores 3 |
| GovernanceLaws.StatusesAgreeIff | services/governance_workflow.py:199-211 | in every state of every run the run status and the packet's status of a review agree if and only if its submission got to link the approval it needs and no override was recorded |
| GovernanceLaws.HalfSubmittedDisagrees | services/governance_workflow.py:105-175 | a submission that dies after its n-th commit is shown alike in both places, then and after any run, if and only if the intake needs no approval or the link was committed, and no override was recorded |
| GovernanceLaws.OverrideIffGated | services/override_service.py:50-72 | an override of a submitted review is accepted, at any later time, if and only if its intake needed approval |
| GovernanceLaws.SubmissionIsAudited | services/governance_workflow.py:139-180 | a completed submission leaves exactly four events of its action, the last saying that approval was required exactly for the intakes that need it |
| GovernanceLaws.SubmissionWrites | services/governance_workflow.py:103-181 | a completed submission leaves exactly one action, assessment and artifact with these columns and, exactly if the intake needs approval, one pending linked approval |
| GovernanceService.Workflow.SubmitReview | services/governance_workflow.py:59-196 | the submission binds the version get_active returns and writes action, risk assessment, approval with its link, artifact and audit events, reporting whether approval is needed; a taken key is an error and writes nothing |
| GovernanceService.Workflow.CreateOverride | services/override_service.py:33-93 | the override is recorded, the action marked and the event audited, or the call fails with the source's error and changes nothing |

## Left out

- HTTP routes, schemas, RBAC, API keys, the control catalog's seeding and the console: plumbing or set membership.
- SQLAlchemy's session and identity map: every call reads current rows and every commit is atomic.
- SHA-256 and Ed25519 internals, key handling and key rotation.
- The Gmail connector: the provider is an outcome given to the step, accepted with an id or refused with nothing sent.
- Email thread records, generated reply and draft texts, reason strings, executive summaries and the markdown export.
- Audit calls made by the other services are not steps of the send machine; the verification trail is modelled as a list of its own.
- The order in which the packet lists regulations and gaps: they are sets here, as in the assembly loop, and sorted only on output.
- JSON floats, NaN and escaped surrogates do not parse in `JsonText`; no packet holds one.
- The compact canonical text under the packet hash is a parameter; only the export's print and parse are modelled as text.
- Concurrent persists, score computations or policy activations racing each other: those services read and commit in one step here, the audit log is the part with interleaved writers.
- Rows without an order in a query (two active versions of a broken registry, equal packet versions of two tenants) are taken in table order.
- A version stored as an SQL NULL that sorts before or after numbers in `_latest_signed_packet`: the services never store one.
- SendService.ControlPlane.HandleChatOrchestrate: does not store the `result` key that a succeeded handler merges into the job's payload, and gives one error code per payload field, missing and invalid alike; no other step reads either.
- Binary floating point in `round(max * part / whole)`: exact fractions, so packets with more approvals than a double can tell apart are not covered.
- SendSafety.RunKeepsInv: assumes non-empty provider ids and no exception between acceptance and its record, because the code does send twice then (`SendScope.LateExceptionSendsTwice`).
- PolicyRuns.RunKeepsInv: assumes every seeding finds the registry safe, because the code breaks the invariant otherwise (`PolicyRuns.RestartUndoesActivation`).
