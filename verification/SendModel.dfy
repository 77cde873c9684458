// The governed send: chat job, approval gate, send job, single worker, provider, operator
// retry. services/job_service.py, approval_service.py, email_service.py, email_persistence.py,
// chat_orchestrate.py, workers/tasks.py, workers/runner.py and app/api/approvals.py as one
// state machine whose steps are the database commits.
module SendModel {
  import opened Prelude
  import opened PolicyText

  type JobId = nat
  type ApprovalId = nat

  const GATE_KIND := "job.gate"
  const REVIEW_KIND := "governance.review"
  const REVIEW_WORKFLOW := "ai_vendor.governance_review"
  const OUTBOUND_WORKFLOW := "email.outbound"

  // ---- Rows ----

  datatype JobType = ChatOrchestrate | EmailSendApproved | UnknownType(name: string)

  datatype JobStatus = Pending | Running | Succeeded | Failed | Cancelled

  // The payload keys the handlers read; a field is None when missing or of the wrong type.
  datatype Payload =
    | ChatPayload(sessionId: Option<string>, message: Option<string>, maxSteps: Option<int>)
    | SendPayload(approvalId: Option<ApprovalId>)

  // sendKey is the unique idempotency key email.send:<approval id>.
  datatype Job = Job(
    jobType: JobType, tenant: Option<string>, status: JobStatus, sendKey: Option<ApprovalId>,
    payload: Payload, attempts: nat, lastError: Option<string>, runAfter: Option<int>)

  datatype ApprovalStatus = AwaitingDecision | Approved | Rejected

  datatype Decision = Decision(status: ApprovalStatus, actor: string, note: Option<string>)

  // payload["job_id"]: a job, or for governance reviews the id of a governed action.
  datatype Source = NoSource | JobRef(id: JobId) | ActionRef(actionId: string)

  datatype Approval = Approval(
    tenant: Option<string>, kind: string, status: ApprovalStatus,
    source: Source, draft: Option<string>, workflow: Option<string>,
    messageId: Option<string>, sendStatus: Option<string>, decision: Option<Decision>)

  datatype DeliveryStatus = AwaitingApproval | Sent | DeliveryFailed

  datatype Delivery = Delivery(
    tenant: Option<string>, draft: string, messageId: Option<string>, sourceJob: JobId,
    executionJob: Option<JobId>, status: DeliveryStatus, lastError: Option<string>)

  // One message the provider has accepted.
  datatype Send = Send(approval: ApprovalId, job: JobId, draft: string, messageId: string)

  // Where the single worker loop is, between two commits.
  datatype Worker =
    | Idle
    | Claimed(job: JobId)
    | Started(job: JobId)
    | Gated(job: JobId, approval: ApprovalId)
    | Merged(job: JobId, approval: ApprovalId, draft: string)
    | Accepted(job: JobId, approval: ApprovalId, messageId: string)
    | Recorded(job: JobId, approval: ApprovalId, messageId: string)
    | Finishing(job: JobId)
    | Failing(job: JobId, linked: Option<ApprovalId>, error: string)

  datatype State = State(
    jobs: seq<Job>, approvals: seq<Approval>, deliveries: map<ApprovalId, Delivery>,
    worker: Worker, sends: seq<Send>)

  const EMPTY := State([], [], map[], Idle, [])

  // ---- job_service ----

  function CreateJob(s: State, t: JobType, tenant: Option<string>, p: Payload, key: Option<ApprovalId>): State {
    s.(jobs := s.jobs + [Job(t, tenant, Pending, key, p, 0, None, None)])
  }

  function SetJob(s: State, j: JobId, status: JobStatus, error: Option<string>): State
    requires j < |s.jobs|
  {
    s.(jobs := s.jobs[j := s.jobs[j].(status := status, lastError := error)])
  }

  function MarkJobFailed(s: State, j: JobId, message: string): State
    requires j < |s.jobs|
  {
    SetJob(s, j, Failed, Some(message))
  }

  function MarkJobSucceeded(s: State, j: JobId): State
    requires j < |s.jobs|
  {
    SetJob(s, j, Succeeded, s.jobs[j].lastError)
  }

  predicate Eligible(job: Job, now: int) {
    job.status == Pending && (job.runAfter.None? || job.runAfter.value <= now)
  }

  // Jobs are listed in creation order, so the oldest eligible one is the first.
  function OldestEligible(jobs: seq<Job>, now: int, from: nat): (j: nat)
    requires from <= |jobs|
    ensures from <= j <= |jobs|
    ensures j == |jobs| || Eligible(jobs[j], now)
    ensures forall job :: job in jobs[from..j] ==> !Eligible(job, now)
    decreases |jobs| - from
  {
    if from == |jobs| || Eligible(jobs[from], now) then from else OldestEligible(jobs, now, from + 1)
  }

  // Why a failed send job may not be re-queued, if so.
  function RetryBlocked(s: State, job: Job): Option<string> {
    if !job.payload.SendPayload? || job.payload.approvalId.None? then None
    else
      var a := job.payload.approvalId.value;
      if a < |s.approvals| && s.approvals[a].status == Rejected then Some("retry_blocked_approval_rejected")
      else if a < |s.approvals| && Truthy(s.approvals[a].messageId) then Some("retry_blocked_already_sent")
      else if a in s.deliveries && s.deliveries[a].status == Sent && Truthy(s.deliveries[a].messageId) then
        Some("retry_blocked_delivery_sent")
      else None
  }

  function RetryFailedJob(s: State, j: JobId, scope: Option<string>): (State, Result<JobId, string>) {
    if j >= |s.jobs| || !InScope(s.jobs[j].tenant, scope) then (s, Err("job_not_found"))
    else if s.jobs[j].jobType != EmailSendApproved then (s, Err("job_not_retryable"))
    else if s.jobs[j].status != Failed then (s, Err("job_not_failed"))
    else
      var blocked := RetryBlocked(s, s.jobs[j]);
      if blocked.Some? then (s, Err(blocked.value)) else (SetJob(s, j, Pending, None), Ok(j))
  }

  // ---- approval_service ----

  function CreateRequest(s: State, kind: string, tenant: Option<string>, source: Source,
                         workflow: Option<string>): State {
    s.(approvals := s.approvals +
         [Approval(tenant, kind, AwaitingDecision, source, None, workflow, None, None, None)])
  }

  // _validate_outbound_send_gate: the error it raises, if any.
  function GateError(s: State, a: Approval): Option<string> {
    if a.kind != GATE_KIND then Some("approval_invalid_kind")
    else if !Truthy(a.draft) then None
    else if a.workflow.Some? && a.workflow.value != OUTBOUND_WORKFLOW then Some("approval_wrong_workflow")
    else if a.source.NoSource? then Some("approval_missing_source_job")
    else if a.source.ActionRef? || a.source.id >= |s.jobs| then Some("source_job_not_found")
    else None
  }

  function EligibilityError(s: State, a: Approval): Option<string> {
    if a.status != Approved then Some("approval_not_approved")
    else if GateError(s, a).Some? then GateError(s, a)
    else if !Truthy(a.draft) then Some("missing_gmail_draft_id_for_enqueue")
    else None
  }

  function Decide(s: State, a: ApprovalId, d: Decision): State
    requires a < |s.approvals|
  {
    s.(approvals := s.approvals[a := s.approvals[a].(status := d.status, decision := Some(d))])
  }

  function Approve(s: State, a: ApprovalId, scope: Option<string>, actor: string, note: Option<string>)
    : (State, Result<ApprovalId, string>)
  {
    if a >= |s.approvals| || !InScope(s.approvals[a].tenant, scope) then (s, Err("approval_not_found"))
    else if s.approvals[a].status != AwaitingDecision then (s, Err("approval_not_pending"))
    else if Truthy(s.approvals[a].draft) && GateError(s, s.approvals[a]).Some? then
      (s, Err(GateError(s, s.approvals[a]).value))
    else (Decide(s, a, Decision(Approved, actor, note)), Ok(a))
  }

  function Reject(s: State, a: ApprovalId, scope: Option<string>, actor: string, reason: string)
    : (State, Result<ApprovalId, string>)
  {
    if a >= |s.approvals| || !InScope(s.approvals[a].tenant, scope) then (s, Err("approval_not_found"))
    else if s.approvals[a].status != AwaitingDecision then (s, Err("approval_not_pending"))
    else (Decide(s, a, Decision(Rejected, actor, Some(reason))), Ok(a))
  }

  predicate ShouldEnqueue(a: Approval) {
    && a.kind == GATE_KIND
    && Truthy(a.draft)
    && (a.workflow.Some? ==> a.workflow.value == OUTBOUND_WORKFLOW)
  }

  // get_job_by_idempotency_key for the send key of an approval; |jobs| when there is none.
  function SendJobOf(jobs: seq<Job>, a: ApprovalId, from: nat): (j: nat)
    requires from <= |jobs|
    ensures from <= j <= |jobs|
    ensures j == |jobs| || jobs[j].sendKey == Some(a)
    ensures forall job :: job in jobs[from..j] ==> job.sendKey != Some(a)
    decreases |jobs| - from
  {
    if from == |jobs| || jobs[from].sendKey == Some(a) then from else SendJobOf(jobs, a, from + 1)
  }

  function EnqueueSendJob(s: State, a: ApprovalId): (State, Result<JobId, string>)
    requires a < |s.approvals|
  {
    var row := s.approvals[a];
    var existing := SendJobOf(s.jobs, a, 0);
    if EligibilityError(s, row).Some? then (s, Err(EligibilityError(s, row).value))
    else if existing < |s.jobs| then (s, Ok(existing))
    else (CreateJob(s, EmailSendApproved, row.tenant, SendPayload(Some(a)), Some(a)), Ok(|s.jobs|))
  }

  // The second half of the approve endpoint.
  function EnqueueAfterApproval(s: State, a: ApprovalId): State {
    if a < |s.approvals| && ShouldEnqueue(s.approvals[a]) then EnqueueSendJob(s, a).0 else s
  }

  // merge_execution_context after a draft, and record_send_completed.
  function MergeDraft(s: State, a: ApprovalId, draft: string): State
    requires a < |s.approvals|
  {
    s.(approvals := s.approvals[a := s.approvals[a].(draft := Some(draft), workflow := Some(OUTBOUND_WORKFLOW))])
  }

  function RecordSendCompleted(s: State, a: ApprovalId, messageId: string): State
    requires a < |s.approvals|
  {
    s.(approvals := s.approvals[a := s.approvals[a].(messageId := Some(messageId), sendStatus := Some("sent"))])
  }

  // ---- email_persistence ----

  function UpsertDelivery(s: State, a: ApprovalId, tenant: Option<string>, draft: string, source: JobId): State {
    s.(deliveries := s.deliveries[a :=
         if a in s.deliveries
         then s.deliveries[a].(draft := draft, sourceJob := source, status := AwaitingApproval, lastError := None)
         else Delivery(tenant, draft, None, source, None, AwaitingApproval, None)])
  }

  function MarkDeliverySent(s: State, a: ApprovalId, job: JobId, messageId: string): State {
    if a !in s.deliveries then s
    else s.(deliveries := s.deliveries[a := s.deliveries[a].(
                            messageId := Some(messageId), executionJob := Some(job), status := Sent,
                            lastError := None)])
  }

  function MarkDeliveryFailed(s: State, a: ApprovalId, job: JobId, error: string): State {
    if a !in s.deliveries then s
    else s.(deliveries := s.deliveries[a := s.deliveries[a].(
                            executionJob := Some(job), status := DeliveryFailed, lastError := Some(error))])
  }

  // ---- The worker, one commit at a time ----

  // What a call to the provider comes back with.
  datatype Outcome = ProviderOk(id: string) | ProviderError(message: string)

  function ChatPayloadError(tx: TextLib, p: Payload): Option<string> {
    if !p.ChatPayload? || p.sessionId.None? || tx.strip(p.sessionId.value) == "" then Some("invalid_session_id")
    else if p.message.None? || tx.strip(p.message.value) == "" then Some("invalid_message")
    else if p.maxSteps.None? || p.maxSteps.value < 1 then Some("invalid_max_steps")
    else None
  }

  function ChatMessage(tx: TextLib, p: Payload): string {
    if p.ChatPayload? && p.message.Some? then tx.strip(p.message.value) else ""
  }

  // The handler up to its first own commit: validate, classify, gate or complete.
  function StartChat(tx: TextLib, s: State, j: JobId, o: Outcome): State
    requires j < |s.jobs|
  {
    var job := s.jobs[j];
    var message := ChatMessage(tx, job.payload);
    var bad := ChatPayloadError(tx, job.payload);
    if bad.Some? then MarkJobFailed(s, j, bad.value).(worker := Idle)
    else match Dispose(tx, message)
         case Blocked => s.(worker := Finishing(j))
         case NeedsApproval =>
           CreateRequest(s, GATE_KIND, job.tenant, JobRef(j), None).(worker := Gated(j, |s.approvals|))
         case Completed =>
           // Reading a thread or drafting a reply calls the connector, which may fail.
           if IsEmailRelated(tx, message) && o.ProviderError? then MarkJobFailed(s, j, o.message).(worker := Idle)
           else s.(worker := Finishing(j))
  }

  // run_send_approved_job up to the provider call: the approval to send for, or the error.
  function SendTarget(s: State, j: JobId): Result<ApprovalId, string>
    requires j < |s.jobs|
  {
    var job := s.jobs[j];
    if !job.payload.SendPayload? || job.payload.approvalId.None? then Err("missing_approval_id")
    else
      var a := job.payload.approvalId.value;
      if a >= |s.approvals| then Err("approval_not_found")
      else if job.jobType != EmailSendApproved then Err("invalid_execution_job_type")
      else if job.tenant != s.approvals[a].tenant then Err("tenant_mismatch_execution_job")
      else if EligibilityError(s, s.approvals[a]).Some? then Err(EligibilityError(s, s.approvals[a]).value)
      else Ok(a)
  }

  function PayloadApproval(p: Payload): Option<ApprovalId> {
    if p.SendPayload? then p.approvalId else None
  }

  function FailSend(s: State, j: JobId, error: string): State
    requires j < |s.jobs|
  {
    MarkJobFailed(s, j, error).(worker := Failing(j, PayloadApproval(s.jobs[j].payload), error))
  }

  function StartSend(s: State, j: JobId, o: Outcome): State
    requires j < |s.jobs|
  {
    var target := SendTarget(s, j);
    if target.Err? then FailSend(s, j, target.error)
    else
      var a := target.value;
      var row := s.approvals[a];
      if Truthy(row.messageId) then MarkDeliverySent(s, a, j, row.messageId.value).(worker := Finishing(j))
      else if o.ProviderError? then FailSend(s, j, o.message)
      else s.(worker := Accepted(j, a, o.id), sends := s.sends + [Send(a, j, row.draft.value, o.id)])
  }

  // One step of the worker from one commit to the next.
  function Work(tx: TextLib, s: State, o: Outcome): State {
    if s.worker.Idle? || s.worker.job >= |s.jobs| then s
    else
      var j := s.worker.job;
      match s.worker
      case Claimed(_) =>
        if s.jobs[j].jobType.UnknownType? then
          MarkJobFailed(s, j, "unknown_job_type:" + s.jobs[j].jobType.name).(worker := Idle)
        else
          s.(jobs := s.jobs[j := s.jobs[j].(attempts := s.jobs[j].attempts + 1)], worker := Started(j))
      case Started(_) =>
        if s.jobs[j].jobType == ChatOrchestrate then StartChat(tx, s, j, o)
        else StartSend(s, j, o)
      case Gated(_, a) =>
        if a >= |s.approvals| || !DraftsOutbound(tx, ChatMessage(tx, s.jobs[j].payload)) then s.(worker := Finishing(j))
        else if o.ProviderError? then MarkJobFailed(s, j, o.message).(worker := Idle)
        else MergeDraft(s, a, o.id).(worker := Merged(j, a, o.id))
      case Merged(_, a, draft) => UpsertDelivery(s, a, s.jobs[j].tenant, draft, j).(worker := Finishing(j))
      case Accepted(_, a, m) =>
        if a >= |s.approvals| then s else RecordSendCompleted(s, a, m).(worker := Recorded(j, a, m))
      case Recorded(_, a, m) => MarkDeliverySent(s, a, j, m).(worker := Finishing(j))
      case Finishing(_) => MarkJobSucceeded(s, j).(worker := Idle)
      case Failing(_, a, error) =>
        (if a.Some? then MarkDeliveryFailed(s, a.value, j, error) else s).(worker := Idle)
  }

  function Claim(s: State, now: int): State {
    var j := OldestEligible(s.jobs, now, 0);
    if !s.worker.Idle? || j == |s.jobs| then s
    else s.(jobs := s.jobs[j := s.jobs[j].(status := Running)], worker := Claimed(j))
  }

  // process_job's last resort: any other exception marks the job failed.
  function HandlerRaised(s: State, error: string): State {
    if s.worker.Idle? || s.worker.job >= |s.jobs| then s
    else MarkJobFailed(s, s.worker.job, error).(worker := Idle)
  }

  // ---- Events ----

  datatype Event =
    | PostChat(tenant: Option<string>, sessionId: string, message: string, maxSteps: int)
    | RequestReview(tenant: Option<string>, action: string)
    | ApproveCall(approval: ApprovalId, scope: Option<string>, actor: string, note: Option<string>)
    | RejectCall(approval: ApprovalId, scope: Option<string>, actor: string, reason: string)
    | EnqueueCall(approval: ApprovalId)
    | RetryCall(job: JobId, scope: Option<string>)
    | ClaimNext(now: int)
    | WorkOn(outcome: Outcome)
    | WorkerDies
    | HandlerRaises(error: string)

  function Step(tx: TextLib, s: State, e: Event): State {
    match e
    case PostChat(tenant, sessionId, message, maxSteps) =>
      CreateJob(s, ChatOrchestrate, tenant, ChatPayload(Some(sessionId), Some(message), Some(maxSteps)), None)
    case RequestReview(tenant, action) =>
      CreateRequest(s, REVIEW_KIND, tenant, ActionRef(action), Some(REVIEW_WORKFLOW))
    case ApproveCall(a, scope, actor, note) => Approve(s, a, scope, actor, note).0
    case RejectCall(a, scope, actor, reason) => Reject(s, a, scope, actor, reason).0
    case EnqueueCall(a) => EnqueueAfterApproval(s, a)
    case RetryCall(j, scope) => RetryFailedJob(s, j, scope).0
    case ClaimNext(now) => Claim(s, now)
    case WorkOn(o) => Work(tx, s, o)
    case WorkerDies => s.(worker := Idle)
    case HandlerRaises(error) => HandlerRaised(s, error)
  }

  function Run(tx: TextLib, s: State, es: seq<Event>): State {
    if es == [] then s else Step(tx, Run(tx, s, es[..|es| - 1]), es[|es| - 1])
  }

  // The fault model: provider ids are non-empty, and no exception strikes between the provider
  // accepting a message and the commit that records its id. The worker may die there.
  predicate Tolerated(s: State, e: Event) {
    && (e.WorkOn? && e.outcome.ProviderOk? ==> e.outcome.id != "")
    && (e.HandlerRaises? ==> !s.worker.Accepted?)
  }

  predicate ToleratedRun(tx: TextLib, s: State, es: seq<Event>) {
    es == [] || (ToleratedRun(tx, s, es[..|es| - 1]) && Tolerated(Run(tx, s, es[..|es| - 1]), es[|es| - 1]))
  }
}
