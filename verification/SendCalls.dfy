// What each API call and each worked-off job does, in terms of the rows: the state it leaves,
// all of it, and when it is refused.
module SendCalls {
  import opened Prelude
  import opened PolicyText
  import opened SendModel
  import opened SendSafety
  import opened SendDrain
  import opened SendGate

  // ---- Decisions ----

  // A drafted approval is one the outbound workflow opened for a job that exists.
  predicate GateHolds(s: State, row: Approval) {
    && row.kind == "job.gate" && (row.workflow.None? || row.workflow == Some("email.outbound"))
    && row.source.JobRef? && row.source.id < |s.jobs|
  }

  predicate IsPendingFor(s: State, a: ApprovalId, scope: Option<string>) {
    && a < |s.approvals| && (scope.None? || s.approvals[a].tenant == scope)
    && s.approvals[a].status == AwaitingDecision
  }

  // Approving succeeds exactly on a pending approval of the caller's that has no draft or whose
  // gate holds; it writes the status and the decision of that row and nothing else.
  lemma ApproveDecides(s: State, a: ApprovalId, scope: Option<string>, actor: string, note: Option<string>)
    ensures var (t, r) := Approve(s, a, scope, actor, note);
            && (r.Ok? <==> IsPendingFor(s, a, scope) && (Truthy(s.approvals[a].draft) ==> GateHolds(s, s.approvals[a])))
            && (r.Ok? ==> r.value == a && t == s.(approvals := s.approvals[a :=
                            s.approvals[a].(status := Approved, decision := Some(Decision(Approved, actor, note)))]))
            && (r.Err? ==> t == s)
            && (r == Err("approval_not_found") <==>
                  a >= |s.approvals| || (scope.Some? && s.approvals[a].tenant != scope))
            && (r == Err("approval_not_pending") <==>
                  a < |s.approvals| && (scope.None? || s.approvals[a].tenant == scope) &&
                  s.approvals[a].status != AwaitingDecision)
  {
    assert "approval_not_found"[9] == 'n' && "approval_not_found"[13] == 'f' && "approval_not_pending"[13] == 'p';
    assert "approval_invalid_kind"[9] == 'i' && "approval_wrong_workflow"[9] == 'w';
    assert "approval_missing_source_job"[9] == 'm' && "source_job_not_found"[0] == 's';
  }

  // Rejecting succeeds exactly on a pending approval of the caller's; it makes that row rejected,
  // with a decision by this actor for this reason, and nothing else.
  lemma RejectDecides(s: State, a: ApprovalId, scope: Option<string>, actor: string, reason: string)
    ensures var (t, r) := Reject(s, a, scope, actor, reason);
            && (r.Ok? <==> IsPendingFor(s, a, scope))
            && (r.Ok? ==> r.value == a && t == s.(approvals := s.approvals[a := s.approvals[a].(
                            status := Rejected, decision := Some(Decision(Rejected, actor, Some(reason))))]))
            && (r.Err? ==> t == s)
            && (r == Err("approval_not_found") <==>
                  a >= |s.approvals| || (scope.Some? && s.approvals[a].tenant != scope))
  {
    assert "approval_not_found"[13] == 'f' && "approval_not_pending"[13] == 'p';
  }

  // A rejected approval is never sent: over any further run it stays rejected, no send job is
  // ever keyed to it, and the provider accepts no message for it.
  lemma RejectedNeverSends(tx: TextLib, s: State, a: ApprovalId, scope: Option<string>, actor: string, reason: string,
                           es: seq<Event>, later: State)
    requires Reachable(tx, s) && IsPendingFor(s, a, scope)
    requires var t := Step(tx, s, RejectCall(a, scope, actor, reason));
             ToleratedRun(tx, t, es) && later == Run(tx, t, es)
    ensures a < |later.approvals| && later.approvals[a].status == Rejected
    ensures later.approvals[a].decision == Some(Decision(Rejected, actor, Some(reason)))
    ensures forall j :: 0 <= j < |later.jobs| ==> later.jobs[j].sendKey != Some(a)
    ensures forall k :: 0 <= k < |later.sends| ==> later.sends[k].approval != a
  {
    var e := RejectCall(a, scope, actor, reason);
    var t := Step(tx, s, e);
    ReachableStep(tx, s, e);
    ReachableInv(tx, t);
    RunUndoesNothing(tx, t, es);
    RunStaysReachable(tx, t, es);
    ReachableInv(tx, later);
    assert ApprovalStands(t.approvals[a], later.approvals[a]);
    forall j | 0 <= j < |later.jobs| ensures later.jobs[j].sendKey != Some(a) {
      assert JobOk(later, j);
    }
    forall k | 0 <= k < |later.sends| ensures later.sends[k].approval != a {
      assert SendOk(later, k);
    }
  }

  // ---- Jobs ----

  lemma PostChatCreates(tx: TextLib, s: State, tenant: Option<string>, sessionId: string, message: string,
                        maxSteps: int)
    ensures Step(tx, s, PostChat(tenant, sessionId, message, maxSteps)) == s.(jobs := s.jobs +
              [Job(ChatOrchestrate, tenant, Pending, None,
                   ChatPayload(Some(sessionId), Some(message), Some(maxSteps)), 0, None, None)])
  {
  }

  // Enqueueing succeeds exactly for an approved, drafted approval whose gate holds; it returns
  // the job keyed to the approval, and creates it, pending and of the approval's tenant, only if
  // there is none.
  lemma EnqueueCreates(s: State, a: ApprovalId)
    requires a < |s.approvals|
    ensures var (t, r) := EnqueueSendJob(s, a); var row := s.approvals[a];
            && (r.Ok? <==> row.status == Approved && Truthy(row.draft) && GateHolds(s, row))
            && (r.Ok? ==> r.value < |t.jobs| && t.jobs[r.value].sendKey == Some(a))
            && (r.Ok? && r.value < |s.jobs| ==> t == s)
            && (r.Ok? && r.value >= |s.jobs| ==>
                  && (forall j :: 0 <= j < |s.jobs| ==> s.jobs[j].sendKey != Some(a))
                  && t == s.(jobs := s.jobs +
                       [Job(EmailSendApproved, row.tenant, Pending, Some(a), SendPayload(Some(a)), 0, None, None)]))
            && (r.Err? ==> t == s)
  {
  }

  // Why an approval is not sent: the first of these, in the source's order.
  lemma EnqueueRefusal(s: State, a: ApprovalId)
    requires a < |s.approvals|
    ensures var row := s.approvals[a];
            EnqueueSendJob(s, a).1.Err? ==>
              EnqueueSendJob(s, a).1.error ==
              if row.status != Approved then "approval_not_approved"
              else if row.kind != "job.gate" then "approval_invalid_kind"
              else if row.draft == None || row.draft == Some("") then "missing_gmail_draft_id_for_enqueue"
              else if row.workflow != None && row.workflow != Some("email.outbound") then "approval_wrong_workflow"
              else if row.source == NoSource then "approval_missing_source_job"
              else "source_job_not_found"
  {
  }

  // What the approve endpoint does after a decision: it enqueues for an approval that may be
  // sent, and otherwise leaves everything as it was.
  lemma EnqueueCallMeans(tx: TextLib, s: State, a: ApprovalId)
    ensures Step(tx, s, EnqueueCall(a)) ==
            if a < |s.approvals| && s.approvals[a].status == Approved && Truthy(s.approvals[a].draft) &&
               GateHolds(s, s.approvals[a])
            then EnqueueSendJob(s, a).0 else s
  {
  }

  lemma RequestReviewCreates(tx: TextLib, s: State, tenant: Option<string>, action: string)
    ensures Step(tx, s, RequestReview(tenant, action)) == s.(approvals := s.approvals +
              [Approval(tenant, "governance.review", AwaitingDecision, ActionRef(action), None,
                        Some("ai_vendor.governance_review"), None, None, None)])
  {
  }

  predicate DueAt(job: Job, now: int) {
    job.status == Pending && (job.runAfter.None? || job.runAfter.value <= now)
  }

  // A claim takes the first job in creation order that is pending and due, and sets nothing but
  // its status; with none due, or at work already, it takes none.
  lemma ClaimTakesOldest(tx: TextLib, s: State, now: int)
    ensures var t := Step(tx, s, ClaimNext(now));
            if !s.worker.Idle? || forall j :: 0 <= j < |s.jobs| ==> !DueAt(s.jobs[j], now) then t == s
            else exists j :: 0 <= j < |s.jobs| && DueAt(s.jobs[j], now) &&
                   (forall i :: 0 <= i < j ==> !DueAt(s.jobs[i], now)) &&
                   t == s.(jobs := s.jobs[j := s.jobs[j].(status := Running)], worker := Claimed(j))
  {
    var j := OldestEligible(s.jobs, now, 0);
    forall i | 0 <= i < j ensures !DueAt(s.jobs[i], now) {
      assert s.jobs[i] in s.jobs[0..j];
    }
  }

  // The approval the job would send for was rejected, or its message is recorded as sent.
  predicate SendIsOver(s: State, a: ApprovalId) {
    || (a < |s.approvals| && (s.approvals[a].status == Rejected || Truthy(s.approvals[a].messageId)))
    || (a in s.deliveries && s.deliveries[a].status == Sent && Truthy(s.deliveries[a].messageId))
  }

  // A retry succeeds exactly on the caller's own failed send job whose send is not over; it makes
  // the job pending again without an error, and nothing else.
  lemma RetryRequeues(s: State, j: JobId, scope: Option<string>)
    ensures var (t, r) := RetryFailedJob(s, j, scope);
            && (r.Ok? <==>
                  && j < |s.jobs| && (scope.None? || s.jobs[j].tenant == scope)
                  && s.jobs[j].jobType == EmailSendApproved && s.jobs[j].status == Failed
                  && !(s.jobs[j].payload.SendPayload? && s.jobs[j].payload.approvalId.Some? &&
                       SendIsOver(s, s.jobs[j].payload.approvalId.value)))
            && (r.Ok? ==> r.value == j && t == s.(jobs := s.jobs[j := s.jobs[j].(
                            status := Pending, lastError := None)]))
            && (r.Err? ==> t == s)
  {
  }

  // Why a retry is refused: the first of these, in the source's order.
  lemma RetryRefusal(s: State, j: JobId, scope: Option<string>)
    ensures var r := RetryFailedJob(s, j, scope).1;
            r.Err? ==>
              r.error ==
              if j >= |s.jobs| || (scope != None && s.jobs[j].tenant != scope) then "job_not_found"
              else if s.jobs[j].jobType != EmailSendApproved then "job_not_retryable"
              else if s.jobs[j].status != Failed then "job_not_failed"
              else
                var a := s.jobs[j].payload.approvalId.value;
                if a < |s.approvals| && s.approvals[a].status == Rejected then "retry_blocked_approval_rejected"
                else if a < |s.approvals| && Truthy(s.approvals[a].messageId) then "retry_blocked_already_sent"
                else "retry_blocked_delivery_sent"
  {
  }

  // ---- Worked-off jobs ----

  function Ended(job: Job, status: JobStatus, error: Option<string>): Job {
    job.(attempts := job.attempts + 1, status := status, lastError := error)
  }

  function WithDelivery(s: State, a: ApprovalId, d: Delivery -> Delivery): map<ApprovalId, Delivery> {
    if a in s.deliveries then s.deliveries[a := d(s.deliveries[a])] else s.deliveries
  }

  function SentDelivery(d: Delivery, j: JobId, m: string): Delivery {
    d.(messageId := Some(m), executionJob := Some(j), status := Sent, lastError := None)
  }

  function FailedDelivery(d: Delivery, j: JobId, error: string): Delivery {
    d.(executionJob := Some(j), status := DeliveryFailed, lastError := Some(error))
  }

  lemma SendIsReady(tx: TextLib, s: State, j: JobId)
    requires Inv(s) && s.worker == Claimed(j) && s.jobs[j].jobType == EmailSendApproved
    ensures s.jobs[j].sendKey.Some?
    ensures var a := s.jobs[j].sendKey.value; var started := Work(tx, s, ProviderError(""));
            && a < |s.approvals| && Truthy(s.approvals[a].draft) && SendTarget(started, j) == Ok(a)
            && started == s.(jobs := s.jobs[j := s.jobs[j].(attempts := s.jobs[j].attempts + 1)], worker := Started(j))
            && (s.approvals[a].messageId.Some? ==> Truthy(s.approvals[a].messageId))
  {
    assert JobOk(s, j);
    assert ApprovalOk(s, s.jobs[j].sendKey.value);
  }

  // The provider call itself: one message goes out, with the approved draft.
  lemma SendGoesOut(tx: TextLib, s: State, j: JobId, m: string, accepted: State)
    requires Inv(s) && s.worker == Claimed(j) && s.jobs[j].jobType == EmailSendApproved && m != ""
    requires s.jobs[j].sendKey.Some? && s.jobs[j].sendKey.value < |s.approvals|
    requires s.approvals[s.jobs[j].sendKey.value].messageId.None?
    requires accepted == Work(tx, Work(tx, s, ProviderOk(m)), ProviderOk(m))
    ensures var a := s.jobs[j].sendKey.value;
            && s.approvals[a].draft.Some?
            && accepted == s.(jobs := s.jobs[j := s.jobs[j].(attempts := s.jobs[j].attempts + 1)],
                              worker := Accepted(j, a, m),
                              sends := s.sends + [Send(a, j, s.approvals[a].draft.value, m)])
    ensures Inv(accepted) && Finish(tx, s, ProviderOk(m)) == Finish(tx, accepted, ProviderOk(m))
  {
    SendIsReady(tx, s, j);
    var started := Work(tx, s, ProviderOk(m));
    FinishStep(tx, s, ProviderOk(m));
    FinishStep(tx, started, ProviderOk(m));
    assert accepted == StartSend(started, j, ProviderOk(m));
  }

  // ... and what is recorded of it, in three commits.
  lemma SendIsRecorded(tx: TextLib, s: State, o: Outcome)
    requires Inv(s) && s.worker.Accepted? && s.worker.approval < |s.approvals| && Busy(s, s.worker.job) && Usable(o)
    ensures var (j, a, m) := (s.worker.job, s.worker.approval, s.worker.messageId);
            Finish(tx, s, o) == State(
              s.jobs[j := s.jobs[j].(status := Succeeded)],
              s.approvals[a := s.approvals[a].(messageId := Some(m), sendStatus := Some("sent"))],
              WithDelivery(s, a, d => SentDelivery(d, j, m)), Idle, s.sends)
  {
    FinishAccepted(tx, s, o);
  }

  // A send that the provider accepts: the job succeeded, the approval and its delivery row, if
  // there is one, carry the id, and exactly one message went out, with the approved draft.
  lemma AcceptedSendOutcome(tx: TextLib, s: State, j: JobId, m: string)
    requires Inv(s) && s.worker == Claimed(j) && s.jobs[j].jobType == EmailSendApproved && m != ""
    requires s.jobs[j].sendKey.Some? && s.jobs[j].sendKey.value < |s.approvals|
    requires s.approvals[s.jobs[j].sendKey.value].messageId.None?
    ensures var a := s.jobs[j].sendKey.value;
            && s.approvals[a].draft.Some?
            && Finish(tx, s, ProviderOk(m)) == State(
                 s.jobs[j := Ended(s.jobs[j], Succeeded, s.jobs[j].lastError)],
                 s.approvals[a := s.approvals[a].(messageId := Some(m), sendStatus := Some("sent"))],
                 WithDelivery(s, a, d => SentDelivery(d, j, m)), Idle,
                 s.sends + [Send(a, j, s.approvals[a].draft.value, m)])
  {
    var accepted := Work(tx, Work(tx, s, ProviderOk(m)), ProviderOk(m));
    SendGoesOut(tx, s, j, m, accepted);
    assert accepted.approvals == s.approvals && accepted.deliveries == s.deliveries;
    SendIsRecorded(tx, accepted, ProviderOk(m));
  }

  // A send the provider refuses: the job and its delivery row, if there is one, failed with the
  // error, and nothing else changed.
  lemma RefusedSendOutcome(tx: TextLib, s: State, j: JobId, error: string)
    requires Inv(s) && s.worker == Claimed(j) && s.jobs[j].jobType == EmailSendApproved
    requires s.jobs[j].sendKey.Some? && s.jobs[j].sendKey.value < |s.approvals|
    requires s.approvals[s.jobs[j].sendKey.value].messageId.None?
    ensures var a := s.jobs[j].sendKey.value;
            Finish(tx, s, ProviderError(error)) == s.(
              jobs := s.jobs[j := Ended(s.jobs[j], Failed, Some(error))],
              deliveries := WithDelivery(s, a, d => FailedDelivery(d, j, error)), worker := Idle)
  {
    SendIsReady(tx, s, j);
    var o := ProviderError(error);
    var started := Work(tx, s, o);
    var failing := Work(tx, started, o);
    assert JobOk(s, j);
    FinishStep(tx, s, o);
    FinishStep(tx, started, o);
    assert failing == StartSend(started, j, o);
    FinishStep(tx, failing, o);
  }

  // A send whose message is recorded already: the provider is not called, and the job and its
  // delivery row are brought up to date.
  lemma RecordedSendOutcome(tx: TextLib, s: State, j: JobId, o: Outcome)
    requires Inv(s) && s.worker == Claimed(j) && s.jobs[j].jobType == EmailSendApproved && Usable(o)
    requires s.jobs[j].sendKey.Some? && s.jobs[j].sendKey.value < |s.approvals|
    requires s.approvals[s.jobs[j].sendKey.value].messageId.Some?
    ensures var a := s.jobs[j].sendKey.value; var m := s.approvals[a].messageId.value;
            Finish(tx, s, o) == s.(
              jobs := s.jobs[j := Ended(s.jobs[j], Succeeded, s.jobs[j].lastError)],
              deliveries := WithDelivery(s, a, d => SentDelivery(d, j, m)), worker := Idle)
  {
    SendIsReady(tx, s, j);
    var started := Work(tx, s, o);
    var marked := Work(tx, started, o);
    FinishStep(tx, s, o);
    FinishStep(tx, started, o);
    assert marked == StartSend(started, j, o);
    FinishStep(tx, marked, o);
  }

  // A job of a type that nobody handles fails at once, without an attempt.
  lemma UnknownJobOutcome(tx: TextLib, s: State, j: JobId, o: Outcome)
    requires Inv(s) && s.worker == Claimed(j) && j < |s.jobs| && s.jobs[j].jobType.UnknownType? && Usable(o)
    ensures Finish(tx, s, o) == s.(worker := Idle, jobs := s.jobs[j := s.jobs[j].(
              status := Failed, lastError := Some("unknown_job_type:" + s.jobs[j].jobType.name))])
  {
    FinishStep(tx, s, o);
  }

  // An exception fails the job at work and nothing else; a dead worker leaves every row alone.
  lemma InterruptionOutcome(tx: TextLib, s: State, error: string)
    requires Inv(s)
    ensures Step(tx, s, WorkerDies) == s.(worker := Idle)
    ensures Step(tx, s, HandlerRaises(error)) ==
            if s.worker == Idle then s
            else s.(worker := Idle, jobs := s.jobs[s.worker.job := s.jobs[s.worker.job].(
                      status := Failed, lastError := Some(error))])
  {
  }

  // ---- Chat jobs ----

  // The payload of a chat job names a session, a message and at least one step.
  predicate IsValidChat(tx: TextLib, p: Payload) {
    && p.ChatPayload?
    && p.sessionId != None && tx.strip(p.sessionId.value) != ""
    && p.message != None && tx.strip(p.message.value) != ""
    && p.maxSteps != None && p.maxSteps.value >= 1
  }

  // Job j is a chat job just claimed, and t what the classifiers read in its message.
  ghost predicate ChatClaimed(tx: TextLib, s: State, j: JobId, t: string) {
    && Inv(s) && s.worker == Claimed(j) && j < |s.jobs| && s.jobs[j].jobType == ChatOrchestrate
    && IsValidChat(tx, s.jobs[j].payload) && t == tx.lower(tx.strip(s.jobs[j].payload.message.value))
  }

  function NewGate(tenant: Option<string>, j: JobId, draft: Option<string>): Approval {
    Approval(tenant, "job.gate", AwaitingDecision, JobRef(j), draft,
             if draft == None then None else Some("email.outbound"), None, None, None)
  }

  // The chat handler up to its first commit of its own.
  lemma ChatStarts(tx: TextLib, s: State, j: JobId, o: Outcome, started: State)
    requires Inv(s) && s.worker == Claimed(j) && j < |s.jobs| && s.jobs[j].jobType == ChatOrchestrate && Usable(o)
    requires started == Work(tx, s, o)
    ensures started == s.(jobs := s.jobs[j := s.jobs[j].(attempts := s.jobs[j].attempts + 1)], worker := Started(j))
    ensures Inv(started) && Busy(started, j) && Finish(tx, s, o) == Finish(tx, started, o)
    ensures var t := StartChat(tx, started, j, o);
            && Inv(t) && (t.worker.Idle? || Busy(t, t.worker.job))
            && Finish(tx, s, o) == Finish(tx, t, o)
  {
    FinishStep(tx, s, o);
    FinishStep(tx, started, o);
  }

  lemma Finishes(tx: TextLib, s: State, o: Outcome)
    requires Inv(s) && s.worker.Finishing? && Busy(s, s.worker.job) && Usable(o)
    ensures var j := s.worker.job;
            Finish(tx, s, o) == s.(jobs := s.jobs[j := s.jobs[j].(status := Succeeded)], worker := Idle)
  {
    FinishStep(tx, s, o);
  }

  // A chat job without a valid payload fails, for the first thing missing, and opens nothing.
  lemma InvalidChatOutcome(tx: TextLib, s: State, j: JobId, o: Outcome)
    requires Inv(s) && s.worker == Claimed(j) && j < |s.jobs| && s.jobs[j].jobType == ChatOrchestrate && Usable(o)
    requires !IsValidChat(tx, s.jobs[j].payload)
    ensures var p := s.jobs[j].payload;
            var error := if !p.ChatPayload? || p.sessionId == None || tx.strip(p.sessionId.value) == ""
                         then "invalid_session_id"
                         else if p.message == None || tx.strip(p.message.value) == "" then "invalid_message"
                         else "invalid_max_steps";
            Finish(tx, s, o) == s.(jobs := s.jobs[j := Ended(s.jobs[j], Failed, Some(error))], worker := Idle)
  {
    ChatStarts(tx, s, j, o, Work(tx, s, o));
  }

  // A message that speaks of destroying is blocked: the job succeeds and nothing is opened.
  lemma BlockedChatOutcome(tx: TextLib, s: State, j: JobId, t: string, o: Outcome)
    requires ChatClaimed(tx, s, j, t) && SaysDestroy(t) && Usable(o)
    ensures Finish(tx, s, o) ==
            s.(jobs := s.jobs[j := Ended(s.jobs[j], Succeeded, s.jobs[j].lastError)], worker := Idle)
  {
    var started := Work(tx, s, o);
    ChatStarts(tx, s, j, o, started);
    DispositionInWords(tx, ChatMessage(tx, s.jobs[j].payload), t);
    Finishes(tx, StartChat(tx, started, j, o), o);
  }

  // A message that speaks of nothing to approve completes ungated; where it is about mail, the
  // connector's failure fails the job.
  lemma UngatedChatOutcome(tx: TextLib, s: State, j: JobId, t: string, o: Outcome)
    requires ChatClaimed(tx, s, j, t) && !SaysDestroy(t) && !SaysPublish(t) && !SaysSend(t) && Usable(o)
    ensures var failed := o.ProviderError? && (SaysRead(t) || SaysMail(t));
            Finish(tx, s, o) == s.(jobs := s.jobs[j :=
              if failed then Ended(s.jobs[j], Failed, Some(o.message))
              else Ended(s.jobs[j], Succeeded, s.jobs[j].lastError)], worker := Idle)
  {
    var started := Work(tx, s, o);
    ChatStarts(tx, s, j, o, started);
    DispositionInWords(tx, ChatMessage(tx, s.jobs[j].payload), t);
    if !StartChat(tx, started, j, o).worker.Idle? {
      Finishes(tx, StartChat(tx, started, j, o), o);
    }
  }

  // A gated message opens a gate for the job before anything else.
  lemma GateOpens(tx: TextLib, s: State, j: JobId, t: string, o: Outcome, gated: State)
    requires ChatClaimed(tx, s, j, t) && !SaysDestroy(t) && (SaysPublish(t) || SaysSend(t)) && Usable(o)
    requires gated == StartChat(tx, Work(tx, s, o), j, o)
    ensures gated == s.(jobs := s.jobs[j := s.jobs[j].(attempts := s.jobs[j].attempts + 1)],
                        approvals := s.approvals + [NewGate(s.jobs[j].tenant, j, None)],
                        worker := Gated(j, |s.approvals|))
    ensures Inv(gated) && Busy(gated, j) && Finish(tx, s, o) == Finish(tx, gated, o)
    ensures DraftsOutbound(tx, ChatMessage(tx, gated.jobs[j].payload)) <==> SaysSend(t)
  {
    ChatStarts(tx, s, j, o, Work(tx, s, o));
    DispositionInWords(tx, ChatMessage(tx, s.jobs[j].payload), t);
  }

  // A message about publishing, or one to send whose draft the connector refuses, leaves a gate
  // without a draft; in the second case the job fails.
  lemma UndraftedChatOutcome(tx: TextLib, s: State, j: JobId, t: string, o: Outcome)
    requires ChatClaimed(tx, s, j, t) && !SaysDestroy(t) && (SaysPublish(t) || SaysSend(t)) && Usable(o)
    requires SaysSend(t) ==> o.ProviderError?
    ensures Finish(tx, s, o) == s.(
              jobs := s.jobs[j := if SaysSend(t) then Ended(s.jobs[j], Failed, Some(o.message))
                                  else Ended(s.jobs[j], Succeeded, s.jobs[j].lastError)],
              approvals := s.approvals + [NewGate(s.jobs[j].tenant, j, None)], worker := Idle)
  {
    var gated := StartChat(tx, Work(tx, s, o), j, o);
    GateOpens(tx, s, j, t, o, gated);
    FinishStep(tx, gated, o);
    if !SaysSend(t) {
      Finishes(tx, Work(tx, gated, o), o);
    }
  }

  // The two commits of a drafted gate: the draft with its workflow, then the delivery row.
  lemma DraftIsStored(tx: TextLib, s: State, draft: string, merged: State)
    requires Inv(s) && s.worker.Gated? && Busy(s, s.worker.job) && s.worker.approval < |s.approvals| && draft != ""
    requires DraftsOutbound(tx, ChatMessage(tx, s.jobs[s.worker.job].payload))
    requires merged == Work(tx, s, ProviderOk(draft))
    ensures var (j, a) := (s.worker.job, s.worker.approval);
            && merged == s.(approvals := s.approvals[a :=
                              s.approvals[a].(draft := Some(draft), workflow := Some("email.outbound"))],
                            worker := Merged(j, a, draft))
            && Inv(merged) && Finish(tx, s, ProviderOk(draft)) == Finish(tx, merged, ProviderOk(draft))
  {
    FinishStep(tx, s, ProviderOk(draft));
  }

  lemma DeliveryIsStored(tx: TextLib, s: State, o: Outcome)
    requires Inv(s) && s.worker.Merged? && Busy(s, s.worker.job) && Usable(o)
    ensures var (j, a) := (s.worker.job, s.worker.approval);
            && a !in s.deliveries
            && Finish(tx, s, o) == s.(
                 jobs := s.jobs[j := s.jobs[j].(status := Succeeded)],
                 deliveries := s.deliveries[a := Delivery(s.jobs[j].tenant, s.worker.draft, None, j, None,
                                                          AwaitingApproval, None)], worker := Idle)
  {
    FinishStep(tx, s, o);
    Finishes(tx, Work(tx, s, o), o);
  }

  lemma GateIsDrafted(tx: TextLib, s: State, draft: string)
    requires Inv(s) && s.worker.Gated? && Busy(s, s.worker.job) && s.worker.approval < |s.approvals| && draft != ""
    requires DraftsOutbound(tx, ChatMessage(tx, s.jobs[s.worker.job].payload))
    ensures var (j, a) := (s.worker.job, s.worker.approval);
            Finish(tx, s, ProviderOk(draft)) == State(
              s.jobs[j := s.jobs[j].(status := Succeeded)],
              s.approvals[a := s.approvals[a].(draft := Some(draft), workflow := Some("email.outbound"))],
              s.deliveries[a := Delivery(s.jobs[j].tenant, draft, None, j, None, AwaitingApproval, None)],
              Idle, s.sends)
  {
    DraftIsStored(tx, s, draft, Work(tx, s, ProviderOk(draft)));
    DeliveryIsStored(tx, Work(tx, s, ProviderOk(draft)), ProviderOk(draft));
  }

  // A message to send whose draft is created: the job succeeded, and there is one gate, with the
  // draft and its workflow, and one delivery row that awaits its approval.
  lemma DraftedChatOutcome(tx: TextLib, s: State, j: JobId, t: string, draft: string)
    requires ChatClaimed(tx, s, j, t) && !SaysDestroy(t) && SaysSend(t) && draft != ""
    ensures var tenant := s.jobs[j].tenant;
            Finish(tx, s, ProviderOk(draft)) == State(
              s.jobs[j := Ended(s.jobs[j], Succeeded, s.jobs[j].lastError)],
              s.approvals + [NewGate(tenant, j, Some(draft))],
              s.deliveries[|s.approvals| := Delivery(tenant, draft, None, j, None, AwaitingApproval, None)],
              Idle, s.sends)
  {
    var gated := StartChat(tx, Work(tx, s, ProviderOk(draft)), j, ProviderOk(draft));
    GateOpens(tx, s, j, t, ProviderOk(draft), gated);
    GateIsDrafted(tx, gated, draft);
  }
}
