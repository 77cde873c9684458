// The same services over mutable tables, written the way the source runs them: each method
// ends where the source commits, and its contract is the step it takes in SendModel.
module SendService {
  import opened Prelude
  import opened PolicyText
  import opened SendModel
  import opened SendSafety
  import opened SendDrain

  class ControlPlane {
    var jobs: seq<Job>
    var approvals: seq<Approval>
    var deliveries: map<ApprovalId, Delivery>
    // Bookkeeping: where the worker stands and what the provider has accepted.
    var worker: Worker
    var sends: seq<Send>

    function View(): State
      reads this
    {
      State(jobs, approvals, deliveries, worker, sends)
    }

    constructor ()
      ensures View() == EMPTY
    {
      jobs, approvals, deliveries, worker, sends := [], [], map[], Idle, [];
    }

    // ---- API calls ----

    method ApproveRequest(a: ApprovalId, scope: Option<string>, actor: string, note: Option<string>)
      returns (r: Result<ApprovalId, string>)
      modifies this
      ensures (View(), r) == Approve(old(View()), a, scope, actor, note)
    {
      if a >= |approvals| || (scope.Some? && approvals[a].tenant != scope) {
        return Err("approval_not_found");
      }
      var row := approvals[a];
      if row.status != AwaitingDecision {
        return Err("approval_not_pending");
      }
      if Truthy(row.draft) {
        var error := GateError(View(), row);
        if error.Some? {
          return Err(error.value);
        }
      }
      approvals := approvals[a := row.(decision := Some(Decision(Approved, actor, note)), status := Approved)];
      return Ok(a);
    }

    method RejectRequest(a: ApprovalId, scope: Option<string>, actor: string, reason: string)
      returns (r: Result<ApprovalId, string>)
      modifies this
      ensures (View(), r) == Reject(old(View()), a, scope, actor, reason)
    {
      if a >= |approvals| || (scope.Some? && approvals[a].tenant != scope) {
        return Err("approval_not_found");
      }
      var row := approvals[a];
      if row.status != AwaitingDecision {
        return Err("approval_not_pending");
      }
      approvals := approvals[a := row.(decision := Some(Decision(Rejected, actor, Some(reason))), status := Rejected)];
      return Ok(a);
    }

    method FindSendJob(a: ApprovalId) returns (j: nat)
      ensures j == SendJobOf(jobs, a, 0)
    {
      j := 0;
      while j < |jobs| && jobs[j].sendKey != Some(a)
        invariant j <= |jobs| && SendJobOf(jobs, a, 0) == SendJobOf(jobs, a, j)
      {
        j := j + 1;
      }
    }

    method EnqueueEmailSendJob(a: ApprovalId) returns (r: Result<JobId, string>)
      requires a < |approvals|
      modifies this
      ensures (View(), r) == EnqueueSendJob(old(View()), a)
    {
      var error := EligibilityError(View(), approvals[a]);
      if error.Some? {
        return Err(error.value);
      }
      var existing := FindSendJob(a);
      if existing < |jobs| {
        return Ok(existing);
      }
      var id := |jobs|;
      var tenant := approvals[a].tenant;
      jobs := jobs + [Job(EmailSendApproved, tenant, Pending, Some(a), SendPayload(Some(a)), 0, None, None)];
      return Ok(id);
    }

    // POST /approvals/{id}/approve: decide, then enqueue if there is a draft to send.
    method ApproveEndpoint(a: ApprovalId, scope: Option<string>, actor: string, note: Option<string>)
      returns (r: Result<ApprovalId, string>)
      modifies this
      ensures r == Approve(old(View()), a, scope, actor, note).1
      ensures View() == if r.Ok? then EnqueueAfterApproval(Approve(old(View()), a, scope, actor, note).0, a)
                        else old(View())
    {
      r := ApproveRequest(a, scope, actor, note);
      if r.Ok? && ShouldEnqueue(approvals[a]) {
        var enqueued := EnqueueEmailSendJob(a);
      }
    }

    method RetryJob(j: JobId, scope: Option<string>) returns (r: Result<JobId, string>)
      modifies this
      ensures (View(), r) == RetryFailedJob(old(View()), j, scope)
    {
      if j >= |jobs| || (scope.Some? && jobs[j].tenant != scope) {
        return Err("job_not_found");
      }
      if jobs[j].jobType != EmailSendApproved {
        return Err("job_not_retryable");
      }
      if jobs[j].status != Failed {
        return Err("job_not_failed");
      }
      var blocked := RetryBlocked(View(), jobs[j]);
      if blocked.Some? {
        return Err(blocked.value);
      }
      jobs := jobs[j := jobs[j].(status := Pending, lastError := None)];
      return Ok(j);
    }

    // ---- The worker ----

    // claim_next_pending: scan in creation order for the first eligible job.
    method ClaimNextPending(now: int) returns (claimed: Option<JobId>)
      requires worker.Idle?
      modifies this
      ensures View() == Claim(old(View()), now)
      ensures claimed == if OldestEligible(old(jobs), now, 0) == |jobs| then None
                         else Some(OldestEligible(old(jobs), now, 0))
    {
      var j := 0;
      while j < |jobs| && !Eligible(jobs[j], now)
        invariant j <= |jobs| && OldestEligible(jobs, now, 0) == OldestEligible(jobs, now, j)
      {
        j := j + 1;
      }
      if j == |jobs| {
        return None;
      }
      jobs, worker := jobs[j := jobs[j].(status := Running)], Claimed(j);
      return Some(j);
    }

    method FailJob(j: JobId, error: string)
      requires j < |jobs|
      modifies this
      ensures View() == MarkJobFailed(old(View()), j, error)
    {
      jobs := jobs[j := jobs[j].(status := Failed, lastError := Some(error))];
    }

    method DeliverySent(a: ApprovalId, j: JobId, m: string)
      modifies this
      ensures View() == MarkDeliverySent(old(View()), a, j, m)
    {
      if a in deliveries {
        deliveries := deliveries[a := deliveries[a].(
                        messageId := Some(m), executionJob := Some(j), status := Sent, lastError := None)];
      }
    }

    // mark_job_failed, then _audit_send_job_failed.
    method FailSendJob(tx: TextLib, j: JobId, error: string, o: Outcome)
      requires worker == Started(j) && j < |jobs|
      modifies this
      ensures View() == Work(tx, FailSend(old(View()), j, error), o)
    {
      var linked := PayloadApproval(jobs[j].payload);
      FailJob(j, error);
      worker := Failing(j, linked, error);
      if linked.Some? && linked.value in deliveries {
        var a := linked.value;
        deliveries := deliveries[a := deliveries[a].(
                        executionJob := Some(j), status := DeliveryFailed, lastError := Some(error))];
      }
      worker := Idle;
    }

    // What follows an accepted message: the id on the approval, the delivery row, the job.
    method RecordSend(tx: TextLib, j: JobId, a: ApprovalId, m: string, o: Outcome)
      requires worker == Accepted(j, a, m) && j < |jobs| && a < |approvals|
      modifies this
      ensures View() == Work(tx, Work(tx, Work(tx, old(View()), o), o), o)
    {
      approvals := approvals[a := approvals[a].(messageId := Some(m), sendStatus := Some("sent"))];
      worker := Recorded(j, a, m);
      assert View() == Work(tx, old(View()), o);
      ghost var recorded := View();
      DeliverySent(a, j, m);
      worker := Finishing(j);
      assert View() == Work(tx, recorded, o);
      ghost var finishing := View();
      jobs, worker := jobs[j := jobs[j].(status := Succeeded)], Idle;
      assert View() == Work(tx, finishing, o);
    }

    method FinishJob(tx: TextLib, j: JobId, o: Outcome)
      requires Inv(View()) && Usable(o) && worker == Finishing(j) && j < |jobs|
      modifies this
      ensures View() == Finish(tx, old(View()), o)
    {
      jobs, worker := jobs[j := jobs[j].(status := Succeeded)], Idle;
    }

    // run_send_approved_job from the validations on.
    method RunSendApprovedJob(tx: TextLib, j: JobId, o: Outcome)
      requires Inv(View()) && Usable(o) && worker == Started(j)
      requires j < |jobs| && jobs[j].jobType == EmailSendApproved
      modifies this
      ensures View() == Finish(tx, old(View()), o)
    {
      ghost var next := Work(tx, View(), o);
      FinishStep(tx, View(), o);
      assert next == StartSend(View(), j, o);
      var target := SendTarget(View(), j);
      if target.Err? {
        FailSendJob(tx, j, target.error, o);
        return;
      }
      var a := target.value;
      var row := approvals[a];
      if Truthy(row.messageId) {
        DeliverySent(a, j, row.messageId.value);
        worker := Finishing(j);
        FinishJob(tx, j, o);
      } else if o.ProviderError? {
        FailSendJob(tx, j, o.message, o);
      } else {
        sends, worker := sends + [Send(a, j, row.draft.value, o.id)], Accepted(j, a, o.id);
        FinishAccepted(tx, next, o);
        RecordSend(tx, j, a, o.id, o);
      }
    }

    // _handle_email_send_approved: the straight-line handler, left undisturbed, does exactly
    // what the worker machine does when it runs until idle.
    method HandleEmailSendApproved(tx: TextLib, j: JobId, o: Outcome)
      requires Inv(View()) && Usable(o) && worker == Claimed(j)
      requires j < |jobs| && jobs[j].jobType == EmailSendApproved
      modifies this
      ensures View() == Finish(tx, old(View()), o)
    {
      FinishStep(tx, View(), o);
      jobs, worker := jobs[j := jobs[j].(attempts := jobs[j].attempts + 1)], Started(j);
      RunSendApprovedJob(tx, j, o);
    }

    // The outbound half of enrich_orchestrate_result: draft, merge, delivery row.
    method DraftForGate(tx: TextLib, j: JobId, a: ApprovalId, o: Outcome)
      requires Inv(View()) && Usable(o) && worker == Gated(j, a)
      requires j < |jobs| && a < |approvals|
      modifies this
      ensures View() == Finish(tx, old(View()), o)
    {
      FinishStep(tx, View(), o);
      if !DraftsOutbound(tx, ChatMessage(tx, jobs[j].payload)) {
        worker := Finishing(j);
      } else if o.ProviderError? {
        FailJob(j, o.message);
        worker := Idle;
        return;
      } else {
        approvals := approvals[a := approvals[a].(draft := Some(o.id), workflow := Some(OUTBOUND_WORKFLOW))];
        worker := Merged(j, a, o.id);
        FinishStep(tx, View(), o);
        deliveries := deliveries[a := Delivery(jobs[j].tenant, o.id, None, j, None, AwaitingApproval, None)];
        worker := Finishing(j);
      }
      FinishJob(tx, j, o);
    }

    // execute_chat_orchestrate's gate: open the approval, then draft for it.
    method OpenGate(tx: TextLib, j: JobId, o: Outcome)
      requires Inv(View()) && Usable(o) && worker == Started(j)
      requires j < |jobs| && jobs[j].jobType == ChatOrchestrate && ChatPayloadError(tx, jobs[j].payload).None?
      requires Dispose(tx, ChatMessage(tx, jobs[j].payload)) == NeedsApproval
      modifies this
      ensures View() == Finish(tx, old(View()), o)
    {
      FinishStep(tx, View(), o);
      var a := |approvals|;
      approvals := approvals + [Approval(jobs[j].tenant, GATE_KIND, AwaitingDecision, JobRef(j),
                                         None, None, None, None, None)];
      worker := Gated(j, a);
      DraftForGate(tx, j, a, o);
    }

    // A chat job that needs no approval: blocked, or completed unless the mailbox call fails.
    method EndUngated(tx: TextLib, j: JobId, o: Outcome)
      requires Inv(View()) && Usable(o) && worker == Started(j)
      requires j < |jobs| && jobs[j].jobType == ChatOrchestrate && ChatPayloadError(tx, jobs[j].payload).None?
      requires Dispose(tx, ChatMessage(tx, jobs[j].payload)) != NeedsApproval
      modifies this
      ensures View() == Finish(tx, old(View()), o)
    {
      FinishStep(tx, View(), o);
      var message := ChatMessage(tx, jobs[j].payload);
      if Dispose(tx, message) == Completed && IsEmailRelated(tx, message) && o.ProviderError? {
        FailJob(j, o.message);
        worker := Idle;
      } else {
        worker := Finishing(j);
        FinishJob(tx, j, o);
      }
    }

    // _handle_chat_orchestrate with execute_chat_orchestrate: validate, classify, evaluate.
    method HandleChatOrchestrate(tx: TextLib, j: JobId, o: Outcome)
      requires Inv(View()) && Usable(o) && worker == Claimed(j)
      requires j < |jobs| && jobs[j].jobType == ChatOrchestrate
      modifies this
      ensures View() == Finish(tx, old(View()), o)
    {
      FinishStep(tx, View(), o);
      jobs, worker := jobs[j := jobs[j].(attempts := jobs[j].attempts + 1)], Started(j);
      var bad := ChatPayloadError(tx, jobs[j].payload);
      if bad.Some? {
        FinishStep(tx, View(), o);
        FailJob(j, bad.value);
        worker := Idle;
      } else if Dispose(tx, ChatMessage(tx, jobs[j].payload)) == NeedsApproval {
        OpenGate(tx, j, o);
      } else {
        EndUngated(tx, j, o);
      }
    }

    // poll_once: at most one job, dispatched by type.
    method PollOnce(tx: TextLib, now: int, o: Outcome) returns (worked: bool)
      requires Inv(View()) && worker.Idle? && Usable(o)
      modifies this
      ensures View() == Poll(tx, old(View()), now, o)
      ensures worked == (EligibleJobs(old(jobs), now, 0) != [])
    {
      OldestIsFirst(jobs, now, 0);
      EligibleInRange(jobs, now, 0);
      ClaimKeepsInv(View(), now);
      var claimed := ClaimNextPending(now);
      if claimed.None? {
        return false;
      }
      var j := claimed.value;
      match jobs[j].jobType {
        case ChatOrchestrate =>
          HandleChatOrchestrate(tx, j, o);
        case EmailSendApproved =>
          HandleEmailSendApproved(tx, j, o);
        case UnknownType(name) =>
          FinishStep(tx, View(), o);
          FailJob(j, "unknown_job_type:" + name);
          worker := Idle;
      }
      return true;
    }

    // The loop of run_forever until a poll finds no work: it handles exactly the jobs that were
    // eligible, each once, in creation order, leaves each succeeded or failed, and touches no
    // other job.
    method Drain(tx: TextLib, now: int, provider: nat -> Outcome) returns (handled: nat)
      requires Inv(View()) && worker.Idle? && forall n: nat :: Usable(provider(n))
      modifies this
      ensures Inv(View()) && worker.Idle?
      ensures handled == |EligibleJobs(old(jobs), now, 0)| && EligibleJobs(jobs, now, 0) == []
      ensures Drained(old(jobs), jobs, EligibleJobs(old(jobs), now, 0))
    {
      ghost var todo := EligibleJobs(jobs, now, 0);
      handled := 0;
      var worked := true;
      while worked
        invariant Draining(old(jobs), View(), now, todo, handled)
        invariant !worked ==> handled == |todo|
        decreases |todo| - handled, worked
      {
        PollAdvances(tx, old(jobs), View(), now, provider(handled), todo, handled);
        worked := PollOnce(tx, now, provider(handled));
        if worked {
          handled := handled + 1;
        }
      }
      assert todo[..handled] == todo;
    }
  }
}
