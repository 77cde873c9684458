// The text gate end to end: an outbound message, from the claimed chat job to the send job that
// approving its draft enqueues.
module SendGate {
  import opened Prelude
  import opened PolicyText
  import opened SendModel
  import opened SendSafety
  import opened SendScope
  import opened SendDrain

  // Job j is a valid chat job just claimed, for a message the policy routes to outbound_send.
  ghost predicate OutboundChat(tx: TextLib, s: State, j: JobId) {
    && s.worker == Claimed(j) && j < |s.jobs| && s.jobs[j].jobType == ChatOrchestrate
    && ChatPayloadError(tx, s.jobs[j].payload).None?
    && ClassifyCategory(tx, ChatMessage(tx, s.jobs[j].payload)) == OutboundSend
  }

  // The gate that handling such a job leaves behind.
  function DraftedGate(job: Job, j: JobId, draft: string): Approval {
    Approval(job.tenant, GATE_KIND, AwaitingDecision, JobRef(j), Some(draft), Some(OUTBOUND_WORKFLOW), None, None, None)
  }

  // ---- Handling, commit by commit ----

  // The five commits of a handled outbound chat job, the provider creating the draft.
  function Handled(tx: TextLib, s: State, draft: string): State {
    var o := ProviderOk(draft);
    Work(tx, Work(tx, Work(tx, Work(tx, Work(tx, s, o), o), o), o), o)
  }

  lemma HandledLeavesGate(tx: TextLib, s: State, j: JobId, draft: string)
    requires OutboundChat(tx, s, j)
    ensures var t := Handled(tx, s, draft); var a := |s.approvals|;
            && t.worker.Idle? && j < |t.jobs| && t.jobs[j].status == Succeeded
            && t.approvals == s.approvals + [DraftedGate(s.jobs[j], j, draft)]
            && a in t.deliveries
  {
    var o := ProviderOk(draft);
    OutboundIsGated(tx, ChatMessage(tx, s.jobs[j].payload));
  }

  lemma HandledIsReachable(tx: TextLib, s: State, draft: string)
    requires Reachable(tx, s) && draft != ""
    ensures Reachable(tx, Handled(tx, s, draft))
  {
    var o := ProviderOk(draft);
    var e := WorkOn(o);
    var s1 := Work(tx, s, o);
    var s2 := Work(tx, s1, o);
    var s3 := Work(tx, s2, o);
    ReachableStep(tx, s, e);
    ReachableStep(tx, s1, e);
    ReachableStep(tx, s2, e);
    ReachableStep(tx, s3, e);
    ReachableStep(tx, Work(tx, s3, o), e);
  }

  lemma {:induction false} RunStaysReachable(tx: TextLib, s: State, es: seq<Event>)
    requires Reachable(tx, s) && ToleratedRun(tx, s, es)
    ensures Reachable(tx, Run(tx, s, es))
  {
    if es != [] {
      RunStaysReachable(tx, s, es[..|es| - 1]);
      ReachableStep(tx, Run(tx, s, es[..|es| - 1]), es[|es| - 1]);
    }
  }

  // The worker left alone handles the job in exactly those five commits.
  lemma FinishIsHandled(tx: TextLib, s: State, j: JobId, draft: string)
    requires Inv(s) && OutboundChat(tx, s, j) && draft != ""
    ensures Finish(tx, s, ProviderOk(draft)) == Handled(tx, s, draft)
  {
    var o := ProviderOk(draft);
    HandledLeavesGate(tx, s, j, draft);
    OutboundIsGated(tx, ChatMessage(tx, s.jobs[j].payload));
    var s1 := Work(tx, s, o);
    var s2 := Work(tx, s1, o);
    var s3 := Work(tx, s2, o);
    FinishStep(tx, s, o);
    FinishStep(tx, s1, o);
    FinishStep(tx, s2, o);
    FinishStep(tx, s3, o);
    FinishStep(tx, Work(tx, s3, o), o);
  }

  // End to end: a message the policy routes to outbound_send, whose draft is created, ends as a
  // succeeded chat job with one new gate; and whatever happens afterwards, as long as nobody has
  // decided on that gate, approving it succeeds and enqueues exactly one send job.
  lemma OutboundChatEndsSendable(tx: TextLib, s: State, j: JobId, draft: string, es: seq<Event>, later: State,
                                 scope: Option<string>, actor: string, note: Option<string>)
    requires Reachable(tx, s) && Inv(s) && OutboundChat(tx, s, j) && draft != ""
    requires var t := Finish(tx, s, ProviderOk(draft)); ToleratedRun(tx, t, es) && later == Run(tx, t, es)
    requires InScope(s.jobs[j].tenant, scope)
    ensures var t := Finish(tx, s, ProviderOk(draft));
            && t.worker.Idle? && j < |t.jobs| && t.jobs[j].status == Succeeded
            && t.approvals == s.approvals + [DraftedGate(s.jobs[j], j, draft)]
    ensures var a := |s.approvals|;
            a < |later.approvals| &&
            (later.approvals[a].status == AwaitingDecision ==>
               var (approved, r) := Approve(later, a, scope, actor, note); var u := EnqueueAfterApproval(approved, a);
               && r == Ok(a)
               && |u.jobs| == |later.jobs| + 1
               && (forall i :: 0 <= i < |later.jobs| ==> u.jobs[i] == later.jobs[i] && u.jobs[i].sendKey != Some(a))
               && u.jobs[|later.jobs|].sendKey == Some(a) && u.jobs[|later.jobs|].status == Pending
               && EnqueueAfterApproval(u, a) == u)
  {
    var a := |s.approvals|;
    var t := Finish(tx, s, ProviderOk(draft));
    FinishIsHandled(tx, s, j, draft);
    HandledLeavesGate(tx, s, j, draft);
    HandledIsReachable(tx, s, draft);
    ReachableInv(tx, t);
    RunUndoesNothing(tx, t, es);
    RunStaysReachable(tx, t, es);
    assert ApprovalStands(t.approvals[a], later.approvals[a]);
    if later.approvals[a].status == AwaitingDecision {
      ApprovingDraftEnqueuesOne(tx, later, a, scope, actor, note);
    }
  }
}
