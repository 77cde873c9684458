// Whose rows a step of the governed send may touch, and what happens at the edges of the
// fault model.
module SendScope {
  import opened Prelude
  import opened PolicyText
  import opened SendModel
  import opened SendSafety

  // ---- Tenants ----

  ghost predicate JobsUntouched(s: State, t: State, own: Option<string>) {
    && |s.jobs| <= |t.jobs|
    && (forall j :: 0 <= j < |s.jobs| && s.jobs[j].tenant != own ==> t.jobs[j] == s.jobs[j])
    && (forall j :: |s.jobs| <= j < |t.jobs| ==> t.jobs[j].tenant == own)
  }

  ghost predicate ApprovalsUntouched(s: State, t: State, own: Option<string>) {
    && |s.approvals| <= |t.approvals|
    && (forall a :: 0 <= a < |s.approvals| && s.approvals[a].tenant != own ==> t.approvals[a] == s.approvals[a])
    && (forall a :: |s.approvals| <= a < |t.approvals| ==> t.approvals[a].tenant == own)
  }

  ghost predicate DeliveriesUntouched(s: State, t: State, own: Option<string>) {
    && (forall a :: a in s.deliveries ==> a in t.deliveries)
    && (forall a :: a in s.deliveries && s.deliveries[a].tenant != own ==> t.deliveries[a] == s.deliveries[a])
    && (forall a :: a in t.deliveries && a !in s.deliveries ==> t.deliveries[a].tenant == own)
  }

  // Rows of every tenant but `own` are exactly as they were, and new rows are `own`'s.
  ghost predicate OthersUntouched(s: State, t: State, own: Option<string>) {
    JobsUntouched(s, t, own) && ApprovalsUntouched(s, t, own) && DeliveriesUntouched(s, t, own)
  }

  // The tenant on whose behalf a step acts. An API call scoped to a tenant acts for that tenant
  // only; the unscoped operator acts for the tenant of the row; the worker for its job's.
  function ActingFor(s: State, e: Event): Option<string> {
    match e
    case PostChat(tenant, _, _, _) => tenant
    case RequestReview(tenant, _) => tenant
    case ApproveCall(a, scope, _, _) =>
      if scope.Some? then scope else if a < |s.approvals| then s.approvals[a].tenant else None
    case RejectCall(a, scope, _, _) =>
      if scope.Some? then scope else if a < |s.approvals| then s.approvals[a].tenant else None
    case EnqueueCall(a) => if a < |s.approvals| then s.approvals[a].tenant else None
    case RetryCall(j, scope) =>
      if scope.Some? then scope else if j < |s.jobs| then s.jobs[j].tenant else None
    case ClaimNext(now) =>
      var j := OldestEligible(s.jobs, now, 0); if j < |s.jobs| then s.jobs[j].tenant else None
    case WorkOn(_) => WorkerTenant(s)
    case WorkerDies => None
    case HandlerRaises(_) => WorkerTenant(s)
  }

  function WorkerTenant(s: State): Option<string> {
    if !s.worker.Idle? && s.worker.job < |s.jobs| then s.jobs[s.worker.job].tenant else None
  }

  lemma WorkStaysInJobs(tx: TextLib, s: State, o: Outcome)
    ensures JobsUntouched(s, Work(tx, s, o), WorkerTenant(s))
  {
  }

  lemma WorkStaysInApprovals(tx: TextLib, s: State, o: Outcome)
    requires Inv(s)
    ensures ApprovalsUntouched(s, Work(tx, s, o), WorkerTenant(s))
  {
    if !s.worker.Idle? {
      assert JobOk(s, s.worker.job);
    }
  }

  lemma StartingStaysInDeliveries(tx: TextLib, s: State, o: Outcome)
    requires Inv(s) && s.worker.Started?
    ensures DeliveriesUntouched(s, Work(tx, s, o), WorkerTenant(s))
  {
    var j := s.worker.job;
    assert JobOk(s, j);
    if s.jobs[j].jobType == EmailSendApproved {
      SendChecksPass(s);
      var a := SendTarget(s, j).value;
      assert a in s.deliveries ==> DeliveryOk(s, a);
    }
  }

  lemma WorkStaysInDeliveries(tx: TextLib, s: State, o: Outcome)
    requires Inv(s) && !s.worker.Started?
    ensures DeliveriesUntouched(s, Work(tx, s, o), WorkerTenant(s))
  {
    if !s.worker.Idle? {
      assert JobOk(s, s.worker.job);
    }
    forall a | a in s.deliveries && s.deliveries[a].tenant != WorkerTenant(s)
      ensures a in Work(tx, s, o).deliveries && Work(tx, s, o).deliveries[a] == s.deliveries[a]
    {
      assert DeliveryOk(s, a);
    }
  }

  // The calls that may create rows or decide on an approval.
  predicate IsApprovalCall(e: Event) {
    e.RequestReview? || e.ApproveCall? || e.RejectCall?
  }

  lemma ApprovalCallStaysInTenant(tx: TextLib, s: State, e: Event)
    requires IsApprovalCall(e)
    ensures OthersUntouched(s, Step(tx, s, e), ActingFor(s, e))
  {
  }

  lemma JobCallStaysInTenant(tx: TextLib, s: State, e: Event)
    requires !e.WorkOn? && !IsApprovalCall(e)
    ensures OthersUntouched(s, Step(tx, s, e), ActingFor(s, e))
  {
    assert Step(tx, s, e).approvals == s.approvals && Step(tx, s, e).deliveries == s.deliveries;
  }

  lemma CallStaysInTenant(tx: TextLib, s: State, e: Event)
    requires !e.WorkOn?
    ensures OthersUntouched(s, Step(tx, s, e), ActingFor(s, e))
  {
    if IsApprovalCall(e) {
      ApprovalCallStaysInTenant(tx, s, e);
    } else {
      JobCallStaysInTenant(tx, s, e);
    }
  }

  // Every step of every run, whether an API call or the worker deep inside a job, leaves the
  // rows of every other tenant alone.
  lemma StepStaysInTenant(tx: TextLib, s: State, e: Event)
    requires Reachable(tx, s)
    ensures OthersUntouched(s, Step(tx, s, e), ActingFor(s, e))
  {
    ReachableInv(tx, s);
    if e.WorkOn? {
      WorkStaysInJobs(tx, s, e.outcome);
      WorkStaysInApprovals(tx, s, e.outcome);
      if s.worker.Started? {
        StartingStaysInDeliveries(tx, s, e.outcome);
      } else {
        WorkStaysInDeliveries(tx, s, e.outcome);
      }
    } else {
      CallStaysInTenant(tx, s, e);
    }
  }

  // ---- Approving a drafted gate ----

  // A pending gate with a draft can always be approved, and approving it enqueues exactly one
  // send job, however often the enqueue half is repeated.
  lemma ApprovingDraftEnqueuesOne(tx: TextLib, s: State, a: ApprovalId, scope: Option<string>, actor: string,
                                  note: Option<string>)
    requires Reachable(tx, s) && a < |s.approvals|
    requires s.approvals[a].status == AwaitingDecision && s.approvals[a].draft.Some?
    requires InScope(s.approvals[a].tenant, scope)
    ensures var (t, r) := Approve(s, a, scope, actor, note); var u := EnqueueAfterApproval(t, a);
            && r == Ok(a)
            && |u.jobs| == |s.jobs| + 1
            && (forall j :: 0 <= j < |s.jobs| ==> u.jobs[j] == s.jobs[j] && u.jobs[j].sendKey != Some(a))
            && u.jobs[|s.jobs|].sendKey == Some(a) && u.jobs[|s.jobs|].status == Pending
            && EnqueueAfterApproval(u, a) == u
  {
    ReachableInv(tx, s);
    assert ApprovalOk(s, a);
    forall j | 0 <= j < |s.jobs| ensures s.jobs[j].sendKey != Some(a) {
      assert JobOk(s, j);
    }
  }

  // When the draft call at the gate of an outbound message succeeds, the approval carries the
  // draft and the workflow that make it enqueueable.
  lemma DraftMakesGateSendable(tx: TextLib, s: State, draft: string)
    requires Reachable(tx, s) && s.worker.Gated? && s.worker.job < |s.jobs| && draft != ""
    requires DraftsOutbound(tx, ChatMessage(tx, s.jobs[s.worker.job].payload))
    ensures var t := Work(tx, s, ProviderOk(draft));
            s.worker.approval < |t.approvals| && ShouldEnqueue(t.approvals[s.worker.approval])
  {
    ReachableInv(tx, s);
  }

  // ---- The edges of the fault model ----

  lemma LateExceptionThenRetry(s: State, error: string)
    requires Inv(s) && s.worker.Accepted?
    ensures s.worker.job < |s.jobs|
    ensures RetryFailedJob(HandlerRaised(s, error), s.worker.job, None).0 ==
            SetJob(s, s.worker.job, Pending, None).(worker := Idle)
  {
    var a := s.worker.approval;
    assert JobOk(s, s.worker.job);
    assert a in s.deliveries ==> DeliveryOk(s, a);
  }

  // An exception, an operator retry, and the worker's next two commits and provider call.
  function RaiseThenRetry(tx: TextLib, s: State, now: int, error: string, second: string): State {
    var j := if s.worker.Idle? then 0 else s.worker.job;
    var raised := Step(tx, s, HandlerRaises(error));
    var retried := Step(tx, raised, RetryCall(j, None));
    var claimed := Step(tx, retried, ClaimNext(now));
    var started := Step(tx, claimed, WorkOn(ProviderError("")));
    Step(tx, started, WorkOn(ProviderOk(second)))
  }

  lemma RaiseThenRetryIs(tx: TextLib, s: State, now: int, error: string, second: string)
    requires !s.worker.Idle?
    ensures var retried := RetryFailedJob(HandlerRaised(s, error), s.worker.job, None).0;
            RaiseThenRetry(tx, s, now, error, second) ==
            Work(tx, Work(tx, Claim(retried, now), ProviderError("")), ProviderOk(second))
  {
  }

  ghost predicate Undelayed(s: State) {
    forall j :: 0 <= j < |s.jobs| ==> s.jobs[j].runAfter.None?
  }

  lemma WorkDelaysNothing(tx: TextLib, s: State, o: Outcome)
    requires Undelayed(s)
    ensures Undelayed(Work(tx, s, o))
  {
  }

  lemma StepDelaysNothing(tx: TextLib, s: State, e: Event)
    requires Undelayed(s)
    ensures Undelayed(Step(tx, s, e))
  {
    if e.WorkOn? {
      WorkDelaysNothing(tx, s, e.outcome);
    } else if IsApprovalCall(e) {
      assert Step(tx, s, e).jobs == s.jobs;
    }
  }

  lemma {:induction false} TraceDelaysNothing(tx: TextLib, es: seq<Event>, trace: seq<State>, k: nat)
    requires IsTrace(tx, es, trace) && k <= |es|
    ensures Undelayed(trace[k])
  {
    if k > 0 {
      TraceDelaysNothing(tx, es, trace, k - 1);
      assert Follows(tx, trace[k - 1], es[k - 1], trace[k]);
      StepDelaysNothing(tx, trace[k - 1], es[k - 1]);
    }
  }

  // Nothing ever sets run_after: no job of a reachable state waits for a date.
  lemma NoJobIsDelayed(tx: TextLib, s: State, j: JobId)
    requires Reachable(tx, s) && j < |s.jobs|
    ensures s.jobs[j].runAfter.None?
  {
    var es, trace :| IsTrace(tx, es, trace) && s == trace[|es|];
    TraceDelaysNothing(tx, es, trace, |es|);
  }

  // The one excluded fault is excluded for a reason: in every reachable state in which the
  // provider has accepted a message that is not yet recorded, an exception there lets an
  // operator retry send a second message for the same approval, as soon as no older job is due.
  lemma LateExceptionSendsTwice(tx: TextLib, s: State, now: int, error: string, second: string)
    requires Reachable(tx, s) && s.worker.Accepted?
    requires forall j :: 0 <= j < |s.jobs| && j < s.worker.job ==> !Eligible(s.jobs[j], now)
    ensures WasSent(s, s.worker.approval, s.worker.messageId)
    ensures var t := RaiseThenRetry(tx, s, now, error, second);
            && |t.sends| == |s.sends| + 1 && s.sends <= t.sends
            && t.sends[|s.sends|].approval == s.worker.approval && t.sends[|s.sends|].messageId == second
  {
    ReachableInv(tx, s);
    NoJobIsDelayed(tx, s, s.worker.job);
    LateExceptionThenRetry(s, error);
    RaiseThenRetryIs(tx, s, now, error, second);
    RetriedSends(tx, s, now, second);
  }

  lemma RetriedSends(tx: TextLib, s: State, now: int, second: string)
    requires Inv(s) && s.worker.Accepted? && s.jobs[s.worker.job].runAfter.None?
    requires forall j :: 0 <= j < s.worker.job ==> !Eligible(s.jobs[j], now)
    ensures var j, a := s.worker.job, s.worker.approval;
            var u := SetJob(s, j, Pending, None).(worker := Idle);
            var t := Work(tx, Work(tx, Claim(u, now), ProviderError("")), ProviderOk(second));
            s.approvals[a].draft.Some? && t.sends == s.sends + [Send(a, j, s.approvals[a].draft.value, second)]
  {
    var j := s.worker.job;
    assert JobOk(s, j);
    var u := SetJob(s, j, Pending, None).(worker := Idle);
    assert forall i :: 0 <= i < j ==> u.jobs[i] == s.jobs[i];
    assert Eligible(u.jobs[j], now);
    assert OldestEligible(u.jobs, now, 0) == j;
    assert SendTarget(u, j) == Ok(s.worker.approval);
  }

  // A worker that dies between the draft merge and the delivery insert loses the delivery row
  // for good, whatever happens afterwards: later sends of that approval leave no row.
  lemma {:induction false} LostDeliveryStaysLost(tx: TextLib, s: State, es: seq<Event>, a: ApprovalId)
    requires Lost(s, a)
    ensures Lost(Run(tx, s, es), a)
  {
    if es != [] {
      var n := |es| - 1;
      LostDeliveryStaysLost(tx, s, es[..n], a);
      LostDeliveryStep(tx, Run(tx, s, es[..n]), es[n], a);
    }
  }

  ghost predicate Lost(s: State, a: ApprovalId) {
    && a < |s.approvals| && a !in s.deliveries
    && ((s.worker.Gated? || s.worker.Merged?) ==> s.worker.approval != a)
  }

  lemma LostDeliveryStep(tx: TextLib, s: State, e: Event, a: ApprovalId)
    requires Lost(s, a)
    ensures Lost(Step(tx, s, e), a)
  {
    if e.WorkOn? {
      if s.worker.Started? {
        LostDeliveryAtStart(tx, s, e.outcome, a);
      } else {
        LostDeliveryAtWork(tx, s, e.outcome, a);
      }
    }
  }

  lemma LostDeliveryAtStart(tx: TextLib, s: State, o: Outcome, a: ApprovalId)
    requires Lost(s, a) && s.worker.Started?
    ensures Lost(Work(tx, s, o), a)
  {
  }

  lemma LostDeliveryAtWork(tx: TextLib, s: State, o: Outcome, a: ApprovalId)
    requires Lost(s, a) && !s.worker.Started?
    ensures Lost(Work(tx, s, o), a)
  {
  }
}
