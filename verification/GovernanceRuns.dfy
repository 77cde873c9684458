// Runs of vendor reviews, with submissions that die after any commit: what a submission has
// written after each of them, and what every run keeps true of every review.
module GovernanceRuns {
  import opened Prelude
  import opened EvidenceGraph
  import opened Governance
  import PolicyText
  import PolicyRegistry
  import PolicyRuns

  // ---- What a submission commits ----

  // The audit event of the k-th commit, if it is one.
  function EntryAt(p: Plan, k: nat): seq<Entry> {
    if k == 3 then [Entry(p.action.id, ReviewSubmitted)]
    else if k == 4 then [Entry(p.action.id, PolicyEvaluated)]
    else if k == 5 then [Entry(p.action.id, RiskClassified)]
    else if k == 7 && p.gate.Some? then [Entry(p.gate.value.id, ApprovalCreated)]
    else if k == 9 then [Entry(p.action.id, p.outcome)]
    else []
  }

  function TrailUpTo(p: Plan, n: nat): seq<Entry> {
    if n == 0 then [] else TrailUpTo(p, n - 1) + EntryAt(p, n)
  }

  // The new action's row after n commits.
  function RowAfter(p: Plan, n: nat): Rec<Action> {
    if p.gate.Some? && n >= LINK_COMMIT then WithLink(p.action, p.gate.value.id) else p.action
  }

  ghost predicate RowsUpTo(p: Plan, w: World, n: nat, t: World) {
    && t.policies == w.policies
    && t.store.actions == (if n >= 1 then w.store.actions + [RowAfter(p, n)] else w.store.actions)
    && t.store.approvals == (if n >= 6 && p.gate.Some? then w.store.approvals + [p.gate.value] else w.store.approvals)
    && t.store == w.store.(
         actions := t.store.actions, approvals := t.store.approvals,
         assessments := if n >= 2 then w.store.assessments + [p.assessment] else w.store.assessments,
         artifacts := if n >= 10 then w.store.artifacts + [p.artifact] else w.store.artifacts)
  }

  lemma RowsStep(p: Plan, w: World, n: nat, t: World)
    requires !Has(w.store.actions, p.action.id) && RowsUpTo(p, w, n, t)
    ensures RowsUpTo(p, w, n + 1, Commit(p, t, n + 1))
  {
  }

  lemma {:induction false} RowsCommitted(p: Plan, w: World, n: nat)
    requires !Has(w.store.actions, p.action.id)
    ensures RowsUpTo(p, w, n, Committed(p, w, n))
  {
    if n > 0 {
      RowsCommitted(p, w, n - 1);
      RowsStep(p, w, n - 1, Committed(p, w, n - 1));
    }
  }

  lemma {:induction false} TrailCommitted(p: Plan, w: World, n: nat)
    ensures Committed(p, w, n).trail == w.trail + TrailUpTo(p, n)
  {
    if n > 0 {
      TrailCommitted(p, w, n - 1);
      assert Commit(p, Committed(p, w, n - 1), n).trail == Committed(p, w, n - 1).trail + EntryAt(p, n);
    }
  }

  // ---- The invariant ----

  // The review's approval is there, in its tenant and in one of its three states.
  ghost predicate GateStands(s: Store, a: Rec<Action>)
    requires a.body.approvalId.Some?
  {
    var p := Get(s.approvals, a.body.approvalId.value);
    && a.body.approvalId.value != "" && p.Some? && p.value.tenant == a.tenant
    && (p.value.body.status == "pending" || p.value.body.status == "approved" || p.value.body.status == "rejected")
  }

  // What every store keeps true of every review, complete or not.
  ghost predicate ReviewOk(s: Store, a: Rec<Action>) {
    && !a.body.blocked
    && (if Overridable(a.body.riskLevel)
        then (a.body.status == "pending_approval" || a.body.status == OVERRIDE_RECORDED) &&
             (a.body.approvalId.Some? ==> GateStands(s, a))
        else a.body.status == "cleared" && a.body.approvalId.None?)
  }

  ghost predicate BoundOk(policies: seq<PolicyRegistry.Policy>, a: Rec<Action>) {
    a.body.policyVersion.Some? &&
    PolicyRuns.Registered(policies, a.tenant,
                          PolicyRegistry.Binding(a.body.policyVersionId, a.body.policyVersion.value))
  }

  ghost predicate ReviewsOk(w: World) {
    forall i :: 0 <= i < |w.store.actions| && w.store.actions[i].body.actionType == REVIEW ==>
      ReviewOk(w.store, w.store.actions[i]) && BoundOk(w.policies, w.store.actions[i])
  }

  ghost predicate Inv(w: World) {
    UniqueIds(w.store.actions) && UniqueIds(w.store.approvals) && ReviewsOk(w) && TrailKnown(w)
  }

  ghost predicate Initial(w: World) {
    && UniqueIds(w.store.actions) && UniqueIds(w.store.approvals) && w.trail == []
    && forall i :: 0 <= i < |w.store.actions| ==> w.store.actions[i].body.actionType != REVIEW
  }

  // ---- Preservation ----

  lemma GetHas<T>(rows: Table<T>, id: string)
    ensures Get(rows, id).Some? <==> Has(rows, id)
  {
    GetFinds(rows, id);
  }

  lemma GateSurvivesAppend(s: Store, t: Store, p: Rec<ApprovalRow>, a: Rec<Action>)
    requires t.approvals == s.approvals + [p] && !Has(s.approvals, p.id)
    requires ReviewOk(s, a)
    ensures ReviewOk(t, a)
  {
    if a.body.approvalId.Some? {
      GetHas(s.approvals, a.body.approvalId.value);
    }
  }

  // What a plan decides for its review.
  lemma PlanFits(tx: PolicyText.TextLib, policies: seq<PolicyRegistry.Policy>, r: Submission)
    requires PlainText(tx)
    ensures var p := PlanOf(tx, policies, r);
            && (p.gate.Some? <==> RequiresApproval(tx, r.intake))
            && (p.gate.Some? <==> Overridable(p.action.body.riskLevel))
            && p.action.body.status == (if p.gate.Some? then "pending_approval" else "cleared")
            && p.outcome == (if p.gate.Some? then ApprovalRequired else AutoCleared)
            && !p.action.body.blocked && BoundOk(policies, p.action)
  {
    GateIsCoherent(tx, r.intake);
    PolicyRuns.InEffectIsRegistered(policies, r.tenant);
  }

  lemma NewReviewOk(tx: PolicyText.TextLib, w: World, r: Submission, n: nat, t: World)
    requires PlainText(tx) && FreshKeys(w.store, r) && RowsUpTo(PlanOf(tx, w.policies, r), w, n, t) && n >= 1
    ensures var a := RowAfter(PlanOf(tx, w.policies, r), n);
            ReviewOk(t.store, a) && BoundOk(t.policies, a)
  {
    var p := PlanOf(tx, w.policies, r);
    PlanFits(tx, w.policies, r);
  }

  lemma OldReviewsOk(p: Plan, w: World, n: nat, t: World, a: Rec<Action>)
    requires p.gate.Some? ==> !Has(w.store.approvals, p.gate.value.id)
    requires RowsUpTo(p, w, n, t) && ReviewOk(w.store, a)
    ensures ReviewOk(t.store, a)
  {
    if n >= 6 && p.gate.Some? {
      GateSurvivesAppend(w.store, t.store, p.gate.value, a);
    }
  }

  lemma {:induction false} TrailIsOwn(p: Plan, n: nat)
    ensures forall i :: 0 <= i < |TrailUpTo(p, n)| ==>
              TrailUpTo(p, n)[i].resourceId == p.action.id || TrailUpTo(p, n)[i].step == ApprovalCreated
    ensures n == 0 ==> TrailUpTo(p, n) == []
  {
    if n > 0 {
      TrailIsOwn(p, n - 1);
    }
  }

  ghost predicate TrailKnown(w: World) {
    AllKnown(w.store.actions, w.trail)
  }

  // The event is about an action that exists, or about an approval.
  ghost predicate EntryKnown(actions: Table<Action>, t: Entry) {
    Has(actions, t.resourceId) || t.step == ApprovalCreated
  }

  lemma KnownStays(rows: Table<Action>, more: Table<Action>, t: Entry)
    requires EntryKnown(rows, t)
    requires |rows| <= |more| && forall i :: 0 <= i < |rows| ==> more[i].id == rows[i].id
    ensures EntryKnown(more, t)
  {
    if k :| 0 <= k < |rows| && rows[k].id == t.resourceId {
      assert more[k].id == t.resourceId;
    }
  }

  ghost predicate AllKnown(actions: Table<Action>, trail: seq<Entry>) {
    forall i :: 0 <= i < |trail| ==> EntryKnown(actions, trail[i])
  }

  lemma KnownTrailGrows(rows: Table<Action>, more: Table<Action>, trail: seq<Entry>, added: seq<Entry>)
    requires AllKnown(rows, trail) && AllKnown(more, added)
    requires |rows| <= |more| && forall i :: 0 <= i < |rows| ==> more[i].id == rows[i].id
    ensures AllKnown(more, trail + added)
  {
    forall i | 0 <= i < |trail + added| ensures EntryKnown(more, (trail + added)[i]) {
      if i < |trail| {
        KnownStays(rows, more, trail[i]);
      }
    }
  }

  lemma OwnEntriesKnown(p: Plan, front: Table<Action>, row: Rec<Action>, n: nat)
    requires row.id == p.action.id
    ensures AllKnown(front + [row], TrailUpTo(p, n))
  {
    TrailIsOwn(p, n);
    assert (front + [row])[|front|].id == p.action.id;
  }

  lemma SubmitKeepsTrailKnown(p: Plan, w: World, n: nat, t: World)
    requires TrailKnown(w) && RowsUpTo(p, w, n, t) && t.trail == w.trail + TrailUpTo(p, n)
    ensures TrailKnown(t)
  {
    if n == 0 {
      TrailIsOwn(p, 0);
    } else {
      OwnEntriesKnown(p, w.store.actions, RowAfter(p, n), n);
    }
    KnownTrailGrows(w.store.actions, t.store.actions, w.trail, TrailUpTo(p, n));
  }

  lemma SubmitKeepsReviews(tx: PolicyText.TextLib, w: World, r: Submission, n: nat, t: World)
    requires PlainText(tx) && ReviewsOk(w) && FreshKeys(w.store, r) && RowsUpTo(PlanOf(tx, w.policies, r), w, n, t)
    ensures ReviewsOk(t)
  {
    var p := PlanOf(tx, w.policies, r);
    forall i | 0 <= i < |t.store.actions| && t.store.actions[i].body.actionType == REVIEW
      ensures ReviewOk(t.store, t.store.actions[i]) && BoundOk(t.policies, t.store.actions[i])
    {
      if i < |w.store.actions| {
        OldReviewsOk(p, w, n, t, w.store.actions[i]);
      } else {
        NewReviewOk(tx, w, r, n, t);
      }
    }
  }

  lemma SubmitKeepsKeys(p: Plan, w: World, n: nat, t: World)
    requires UniqueIds(w.store.actions) && UniqueIds(w.store.approvals) && RowsUpTo(p, w, n, t)
    requires !Has(w.store.actions, p.action.id) && (p.gate.Some? ==> !Has(w.store.approvals, p.gate.value.id))
    ensures UniqueIds(t.store.actions) && UniqueIds(t.store.approvals)
  {
  }

  lemma CommitsKeepInv(tx: PolicyText.TextLib, w: World, r: Submission, n: nat, t: World)
    requires PlainText(tx) && Inv(w) && FreshKeys(w.store, r)
    requires var p := PlanOf(tx, w.policies, r); RowsUpTo(p, w, n, t) && t.trail == w.trail + TrailUpTo(p, n)
    ensures Inv(t)
  {
    var p := PlanOf(tx, w.policies, r);
    SubmitKeepsKeys(p, w, n, t);
    SubmitKeepsTrailKnown(p, w, n, t);
    SubmitKeepsReviews(tx, w, r, n, t);
  }

  lemma SubmitKeepsInv(tx: PolicyText.TextLib, w: World, r: Submission, n: nat)
    requires PlainText(tx) && Inv(w) && FreshKeys(w.store, r)
    ensures Inv(Submitted(tx, w, r, n))
  {
    var p := PlanOf(tx, w.policies, r);
    RowsCommitted(p, w, n);
    TrailCommitted(p, w, n);
    CommitsKeepInv(tx, w, r, n, Committed(p, w, n));
  }

  lemma DecideKeepsInv(tx: PolicyText.TextLib, w: World, id: string, approve: bool)
    requires Inv(w)
    ensures Inv(Step(tx, w, Decide(id, approve)))
  {
    var t := Step(tx, w, Decide(id, approve));
    forall i | 0 <= i < |w.store.actions| && w.store.actions[i].body.actionType == REVIEW
      ensures ReviewOk(t.store, t.store.actions[i])
    {
      var a := w.store.actions[i];
      if a.body.approvalId.Some? {
        GetMapped((r: Rec<ApprovalRow>) => Decided(id, approve, r), w.store.approvals, a.body.approvalId.value);
      }
    }
  }

  lemma OverrideKeepsInv(w: World, scope: Option<string>, o: Rec<Override>)
    requires Inv(w)
    ensures Inv(OverrideRecorded(w, scope, o))
  {
    var t := OverrideRecorded(w, scope, o);
    GetFinds(w.store.actions, o.body.actionId);
    if Overridden(w.store, scope, o).Ok? {
      var target := Fetch(w.store.actions, o.body.actionId, scope).value;
      var k :| 0 <= k < |w.store.actions| && w.store.actions[k] == target;
      forall i | 0 <= i < |w.store.actions| && w.store.actions[i].body.actionType == REVIEW
        ensures ReviewOk(t.store, t.store.actions[i])
      {
        assert w.store.actions[i].id == o.body.actionId ==> i == k;
      }
      forall i | 0 <= i < |t.trail| ensures EntryKnown(t.store.actions, t.trail[i]) {
        if i < |w.trail| {
          KnownStays(w.store.actions, t.store.actions, w.trail[i]);
        } else {
          assert t.store.actions[k].id == t.trail[i].resourceId;
        }
      }
    }
  }

  lemma ExtendKeepsInv(tx: PolicyText.TextLib, w: World, write: Write)
    requires Inv(w)
    ensures Inv(Step(tx, w, Extend(write)))
  {
    var t := Step(tx, w, Extend(write));
    if write.AddApproval? && Unrelated(w.store, write) {
      forall i | 0 <= i < |w.store.actions| && w.store.actions[i].body.actionType == REVIEW
        ensures ReviewOk(t.store, t.store.actions[i])
      {
        GateSurvivesAppend(w.store, t.store, write.approval, w.store.actions[i]);
      }
    }
    forall i | 0 <= i < |t.trail| ensures EntryKnown(t.store.actions, t.trail[i]) {
      KnownStays(w.store.actions, t.store.actions, w.trail[i]);
    }
  }

  lemma PoliciesKeepInv(tx: PolicyText.TextLib, w: World, e: PolicyRegistry.Event)
    requires Inv(w)
    ensures Inv(Step(tx, w, OnPolicies(e)))
  {
    forall i | 0 <= i < |w.store.actions| && w.store.actions[i].body.actionType == REVIEW
      ensures BoundOk(PolicyRegistry.Step(w.policies, e).0, w.store.actions[i])
    {
      var a := w.store.actions[i];
      PolicyRuns.RegisteredStays(w.policies, e, a.tenant,
                                 PolicyRegistry.Binding(a.body.policyVersionId, a.body.policyVersion.value));
    }
  }

  lemma StepKeepsInv(tx: PolicyText.TextLib, w: World, e: Event)
    requires PlainText(tx) && Inv(w)
    ensures Inv(Step(tx, w, e))
  {
    match e
    case Submit(r, n) => if FreshKeys(w.store, r) { SubmitKeepsInv(tx, w, r, n); }
    case Decide(id, approve) => DecideKeepsInv(tx, w, id, approve);
    case RecordOverride(scope, o) => OverrideKeepsInv(w, scope, o);
    case Extend(write) => ExtendKeepsInv(tx, w, write);
    case OnPolicies(p) => PoliciesKeepInv(tx, w, p);
  }

  // Over every run, dying submissions included: each review's status, approval and risk fit
  // together, and its binding names a registered policy version of its tenant or the system.
  lemma {:induction false} RunKeepsInv(tx: PolicyText.TextLib, w: World, es: seq<Event>)
    requires PlainText(tx) && Inv(w)
    ensures Inv(Run(tx, w, es))
  {
    if es != [] {
      RunKeepsInv(tx, w, es[..|es| - 1]);
      StepKeepsInv(tx, Run(tx, w, es[..|es| - 1]), es[|es| - 1]);
    }
  }

  // In particular from any store that holds no review yet.
  lemma RunsFromStart(tx: PolicyText.TextLib, w: World, es: seq<Event>)
    requires PlainText(tx) && Initial(w)
    ensures Inv(Run(tx, w, es))
  {
    RunKeepsInv(tx, w, es);
  }
}
