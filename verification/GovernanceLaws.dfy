// What follows for one review over any run: its binding is final, the two places that show its
// status agree exactly while it is complete and not overridden, an override can be recorded
// exactly if it needs approval, and its submission is audited step by step.
module GovernanceLaws {
  import opened Prelude
  import opened EvidenceGraph
  import opened Governance
  import opened GovernanceRuns
  import EvidencePacket
  import PolicyText
  import PolicyRegistry
  import PolicyRuns

  // ---- Bindings are final ----

  // The row is the same but for its status.
  predicate Keeps(a: Rec<Action>, b: Rec<Action>) {
    b == a.(body := a.body.(status := b.body.status))
  }

  ghost predicate ActionsKept(w: World, t: World) {
    && |w.store.actions| <= |t.store.actions|
    && forall i :: 0 <= i < |w.store.actions| ==> Keeps(w.store.actions[i], t.store.actions[i])
  }

  lemma StepKeepsActions(tx: PolicyText.TextLib, w: World, e: Event)
    ensures ActionsKept(w, Step(tx, w, e))
  {
    if e.Submit? && FreshKeys(w.store, e.review) {
      RowsCommitted(PlanOf(tx, w.policies, e.review), w, e.commits);
    }
  }

  // No later call, whether it links, decides, overrides, extends the graph or changes the
  // policies, touches anything but the status of a governed action: its policy version, label,
  // decision, risk and approval link are final.
  lemma {:induction false} ActionsAreFinal(tx: PolicyText.TextLib, w: World, es: seq<Event>)
    ensures ActionsKept(w, Run(tx, w, es))
  {
    if es != [] {
      var mid := Run(tx, w, es[..|es| - 1]);
      ActionsAreFinal(tx, w, es[..|es| - 1]);
      StepKeepsActions(tx, mid, es[|es| - 1]);
      KeptTwice(w, mid, Run(tx, w, es));
    }
  }

  lemma KeptTwice(w: World, t: World, u: World)
    requires ActionsKept(w, t) && ActionsKept(t, u)
    ensures ActionsKept(w, u)
  {
    forall i | 0 <= i < |w.store.actions| ensures Keeps(w.store.actions[i], u.store.actions[i]) {
      assert Keeps(w.store.actions[i], t.store.actions[i]) && Keeps(t.store.actions[i], u.store.actions[i]);
    }
  }

  // Whatever happens afterwards, a submitted review names a policy version exactly if that was
  // its tenant's active one at the submission, or the system's where the tenant had none.
  lemma BindingsAreFinal(tx: PolicyText.TextLib, w: World, r: Submission, commits: nat, es: seq<Event>,
                         p: PolicyRegistry.Policy)
    requires PolicyRegistry.Inv(w.policies) && p in w.policies && FreshKeys(w.store, r) && commits >= 1
    ensures var after := Run(tx, Step(tx, w, Submit(r, commits)), es).store.actions;
            && |w.store.actions| < |after| && after[|w.store.actions|].id == r.actionId
            && (after[|w.store.actions|].body.policyVersionId == Some(p.id) <==>
                || PolicyRegistry.IsActiveOf(p, r.tenant, PolicyRegistry.DEFAULT_NAME)
                || (PolicyRegistry.IsActiveOf(p, None, PolicyRegistry.DEFAULT_NAME) &&
                    forall q :: q in w.policies ==>
                        !PolicyRegistry.IsActiveOf(q, r.tenant, PolicyRegistry.DEFAULT_NAME)))
  {
    RowsCommitted(PlanOf(tx, w.policies, r), w, commits);
    var submitted := Step(tx, w, Submit(r, commits));
    ActionsAreFinal(tx, submitted, es);
    assert Keeps(submitted.store.actions[|w.store.actions|], Run(tx, submitted, es).store.actions[|w.store.actions|]);
    PolicyRuns.InEffectMeans(w.policies, r.tenant, p);
  }

  // ---- The two statuses ----

  lemma FoundReview(rows: Table<Action>, a: Rec<Action>, scope: Option<string>)
    requires Fetch(rows, a.id, scope) == Some(a)
    ensures a in rows && InScope(a.tenant, scope)
  {
    GetFinds(rows, a.id);
  }

  // The review's run status and the status its evidence packet shows.
  function ShownByRun(g: Graph): string {
    RunStatus(g.action.body, EvidencePacket.BodyOf(g.approval))
  }

  function ShownByPacket(g: Graph): string {
    EvidencePacket.EffectiveStatus(g.action.body, EvidencePacket.BodyOf(g.approval))
  }

  // The submission got as far as linking the approval, if the risk calls for one.
  predicate Complete(a: Action) {
    Overridable(a.riskLevel) ==> a.approvalId.Some?
  }

  // In every state of every run the two statuses of a visible review agree exactly when its
  // submission was completed and no override was recorded on it.
  lemma StatusesAgreeIff(tx: PolicyText.TextLib, w: World, es: seq<Event>, after: World, a: Rec<Action>,
                         scope: Option<string>)
    requires PlainText(tx) && Inv(w) && after == Run(tx, w, es)
    requires Fetch(after.store.actions, a.id, scope) == Some(a) && a.body.actionType == REVIEW
    ensures var g := GetEvidenceGraph(after.store, a.id, scope);
            && g.Some?
            && (ShownByRun(g.value) == ShownByPacket(g.value) <==>
                Complete(a.body) && a.body.status != OVERRIDE_RECORDED)
  {
    RunKeepsInv(tx, w, es);
    FoundReview(after.store.actions, a, scope);
  }

  lemma {:induction false} GetAt<T>(rows: Table<T>, i: nat)
    requires UniqueIds(rows) && i < |rows|
    ensures Get(rows, rows[i].id) == Some(rows[i])
  {
    if i < |rows| - 1 {
      GetAt(rows[..|rows| - 1], i);
    }
  }

  // What a submission leaves for every later run, at the place it put the action.
  lemma SubmittedStays(tx: PolicyText.TextLib, w: World, r: Submission, commits: nat, es: seq<Event>, after: World)
    requires PlainText(tx) && Inv(w) && FreshKeys(w.store, r) && commits >= 1
    requires after == Run(tx, Step(tx, w, Submit(r, commits)), es)
    ensures Inv(after)
    ensures var row := RowAfter(PlanOf(tx, w.policies, r), commits);
            var a := Get(after.store.actions, r.actionId);
            a.Some? && Keeps(row, a.value)
  {
    var submitted := Step(tx, w, Submit(r, commits));
    RowsCommitted(PlanOf(tx, w.policies, r), w, commits);
    StepKeepsInv(tx, w, Submit(r, commits));
    RunKeepsInv(tx, submitted, es);
    ActionsAreFinal(tx, submitted, es);
    var n := |w.store.actions|;
    assert Keeps(submitted.store.actions[n], after.store.actions[n]);
    GetAt(after.store.actions, n);
  }

  // A submission that dies after any of its commits: from then on, whatever happens, its review
  // is shown alike in both places exactly if it needs no approval or the link was committed,
  // and no override was recorded. A gated review that lost its link disagrees for good.
  lemma HalfSubmittedDisagrees(tx: PolicyText.TextLib, w: World, r: Submission, commits: nat, es: seq<Event>,
                               after: World)
    requires PlainText(tx) && Inv(w) && FreshKeys(w.store, r) && commits >= 1
    requires after == Run(tx, Step(tx, w, Submit(r, commits)), es)
    ensures var g := GetEvidenceGraph(after.store, r.actionId, r.tenant);
            && g.Some?
            && (ShownByRun(g.value) == ShownByPacket(g.value) <==>
                  && (!RequiresApproval(tx, r.intake) || commits >= LINK_COMMIT)
                  && g.value.action.body.status != OVERRIDE_RECORDED)
  {
    SubmittedStays(tx, w, r, commits, es, after);
    PlanFits(tx, w.policies, r);
    var a := Get(after.store.actions, r.actionId).value;
    FoundReview(after.store.actions, a, r.tenant);
  }

  // An override of a submitted review is accepted, then and at any later time, exactly when the
  // intake needed approval.
  lemma OverrideIffGated(tx: PolicyText.TextLib, w: World, r: Submission, commits: nat, es: seq<Event>, after: World,
                         scope: Option<string>, o: Rec<Override>)
    requires PlainText(tx) && Inv(w) && FreshKeys(w.store, r) && commits >= 1
    requires after == Run(tx, Step(tx, w, Submit(r, commits)), es)
    requires InScope(r.tenant, scope) && o.body.actionId == r.actionId
    ensures Overridden(after.store, scope, o).Ok? <==> RequiresApproval(tx, r.intake)
  {
    SubmittedStays(tx, w, r, commits, es, after);
    PlanFits(tx, w.policies, r);
  }

  // ---- The audit trail ----

  // A governed action's own events.
  function TrailOf(trail: seq<Entry>, id: string): seq<Entry> {
    Filter((t: Entry) => t.resourceId == id && t.step != ApprovalCreated, trail)
  }

  lemma TrailAppend(trail: seq<Entry>, t: Entry, id: string)
    ensures TrailOf(trail + [t], id) ==
            if t.resourceId == id && t.step != ApprovalCreated then TrailOf(trail, id) + [t] else TrailOf(trail, id)
  {
    assert (trail + [t])[..|trail|] == trail;
  }

  lemma {:induction false} TrailOfUnknown(trail: seq<Entry>, id: string)
    requires forall i :: 0 <= i < |trail| ==> trail[i].resourceId != id || trail[i].step == ApprovalCreated
    ensures TrailOf(trail, id) == []
  {
    if trail != [] {
      TrailOfUnknown(trail[..|trail| - 1], id);
    }
  }

  // The action's own events after n commits of its submission.
  function OwnTrail(p: Plan, n: nat): seq<Entry> {
    if n == 0 then []
    else OwnTrail(p, n - 1) + if n == 7 then [] else EntryAt(p, n)
  }

  lemma OwnEntry(p: Plan, before: seq<Entry>, k: nat, more: seq<Entry>)
    requires p.outcome != ApprovalCreated && more == EntryAt(p, k)
    ensures TrailOf(before + more, p.action.id) == TrailOf(before, p.action.id) + if k == 7 then [] else more
  {
    if more == [] {
      assert before + more == before;
    } else {
      assert more == [more[0]] && (k == 7 <==> more[0].step == ApprovalCreated);
      assert more[0].resourceId == p.action.id || k == 7;
      TrailAppend(before, more[0], p.action.id);
    }
  }

  lemma {:induction false} OwnTrailIs(p: Plan, trail: seq<Entry>, n: nat)
    requires TrailOf(trail, p.action.id) == [] && p.outcome != ApprovalCreated
    ensures TrailOf(trail + TrailUpTo(p, n), p.action.id) == OwnTrail(p, n)
  {
    if n == 0 {
      assert trail + [] == trail;
    } else {
      OwnTrailIs(p, trail, n - 1);
      assert trail + TrailUpTo(p, n) == (trail + TrailUpTo(p, n - 1)) + EntryAt(p, n);
      OwnEntry(p, trail + TrailUpTo(p, n - 1), n, EntryAt(p, n));
    }
  }

  function FourSteps(p: Plan): seq<Entry> {
    [Entry(p.action.id, ReviewSubmitted), Entry(p.action.id, PolicyEvaluated), Entry(p.action.id, RiskClassified),
     Entry(p.action.id, p.outcome)]
  }

  lemma OwnTrailAtEnd(p: Plan)
    ensures OwnTrail(p, ALL_COMMITS) == FourSteps(p)
  {
    for n := 0 to ALL_COMMITS
      invariant OwnTrail(p, n) == FourSteps(p)[..[0, 0, 0, 1, 2, 3, 3, 3, 3, 4, 4][n]]
    {
      OwnTrailStep(p, n);
    }
  }

  lemma OwnTrailStep(p: Plan, n: nat)
    ensures OwnTrail(p, n + 1) == OwnTrail(p, n) + if n == 6 then [] else EntryAt(p, n + 1)
  {
  }

  // A completed submission leaves exactly four events of its action: submitted, evaluated,
  // classified, and last whether approval was required, as it is for the intakes that need it.
  lemma SubmissionIsAudited(tx: PolicyText.TextLib, w: World, r: Submission)
    requires PlainText(tx) && Inv(w) && FreshKeys(w.store, r)
    ensures var gate := if RequiresApproval(tx, r.intake) then ApprovalRequired else AutoCleared;
            TrailOf(Step(tx, w, Submit(r, ALL_COMMITS)).trail, r.actionId) ==
            [Entry(r.actionId, ReviewSubmitted), Entry(r.actionId, PolicyEvaluated), Entry(r.actionId, RiskClassified),
             Entry(r.actionId, gate)]
  {
    var p := PlanOf(tx, w.policies, r);
    PlanFits(tx, w.policies, r);
    forall i | 0 <= i < |w.trail| ensures w.trail[i].resourceId != r.actionId || w.trail[i].step == ApprovalCreated {
      assert EntryKnown(w.store.actions, w.trail[i]);
    }
    TrailOfUnknown(w.trail, r.actionId);
    TrailCommitted(p, w, ALL_COMMITS);
    OwnTrailIs(p, w.trail, ALL_COMMITS);
    OwnTrailAtEnd(p);
  }

  // ---- The rows of a submission ----

  // A completed submission leaves, beside what was there, one action, one risk assessment and one
  // artifact about it, and, exactly if the intake needs approval, one pending approval of the
  // tenant that the action links to.
  lemma SubmissionWrites(tx: PolicyText.TextLib, w: World, r: Submission)
    requires PlainText(tx) && FreshKeys(w.store, r)
    ensures var s, gated := w.store, RequiresApproval(tx, r.intake);
            var risk := if Risk(tx, r.intake) == High then "high" else if Risk(tx, r.intake) == Medium then "medium"
                        else "low";
            var bound := PolicyRegistry.InEffect(w.policies, r.tenant);
            var decision := if CategoryFor(tx, r.intake) == PolicyText.OutboundSend then "outbound_send"
                            else "draft_only";
            Step(tx, w, Submit(r, ALL_COMMITS)).store == s.(
              actions := s.actions +
                [Rec(r.actionId, r.tenant, r.now,
                     Action("ai_vendor.governance_review", None, None, if gated then Some(r.approvalId) else None, None,
                            Some(bound.versionText), bound.versionId, Some(decision),
                            if gated then "pending_approval" else "cleared", Some(risk), false))],
              assessments := s.assessments +
                [Rec(r.assessmentId, r.tenant, r.now, RiskAssessment(risk, Some(r.actionId)))],
              approvals := if gated then s.approvals +
                [Rec(r.approvalId, r.tenant, r.now, ApprovalRow("governance.review", "pending"))] else s.approvals,
              artifacts := s.artifacts +
                [Rec(r.artifactId, r.tenant, r.now, Artifact(Some(r.actionId), "governance_review_intake", None))])
  {
    RowsCommitted(PlanOf(tx, w.policies, r), w, ALL_COMMITS);
    GateIsCoherent(tx, r.intake);
  }

  // A decision on an approval changes its status where it is pending, and nothing else.
  lemma DecisionWrites(tx: PolicyText.TextLib, w: World, id: string, approve: bool, i: nat)
    requires i < |w.store.approvals|
    ensures var t, r := Step(tx, w, Decide(id, approve)), w.store.approvals[i];
            && |t.store.approvals| == |w.store.approvals|
            && t == w.(store := w.store.(approvals := t.store.approvals))
            && t.store.approvals[i] == if r.id == id && r.body.status == "pending"
                                       then r.(body := r.body.(status := if approve then "approved" else "rejected"))
                                       else r
  {
  }
}
