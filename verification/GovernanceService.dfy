// The governance workflow as a class over the evidence store: submitting a review commit by
// commit, and recording an override.
module GovernanceService {
  import opened Prelude
  import opened EvidenceGraph
  import opened Governance
  import PolicyText
  import opened PolicyService
  import PolicyRegistry

  // What a submission returns to its caller.
  datatype Summary = Summary(status: string, approvalId: Option<string>)

  datatype Refusal = DuplicateKey

  class Workflow {
    const tx: PolicyText.TextLib
    const registry: Policies
    var store: Store
    var trail: seq<Entry>

    constructor (tx: PolicyText.TextLib, registry: Policies, store: Store)
      ensures this.tx == tx && this.registry == registry
      ensures View() == World(store, registry.policies, [])
    {
      this.tx, this.registry, this.store, trail := tx, registry, store, [];
    }

    function View(): World
      reads this, registry
    {
      World(store, registry.policies, trail)
    }

    method Audit(id: string, step: AuditStep)
      modifies this
      ensures View() == Audited(old(View()), id, step)
    {
      trail := trail + [Entry(id, step)];
    }

    // The approval of a gated review, its audit event and its link.
    method OpenApproval(p: Plan)
      requires p.gate.Some?
      modifies this
      ensures View() == Commit(p, Commit(p, Commit(p, old(View()), 6), 7), 8)
    {
      store := store.(approvals := store.approvals + [p.gate.value]);
      Audit(p.gate.value.id, ApprovalCreated);
      store := store.(actions := LinkRow(store.actions, p.action.id, p.gate.value.id));
    }

    // The action, its risk assessment and the three events about them.
    method RecordReview(p: Plan)
      modifies this
      ensures View() == Committed(p, old(View()), 5)
    {
      TwoCommits(p, View());
      FiveCommits(p, View());
      store := store.(actions := store.actions + [p.action]);
      store := store.(assessments := store.assessments + [p.assessment]);
      Audit(p.action.id, ReviewSubmitted);
      Audit(p.action.id, PolicyEvaluated);
      Audit(p.action.id, RiskClassified);
    }

    // The rows and events of a review, in the order of their commits.
    method Write(p: Plan)
      modifies this
      ensures View() == Committed(p, old(View()), ALL_COMMITS)
    {
      GateCommits(p, View());
      RecordReview(p);
      if p.gate.Some? {
        OpenApproval(p);
      }
      Audit(p.action.id, p.outcome);
      store := store.(artifacts := store.artifacts + [p.artifact]);
    }

    // submit_vendor_governance_review: evaluate, classify, bind the version in effect, write. A
    // key that is taken is an error, and nothing is written.
    method SubmitReview(r: Submission) returns (run: Result<Summary, Refusal>)
      requires PlainText(tx)
      modifies this
      ensures View() == Step(tx, old(View()), Submit(r, ALL_COMMITS))
      ensures run == if !FreshKeys(old(store), r) then Err(DuplicateKey)
                     else if RequiresApproval(tx, r.intake) then Ok(Summary("pending_approval", Some(r.approvalId)))
                     else Ok(Summary("cleared", None))
    {
      if !FreshKeys(store, r) {
        return Err(DuplicateKey);
      }
      GateIsCoherent(tx, r.intake);
      var category := CategoryFor(tx, r.intake);
      var policy := PolicyText.EvaluateAction(category);
      var level, score := ClassifyRisk(tx, r.intake, Some(category));
      var requiresApproval := policy.requiresApproval || level != Low;
      var status := if policy.blocked then "blocked" else if requiresApproval then "pending_approval" else "cleared";
      var approvalId := if !policy.blocked && requiresApproval then Some(r.approvalId) else None;
      var active := registry.ActivePolicy(r.tenant, PolicyRegistry.DEFAULT_NAME);
      var versionText, versionId := PolicyRegistry.PILOT_LABEL, None;
      if active.Some? {
        versionText, versionId := active.value.version, Some(active.value.id);
      }
      var action := Action(REVIEW, None, None, None, None, Some(versionText), versionId, Some(CategoryText(category)),
                           status, Some(LevelText(level)), policy.blocked);
      var gate := Rec(r.approvalId, r.tenant, r.now, ApprovalRow("governance.review", "pending"));
      Write(Plan(
              Rec(r.actionId, r.tenant, r.now, action),
              Rec(r.assessmentId, r.tenant, r.now, RiskAssessment(LevelText(level), Some(r.actionId))),
              if approvalId.Some? then Some(gate) else None,
              Rec(r.artifactId, r.tenant, r.now, Artifact(Some(r.actionId), "governance_review_intake", None)),
              if policy.blocked then ReviewBlocked else if requiresApproval then ApprovalRequired else AutoCleared));
      return Ok(Summary(status, approvalId));
    }

    // create_override: recorded, or refused for the reason given.
    method CreateOverride(scope: Option<string>, o: Rec<Override>) returns (error: Option<string>)
      modifies this
      ensures View() == Step(tx, old(View()), Event.RecordOverride(scope, o))
      ensures error == match Overridden(old(store), scope, o) case Ok(_) => None case Err(e) => Some(e)
    {
      var action := Fetch(store.actions, o.body.actionId, scope);
      if action.None? {
        return Some("governed_action_not_found");
      }
      var level := action.value.body.riskLevel;
      if level != Some("medium") && level != Some("high") {
        return Some("override_not_applicable");
      }
      var accepted := if Truthy(o.body.acceptedRisk) then o.body.acceptedRisk else level;
      var row := o.(tenant := scope, body := o.body.(acceptedRisk := accepted, status := OVERRIDE_RECORDED));
      store := store.(overrides := store.overrides + [row]);
      store := store.(actions := SetStatus(store.actions, o.body.actionId, OVERRIDE_RECORDED));
      Audit(o.body.actionId, ActionOverridden);
      error := None;
    }
  }

  // ---- Unfolding the ten commits ----

  lemma TwoCommits(p: Plan, w: World)
    ensures Committed(p, w, 2) == Commit(p, Commit(p, w, 1), 2)
  {
    assert Committed(p, w, 1) == Commit(p, w, 1);
  }

  lemma FiveCommits(p: Plan, w: World)
    ensures Committed(p, w, 5) ==
            Audited(Audited(Audited(Committed(p, w, 2), p.action.id, ReviewSubmitted), p.action.id, PolicyEvaluated),
                    p.action.id, RiskClassified)
  {
    assert Committed(p, w, 3) == Commit(p, Committed(p, w, 2), 3);
    assert Committed(p, w, 4) == Commit(p, Committed(p, w, 3), 4);
  }

  lemma GateCommits(p: Plan, w: World)
    ensures Committed(p, w, 8) ==
            if p.gate.Some? then Commit(p, Commit(p, Commit(p, Committed(p, w, 5), 6), 7), 8) else Committed(p, w, 5)
  {
    assert Committed(p, w, 6) == Commit(p, Committed(p, w, 5), 6);
    assert Committed(p, w, 7) == Commit(p, Committed(p, w, 6), 7);
  }

}
