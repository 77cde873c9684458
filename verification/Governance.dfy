// services/risk_service.py and services/governance_workflow.py: the risk of a vendor review,
// its policy gate, and the run status shown for it.
module Governance {
  import opened Prelude
  import opened EvidenceGraph
  import PolicyText
  import PolicyRegistry

  datatype Intake = Intake(dataSensitivity: Option<string>, externalExposure: bool, autonomy: Option<string>)

  datatype Level = Low | Medium | High

  // ---- Risk ----

  // All that is needed of str.strip and str.lower: the empty text stays empty.
  ghost predicate PlainText(tx: PolicyText.TextLib) {
    tx.lower(tx.strip("")) == ""
  }

  function Norm(tx: PolicyText.TextLib, value: Option<string>): string {
    tx.lower(tx.strip(if Truthy(value) then value.value else "none"))
  }

  function SensitivityPoints(key: string): nat {
    if key == "none" || key == "public" then 0
    else if key == "internal" then 1
    else if key == "confidential" || key == "pii" then 2
    else if key == "phi" || key == "regulated" then 3
    else 1
  }

  function AutonomyPoints(key: string): nat {
    if key == "none" then 0
    else if key == "assisted" then 1
    else if key == "semi_autonomous" then 2
    else if key == "autonomous" then 3
    else 1
  }

  function PolicyPoints(c: PolicyText.Category): nat {
    match c
    case ReadOnly | DraftOnly => 0
    case OutboundSend | Publish => 1
    case Destructive => 3
  }

  function RiskScore(tx: PolicyText.TextLib, intake: Intake, c: Option<PolicyText.Category>): nat {
    SensitivityPoints(Norm(tx, intake.dataSensitivity)) + (if intake.externalExposure then 2 else 0) +
    AutonomyPoints(Norm(tx, intake.autonomy)) + (if c.Some? then PolicyPoints(c.value) else 0)
  }

  function LevelOf(score: int): Level {
    if score >= 6 then High else if score >= 3 then Medium else Low
  }

  method ClassifyRisk(tx: PolicyText.TextLib, intake: Intake, c: Option<PolicyText.Category>)
      returns (level: Level, score: nat)
    ensures score == RiskScore(tx, intake, c)
    ensures level == LevelOf(score)
  {
    score := 0;
    var sensitivity := SensitivityPoints(Norm(tx, intake.dataSensitivity));
    score := score + sensitivity;
    if intake.externalExposure {
      score := score + 2;
    }
    score := score + AutonomyPoints(Norm(tx, intake.autonomy));
    if c.Some? {
      score := score + PolicyPoints(c.value);
    }
    level := if score >= 6 then High else if score >= 3 then Medium else Low;
  }

  function LevelText(l: Level): string {
    match l
    case Low => "low"
    case Medium => "medium"
    case High => "high"
  }

  // ---- The gate ----

  // _policy_category_for: note it reads a missing autonomy as "", where the risk reads "none".
  function CategoryFor(tx: PolicyText.TextLib, intake: Intake): PolicyText.Category {
    var autonomy := tx.lower(tx.strip(if Truthy(intake.autonomy) then intake.autonomy.value else ""));
    if intake.externalExposure || autonomy == "autonomous" || autonomy == "semi_autonomous"
    then PolicyText.OutboundSend else PolicyText.DraftOnly
  }

  function Risk(tx: PolicyText.TextLib, intake: Intake): Level {
    LevelOf(RiskScore(tx, intake, Some(CategoryFor(tx, intake))))
  }

  predicate RequiresApproval(tx: PolicyText.TextLib, intake: Intake) {
    PolicyText.EvaluateAction(CategoryFor(tx, intake)).requiresApproval || Risk(tx, intake) != Low
  }

  function SubmitStatus(tx: PolicyText.TextLib, intake: Intake): string {
    if PolicyText.EvaluateAction(CategoryFor(tx, intake)).blocked then "blocked"
    else if RequiresApproval(tx, intake) then "pending_approval"
    else "cleared"
  }

  // The policy gate, the risk level and the override rule agree on every intake: an intake
  // routed to the outbound policy already scores at least medium.
  lemma GateIsCoherent(tx: PolicyText.TextLib, intake: Intake)
    requires PlainText(tx)
    ensures RequiresApproval(tx, intake) <==> Risk(tx, intake) != Low
    ensures RequiresApproval(tx, intake) <==> Overridable(Some(LevelText(Risk(tx, intake))))
    ensures CategoryFor(tx, intake) == PolicyText.OutboundSend ==>
            RiskScore(tx, intake, Some(CategoryFor(tx, intake))) >= 3
    ensures SubmitStatus(tx, intake) == if Risk(tx, intake) == Low then "cleared" else "pending_approval"
  {
    var autonomy := Norm(tx, intake.autonomy);
    var l := LevelText(Risk(tx, intake));
    assert l[0] == 'm' || l[0] == 'h' <==> Risk(tx, intake) != Low;
    if CategoryFor(tx, intake) == PolicyText.OutboundSend && !intake.externalExposure {
      assert Truthy(intake.autonomy);
      assert autonomy == "autonomous" || autonomy == "semi_autonomous";
    }
  }

  // How bad one intake is next to another: more sensitive data, exposure, more autonomy.
  ghost predicate NoWorse(tx: PolicyText.TextLib, a: Intake, b: Intake) {
    && SensitivityPoints(Norm(tx, a.dataSensitivity)) <= SensitivityPoints(Norm(tx, b.dataSensitivity))
    && (a.externalExposure ==> b.externalExposure)
    && AutonomyPoints(Norm(tx, a.autonomy)) <= AutonomyPoints(Norm(tx, b.autonomy))
  }

  // ... and "none" stays "none".
  ghost predicate PlainWords(tx: PolicyText.TextLib) {
    PlainText(tx) && tx.lower(tx.strip("none")) == "none"
  }

  // The word an intake field is read as: stripped and in lower case, "none" where it is missing.
  ghost predicate ReadsAs(tx: PolicyText.TextLib, value: Option<string>, word: string) {
    word == if value == None || value == Some("") then "none" else tx.lower(tx.strip(value.value))
  }

  // Which intakes need no approval, in their own words: unexposed ones of at most supervised
  // autonomy, on data that is not regulated and, if it is confidential, with no autonomy at all.
  // Unknown words are neither; "phi" and "regulated" always need one.
  lemma ApprovalInWords(tx: PolicyText.TextLib, intake: Intake, data: string, autonomy: string)
    requires PlainWords(tx) && ReadsAs(tx, intake.dataSensitivity, data) && ReadsAs(tx, intake.autonomy, autonomy)
    ensures RequiresApproval(tx, intake) <==>
            || intake.externalExposure || autonomy == "semi_autonomous" || autonomy == "autonomous"
            || data == "phi" || data == "regulated"
            || ((data == "confidential" || data == "pii") && autonomy != "none")
    ensures SubmitStatus(tx, intake) == if RequiresApproval(tx, intake) then "pending_approval" else "cleared"
  {
    GateIsCoherent(tx, intake);
  }

  // ... and which are high.
  lemma HighInWords(tx: PolicyText.TextLib, intake: Intake, data: string, autonomy: string)
    requires PlainWords(tx) && ReadsAs(tx, intake.dataSensitivity, data) && ReadsAs(tx, intake.autonomy, autonomy)
    ensures Risk(tx, intake) == High <==>
            var sensitive := data == "confidential" || data == "pii" || data == "phi" || data == "regulated";
            match autonomy
            case "autonomous" => intake.externalExposure || sensitive
            case "semi_autonomous" =>
              if intake.externalExposure then data != "none" && data != "public"
              else data == "phi" || data == "regulated"
            case "none" => intake.externalExposure && (data == "phi" || data == "regulated")
            case _ => intake.externalExposure && sensitive
    ensures Risk(tx, intake) != Low <==> RequiresApproval(tx, intake)
  {
    GateIsCoherent(tx, intake);
  }

  // A category adds to the score of an intake: 1 if something leaves the house, 3 if it destroys.
  lemma CategoryAdds(tx: PolicyText.TextLib, intake: Intake, c: PolicyText.Category)
    ensures RiskScore(tx, intake, Some(c)) == RiskScore(tx, intake, None) +
            (if c == PolicyText.Destructive then 3
             else if c == PolicyText.OutboundSend || c == PolicyText.Publish then 1 else 0)
    ensures LevelOf(RiskScore(tx, intake, Some(c))) == Low <==> RiskScore(tx, intake, Some(c)) < 3
  {
  }

  // The policy category follows the scored autonomy, though the two read a missing one apart.
  lemma CategoryFollowsAutonomy(tx: PolicyText.TextLib, intake: Intake)
    requires PlainWords(tx)
    ensures CategoryFor(tx, intake) == PolicyText.OutboundSend <==>
            intake.externalExposure || AutonomyPoints(Norm(tx, intake.autonomy)) >= 2
  {
    if !Truthy(intake.autonomy) {
      assert Norm(tx, intake.autonomy) == Norm(tx, None);
    }
  }

  // A worse intake never gets a lower risk, through its own points or through the category they
  // route it to, and never escapes an approval that a better one needs.
  lemma WorseIntakeNeverLowers(tx: PolicyText.TextLib, a: Intake, b: Intake)
    requires PlainWords(tx) && NoWorse(tx, a, b)
    ensures RiskScore(tx, a, Some(CategoryFor(tx, a))) <= RiskScore(tx, b, Some(CategoryFor(tx, b))) <= 9
    ensures Risk(tx, a) == High ==> Risk(tx, b) == High
    ensures RequiresApproval(tx, a) ==> RequiresApproval(tx, b)
  {
    CategoryFollowsAutonomy(tx, a);
    CategoryFollowsAutonomy(tx, b);
    GateIsCoherent(tx, a);
    GateIsCoherent(tx, b);
  }

  // ---- Runs ----

  const REVIEW := "ai_vendor.governance_review"

  // One submitted review, with the keys generated for its rows.
  datatype Submission = Submission(
    tenant: Option<string>, intake: Intake, actionId: string, assessmentId: string, approvalId: string,
    artifactId: string, now: int)

  datatype AuditStep =
    | ReviewSubmitted | PolicyEvaluated | RiskClassified | ApprovalCreated | ApprovalRequired | AutoCleared
    | ReviewBlocked | ActionOverridden

  datatype Entry = Entry(resourceId: string, step: AuditStep)

  datatype World = World(store: Store, policies: seq<PolicyRegistry.Policy>, trail: seq<Entry>)

  // A submission is ten commits; one that dies early has done only the first of them.
  const ALL_COMMITS := 10
  const LINK_COMMIT := 8

  datatype Event =
    | Submit(review: Submission, commits: nat)
    | Decide(approvalId: string, approve: bool)
    | RecordOverride(scope: Option<string>, override: Rec<Override>)
    | Extend(write: Write)
    | OnPolicies(event: PolicyRegistry.Event)

  function CategoryText(c: PolicyText.Category): string {
    match c
    case ReadOnly => "read_only"
    case DraftOnly => "draft_only"
    case OutboundSend => "outbound_send"
    case Publish => "publish"
    case Destructive => "destructive"
  }

  predicate Has<T>(rows: Table<T>, id: string) {
    exists i :: 0 <= i < |rows| && rows[i].id == id
  }

  predicate IsBlocked(tx: PolicyText.TextLib, intake: Intake) {
    PolicyText.EvaluateAction(CategoryFor(tx, intake)).blocked
  }

  // What a submission writes, all decided before its first commit.
  datatype Plan = Plan(
    action: Rec<Action>, assessment: Rec<RiskAssessment>, gate: Option<Rec<ApprovalRow>>, artifact: Rec<Artifact>,
    outcome: AuditStep)

  // The governed action as its creation commits it, bound to the policy version in effect.
  function ReviewRow(tx: PolicyText.TextLib, policies: seq<PolicyRegistry.Policy>, r: Submission): Rec<Action> {
    var binding := PolicyRegistry.InEffect(policies, r.tenant);
    Rec(r.actionId, r.tenant, r.now,
        Action(REVIEW, None, None, None, None, Some(binding.versionText), binding.versionId,
               Some(CategoryText(CategoryFor(tx, r.intake))), SubmitStatus(tx, r.intake),
               Some(LevelText(Risk(tx, r.intake))), IsBlocked(tx, r.intake)))
  }

  function PlanOf(tx: PolicyText.TextLib, policies: seq<PolicyRegistry.Policy>, r: Submission): Plan {
    var level := LevelText(Risk(tx, r.intake));
    Plan(ReviewRow(tx, policies, r),
         Rec(r.assessmentId, r.tenant, r.now, RiskAssessment(level, Some(r.actionId))),
         if !IsBlocked(tx, r.intake) && RequiresApproval(tx, r.intake)
         then Some(Rec(r.approvalId, r.tenant, r.now, ApprovalRow("governance.review", "pending"))) else None,
         Rec(r.artifactId, r.tenant, r.now, Artifact(Some(r.actionId), "governance_review_intake", None)),
         if IsBlocked(tx, r.intake) then ReviewBlocked
         else if RequiresApproval(tx, r.intake) then ApprovalRequired else AutoCleared)
  }

  function WithLink(a: Rec<Action>, approvalId: string): Rec<Action> {
    a.(body := a.body.(approvalId := Some(approvalId)))
  }

  function LinkRow(actions: Table<Action>, id: string, approvalId: string): Table<Action> {
    Map((a: Rec<Action>) => if a.id == id then WithLink(a, approvalId) else a, actions)
  }

  function Audited(w: World, id: string, step: AuditStep): World {
    w.(trail := w.trail + [Entry(id, step)])
  }

  // The k-th commit of submit_vendor_governance_review. Only a gated review has the sixth to the
  // eighth: the approval, its audit event and its link.
  function Commit(p: Plan, w: World, k: nat): World {
    var id := p.action.id;
    if k == 1 then w.(store := w.store.(actions := w.store.actions + [p.action]))
    else if k == 2 then w.(store := w.store.(assessments := w.store.assessments + [p.assessment]))
    else if k == 3 then Audited(w, id, ReviewSubmitted)
    else if k == 4 then Audited(w, id, PolicyEvaluated)
    else if k == 5 then Audited(w, id, RiskClassified)
    else if k == 6 && p.gate.Some? then w.(store := w.store.(approvals := w.store.approvals + [p.gate.value]))
    else if k == 7 && p.gate.Some? then Audited(w, p.gate.value.id, ApprovalCreated)
    else if k == LINK_COMMIT && p.gate.Some? then
      w.(store := w.store.(actions := LinkRow(w.store.actions, id, p.gate.value.id)))
    else if k == 9 then Audited(w, id, p.outcome)
    else if k == 10 then w.(store := w.store.(artifacts := w.store.artifacts + [p.artifact]))
    else w
  }

  function Committed(p: Plan, w: World, n: nat): World {
    if n == 0 then w else Commit(p, Committed(p, w, n - 1), n)
  }

  // Keys are generated: not empty, and not those of other rows.
  predicate FreshKeys(s: Store, r: Submission) {
    && r.actionId != "" && r.approvalId != ""
    && !Has(s.actions, r.actionId) && !Has(s.approvals, r.approvalId)
    && !Has(s.assessments, r.assessmentId) && !Has(s.artifacts, r.artifactId)
  }

  function Submitted(tx: PolicyText.TextLib, w: World, r: Submission, commits: nat): World {
    if FreshKeys(w.store, r) then Committed(PlanOf(tx, w.policies, r), w, commits) else w
  }

  function Decided(id: string, approve: bool, r: Rec<ApprovalRow>): Rec<ApprovalRow> {
    if r.id == id && r.body.status == "pending"
    then r.(body := r.body.(status := if approve then "approved" else "rejected")) else r
  }

  // Rows the other services add to the graph: none of them is a review's action or approval.
  predicate Unrelated(s: Store, w: Write) {
    match w
    case AddAction(row) => row.body.actionType != REVIEW && !Has(s.actions, row.id)
    case AddApproval(row) => !Has(s.approvals, row.id)
    case RecordOverride(_, _) => false
    case _ => true
  }

  // create_override: the row, the status and the audit event, or an error.
  function OverrideRecorded(w: World, scope: Option<string>, o: Rec<Override>): World {
    match Overridden(w.store, scope, o)
    case Ok(s) => Audited(w.(store := s), o.body.actionId, ActionOverridden)
    case Err(_) => w
  }

  function Step(tx: PolicyText.TextLib, w: World, e: Event): World {
    match e
    case Submit(r, commits) => Submitted(tx, w, r, commits)
    case Decide(id, approve) =>
      w.(store := w.store.(approvals := Map((r: Rec<ApprovalRow>) => Decided(id, approve, r), w.store.approvals)))
    case RecordOverride(scope, o) => OverrideRecorded(w, scope, o)
    case Extend(write) => if Unrelated(w.store, write) then w.(store := Apply(w.store, write)) else w
    case OnPolicies(p) => w.(policies := PolicyRegistry.Step(w.policies, p).0)
  }

  function Run(tx: PolicyText.TextLib, w: World, es: seq<Event>): World {
    if es == [] then w else Step(tx, Run(tx, w, es[..|es| - 1]), es[|es| - 1])
  }

  // ---- Statuses ----

  // _run_status.
  function RunStatus(a: Action, approval: Option<ApprovalRow>): string {
    if a.blocked then "blocked"
    else if a.approvalId.None? then "cleared"
    else if approval.None? then a.status
    else if approval.value.status == "pending" then "pending_approval"
    else if approval.value.status == "approved" then "approved"
    else if approval.value.status == "rejected" then "rejected"
    else approval.value.status
  }
}
