// services/evidence_graph.py: tenant-scoped tables, the read that assembles one governed
// action's graph, and the proof that a tenant's reads see nothing of other tenants' rows.
module EvidenceGraph {
  import opened Prelude
  import AuditLog

  // ---- Tables ----

  datatype Rec<T> = Rec(id: string, tenant: Option<string>, createdAt: int, body: T)

  type Table<T> = seq<Rec<T>>

  datatype Action = Action(
    actionType: string, workflowId: Option<string>, sourceJobId: Option<string>, approvalId: Option<string>,
    executionJobId: Option<string>, policyVersion: Option<string>, policyVersionId: Option<string>,
    policyDecision: Option<string>, status: string, riskLevel: Option<string>, blocked: bool)

  datatype Workflow = Workflow(name: string, aiSystemId: Option<string>)

  datatype ApprovalRow = ApprovalRow(kind: string, status: string)

  datatype Mapping = Mapping(actionId: string, controlId: string, regulationId: Option<string>,
                             rationale: Option<string>)

  datatype Artifact = Artifact(actionId: Option<string>, artifactType: string, uri: Option<string>)

  datatype Override = Override(
    actionId: string, overriddenBy: Option<string>, reason: string, authorityBasis: string,
    acceptedRisk: Option<string>, compensatingControl: string, expiration: Option<int>, status: string)

  datatype DataSource = DataSource(name: string, sourceType: string)

  datatype RiskAssessment = RiskAssessment(riskLevel: string, actionId: Option<string>)

  datatype Control = Control(frameworkId: string, code: string, title: string)

  // Catalog rows belong to no tenant.
  datatype Catalog = Catalog(controls: map<string, Control>, frameworks: map<string, string>,
                             regulations: map<string, string>)

  datatype AuditRec = AuditRec(id: string, row: AuditLog.Row)

  datatype Store = Store(
    actions: Table<Action>, workflows: Table<Workflow>, systems: Table<string>, sources: Table<DataSource>,
    assessments: Table<RiskAssessment>, approvals: Table<ApprovalRow>, jobs: Table<string>,
    events: seq<AuditRec>, mappings: Table<Mapping>, artifacts: Table<Artifact>,
    overrides: Table<Override>, catalog: Catalog)

  // ---- Queries ----

  // session.get by primary key.
  function Get<T>(rows: Table<T>, id: string): Option<Rec<T>> {
    if rows == [] then None
    else if rows[|rows| - 1].id == id then Some(rows[|rows| - 1])
    else Get(rows[..|rows| - 1], id)
  }

  // _scoped(session.get(...)): another tenant's row is not found.
  function Fetch<T>(rows: Table<T>, id: string, scope: Option<string>): Option<Rec<T>> {
    var r := Get(rows, id);
    if r.Some? && InScope(r.value.tenant, scope) then r else None
  }

  // ... by a column that may be empty.
  function ScopedGet<T>(rows: Table<T>, id: Option<string>, scope: Option<string>): Option<Rec<T>> {
    if Truthy(id) then Fetch(rows, id.value, scope) else None
  }

  // SELECT ... WHERE keep AND (the caller's tenant, unless unscoped).
  function Select<T>(rows: Table<T>, scope: Option<string>, keep: Rec<T> -> bool): Table<T> {
    Filter((r: Rec<T>) => keep(r) && InScope(r.tenant, scope), rows)
  }

  predicate NewestFirst<T>(a: Rec<T>, b: Rec<T>) {
    b.createdAt <= a.createdAt
  }

  function AuditTenant(e: AuditRec): Option<string> {
    e.row.core.fields.tenantId
  }

  predicate EventSeqLe(a: AuditRec, b: AuditRec) {
    AuditLog.SeqLe(a.row, b.row)
  }

  // ---- The graph of one governed action ----

  datatype MappedControl = MappedControl(
    control: Option<Control>, framework: Option<string>, regulation: Option<string>, rationale: Option<string>)

  datatype Graph = Graph(
    action: Rec<Action>, aiSystem: Option<Rec<string>>, workflow: Option<Rec<Workflow>>,
    approval: Option<Rec<ApprovalRow>>, sourceJob: Option<Rec<string>>, executionJob: Option<Rec<string>>,
    auditEvents: seq<AuditRec>, mappings: seq<MappedControl>, artifacts: Table<Artifact>, overrides: Table<Override>)

  function Lookup<T>(m: map<string, T>, id: string): Option<T> {
    if id in m then Some(m[id]) else None
  }

  function ResolveMapping(c: Catalog, m: Rec<Mapping>): MappedControl {
    var control := Lookup(c.controls, m.body.controlId);
    MappedControl(
      control,
      if control.Some? then Lookup(c.frameworks, control.value.frameworkId) else None,
      if Truthy(m.body.regulationId) then Lookup(c.regulations, m.body.regulationId.value) else None,
      m.body.rationale)
  }

  // The ids whose audit events belong to the action: its own, its approval's and its jobs'.
  predicate Concerns(a: Rec<Action>, resourceId: string) {
    || (a.id != "" && resourceId == a.id)
    || (Truthy(a.body.approvalId) && resourceId == a.body.approvalId.value)
    || (Truthy(a.body.sourceJobId) && resourceId == a.body.sourceJobId.value)
    || (Truthy(a.body.executionJobId) && resourceId == a.body.executionJobId.value)
  }

  function EventsOf(s: Store, a: Rec<Action>, scope: Option<string>): seq<AuditRec> {
    OrderBy(EventSeqLe,
            Filter((e: AuditRec) =>
                     Concerns(a, e.row.core.fields.resourceId) && InScope(AuditTenant(e), scope), s.events))
  }

  function GraphOf(s: Store, a: Rec<Action>, scope: Option<string>): Graph {
    var workflow := ScopedGet(s.workflows, a.body.workflowId, scope);
    Graph(
      a,
      if workflow.Some? then ScopedGet(s.systems, workflow.value.body.aiSystemId, scope) else None,
      workflow,
      ScopedGet(s.approvals, a.body.approvalId, scope),
      ScopedGet(s.jobs, a.body.sourceJobId, scope),
      ScopedGet(s.jobs, a.body.executionJobId, scope),
      EventsOf(s, a, scope),
      Map((m: Rec<Mapping>) => ResolveMapping(s.catalog, m),
          Select(s.mappings, scope, (m: Rec<Mapping>) => m.body.actionId == a.id)),
      OrderBy(NewestFirst, Select(s.artifacts, scope, (x: Rec<Artifact>) => x.body.actionId == Some(a.id))),
      Select(s.overrides, scope, (o: Rec<Override>) => o.body.actionId == a.id))
  }

  // The loop of get_evidence_graph that resolves each mapping of the action.
  method ControlMappings(s: Store, a: Rec<Action>, scope: Option<string>) returns (ms: seq<MappedControl>)
    ensures ms == GraphOf(s, a, scope).mappings
  {
    var rows := Select(s.mappings, scope, (m: Rec<Mapping>) => m.body.actionId == a.id);
    ms := [];
    for i := 0 to |rows|
      invariant ms == Map((m: Rec<Mapping>) => ResolveMapping(s.catalog, m), rows[..i])
    {
      var control := Lookup(s.catalog.controls, rows[i].body.controlId);
      var framework, regulation: Option<string> := None, None;
      if control.Some? {
        framework := Lookup(s.catalog.frameworks, control.value.frameworkId);
      }
      if Truthy(rows[i].body.regulationId) {
        regulation := Lookup(s.catalog.regulations, rows[i].body.regulationId.value);
      }
      ms := ms + [MappedControl(control, framework, regulation, rows[i].body.rationale)];
    }
    assert rows[..|rows|] == rows;
  }

  function GetEvidenceGraph(s: Store, actionId: string, scope: Option<string>): Option<Graph> {
    var a := Fetch(s.actions, actionId, scope);
    if a.None? then None else Some(GraphOf(s, a.value, scope))
  }

  // list_governed_actions: a tenant's actions, newest first, optionally of one workflow or
  // created in a closed time range.
  datatype ActionQuery = ActionQuery(workflowId: Option<string>, startAt: Option<int>, endAt: Option<int>)

  predicate Wanted(q: ActionQuery, a: Rec<Action>) {
    && (q.workflowId.None? || a.body.workflowId == q.workflowId)
    && (q.startAt.None? || q.startAt.value <= a.createdAt)
    && (q.endAt.None? || a.createdAt <= q.endAt.value)
  }

  function ListActions(s: Store, scope: Option<string>, q: ActionQuery): Table<Action> {
    OrderBy(NewestFirst, Select(s.actions, scope, (a: Rec<Action>) => Wanted(q, a)))
  }

  // ---- What one tenant can see ----

  function Owned<T>(rows: Table<T>, t: string): Table<T> {
    Filter((r: Rec<T>) => r.tenant == Some(t), rows)
  }

  // The store with every row that is not tenant t's removed.
  function Restrict(s: Store, t: string): Store {
    Store(Owned(s.actions, t), Owned(s.workflows, t), Owned(s.systems, t), Owned(s.sources, t), Owned(s.assessments, t),
          Owned(s.approvals, t), Owned(s.jobs, t),
          Filter((e: AuditRec) => AuditTenant(e) == Some(t), s.events),
          Owned(s.mappings, t), Owned(s.artifacts, t), Owned(s.overrides, t), s.catalog)
  }

  ghost predicate UniqueIds<T>(rows: Table<T>) {
    forall i, j :: 0 <= i < j < |rows| ==> rows[i].id != rows[j].id
  }

  ghost predicate WellKeyed(s: Store) {
    UniqueIds(s.actions) && UniqueIds(s.workflows) && UniqueIds(s.systems) && UniqueIds(s.approvals) &&
        UniqueIds(s.jobs)
  }

  lemma {:induction false} GetFinds<T>(rows: Table<T>, id: string)
    ensures var r := Get(rows, id);
            if r.Some? then r.value in rows && r.value.id == id else forall i :: 0 <= i < |rows| ==> rows[i].id != id
  {
    if rows != [] && rows[|rows| - 1].id != id {
      GetFinds(rows[..|rows| - 1], id);
    }
  }

  lemma {:induction false} GetMapped<T>(f: Rec<T> -> Rec<T>, rows: Table<T>, id: string)
    requires forall r :: f(r).id == r.id
    ensures Get(Map(f, rows), id) == var r := Get(rows, id); if r.Some? then Some(f(r.value)) else None
  {
    if rows != [] {
      var n := |rows| - 1;
      assert Map(f, rows)[..n] == Map(f, rows[..n]);
      GetMapped(f, rows[..n], id);
    }
  }

  lemma {:induction false} GetOwned<T>(rows: Table<T>, id: string, t: string)
    requires UniqueIds(rows)
    ensures Get(Owned(rows, t), id) ==
            var r := Get(rows, id); if r.Some? && r.value.tenant == Some(t) then r else None
  {
    if rows != [] {
      var n := |rows| - 1;
      GetOwned(rows[..n], id, t);
      var front := Owned(rows[..n], t);
      if rows[n].tenant == Some(t) {
        assert (front + [rows[n]])[..|front|] == front;
      } else {
        assert Owned(rows, t) == front;
      }
      if rows[n].id == id {
        GetFinds(rows[..n], id);
        assert forall k :: 0 <= k < n ==> rows[..n][k] == rows[k] && rows[k].id != rows[n].id;
      }
    }
  }

  lemma FetchOwned<T>(rows: Table<T>, id: string, t: string)
    requires UniqueIds(rows)
    ensures Fetch(rows, id, Some(t)) == Fetch(Owned(rows, t), id, Some(t))
  {
    GetOwned(rows, id, t);
  }

  lemma ScopedGetOwned<T>(rows: Table<T>, id: Option<string>, t: string)
    requires UniqueIds(rows)
    ensures ScopedGet(rows, id, Some(t)) == ScopedGet(Owned(rows, t), id, Some(t))
  {
    if Truthy(id) {
      FetchOwned(rows, id.value, t);
    }
  }

  lemma SelectOwned<T>(rows: Table<T>, t: string, keep: Rec<T> -> bool)
    ensures Select(rows, Some(t), keep) == Select(Owned(rows, t), Some(t), keep)
  {
    FilterWithin((r: Rec<T>) => keep(r) && InScope(r.tenant, Some(t)), (r: Rec<T>) => r.tenant == Some(t), rows);
  }

  lemma EventsOwned(s: Store, a: Rec<Action>, t: string)
    ensures EventsOf(s, a, Some(t)) == EventsOf(Restrict(s, t), a, Some(t))
  {
    FilterWithin((e: AuditRec) => Concerns(a, e.row.core.fields.resourceId) && InScope(AuditTenant(e), Some(t)),
                 (e: AuditRec) => AuditTenant(e) == Some(t), s.events);
  }

  lemma GraphOwned(s: Store, a: Rec<Action>, t: string)
    requires WellKeyed(s)
    ensures GraphOf(s, a, Some(t)) == GraphOf(Restrict(s, t), a, Some(t))
  {
    ScopedGetOwned(s.workflows, a.body.workflowId, t);
    var w := ScopedGet(s.workflows, a.body.workflowId, Some(t));
    if w.Some? {
      ScopedGetOwned(s.systems, w.value.body.aiSystemId, t);
    }
    ScopedGetOwned(s.approvals, a.body.approvalId, t);
    ScopedGetOwned(s.jobs, a.body.sourceJobId, t);
    ScopedGetOwned(s.jobs, a.body.executionJobId, t);
    EventsOwned(s, a, t);
    SelectOwned(s.mappings, t, (m: Rec<Mapping>) => m.body.actionId == a.id);
    SelectOwned(s.artifacts, t, (x: Rec<Artifact>) => x.body.actionId == Some(a.id));
    SelectOwned(s.overrides, t, (o: Rec<Override>) => o.body.actionId == a.id);
  }

  // Tenant noninterference for the graph: what tenant t reads is computed from t's rows and
  // the shared catalog alone, even where its rows point at ids of other tenants.
  lemma GraphSeesOnlyOwn(s: Store, actionId: string, t: string)
    requires WellKeyed(s)
    ensures GetEvidenceGraph(s, actionId, Some(t)) == GetEvidenceGraph(Restrict(s, t), actionId, Some(t))
  {
    FetchOwned(s.actions, actionId, t);
    var a := Fetch(s.actions, actionId, Some(t));
    if a.Some? {
      GraphOwned(s, a.value, t);
    }
  }

  lemma ListSeesOnlyOwn(s: Store, t: string, q: ActionQuery)
    ensures ListActions(s, Some(t), q) == ListActions(Restrict(s, t), Some(t), q)
  {
    SelectOwned(s.actions, t, (a: Rec<Action>) => Wanted(q, a));
  }

  // ---- Writes ----

  datatype Write =
    | AddAction(row: Rec<Action>)
    | AddSystem(system: Rec<string>)
    | AddDataSource(source: Rec<DataSource>)
    | AddWorkflow(workflow: Rec<Workflow>)
    | AddRiskAssessment(assessment: Rec<RiskAssessment>)
    | AddApproval(approval: Rec<ApprovalRow>)
    | AddMapping(mapping: Rec<Mapping>)
    | AddArtifact(artifact: Rec<Artifact>)
    | AddEvent(event: AuditRec)
    | RecordOverride(scope: Option<string>, override: Rec<Override>)

  // The tenant a write is scoped to.
  function WriteTenant(w: Write): Option<string> {
    match w
    case AddAction(row) => row.tenant
    case AddSystem(row) => row.tenant
    case AddDataSource(row) => row.tenant
    case AddWorkflow(row) => row.tenant
    case AddRiskAssessment(row) => row.tenant
    case AddApproval(row) => row.tenant
    case AddMapping(row) => row.tenant
    case AddArtifact(row) => row.tenant
    case AddEvent(e) => AuditTenant(e)
    case RecordOverride(scope, _) => scope
  }

  const OVERRIDE_RECORDED := "override_recorded"

  predicate Overridable(risk: Option<string>) {
    risk == Some("medium") || risk == Some("high")
  }

  function SetStatus(rows: Table<Action>, id: string, status: string): Table<Action> {
    Map((r: Rec<Action>) => if r.id == id then r.(body := r.body.(status := status)) else r, rows)
  }

  // override_service.create_override: only a visible medium- or high-risk action.
  function Overridden(s: Store, scope: Option<string>, o: Rec<Override>): Result<Store, string> {
    var a := Fetch(s.actions, o.body.actionId, scope);
    if a.None? then Err("governed_action_not_found")
    else if !Overridable(a.value.body.riskLevel) then Err("override_not_applicable")
    else
      var risk := if Truthy(o.body.acceptedRisk) then o.body.acceptedRisk else a.value.body.riskLevel;
      var row := o.(tenant := scope, body := o.body.(acceptedRisk := risk, status := OVERRIDE_RECORDED));
      Ok(s.(overrides := s.overrides + [row],
            actions := SetStatus(s.actions, o.body.actionId, OVERRIDE_RECORDED)))
  }

  function Apply(s: Store, w: Write): Store {
    match w
    case AddAction(row) => s.(actions := s.actions + [row])
    case AddSystem(row) => s.(systems := s.systems + [row])
    case AddDataSource(row) => s.(sources := s.sources + [row])
    case AddWorkflow(row) => s.(workflows := s.workflows + [row])
    case AddRiskAssessment(row) => s.(assessments := s.assessments + [row])
    case AddApproval(row) => s.(approvals := s.approvals + [row])
    case AddMapping(row) => s.(mappings := s.mappings + [row])
    case AddArtifact(row) => s.(artifacts := s.artifacts + [row])
    case AddEvent(e) => s.(events := s.events + [e])
    case RecordOverride(scope, o) => (match Overridden(s, scope, o) case Ok(t) => t case Err(_) => s)
  }

  lemma OwnedAppend<T>(rows: Table<T>, r: Rec<T>, t: string)
    requires r.tenant != Some(t)
    ensures Owned(rows + [r], t) == Owned(rows, t)
  {
    assert (rows + [r])[..|rows + [r]| - 1] == rows;
  }

  lemma {:induction false} OwnedSetStatus(rows: Table<Action>, id: string, status: string, t: string)
    requires forall i :: 0 <= i < |rows| && rows[i].id == id ==> rows[i].tenant != Some(t)
    ensures Owned(SetStatus(rows, id, status), t) == Owned(rows, t)
  {
    if rows != [] {
      var n := |rows| - 1;
      OwnedSetStatus(rows[..n], id, status, t);
      assert SetStatus(rows, id, status)[..n] == SetStatus(rows[..n], id, status);
    }
  }

  // A write scoped to another tenant leaves everything tenant t can see as it was.
  lemma WriteLeavesOthersAlone(s: Store, w: Write, t: string)
    requires WellKeyed(s) && WriteTenant(w).Some? && WriteTenant(w) != Some(t)
    ensures Restrict(Apply(s, w), t) == Restrict(s, t)
  {
    match w
    case AddAction(row) => OwnedAppend(s.actions, row, t);
    case AddSystem(row) => OwnedAppend(s.systems, row, t);
    case AddDataSource(row) => OwnedAppend(s.sources, row, t);
    case AddWorkflow(row) => OwnedAppend(s.workflows, row, t);
    case AddRiskAssessment(row) => OwnedAppend(s.assessments, row, t);
    case AddApproval(row) => OwnedAppend(s.approvals, row, t);
    case AddMapping(row) => OwnedAppend(s.mappings, row, t);
    case AddArtifact(row) => OwnedAppend(s.artifacts, row, t);
    case AddEvent(e) => assert (s.events + [e])[..|s.events + [e]| - 1] == s.events;
    case RecordOverride(scope, o) =>
      if Overridden(s, scope, o).Ok? {
        var id := o.body.actionId;
        GetFinds(s.actions, id);
        var a := Get(s.actions, id).value;
        var k :| 0 <= k < |s.actions| && s.actions[k] == a;
        assert forall i :: 0 <= i < |s.actions| && s.actions[i].id == id ==> i == k;
        OwnedSetStatus(s.actions, id, OVERRIDE_RECORDED, t);
        OwnedAppend(s.overrides, Overridden(s, scope, o).value.overrides[|s.overrides|], t);
      }
  }
}
