// What a graph and a packet say about the rows of the store: which rows are in an action's
// graph, which actions are listed, and what every gap of a built packet means.
module EvidenceRows {
  import opened Prelude
  import opened EvidenceGraph
  import opened EvidencePacket
  import AuditLog

  // ---- One row by its key ----

  // The row a column names, where the caller may see it.
  ghost predicate IsLink<T(!new)>(rows: Table<T>, link: Option<string>, scope: Option<string>, found: Option<Rec<T>>) {
    if found.Some? then
      && found.value in rows && link == Some(found.value.id) && found.value.id != ""
      && InScope(found.value.tenant, scope)
    else forall r :: r in rows && link == Some(r.id) && r.id != "" ==> !InScope(r.tenant, scope)
  }

  lemma KeyIsOne<T>(rows: Table<T>, a: Rec<T>, b: Rec<T>)
    requires UniqueIds(rows) && a in rows && b in rows && a.id == b.id
    ensures a == b
  {
    var i :| 0 <= i < |rows| && rows[i] == a;
    var j :| 0 <= j < |rows| && rows[j] == b;
    assert i == j;
  }

  // Looking a row up by its key finds it exactly if it is there and in scope.
  lemma FetchMeans<T(!new)>(rows: Table<T>, id: string, scope: Option<string>)
    requires UniqueIds(rows)
    ensures var r := Fetch(rows, id, scope);
            if r.Some? then r.value in rows && r.value.id == id && InScope(r.value.tenant, scope)
            else forall x :: x in rows && x.id == id ==> !InScope(x.tenant, scope)
  {
    GetFinds(rows, id);
    var r := Get(rows, id);
    forall x | x in rows && x.id == id ensures r == Some(x) {
      KeyIsOne(rows, x, r.value);
    }
  }

  lemma LinkMeans<T(!new)>(rows: Table<T>, link: Option<string>, scope: Option<string>)
    requires UniqueIds(rows)
    ensures IsLink(rows, link, scope, ScopedGet(rows, link, scope))
  {
    if Truthy(link) {
      FetchMeans(rows, link.value, scope);
    }
  }

  // ---- The rows of a graph ----

  // There is a graph exactly for an action of that id in scope, and it is that action's.
  lemma GraphIsOfAction(s: Store, id: string, scope: Option<string>)
    requires UniqueIds(s.actions)
    ensures var g := GetEvidenceGraph(s, id, scope);
            if g.Some? then g.value.action in s.actions && g.value.action.id == id &&
                            InScope(g.value.action.tenant, scope) && g.value == GraphOf(s, g.value.action, scope)
            else forall a :: a in s.actions && a.id == id ==> !InScope(a.tenant, scope)
  {
    FetchMeans(s.actions, id, scope);
  }

  // Approval, jobs, workflow and the workflow's system are the rows in scope that the action's
  // own columns name, and no others.
  lemma GraphLinks(s: Store, a: Rec<Action>, scope: Option<string>)
    requires WellKeyed(s)
    ensures var g := GraphOf(s, a, scope);
            && g.action == a
            && IsLink(s.approvals, a.body.approvalId, scope, g.approval)
            && IsLink(s.jobs, a.body.sourceJobId, scope, g.sourceJob)
            && IsLink(s.jobs, a.body.executionJobId, scope, g.executionJob)
            && IsLink(s.workflows, a.body.workflowId, scope, g.workflow)
            && (if g.workflow.Some? then IsLink(s.systems, g.workflow.value.body.aiSystemId, scope, g.aiSystem)
                else g.aiSystem.None?)
  {
    var g := GraphOf(s, a, scope);
    LinkMeans(s.approvals, a.body.approvalId, scope);
    LinkMeans(s.jobs, a.body.sourceJobId, scope);
    LinkMeans(s.jobs, a.body.executionJobId, scope);
    LinkMeans(s.workflows, a.body.workflowId, scope);
    if g.workflow.Some? {
      LinkMeans(s.systems, g.workflow.value.body.aiSystemId, scope);
    }
  }

  // The artifacts are the rows in scope that name the action, newest first.
  lemma GraphArtifacts(s: Store, a: Rec<Action>, scope: Option<string>)
    ensures var found := GraphOf(s, a, scope).artifacts;
            && Selects((x: Rec<Artifact>) => x.body.actionId == Some(a.id) && InScope(x.tenant, scope), s.artifacts,
                       found)
            && forall i, j :: 0 <= i < j < |found| ==> found[j].createdAt <= found[i].createdAt
  {
    var keep := (x: Rec<Artifact>) => x.body.actionId == Some(a.id);
    QueryMeans(NewestFirst, (r: Rec<Artifact>) => keep(r) && InScope(r.tenant, scope), s.artifacts);
  }

  // The overrides are the rows in scope that name the action.
  lemma GraphOverrides(s: Store, a: Rec<Action>, scope: Option<string>)
    ensures Selects((o: Rec<Override>) => o.body.actionId == a.id && InScope(o.tenant, scope),
                    s.overrides, GraphOf(s, a, scope).overrides)
  {
    var keep := (o: Rec<Override>) => o.body.actionId == a.id;
    FilterSelects((r: Rec<Override>) => keep(r) && InScope(r.tenant, scope), s.overrides);
  }

  // The event is about the action, its approval or one of its two jobs.
  predicate IsAbout(e: AuditRec, a: Rec<Action>) {
    var id := e.row.core.fields.resourceId;
    id != "" && (id == a.id || a.body.approvalId == Some(id) || a.body.sourceJobId == Some(id) ||
                 a.body.executionJobId == Some(id))
  }

  lemma SeqOrderIsTotal()
    ensures TotalPreorder(EventSeqLe)
  {
  }

  // The events are the rows in scope about the action.
  lemma GraphEvents(s: Store, a: Rec<Action>, scope: Option<string>)
    ensures Selects((e: AuditRec) => IsAbout(e, a) && InScope(e.row.core.fields.tenantId, scope), s.events,
                    GraphOf(s, a, scope).auditEvents)
  {
    var keep := (e: AuditRec) => Concerns(a, e.row.core.fields.resourceId) && InScope(AuditTenant(e), scope);
    FilterSelects(keep, s.events);
    OrderByPermutes(EventSeqLe, Filter(keep, s.events));
  }

  // ... in the order of their seq.
  lemma GraphEventsInOrder(s: Store, a: Rec<Action>, scope: Option<string>, i: nat, j: nat)
    requires i < j < |GraphOf(s, a, scope).auditEvents|
    ensures var found := GraphOf(s, a, scope).auditEvents;
            var m, n := found[i].row.core.seqNo, found[j].row.core.seqNo;
            m == None || (n != None && m.value <= n.value)
  {
    var keep := (e: AuditRec) => Concerns(a, e.row.core.fields.resourceId) && InScope(AuditTenant(e), scope);
    SeqOrderIsTotal();
    OrderBySorts(EventSeqLe, Filter(keep, s.events));
    assert Sorted(EventSeqLe, GraphOf(s, a, scope).auditEvents);
  }

  // What a mapping row stands for in the catalog.
  predicate Resolves(c: Catalog, r: Rec<Mapping>, m: MappedControl) {
    && m.rationale == r.body.rationale
    && (match m.control
        case Some(control) =>
          && r.body.controlId in c.controls && c.controls[r.body.controlId] == control
          && m.framework == (if control.frameworkId in c.frameworks then Some(c.frameworks[control.frameworkId])
                             else None)
        case None => r.body.controlId !in c.controls && m.framework == None)
    && (match m.regulation
        case Some(name) =>
          && r.body.regulationId.Some? && r.body.regulationId.value != "" && r.body.regulationId.value in c.regulations
          && c.regulations[r.body.regulationId.value] == name
        case None =>
          r.body.regulationId == None || r.body.regulationId == Some("") || r.body.regulationId.value !in c.regulations)
  }

  lemma ResolveMeans(c: Catalog, r: Rec<Mapping>)
    ensures Resolves(c, r, ResolveMapping(c, r))
  {
  }

  // The rows are the mapping rows in scope that name the action, and ms what they stand for.
  ghost predicate MappedFrom(s: Store, a: Rec<Action>, scope: Option<string>, rows: Table<Mapping>,
                             ms: seq<MappedControl>) {
    && Selects((m: Rec<Mapping>) => m.body.actionId == a.id && InScope(m.tenant, scope), s.mappings, rows)
    && |ms| == |rows|
    && forall i :: 0 <= i < |rows| ==> Resolves(s.catalog, rows[i], ms[i])
  }

  // The mapped controls are those of the mapping rows in scope that name the action, one by one.
  lemma GraphMappings(s: Store, a: Rec<Action>, scope: Option<string>)
    ensures exists rows :: MappedFrom(s, a, scope, rows, GraphOf(s, a, scope).mappings)
  {
    var keep := (m: Rec<Mapping>) => m.body.actionId == a.id;
    var rows := Select(s.mappings, scope, keep);
    FilterSelects((r: Rec<Mapping>) => keep(r) && InScope(r.tenant, scope), s.mappings);
    var ms := GraphOf(s, a, scope).mappings;
    assert ms == Map((m: Rec<Mapping>) => ResolveMapping(s.catalog, m), rows);
    forall i | 0 <= i < |rows| ensures Resolves(s.catalog, rows[i], ms[i]) {
      ResolveMeans(s.catalog, rows[i]);
    }
    assert MappedFrom(s, a, scope, rows, ms);
  }

  // ---- Gaps ----

  // The store has no row in scope of the kind the gap names for the action.
  ghost predicate RowsLack(s: Store, a: Rec<Action>, scope: Option<string>, gap: Gap) {
    match gap
    case MissingApproval =>
      forall r :: r in s.approvals && a.body.approvalId == Some(r.id) && r.id != "" ==> !InScope(r.tenant, scope)
    case MissingAuditRecords =>
      forall e :: e in s.events && IsAbout(e, a) ==> !InScope(e.row.core.fields.tenantId, scope)
    case MissingControlMappings =>
      forall m :: m in s.mappings && m.body.actionId == a.id ==> !InScope(m.tenant, scope)
    case MissingEvidenceArtifacts =>
      forall x :: x in s.artifacts && x.body.actionId == Some(a.id) ==> !InScope(x.tenant, scope)
    case BrokenAuditChain => false
  }

  lemma SelectsNone<T(!new)>(keep: T -> bool, xs: seq<T>, ys: seq<T>)
    requires Selects(keep, xs, ys)
    ensures ys == [] <==> forall x :: x in xs ==> !keep(x)
  {
    if ys != [] {
      SelectsMembers(keep, xs, ys, ys[0]);
    }
    if x :| x in xs && keep(x) {
      SelectsMembers(keep, xs, ys, x);
    }
  }

  lemma LacksMeans(s: Store, a: Rec<Action>, scope: Option<string>, gap: Gap)
    requires WellKeyed(s)
    ensures Lacks(GraphOf(s, a, scope), gap) <==> RowsLack(s, a, scope, gap)
  {
    var g := GraphOf(s, a, scope);
    match gap
    case MissingApproval =>
      GraphLinks(s, a, scope);
    case MissingAuditRecords =>
      GraphEvents(s, a, scope);
      SelectsNone((e: AuditRec) => IsAbout(e, a) && InScope(e.row.core.fields.tenantId, scope), s.events,
                  g.auditEvents);
    case MissingControlMappings =>
      GraphMappings(s, a, scope);
      var rows :| MappedFrom(s, a, scope, rows, g.mappings);
      SelectsNone((m: Rec<Mapping>) => m.body.actionId == a.id && InScope(m.tenant, scope), s.mappings, rows);
    case MissingEvidenceArtifacts =>
      GraphArtifacts(s, a, scope);
      SelectsNone((x: Rec<Artifact>) => x.body.actionId == Some(a.id) && InScope(x.tenant, scope), s.artifacts,
                  g.artifacts);
    case BrokenAuditChain =>
  }

  // ---- Which actions a packet covers ----

  predicate Covers(q: ActionQuery, scope: Option<string>, a: Rec<Action>) {
    && InScope(a.tenant, scope)
    && (q.workflowId == None || a.body.workflowId == q.workflowId)
    && (q.startAt == None || a.createdAt >= q.startAt.value)
    && (q.endAt == None || a.createdAt <= q.endAt.value)
  }

  // The listing has the actions in scope that the query wants, each once, newest first.
  lemma ListMeans(s: Store, scope: Option<string>, q: ActionQuery)
    ensures Selects((a: Rec<Action>) => Covers(q, scope, a), s.actions, ListActions(s, scope, q))
    ensures var found := ListActions(s, scope, q);
            forall i, j :: 0 <= i < j < |found| ==> found[j].createdAt <= found[i].createdAt
  {
    var keep := (a: Rec<Action>) => Wanted(q, a);
    QueryMeans(NewestFirst, (r: Rec<Action>) => keep(r) && InScope(r.tenant, scope), s.actions);
    assert Sorted(NewestFirst, ListActions(s, scope, q));
  }

  // An action of the store, seen by its key, has its own graph.
  lemma GraphAt(s: Store, a: Rec<Action>, scope: Option<string>)
    requires UniqueIds(s.actions) && a in s.actions && InScope(a.tenant, scope)
    ensures GetEvidenceGraph(s, a.id, scope) == Some(GraphOf(s, a, scope))
  {
    GraphIsOfAction(s, a.id, scope);
    var g := GetEvidenceGraph(s, a.id, scope);
    if g.Some? {
      KeyIsOne(s.actions, g.value.action, a);
    }
  }

  // A packet's graphs are those of the listed actions, one by one and in their order.
  lemma {:induction false} GraphsAreListed(s: Store, actions: Table<Action>, scope: Option<string>)
    requires UniqueIds(s.actions)
    requires forall i :: 0 <= i < |actions| ==> actions[i] in s.actions && InScope(actions[i].tenant, scope)
    ensures GraphsOf(s, actions, scope) == Map((a: Rec<Action>) => GraphOf(s, a, scope), actions)
  {
    if actions != [] {
      var n := |actions| - 1;
      GraphsAreListed(s, actions[..n], scope);
      GraphAt(s, actions[n], scope);
    }
  }

  // ---- Overrides ----

  // An override is refused as not found exactly if the caller has no such action.
  lemma OverrideNotFoundIff(s: Store, scope: Option<string>, o: Rec<Override>)
    requires UniqueIds(s.actions)
    ensures Overridden(s, scope, o) == Err("governed_action_not_found") <==>
            forall a :: a in s.actions && a.id == o.body.actionId ==> !InScope(a.tenant, scope)
  {
    FetchMeans(s.actions, o.body.actionId, scope);
    assert "governed_action_not_found"[0] != "override_not_applicable"[0];
  }

  // The override of an action is accepted exactly if its risk is medium or high. It is then
  // stored for the caller's tenant, as recorded and with the risk it accepts, the action's own if
  // none is given; the action is marked, and nothing else changes.
  lemma OverrideOutcome(s: Store, scope: Option<string>, o: Rec<Override>, k: nat)
    requires UniqueIds(s.actions)
    requires k < |s.actions| && s.actions[k].id == o.body.actionId && InScope(s.actions[k].tenant, scope)
    ensures var a, b := s.actions[k], o.body;
            var accepted := if b.acceptedRisk == None || b.acceptedRisk == Some("") then a.body.riskLevel
                            else b.acceptedRisk;
            Overridden(s, scope, o) ==
            if a.body.riskLevel == Some("medium") || a.body.riskLevel == Some("high") then
              Ok(s.(overrides := s.overrides +
                      [Rec(o.id, scope, o.createdAt,
                           Override(a.id, b.overriddenBy, b.reason, b.authorityBasis, accepted, b.compensatingControl,
                                    b.expiration, "override_recorded"))],
                    actions := s.actions[k := a.(body := a.body.(status := "override_recorded"))]))
            else Err("override_not_applicable")
  {
    var a := s.actions[k];
    FetchMeans(s.actions, a.id, scope);
    KeyIsOne(s.actions, Fetch(s.actions, a.id, scope).value, a);
    var marked := SetStatus(s.actions, a.id, OVERRIDE_RECORDED);
    forall i | 0 <= i < |s.actions| ensures marked[i] == s.actions[k := marked[k]][i] {
      assert s.actions[i].id == a.id ==> i == k;
    }
    assert marked == s.actions[k := a.(body := a.body.(status := "override_recorded"))];
  }

  // ---- What is recorded is read ----

  lemma SelectsOneMore<T(!new)>(keep: T -> bool, xs: seq<T>, ys: seq<T>, zs: seq<T>, x: T)
    requires Selects(keep, xs, ys) && Selects(keep, xs + [x], zs)
    ensures multiset(zs) == multiset(ys) + if keep(x) then multiset{x} else multiset{}
  {
    forall y ensures multiset(zs)[y] == (multiset(ys) + if keep(x) then multiset{x} else multiset{})[y] {
      assert multiset(xs + [x])[y] == multiset(xs)[y] + multiset{x}[y];
    }
  }

  // An artifact joins the graph of the action it names, and no other's, for all who may see it.
  lemma ArtifactIsRead(s: Store, x: Rec<Artifact>, a: Rec<Action>, scope: Option<string>)
    ensures multiset(GraphOf(Apply(s, AddArtifact(x)), a, scope).artifacts) ==
            multiset(GraphOf(s, a, scope).artifacts) +
            if x.body.actionId == Some(a.id) && InScope(x.tenant, scope) then multiset{x} else multiset{}
  {
    var t := Apply(s, AddArtifact(x));
    GraphArtifacts(s, a, scope);
    GraphArtifacts(t, a, scope);
    SelectsOneMore((y: Rec<Artifact>) => y.body.actionId == Some(a.id) && InScope(y.tenant, scope), s.artifacts,
                   GraphOf(s, a, scope).artifacts, GraphOf(t, a, scope).artifacts, x);
  }

  // ... and so does an event that is about the action.
  lemma EventIsRead(s: Store, e: AuditRec, a: Rec<Action>, scope: Option<string>, t: Store)
    requires t == Apply(s, AddEvent(e))
    ensures multiset(GraphOf(t, a, scope).auditEvents) ==
            multiset(GraphOf(s, a, scope).auditEvents) +
            if IsAbout(e, a) && InScope(e.row.core.fields.tenantId, scope) then multiset{e} else multiset{}
  {
    var keep := (d: AuditRec) => IsAbout(d, a) && InScope(d.row.core.fields.tenantId, scope);
    GraphEvents(s, a, scope);
    GraphEvents(t, a, scope);
    assert t.events == s.events + [e];
    SelectsOneMore(keep, s.events, GraphOf(s, a, scope).auditEvents, GraphOf(t, a, scope).auditEvents, e);
  }
}
