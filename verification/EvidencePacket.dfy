// services/evidence_packet.py: the exportable packet over a list of evidence graphs.
module EvidencePacket {
  import opened Prelude
  import opened EvidenceGraph
  import AuditLog

  // ---- The packet ----

  datatype ActionItem = ActionItem(id: string, actionType: string, status: string)
  datatype ApprovalItem = ApprovalItem(actionId: string, id: string, status: string)
  datatype DecisionItem = DecisionItem(
    actionId: string, version: Option<string>, versionId: Option<string>, decision: Option<string>)
  datatype JobItem = JobItem(id: string, status: string)
  datatype HistoryItem = HistoryItem(actionId: string, sourceJob: Option<JobItem>, executionJob: Option<JobItem>)
  datatype EventItem = EventItem(
    id: string, seqNo: Option<int>, action: string, resourceType: string, resourceId: string)
  datatype ControlItem = ControlItem(
    actionId: string, code: Option<string>, title: Option<string>, framework: Option<string>)
  datatype ArtifactItem = ArtifactItem(actionId: string, id: string, artifactType: string, uri: Option<string>)
  datatype OverrideItem = OverrideItem(actionId: string, id: string, body: Override)

  datatype Gap =
    | MissingApproval | MissingAuditRecords | MissingControlMappings | MissingEvidenceArtifacts | BrokenAuditChain

  // The accumulators of the assembly loop. Regulations and gaps are sets there too; the source
  // sorts them when it renders the packet.
  datatype Content = Content(
    actions: seq<ActionItem>, approvals: seq<ApprovalItem>, decisions: seq<DecisionItem>,
    history: seq<HistoryItem>, events: seq<EventItem>, controls: seq<ControlItem>, regulations: set<string>,
    artifacts: seq<ArtifactItem>, overrides: seq<OverrideItem>, gaps: set<Gap>)

  datatype Packet = Packet(
    packetType: string, scopeId: Option<string>, tenantId: Option<string>, generatedAt: string,
    workflow: Option<(string, string)>, startAt: Option<int>, endAt: Option<int>,
    content: Content, verification: AuditLog.Verification)

  const NOTHING := Content([], [], [], [], [], [], {}, [], [], {})

  function Join(a: Content, b: Content): Content {
    Content(a.actions + b.actions, a.approvals + b.approvals, a.decisions + b.decisions, a.history + b.history,
            a.events + b.events, a.controls + b.controls, a.regulations + b.regulations,
            a.artifacts + b.artifacts, a.overrides + b.overrides, a.gaps + b.gaps)
  }

  // ---- One graph's contribution ----

  // _effective_action_status: a recorded override first, then the approval, then the stored status.
  function EffectiveStatus(a: Action, approval: Option<ApprovalRow>): string {
    if a.status == OVERRIDE_RECORDED then OVERRIDE_RECORDED
    else if approval.None? then a.status
    else if approval.value.status == "pending" then "pending_approval"
    else if approval.value.status == "approved" then "approved"
    else if approval.value.status == "rejected" then "rejected"
    else a.status
  }

  function BodyOf<T>(r: Option<Rec<T>>): Option<T> {
    if r.Some? then Some(r.value.body) else None
  }

  function JobOf(r: Option<Rec<string>>): Option<JobItem> {
    if r.Some? then Some(JobItem(r.value.id, r.value.body)) else None
  }

  function EventOf(e: AuditRec): EventItem {
    var c := e.row.core;
    EventItem(e.id, c.seqNo, c.fields.action, c.fields.resourceType, c.fields.resourceId)
  }

  function ControlOf(actionId: string, m: MappedControl): ControlItem {
    ControlItem(actionId,
                if m.control.Some? then Some(m.control.value.code) else None,
                if m.control.Some? then Some(m.control.value.title) else None,
                m.framework)
  }

  function ArtifactOf(actionId: string, a: Rec<Artifact>): ArtifactItem {
    ArtifactItem(actionId, a.id, a.body.artifactType, a.body.uri)
  }

  function RegulationsOf(ms: seq<MappedControl>): set<string> {
    set m | m in ms && m.regulation.Some? :: m.regulation.value
  }

  function GapsOf(g: Graph): set<Gap> {
    (if g.approval.None? then {MissingApproval} else {})
    + (if g.auditEvents == [] then {MissingAuditRecords} else {})
    + (if g.mappings == [] then {MissingControlMappings} else {})
    + (if g.artifacts == [] then {MissingEvidenceArtifacts} else {})
  }

  function ContentOf(g: Graph): Content {
    var id := g.action.id;
    Content(
      [ActionItem(id, g.action.body.actionType, EffectiveStatus(g.action.body, BodyOf(g.approval)))],
      if g.approval.Some? then [ApprovalItem(id, g.approval.value.id, g.approval.value.body.status)] else [],
      [DecisionItem(id, g.action.body.policyVersion, g.action.body.policyVersionId, g.action.body.policyDecision)],
      [HistoryItem(id, JobOf(g.sourceJob), JobOf(g.executionJob))],
      Map(EventOf, g.auditEvents),
      Map((m: MappedControl) => ControlOf(id, m), g.mappings),
      RegulationsOf(g.mappings),
      Map((a: Rec<Artifact>) => ArtifactOf(id, a), g.artifacts),
      Map((o: Rec<Override>) => OverrideItem(id, o.id, o.body), g.overrides),
      GapsOf(g))
  }

  function ContentOfAll(gs: seq<Graph>): Content {
    if gs == [] then NOTHING else Join(ContentOfAll(gs[..|gs| - 1]), ContentOf(gs[|gs| - 1]))
  }

  // Assembly is a homomorphism: two lists of graphs assemble to the concatenation of their
  // per-action lists and the union of their regulations and gaps.
  lemma {:induction false} AssemblyIsHomomorphic(gs: seq<Graph>, hs: seq<Graph>)
    ensures ContentOfAll(gs + hs) == Join(ContentOfAll(gs), ContentOfAll(hs))
  {
    if hs == [] {
      assert gs + hs == gs;
    } else {
      var n := |hs| - 1;
      assert (gs + hs)[..|gs + hs| - 1] == gs + hs[..n];
      AssemblyIsHomomorphic(gs, hs[..n]);
      JoinAssociates(ContentOfAll(gs), ContentOfAll(hs[..n]), ContentOf(hs[n]));
    }
  }

  lemma JoinAssociates(a: Content, b: Content, c: Content)
    ensures Join(Join(a, b), c) == Join(a, Join(b, c))
  {
  }

  // The graph lacks what the gap names.
  predicate Lacks(g: Graph, gap: Gap) {
    match gap
    case MissingApproval => g.approval.None?
    case MissingAuditRecords => g.auditEvents == []
    case MissingControlMappings => g.mappings == []
    case MissingEvidenceArtifacts => g.artifacts == []
    case BrokenAuditChain => false
  }

  lemma GapsOfOne(g: Graph, gap: Gap)
    ensures gap in GapsOf(g) <==> Lacks(g, gap)
  {
    match gap
    case MissingApproval =>
    case MissingAuditRecords =>
    case MissingControlMappings =>
    case MissingEvidenceArtifacts =>
    case BrokenAuditChain =>
  }

  ghost predicate SomeLacks(gs: seq<Graph>, gap: Gap) {
    exists i :: 0 <= i < |gs| && Lacks(gs[i], gap)
  }

  lemma SomeLacksLast(gs: seq<Graph>, g: Graph, gap: Gap)
    ensures SomeLacks(gs + [g], gap) <==> SomeLacks(gs, gap) || Lacks(g, gap)
  {
    if i :| 0 <= i < |gs| && Lacks(gs[i], gap) {
      assert (gs + [g])[i] == gs[i];
    }
    if Lacks(g, gap) {
      assert (gs + [g])[|gs|] == g;
    }
  }

  lemma {:induction false} GapsOfSome(gs: seq<Graph>, gap: Gap)
    ensures gap in ContentOfAll(gs).gaps <==> SomeLacks(gs, gap)
  {
    if gs != [] {
      var n := |gs| - 1;
      var front, last := gs[..n], gs[n];
      GapsOfSome(front, gap);
      GapsOfOne(last, gap);
      SomeLacksLast(front, last, gap);
      assert gs == front + [last];
      assert ContentOfAll(gs).gaps == ContentOfAll(front).gaps + GapsOf(last);
    }
  }

  // A packet reports a missing item exactly when some action in it lacks the item, and a
  // broken audit chain exactly when the verification failed.
  lemma {:induction false} GapsMeanMissing(gs: seq<Graph>, v: AuditLog.Verification, gap: Gap)
    ensures gap in WithChainGap(ContentOfAll(gs), v).gaps <==>
            if gap == BrokenAuditChain then v.status == AuditLog.Failed
            else SomeLacks(gs, gap)
  {
    GapsOfSome(gs, gap);
  }

  lemma {:induction false} RegulationsMeanMapped(gs: seq<Graph>, r: string)
    ensures r in ContentOfAll(gs).regulations <==>
            exists i :: 0 <= i < |gs| && r in RegulationsOf(gs[i].mappings)
  {
    if gs != [] {
      var n := |gs| - 1;
      RegulationsMeanMapped(gs[..n], r);
      assert forall i :: 0 <= i < n ==> gs[..n][i] == gs[i];
    }
  }

  // ---- _assemble ----

  function WithChainGap(c: Content, v: AuditLog.Verification): Content {
    if v.status == AuditLog.Failed then c.(gaps := c.gaps + {BrokenAuditChain}) else c
  }

  // One pass of the loop body: each accumulator grows by what the graph carries, and each
  // list that is empty leaves its gap behind.
  method AddGraph(c: Content, g: Graph) returns (d: Content)
    ensures d == Join(c, ContentOf(g))
  {
    var id := g.action.id;
    var approvals, events, controls, artifacts := c.approvals, c.events, c.controls, c.artifacts;
    var regulations, gaps := c.regulations, c.gaps;
    if g.approval.Some? {
      approvals := approvals + [ApprovalItem(id, g.approval.value.id, g.approval.value.body.status)];
    } else {
      gaps := gaps + {MissingApproval};
    }
    if g.auditEvents != [] {
      events := events + Map(EventOf, g.auditEvents);
    } else {
      gaps := gaps + {MissingAuditRecords};
    }
    if g.mappings != [] {
      controls := controls + Map((m: MappedControl) => ControlOf(id, m), g.mappings);
      regulations := regulations + RegulationsOf(g.mappings);
    } else {
      gaps := gaps + {MissingControlMappings};
    }
    if g.artifacts != [] {
      artifacts := artifacts + Map((a: Rec<Artifact>) => ArtifactOf(id, a), g.artifacts);
    } else {
      gaps := gaps + {MissingEvidenceArtifacts};
    }
    assert gaps == c.gaps + GapsOf(g);
    assert regulations == c.regulations + RegulationsOf(g.mappings);
    d := Content(
      c.actions + [ActionItem(id, g.action.body.actionType, EffectiveStatus(g.action.body, BodyOf(g.approval)))],
      approvals,
      c.decisions + [DecisionItem(id, g.action.body.policyVersion, g.action.body.policyVersionId,
                                  g.action.body.policyDecision)],
      c.history + [HistoryItem(id, JobOf(g.sourceJob), JobOf(g.executionJob))],
      events, controls, regulations, artifacts,
      c.overrides + Map((o: Rec<Override>) => OverrideItem(id, o.id, o.body), g.overrides),
      gaps);
  }

  // The loop over graphs.
  method Assemble(graphs: seq<Graph>, v: AuditLog.Verification) returns (c: Content)
    ensures c == WithChainGap(ContentOfAll(graphs), v)
  {
    c := NOTHING;
    for i := 0 to |graphs|
      invariant c == ContentOfAll(graphs[..i])
    {
      assert graphs[..i + 1][..i] == graphs[..i];
      c := AddGraph(c, graphs[i]);
    }
    assert graphs[..|graphs|] == graphs;
    if v.status == AuditLog.Failed {
      c := c.(gaps := c.gaps + {BrokenAuditChain});
    }
  }

  // ---- Builders ----

  // _verify: the self-hash check for a tenant, the full chain for the operator.
  function Verify(h: AuditLog.Hasher, s: Store, scope: Option<string>): AuditLog.Verification {
    var rows := Map((e: AuditRec) => e.row, s.events);
    if scope.Some? then AuditLog.VerifyTenantList(h, AuditLog.TenantChain(rows, scope.value))
    else AuditLog.VerifyList(h, AuditLog.OrderedChain(rows))
  }

  function BuildActionPacket(h: AuditLog.Hasher, s: Store, id: string, scope: Option<string>,
                             now: string): Option<Packet> {
    var g := GetEvidenceGraph(s, id, scope);
    if g.None? then None
    else
      var w := g.value.workflow;
      var v := Verify(h, s, scope);
      Some(Packet("governed_action", Some(id), scope, now,
                  if w.Some? then Some((w.value.id, w.value.body.name)) else None, None, None,
                  WithChainGap(ContentOfAll([g.value]), v), v))
  }

  function GraphsOf(s: Store, actions: Table<Action>, scope: Option<string>): seq<Graph> {
    FlatMap((a: Rec<Action>) => var g := GetEvidenceGraph(s, a.id, scope); if g.Some? then [g.value] else [], actions)
  }

  function BuildWorkflowPacket(h: AuditLog.Hasher, s: Store, id: string, scope: Option<string>,
                               now: string): Option<Packet> {
    var w := Fetch(s.workflows, id, scope);
    if w.None? then None
    else
      var graphs := GraphsOf(s, ListActions(s, scope, ActionQuery(Some(id), None, None)), scope);
      var v := Verify(h, s, scope);
      Some(Packet("workflow", Some(id), scope, now, Some((w.value.id, w.value.body.name)), None, None,
                  WithChainGap(ContentOfAll(graphs), v), v))
  }

  function BuildTenantPacket(h: AuditLog.Hasher, s: Store, t: string, startAt: Option<int>, endAt: Option<int>,
                             now: string): Packet {
    var graphs := GraphsOf(s, ListActions(s, Some(t), ActionQuery(None, startAt, endAt)), Some(t));
    var v := Verify(h, s, Some(t));
    Packet("tenant", Some(t), Some(t), now, None, startAt, endAt, WithChainGap(ContentOfAll(graphs), v), v)
  }

  // ---- Tenant noninterference ----

  lemma VerifySeesOnlyOwn(h: AuditLog.Hasher, s: Store, t: string)
    ensures Verify(h, s, Some(t)) == Verify(h, Restrict(s, t), Some(t))
  {
    var column := (e: AuditRec) => e.row;
    var keep := (r: AuditLog.Row) => r.core.fields.tenantId == Some(t) && r.eventHash.Some?;
    var also := (e: AuditRec) => AuditTenant(e) == Some(t) && e.row.eventHash.Some?;
    FilterMap(column, keep, also, s.events);
    FilterMap(column, keep, also, Restrict(s, t).events);
    FilterWithin(also, (e: AuditRec) => AuditTenant(e) == Some(t), s.events);
  }

  lemma GraphsSeeOnlyOwn(s: Store, actions: Table<Action>, t: string)
    requires WellKeyed(s)
    ensures GraphsOf(s, actions, Some(t)) == GraphsOf(Restrict(s, t), actions, Some(t))
  {
    forall i | 0 <= i < |actions|
      ensures GetEvidenceGraph(s, actions[i].id, Some(t)) == GetEvidenceGraph(Restrict(s, t), actions[i].id, Some(t))
    {
      GraphSeesOnlyOwn(s, actions[i].id, t);
    }
    FlatMapSame(
      (a: Rec<Action>) => var g := GetEvidenceGraph(s, a.id, Some(t)); if g.Some? then [g.value] else [],
      (a: Rec<Action>) => var g := GetEvidenceGraph(Restrict(s, t), a.id, Some(t)); if g.Some? then [g.value] else [],
      actions);
  }

  // Two stores that agree on tenant t's rows and on the catalog give t the same packets of
  // every kind: other tenants' rows, edits and tampering included, leave no trace.
  lemma PacketsSeeOnlyOwn(h: AuditLog.Hasher, a: Store, b: Store, t: string, id: string, from: Option<int>,
                          until: Option<int>, now: string)
    requires WellKeyed(a) && WellKeyed(b) && Restrict(a, t) == Restrict(b, t)
    ensures BuildActionPacket(h, a, id, Some(t), now) == BuildActionPacket(h, b, id, Some(t), now)
    ensures BuildWorkflowPacket(h, a, id, Some(t), now) == BuildWorkflowPacket(h, b, id, Some(t), now)
    ensures BuildTenantPacket(h, a, t, from, until, now) == BuildTenantPacket(h, b, t, from, until, now)
  {
    PacketsOfRestriction(h, a, t, id, from, until, now);
    PacketsOfRestriction(h, b, t, id, from, until, now);
  }

  lemma PacketsOfRestriction(h: AuditLog.Hasher, s: Store, t: string, id: string, from: Option<int>,
                             until: Option<int>, now: string)
    requires WellKeyed(s)
    ensures BuildActionPacket(h, s, id, Some(t), now) == BuildActionPacket(h, Restrict(s, t), id, Some(t), now)
    ensures BuildWorkflowPacket(h, s, id, Some(t), now) == BuildWorkflowPacket(h, Restrict(s, t), id, Some(t), now)
    ensures BuildTenantPacket(h, s, t, from, until, now) == BuildTenantPacket(h, Restrict(s, t), t, from, until, now)
  {
    VerifySeesOnlyOwn(h, s, t);
    GraphSeesOnlyOwn(s, id, t);
    FetchOwned(s.workflows, id, t);
    var byWorkflow, byRange := ActionQuery(Some(id), None, None), ActionQuery(None, from, until);
    ListSeesOnlyOwn(s, t, byWorkflow);
    ListSeesOnlyOwn(s, t, byRange);
    GraphsSeeOnlyOwn(s, ListActions(s, Some(t), byWorkflow), t);
    GraphsSeeOnlyOwn(s, ListActions(s, Some(t), byRange), t);
  }
}
