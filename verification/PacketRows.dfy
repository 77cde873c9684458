// What a built packet reports, in terms of the store's rows: whose graphs it covers, what fills
// each of its lists, and which gaps it names.
module PacketRows {
  import opened Prelude
  import opened EvidenceGraph
  import opened EvidencePacket
  import opened EvidenceRows
  import AuditLog

  // ---- The lists ----

  // The status shown for an action: a recorded override, else the decision of its approval.
  function Shown(a: Action, approval: Option<Rec<ApprovalRow>>): string {
    match approval
    case Some(r) =>
      if a.status == "override_recorded" then a.status
      else if r.body.status == "pending" then "pending_approval"
      else if r.body.status == "approved" || r.body.status == "rejected" then r.body.status
      else a.status
    case None => a.status
  }

  function JobShown(job: Option<Rec<string>>): Option<JobItem> {
    match job
    case Some(j) => Some(JobItem(j.id, j.body))
    case None => None
  }

  // One entry per action, in the order of the graphs.
  function StatusShown(g: Graph): ActionItem {
    ActionItem(g.action.id, g.action.body.actionType, Shown(g.action.body, g.approval))
  }

  function DecisionShown(g: Graph): DecisionItem {
    var a := g.action.body;
    DecisionItem(g.action.id, a.policyVersion, a.policyVersionId, a.policyDecision)
  }

  function HistoryShown(g: Graph): HistoryItem {
    HistoryItem(g.action.id, JobShown(g.sourceJob), JobShown(g.executionJob))
  }

  ghost predicate ActionLists(gs: seq<Graph>, c: Content) {
    c.actions == Map(StatusShown, gs) && c.decisions == Map(DecisionShown, gs) && c.history == Map(HistoryShown, gs)
  }

  // One entry per row of each graph, in the order of the graphs and of their rows.
  ghost predicate ApprovalList(gs: seq<Graph>, c: Content) {
    c.approvals == FlatMap((g: Graph) =>
      if g.approval.Some? then [ApprovalItem(g.action.id, g.approval.value.id, g.approval.value.body.status)]
      else [], gs)
  }

  function EventShown(e: AuditRec): EventItem {
    var f := e.row.core.fields;
    EventItem(e.id, e.row.core.seqNo, f.action, f.resourceType, f.resourceId)
  }

  ghost predicate EventList(gs: seq<Graph>, c: Content) {
    c.events == FlatMap((g: Graph) => Map((e: AuditRec) => EventShown(e), g.auditEvents), gs)
  }

  ghost predicate AttachmentLists(gs: seq<Graph>, c: Content) {
    && c.artifacts == FlatMap((g: Graph) => Map((x: Rec<Artifact>) =>
         ArtifactItem(g.action.id, x.id, x.body.artifactType, x.body.uri), g.artifacts), gs)
    && c.overrides == FlatMap((g: Graph) => Map((o: Rec<Override>) =>
         OverrideItem(g.action.id, o.id, o.body), g.overrides), gs)
  }

  function ControlShown(id: string, m: MappedControl): ControlItem {
    match m.control
    case Some(control) => ControlItem(id, Some(control.code), Some(control.title), m.framework)
    case None => ControlItem(id, None, None, m.framework)
  }

  ghost predicate MappingLists(gs: seq<Graph>, c: Content) {
    && c.controls == FlatMap((g: Graph) => Map((m: MappedControl) => ControlShown(g.action.id, m), g.mappings), gs)
    && c.regulations == set g, m | g in gs && m in g.mappings && m.regulation.Some? :: m.regulation.value
  }

  lemma {:induction false} ActionsListed(gs: seq<Graph>)
    ensures ActionLists(gs, ContentOfAll(gs))
  {
    if gs != [] {
      ActionsListed(gs[..|gs| - 1]);
      MapLast(StatusShown, gs);
      MapLast(DecisionShown, gs);
      MapLast(HistoryShown, gs);
    }
  }

  lemma {:induction false} ApprovalsListed(gs: seq<Graph>)
    ensures ApprovalList(gs, ContentOfAll(gs))
  {
    if gs != [] {
      ApprovalsListed(gs[..|gs| - 1]);
    }
  }

  lemma {:induction false} EventsListed(gs: seq<Graph>)
    ensures EventList(gs, ContentOfAll(gs))
  {
    if gs != [] {
      var g := gs[|gs| - 1];
      EventsListed(gs[..|gs| - 1]);
      assert Map(EventOf, g.auditEvents) == Map((e: AuditRec) => EventShown(e), g.auditEvents);
    }
  }

  lemma {:induction false} AttachmentsListed(gs: seq<Graph>)
    ensures AttachmentLists(gs, ContentOfAll(gs))
  {
    if gs != [] {
      AttachmentsListed(gs[..|gs| - 1]);
    }
  }

  lemma {:induction false} MappingsListed(gs: seq<Graph>)
    ensures MappingLists(gs, ContentOfAll(gs))
  {
    if gs != [] {
      MappingsListed(gs[..|gs| - 1]);
    }
  }

  // Every list of the content holds exactly what the graphs hold.
  ghost predicate Columns(gs: seq<Graph>, c: Content) {
    ActionLists(gs, c) && ApprovalList(gs, c) && EventList(gs, c) && AttachmentLists(gs, c) && MappingLists(gs, c)
  }

  lemma ContentColumns(gs: seq<Graph>, v: AuditLog.Verification)
    ensures Columns(gs, WithChainGap(ContentOfAll(gs), v))
  {
    ActionsListed(gs);
    ApprovalsListed(gs);
    EventsListed(gs);
    AttachmentsListed(gs);
    MappingsListed(gs);
  }

  // ---- The packets ----

  // The gap is named exactly if some covered action lacks its rows, or the audit check failed.
  ghost predicate GapHolds(s: Store, q: ActionQuery, scope: Option<string>, v: AuditLog.Verification, gap: Gap) {
    if gap == BrokenAuditChain then v.status == AuditLog.Failed
    else exists a :: a in s.actions && Covers(q, scope, a) && RowsLack(s, a, scope, gap)
  }

  lemma ListedIff(s: Store, scope: Option<string>, q: ActionQuery, a: Rec<Action>)
    ensures a in ListActions(s, scope, q) <==> a in s.actions && Covers(q, scope, a)
  {
    ListMeans(s, scope, q);
    SelectsMembers((b: Rec<Action>) => Covers(q, scope, b), s.actions, ListActions(s, scope, q), a);
  }

  lemma ListedGraphs(s: Store, scope: Option<string>, q: ActionQuery)
    requires WellKeyed(s)
    ensures GraphsOf(s, ListActions(s, scope, q), scope) ==
            Map((a: Rec<Action>) => GraphOf(s, a, scope), ListActions(s, scope, q))
  {
    var listed := ListActions(s, scope, q);
    forall i | 0 <= i < |listed| ensures listed[i] in s.actions && InScope(listed[i].tenant, scope) {
      ListedIff(s, scope, q, listed[i]);
    }
    GraphsAreListed(s, listed, scope);
  }

  // Some graph of the covered actions lacks an item exactly if the store lacks its rows.
  lemma SomeCoveredLacks(s: Store, scope: Option<string>, q: ActionQuery, listed: Table<Action>, gs: seq<Graph>,
                         gap: Gap)
    requires WellKeyed(s) && listed == ListActions(s, scope, q)
    requires gs == Map((a: Rec<Action>) => GraphOf(s, a, scope), listed)
    ensures SomeLacks(gs, gap) <==> exists a :: a in s.actions && Covers(q, scope, a) && RowsLack(s, a, scope, gap)
  {
    if i :| 0 <= i < |gs| && Lacks(gs[i], gap) {
      ListedIff(s, scope, q, listed[i]);
      LacksMeans(s, listed[i], scope, gap);
    }
    if a :| a in s.actions && Covers(q, scope, a) && RowsLack(s, a, scope, gap) {
      ListedIff(s, scope, q, a);
      LacksMeans(s, a, scope, gap);
      var i :| 0 <= i < |listed| && listed[i] == a;
      assert Lacks(gs[i], gap);
    }
  }

  lemma GapsOverRows(s: Store, scope: Option<string>, q: ActionQuery, v: AuditLog.Verification, gap: Gap)
    requires WellKeyed(s)
    ensures gap in WithChainGap(ContentOfAll(GraphsOf(s, ListActions(s, scope, q), scope)), v).gaps <==>
            GapHolds(s, q, scope, v, gap)
  {
    var gs := GraphsOf(s, ListActions(s, scope, q), scope);
    ListedGraphs(s, scope, q);
    GapsMeanMissing(gs, v, gap);
    SomeCoveredLacks(s, scope, q, ListActions(s, scope, q), gs, gap);
  }

  // The packet's audit verdict is the self-hash check over the tenant's events, or the full
  // chain's for the operator.
  ghost predicate VerdictFor(h: AuditLog.Hasher, s: Store, scope: Option<string>, v: AuditLog.Verification) {
    var rows := seq(|s.events|, i requires 0 <= i < |s.events| => s.events[i].row);
    match scope
    case Some(t) => v == AuditLog.VerifyTenantList(h, AuditLog.TenantChain(rows, t))
    case None => v == AuditLog.VerifyList(h, AuditLog.OrderedChain(rows))
  }

  lemma VerdictIsFor(h: AuditLog.Hasher, s: Store, scope: Option<string>)
    ensures VerdictFor(h, s, scope, Verify(h, s, scope))
  {
    assert seq(|s.events|, i requires 0 <= i < |s.events| => s.events[i].row) == Map((e: AuditRec) => e.row, s.events);
  }

  // The graphs of the actions the query covers, each once and newest first.
  ghost predicate AreCovered(s: Store, q: ActionQuery, scope: Option<string>, gs: seq<Graph>) {
    gs == Map((a: Rec<Action>) => GraphOf(s, a, scope), ListActions(s, scope, q))
  }

  // A packet reports on the actions the query covers: its lists are theirs, every gap is one of
  // theirs, and the verdict is the caller's.
  ghost predicate Reports(h: AuditLog.Hasher, s: Store, q: ActionQuery, scope: Option<string>, gs: seq<Graph>,
                          p: Packet, gap: Gap) {
    && Columns(gs, p.content)
    && (gap in p.content.gaps <==> GapHolds(s, q, scope, p.verification, gap))
    && VerdictFor(h, s, scope, p.verification)
  }

  lemma ListingIsReported(h: AuditLog.Hasher, s: Store, q: ActionQuery, scope: Option<string>, gs: seq<Graph>,
                          p: Packet, gap: Gap)
    requires WellKeyed(s) && p.verification == Verify(h, s, scope) && AreCovered(s, q, scope, gs)
    requires p.content == WithChainGap(ContentOfAll(GraphsOf(s, ListActions(s, scope, q), scope)), p.verification)
    ensures Reports(h, s, q, scope, gs, p, gap)
  {
    ListedGraphs(s, scope, q);
    ContentColumns(gs, p.verification);
    VerdictIsFor(h, s, scope);
    GapsOverRows(s, scope, q, p.verification, gap);
  }

  // A tenant's packet reports on its actions created in the range.
  lemma TenantPacketReports(h: AuditLog.Hasher, s: Store, t: string, startAt: Option<int>, endAt: Option<int>,
                            now: string, gs: seq<Graph>, p: Packet, gap: Gap)
    requires WellKeyed(s) && AreCovered(s, ActionQuery(None, startAt, endAt), Some(t), gs)
    requires p == BuildTenantPacket(h, s, t, startAt, endAt, now)
    ensures Reports(h, s, ActionQuery(None, startAt, endAt), Some(t), gs, p, gap)
    ensures p == Packet("tenant", Some(t), Some(t), now, None, startAt, endAt, p.content, p.verification)
  {
    ListingIsReported(h, s, ActionQuery(None, startAt, endAt), Some(t), gs, p, gap);
  }

  // A workflow's packet is built exactly for a workflow in scope, and reports on its actions.
  lemma WorkflowPacketReports(h: AuditLog.Hasher, s: Store, w: Rec<Workflow>, scope: Option<string>, now: string,
                              gs: seq<Graph>, p: Option<Packet>, gap: Gap)
    requires WellKeyed(s) && w in s.workflows && AreCovered(s, ActionQuery(Some(w.id), None, None), scope, gs)
    requires p == BuildWorkflowPacket(h, s, w.id, scope, now)
    ensures p.Some? <==> InScope(w.tenant, scope)
    ensures p.Some? ==>
              && Reports(h, s, ActionQuery(Some(w.id), None, None), scope, gs, p.value, gap)
              && p.value == Packet("workflow", Some(w.id), scope, now, Some((w.id, w.body.name)), None, None,
                                   p.value.content, p.value.verification)
  {
    FetchMeans(s.workflows, w.id, scope);
    var r := Fetch(s.workflows, w.id, scope);
    if r.Some? {
      KeyIsOne(s.workflows, w, r.value);
      ListingIsReported(h, s, ActionQuery(Some(w.id), None, None), scope, gs, p.value, gap);
    }
  }

  // No packet is built for a key that the store does not have.
  lemma UnknownHasNoPacket(h: AuditLog.Hasher, s: Store, id: string, scope: Option<string>, now: string)
    requires WellKeyed(s)
    ensures (forall a :: a in s.actions ==> a.id != id) ==> BuildActionPacket(h, s, id, scope, now).None?
    ensures (forall w :: w in s.workflows ==> w.id != id) ==> BuildWorkflowPacket(h, s, id, scope, now).None?
  {
    FetchMeans(s.actions, id, scope);
    FetchMeans(s.workflows, id, scope);
  }

  function Named(w: Option<Rec<Workflow>>): Option<(string, string)> {
    match w
    case Some(r) => Some((r.id, r.body.name))
    case None => None
  }

  lemma ActionGaps(s: Store, a: Rec<Action>, scope: Option<string>, v: AuditLog.Verification, gap: Gap)
    requires WellKeyed(s)
    ensures gap in WithChainGap(ContentOfAll([GraphOf(s, a, scope)]), v).gaps <==>
            if gap == BrokenAuditChain then v.status == AuditLog.Failed else RowsLack(s, a, scope, gap)
  {
    var g := GraphOf(s, a, scope);
    GapsMeanMissing([g], v, gap);
    LacksMeans(s, a, scope, gap);
    assert SomeLacks([g], gap) <==> Lacks([g][0], gap);
  }

  // An action's packet is built exactly for an action in scope; it holds that action's graph and
  // names a gap exactly if the store has no row in scope of its kind for the action.
  lemma ActionPacketReports(h: AuditLog.Hasher, s: Store, a: Rec<Action>, scope: Option<string>, now: string,
                            p: Option<Packet>, gap: Gap)
    requires WellKeyed(s) && a in s.actions && p == BuildActionPacket(h, s, a.id, scope, now)
    ensures p.Some? <==> InScope(a.tenant, scope)
    ensures p.Some? ==>
              && p.value == Packet("governed_action", Some(a.id), scope, now, Named(GraphOf(s, a, scope).workflow),
                                   None, None, p.value.content, p.value.verification)
              && Columns([GraphOf(s, a, scope)], p.value.content)
              && VerdictFor(h, s, scope, p.value.verification)
              && (gap in p.value.content.gaps <==>
                  if gap == BrokenAuditChain then p.value.verification.status == AuditLog.Failed
                  else RowsLack(s, a, scope, gap))
  {
    FetchMeans(s.actions, a.id, scope);
    var r := Fetch(s.actions, a.id, scope);
    if r.Some? {
      KeyIsOne(s.actions, a, r.value);
      var g := GraphOf(s, a, scope);
      ContentColumns([g], Verify(h, s, scope));
      VerdictIsFor(h, s, scope);
      ActionGaps(s, a, scope, Verify(h, s, scope), gap);
    }
  }
}
