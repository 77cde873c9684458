// Laws of the trust score over the evidence store: better evidence never lowers a score, and
// a tenant's score is computed from its own rows alone.
module ScoreLaws {
  import opened Prelude
  import opened EvidenceGraph
  import opened EvidencePacket
  import opened TrustScore
  import AuditLog
  import EventHash

  // ---- Better evidence ----

  datatype Improvement =
    | MapControl(mapping: Rec<Mapping>)
    | AttachArtifact(artifact: Rec<Artifact>)
    | ApprovePending(approvalId: string, eventId: string, event: EventHash.Fields)
    | RecordEvent(eventId: string, event: EventHash.Fields)

  function Approved(id: string, r: Rec<ApprovalRow>): Rec<ApprovalRow> {
    if r.id == id && r.body.status == "pending" then r.(body := r.body.(status := "approved")) else r
  }

  // The audit table with one more event, as `record` commits it.
  function Recorded(h: AuditLog.Hasher, events: seq<AuditRec>, id: string, f: EventHash.Fields): seq<AuditRec> {
    var head := AuditLog.ChainHead(Map((e: AuditRec) => e.row, events));
    events + [AuditRec(id, AuditLog.NextRow(h, head, f))]
  }

  // Approving changes the row's status and records an event.
  function Improve(h: AuditLog.Hasher, s: Store, i: Improvement): Store {
    match i
    case MapControl(m) => s.(mappings := s.mappings + [m])
    case AttachArtifact(a) => s.(artifacts := s.artifacts + [a])
    case ApprovePending(id, eventId, f) =>
      s.(approvals := Map((r: Rec<ApprovalRow>) => Approved(id, r), s.approvals),
         events := Recorded(h, s.events, eventId, f))
    case RecordEvent(eventId, f) => s.(events := Recorded(h, s.events, eventId, f))
  }

  // What an improvement may do to one graph.
  ghost predicate GraphImproves(g: Graph, k: Graph) {
    && (k.action, k.workflow, k.overrides) == (g.action, g.workflow, g.overrides)
    && (forall e :: e in g.auditEvents ==> e in k.auditEvents)
    && (g.approval.Some? <==> k.approval.Some?)
    && (g.approval.Some? && g.approval.value.body.status == "approved" ==> k.approval.value.body.status == "approved")
    && (g.mappings != [] ==> k.mappings != [])
    && RegulationsOf(g.mappings) <= RegulationsOf(k.mappings)
    && (g.artifacts != [] ==> k.artifacts != [])
  }

  // ... and to the assembled content.
  ghost predicate ContentImproves(c: Content, k: Content) {
    && (k.decisions, k.overrides) == (c.decisions, c.overrides)
    && (forall e :: e in c.events ==> e in k.events)
    && |k.approvals| == |c.approvals|
    && (forall i :: 0 <= i < |c.approvals| && c.approvals[i].status == "approved" ==>
        k.approvals[i].status == "approved")
    && (c.controls != [] ==> k.controls != [])
    && c.regulations <= k.regulations
    && k.gaps <= c.gaps
  }

  ghost predicate PacketNoWorse(p: Packet, q: Packet) {
    && p.tenantId == q.tenantId && AuditLog.NoWorse(p.verification.status, q.verification.status)
    && ContentImproves(p.content, q.content)
  }

  lemma {:induction false} CountMonotone<T>(keep: T -> bool, xs: seq<T>, ys: seq<T>)
    requires |xs| == |ys|
    requires forall i :: 0 <= i < |xs| && keep(xs[i]) ==> keep(ys[i])
    ensures Count(keep, xs) <= Count(keep, ys)
  {
    if xs != [] {
      CountMonotone(keep, xs[..|xs| - 1], ys[..|ys| - 1]);
    }
  }

  lemma ShareMonotone(d: Dimension, part: nat, more: nat, whole: nat)
    requires part <= more <= whole
    ensures Share(d, part, whole) <= Share(d, more, whole)
  {
    if whole > 0 {
      ScaleLe(MaxPoints(d), part, more);
      RoundMonotone(MaxPoints(d) * part, MaxPoints(d) * more, whole);
      FullShare(MaxPoints(d), part, whole);
    }
  }

  lemma FewerGaps(a: set<Gap>, b: set<Gap>)
    requires a <= b
    ensures |a| <= |b|
  {
    assert b == a + (b - a);
  }

  lemma EarnedMonotone(d: Dimension, p: Packet, q: Packet, env: AppEnv)
    requires PacketNoWorse(p, q)
    ensures Earned(d, p, env) <= Earned(d, q, env)
  {
    if d == ApprovalCoverage {
      var keep := (a: ApprovalItem) => a.status == "approved";
      CountMonotone(keep, p.content.approvals, q.content.approvals);
      ShareMonotone(d, ApprovedCount(p.content), ApprovedCount(q.content), |p.content.approvals|);
    } else if d == EvidenceCompleteness {
      FewerGaps(q.content.gaps, p.content.gaps);
    }
  }

  lemma {:induction false} TotalMonotone(ds: seq<Dimension>, p: Packet, q: Packet, env: AppEnv)
    requires PacketNoWorse(p, q)
    ensures Total(ds, p, env) <= Total(ds, q, env)
  {
    if ds != [] {
      TotalMonotone(ds[..|ds| - 1], p, q, env);
      EarnedMonotone(ds[|ds| - 1], p, q, env);
    }
  }

  // ---- From the store to the content ----

  lemma OrderByKeepsLength<T>(le: (T, T) -> bool, xs: seq<T>)
    ensures |OrderBy(le, xs)| == |xs|
  {
    OrderByPermutes(le, xs);
    assert |multiset(OrderBy(le, xs))| == |OrderBy(le, xs)|;
  }

  lemma OrderByMembers<T>(le: (T, T) -> bool, xs: seq<T>, x: T)
    ensures x in OrderBy(le, xs) <==> x in xs
  {
    OrderByPermutes(le, xs);
    assert x in OrderBy(le, xs) <==> x in multiset(OrderBy(le, xs));
    assert x in xs <==> x in multiset(xs);
  }

  // A recorded event drops none from an action's list.
  lemma EventsGrow(h: AuditLog.Hasher, s: Store, id: string, f: EventHash.Fields, a: Rec<Action>, scope: Option<string>)
    ensures var t := s.(events := Recorded(h, s.events, id, f));
            forall e :: e in EventsOf(s, a, scope) ==> e in EventsOf(t, a, scope)
  {
    var t := s.(events := Recorded(h, s.events, id, f));
    var keep := (e: AuditRec) => Concerns(a, e.row.core.fields.resourceId) && InScope(AuditTenant(e), scope);
    assert t.events[..|t.events| - 1] == s.events;
    forall e | e in EventsOf(s, a, scope) ensures e in EventsOf(t, a, scope) {
      OrderByMembers(EventSeqLe, Filter(keep, s.events), e);
      OrderByMembers(EventSeqLe, Filter(keep, t.events), e);
    }
  }

  lemma MappingImproves(s: Store, m: Rec<Mapping>, a: Rec<Action>, scope: Option<string>)
    ensures GraphImproves(GraphOf(s, a, scope), GraphOf(s.(mappings := s.mappings + [m]), a, scope))
  {
    var g, k := GraphOf(s, a, scope), GraphOf(s.(mappings := s.mappings + [m]), a, scope);
    forall x | x in g.mappings ensures x in k.mappings {
      var j :| 0 <= j < |g.mappings| && g.mappings[j] == x;
      assert k.mappings[j] == x;
    }
  }

  lemma ArtifactImproves(s: Store, x: Rec<Artifact>, a: Rec<Action>, scope: Option<string>)
    ensures GraphImproves(GraphOf(s, a, scope), GraphOf(s.(artifacts := s.artifacts + [x]), a, scope))
  {
    var keep := (x: Rec<Artifact>) => x.body.actionId == Some(a.id);
    OrderByKeepsLength(NewestFirst, Select(s.artifacts, scope, keep));
    OrderByKeepsLength(NewestFirst, Select(s.artifacts + [x], scope, keep));
  }

  lemma EventImproves(h: AuditLog.Hasher, s: Store, id: string, f: EventHash.Fields, a: Rec<Action>,
                      scope: Option<string>)
    ensures GraphImproves(GraphOf(s, a, scope), GraphOf(s.(events := Recorded(h, s.events, id, f)), a, scope))
  {
    EventsGrow(h, s, id, f, a, scope);
  }

  lemma ApprovalImproves(s: Store, id: string, a: Rec<Action>, scope: Option<string>)
    ensures var approved := s.(approvals := Map((r: Rec<ApprovalRow>) => Approved(id, r), s.approvals));
            GraphImproves(GraphOf(s, a, scope), GraphOf(approved, a, scope))
  {
    if Truthy(a.body.approvalId) {
      GetMapped((r: Rec<ApprovalRow>) => Approved(id, r), s.approvals, a.body.approvalId.value);
    }
  }

  lemma ImprovesTwice(g: Graph, k: Graph, l: Graph)
    requires GraphImproves(g, k) && GraphImproves(k, l)
    ensures GraphImproves(g, l)
  {
  }

  lemma GraphOfImproved(h: AuditLog.Hasher, s: Store, i: Improvement, a: Rec<Action>, scope: Option<string>)
    ensures GraphImproves(GraphOf(s, a, scope), GraphOf(Improve(h, s, i), a, scope))
  {
    match i
    case MapControl(m) => MappingImproves(s, m, a, scope);
    case AttachArtifact(x) => ArtifactImproves(s, x, a, scope);
    case RecordEvent(eventId, f) => EventImproves(h, s, eventId, f, a, scope);
    case ApprovePending(id, eventId, f) =>
      var approved := s.(approvals := Map((r: Rec<ApprovalRow>) => Approved(id, r), s.approvals));
      ApprovalImproves(s, id, a, scope);
      EventImproves(h, approved, eventId, f, a, scope);
      ImprovesTwice(GraphOf(s, a, scope), GraphOf(approved, a, scope), GraphOf(Improve(h, s, i), a, scope));
  }

  lemma JoinImproves(a: Content, b: Content, c: Content, d: Content)
    requires ContentImproves(a, b) && ContentImproves(c, d)
    ensures ContentImproves(Join(a, c), Join(b, d))
  {
  }

  lemma ContentOfImproved(g: Graph, k: Graph)
    requires GraphImproves(g, k)
    ensures ContentImproves(ContentOf(g), ContentOf(k))
  {
    var c, d := ContentOf(g), ContentOf(k);
    forall e | e in c.events ensures e in d.events {
      var i :| 0 <= i < |g.auditEvents| && EventOf(g.auditEvents[i]) == e;
      assert g.auditEvents[i] in k.auditEvents;
      var j :| 0 <= j < |k.auditEvents| && k.auditEvents[j] == g.auditEvents[i];
      assert d.events[j] == e;
    }
    assert g.auditEvents != [] ==> g.auditEvents[0] in k.auditEvents;
  }

  // One more improved graph at the end of two improved lists.
  lemma ImproveOneMore(gs: seq<Graph>, ks: seq<Graph>, g: Graph, k: Graph)
    requires ContentImproves(ContentOfAll(gs), ContentOfAll(ks)) && GraphImproves(g, k)
    ensures ContentImproves(ContentOfAll(gs + [g]), ContentOfAll(ks + [k]))
  {
    assert (gs + [g])[..|gs|] == gs && (ks + [k])[..|ks|] == ks;
    ContentOfImproved(g, k);
    JoinImproves(ContentOfAll(gs), ContentOfAll(ks), ContentOf(g), ContentOf(k));
  }

  lemma GraphsImproveSingle(g: Graph, k: Graph)
    requires GraphImproves(g, k)
    ensures ContentImproves(ContentOfAll([g]), ContentOfAll([k]))
  {
    ImproveOneMore([], [], g, k);
    assert [] + [g] == [g] && [] + [k] == [k];
  }

  lemma GetGraphImproved(h: AuditLog.Hasher, s: Store, i: Improvement, id: string, scope: Option<string>)
    ensures var g, k := GetEvidenceGraph(s, id, scope), GetEvidenceGraph(Improve(h, s, i), id, scope);
            (g.Some? <==> k.Some?) && (g.Some? ==> GraphImproves(g.value, k.value))
  {
    var a := Fetch(s.actions, id, scope);
    if a.Some? {
      GraphOfImproved(h, s, i, a.value, scope);
    }
  }

  lemma {:induction false} GraphsImprove(h: AuditLog.Hasher, s: Store, i: Improvement, actions: Table<Action>,
                                         scope: Option<string>)
    ensures ContentImproves(ContentOfAll(GraphsOf(s, actions, scope)),
                            ContentOfAll(GraphsOf(Improve(h, s, i), actions, scope)))
  {
    if actions != [] {
      var n := |actions| - 1;
      GraphsImprove(h, s, i, actions[..n], scope);
      GetGraphImproved(h, s, i, actions[n].id, scope);
      var g, k := GetEvidenceGraph(s, actions[n].id, scope), GetEvidenceGraph(Improve(h, s, i), actions[n].id, scope);
      var gs, ks := GraphsOf(s, actions[..n], scope), GraphsOf(Improve(h, s, i), actions[..n], scope);
      GraphsOfStep(s, actions, scope);
      GraphsOfStep(Improve(h, s, i), actions, scope);
      if g.Some? {
        ImproveOneMore(gs, ks, g.value, k.value);
      }
    }
  }

  lemma GraphsOfStep(s: Store, actions: Table<Action>, scope: Option<string>)
    requires actions != []
    ensures var n := |actions| - 1;
            var g := GetEvidenceGraph(s, actions[n].id, scope);
            var front := GraphsOf(s, actions[..n], scope);
            GraphsOf(s, actions, scope) == if g.Some? then front + [g.value] else front
  {
  }

  // ---- The laws ----

  function ScoreOf(p: Option<Packet>, env: AppEnv): Option<nat> {
    if p.Some? then Some(Score(p.value, env)) else None
  }

  ghost predicate NoLower(a: Option<nat>, b: Option<nat>) {
    (a.Some? <==> b.Some?) && (a.Some? ==> a.value <= b.value)
  }

  lemma ChainGapImproves(c: Content, k: Content, v: AuditLog.Verification, w: AuditLog.Verification)
    requires ContentImproves(c, k) && AuditLog.NoWorse(v.status, w.status)
    ensures ContentImproves(WithChainGap(c, v), WithChainGap(k, w))
  {
  }

  // No improvement worsens the audit verification, recording its own event included.
  lemma VerifyImproves(h: AuditLog.Hasher, s: Store, i: Improvement, scope: Option<string>)
    ensures AuditLog.NoWorse(Verify(h, s, scope).status, Verify(h, Improve(h, s, i), scope).status)
  {
    if i.ApprovePending? || i.RecordEvent? {
      var rows := Map((e: AuditRec) => e.row, s.events);
      assert Map((e: AuditRec) => e.row, Recorded(h, s.events, i.eventId, i.event)) ==
          AuditLog.Append(h, rows, i.event);
      AuditLog.AppendIsNoWorse(h, rows, i.event);
      if scope.Some? {
        AuditLog.TenantAppendIsNoWorse(h, rows, i.event, scope.value);
      }
    }
  }

  lemma PacketImproves(p: Packet, q: Packet, env: AppEnv)
    requires PacketNoWorse(p, q)
    ensures Score(p, env) <= Score(q, env)
  {
    TotalMonotone(DIMENSIONS, p, q, env);
  }

  // Mapping a control, linking a regulation, attaching an artifact, approving a pending approval
  // with the event that records it, or recording any event never lowers a score: not of an
  // action, a workflow or a tenant, in no scope, and whatever state the audit log is in.
  lemma ActionScoreNeverDrops(h: AuditLog.Hasher, s: Store, i: Improvement, id: string, scope: Option<string>,
                              env: AppEnv, now: string)
    ensures NoLower(ScoreOf(BuildActionPacket(h, s, id, scope, now), env),
                    ScoreOf(BuildActionPacket(h, Improve(h, s, i), id, scope, now), env))
  {
    var p, q := BuildActionPacket(h, s, id, scope, now), BuildActionPacket(h, Improve(h, s, i), id, scope, now);
    GetGraphImproved(h, s, i, id, scope);
    if p.Some? {
      var g, k := GetEvidenceGraph(s, id, scope).value, GetEvidenceGraph(Improve(h, s, i), id, scope).value;
      GraphsImproveSingle(g, k);
      VerifyImproves(h, s, i, scope);
      ChainGapImproves(ContentOfAll([g]), ContentOfAll([k]), p.value.verification, q.value.verification);
      PacketImproves(p.value, q.value, env);
    }
  }

  // What a builder assembles from the graphs of some actions.
  function Assembled(h: AuditLog.Hasher, s: Store, actions: Table<Action>, scope: Option<string>): Content {
    WithChainGap(ContentOfAll(GraphsOf(s, actions, scope)), Verify(h, s, scope))
  }

  lemma AssembledImproves(h: AuditLog.Hasher, s: Store, i: Improvement, q: ActionQuery, scope: Option<string>)
    ensures ListActions(Improve(h, s, i), scope, q) == ListActions(s, scope, q)
    ensures ContentImproves(Assembled(h, s, ListActions(s, scope, q), scope),
                            Assembled(h, Improve(h, s, i), ListActions(s, scope, q), scope))
  {
    var actions := ListActions(s, scope, q);
    GraphsImprove(h, s, i, actions, scope);
    VerifyImproves(h, s, i, scope);
    ChainGapImproves(ContentOfAll(GraphsOf(s, actions, scope)),
                     ContentOfAll(GraphsOf(Improve(h, s, i), actions, scope)),
                     Verify(h, s, scope), Verify(h, Improve(h, s, i), scope));
  }

  lemma WorkflowScoreNeverDrops(h: AuditLog.Hasher, s: Store, i: Improvement, id: string, scope: Option<string>,
                                env: AppEnv, now: string)
    ensures NoLower(ScoreOf(BuildWorkflowPacket(h, s, id, scope, now), env),
                    ScoreOf(BuildWorkflowPacket(h, Improve(h, s, i), id, scope, now), env))
  {
    var p, q := BuildWorkflowPacket(h, s, id, scope, now), BuildWorkflowPacket(h, Improve(h, s, i), id, scope, now);
    if p.Some? {
      AssembledImproves(h, s, i, ActionQuery(Some(id), None, None), scope);
      VerifyImproves(h, s, i, scope);
      PacketImproves(p.value, q.value, env);
    }
  }

  lemma TenantScoreNeverDrops(h: AuditLog.Hasher, s: Store, i: Improvement, t: string, from: Option<int>,
                              until: Option<int>, env: AppEnv, now: string)
    ensures Score(BuildTenantPacket(h, s, t, from, until, now), env) <=
            Score(BuildTenantPacket(h, Improve(h, s, i), t, from, until, now), env)
  {
    var p, q := BuildTenantPacket(h, s, t, from, until, now),
        BuildTenantPacket(h, Improve(h, s, i), t, from, until, now);
    AssembledImproves(h, s, i, ActionQuery(None, from, until), Some(t));
    VerifyImproves(h, s, i, Some(t));
    PacketImproves(p, q, env);
  }

  ghost predicate SameEvidence(p: Packet, q: Packet) {
    (p.tenantId, p.content, p.verification) == (q.tenantId, q.content, q.verification)
  }

  lemma EarnedIgnoresClock(d: Dimension, p: Packet, q: Packet, env: AppEnv)
    requires SameEvidence(p, q)
    ensures Earned(d, p, env) == Earned(d, q, env)
  {
  }

  lemma {:induction false} TotalIgnoresClock(ds: seq<Dimension>, p: Packet, q: Packet, env: AppEnv)
    requires SameEvidence(p, q)
    ensures Total(ds, p, env) == Total(ds, q, env)
  {
    if ds != [] {
      TotalIgnoresClock(ds[..|ds| - 1], p, q, env);
      EarnedIgnoresClock(ds[|ds| - 1], p, q, env);
    }
  }

  // Two stores that agree on tenant t's rows and on the catalog give t the same scores, at
  // whatever times they are computed.
  lemma ScoresSeeOnlyOwn(h: AuditLog.Hasher, a: Store, b: Store, t: string, id: string, env: AppEnv,
                         now: string, later: string)
    requires WellKeyed(a) && WellKeyed(b) && Restrict(a, t) == Restrict(b, t)
    ensures ScoreOf(BuildActionPacket(h, a, id, Some(t), now), env) ==
            ScoreOf(BuildActionPacket(h, b, id, Some(t), later), env)
    ensures ScoreOf(BuildWorkflowPacket(h, a, id, Some(t), now), env) ==
            ScoreOf(BuildWorkflowPacket(h, b, id, Some(t), later), env)
    ensures Score(BuildTenantPacket(h, a, t, None, None, now), env) ==
            Score(BuildTenantPacket(h, b, t, None, None, later), env)
  {
    PacketsSeeOnlyOwn(h, a, b, t, id, None, None, later);
    var p, q := BuildActionPacket(h, a, id, Some(t), now), BuildActionPacket(h, a, id, Some(t), later);
    if p.Some? {
      TotalIgnoresClock(DIMENSIONS, p.value, q.value, env);
    }
    p, q := BuildWorkflowPacket(h, a, id, Some(t), now), BuildWorkflowPacket(h, a, id, Some(t), later);
    if p.Some? {
      TotalIgnoresClock(DIMENSIONS, p.value, q.value, env);
    }
    TotalIgnoresClock(DIMENSIONS, BuildTenantPacket(h, a, t, None, None, now),
                      BuildTenantPacket(h, a, t, None, None, later), env);
  }
}
