// Whole runs of the verification service: the invariant of every reachable state and the
// history behind every approval.
module VerificationRuns {
  import opened Prelude
  import opened EvidenceGraph
  import opened ScoreStore
  import opened VerificationModel
  import opened VerificationSafety
  import PacketStore

  // ---- The invariant ----

  // The audit events of a verification that has reached a status: one for its opening and one
  // for each transition, in order.
  function History(id: string, s: Status): seq<Entry> {
    var first := [Entry(AuditRequested, id, Requested)];
    var reviewed := first + [Entry(AuditReviewed, id, UnderReview)];
    var approved := reviewed + [Entry(AuditApproved, id, Approved)];
    match s
    case Requested => first
    case UnderReview => reviewed
    case Rejected => first + [Entry(AuditReviewed, id, Rejected)]
    case Approved => approved
    case Revoked => approved + [Entry(AuditRevoked, id, Status.Revoked)]
  }

  predicate WasApproved(s: Status) {
    s == Approved || s == Status.Revoked
  }

  // The verification's score is the value of a stored score of its subject.
  ghost predicate Backed(scores: seq<ScoreRow>, v: Verification) {
    exists r :: r in scores && v.scoreId == Some(r.id) && v.trustScore == Some(r.score) &&
                r.scopeType == GOVERNED_ACTION && r.scopeId == v.subjectId
  }

  ghost predicate ScoreInv(scores: seq<ScoreRow>, v: Verification) {
    && (WasApproved(v.status) <==> v.trustScore.Some?)
    && (v.trustScore.Some? ==> v.trustScore.value >= v.minScore && Backed(scores, v))
  }

  // The packet it was opened on is still there, signed, for its subject and in its tenant.
  ghost predicate PacketInv(packets: seq<PacketStore.Row>, v: Verification) {
    var p := GetPacket(packets, v.packetId, v.tenant);
    p.Some? && SignedFor(p.value, v.tenant, v.subjectId)
  }

  ghost predicate RowInv(w: World, id: string) {
    var v := FindVerification(w.verifications, id);
    if v.None? then TrailOf(w.trail, id) == []
    else
      && TrailOf(w.trail, id) == History(id, v.value.status)
      && ScoreInv(w.scores, v.value)
      && PacketInv(w.packets, v.value)
  }

  // ---- Packets stay ----

  predicate SamePacket(p: PacketStore.Row, q: PacketStore.Row) {
    && (p.id, p.tenant, p.scopeType, p.scopeId) == (q.id, q.tenant, q.scopeType, q.scopeId)
    && (p.signature.Some? ==> q.signature.Some?)
  }

  lemma {:induction false} FindPacketMapped(lib: PacketStore.Lib, rows: seq<PacketStore.Row>, e: PacketStore.Event,
                                            id: string)
    ensures var p := FindPacket(rows, id);
            var q := FindPacket(Map((r: PacketStore.Row) => PacketStore.Touch(lib, r, e), rows), id);
            q == if p.Some? then Some(PacketStore.Touch(lib, p.value, e)) else None
  {
    if rows != [] {
      var f := (r: PacketStore.Row) => PacketStore.Touch(lib, r, e);
      assert Map(f, rows)[..|rows| - 1] == Map(f, rows[..|rows| - 1]);
      FindPacketMapped(lib, rows[..|rows| - 1], e, id);
    }
  }

  lemma {:induction false} FindPacketNone(rows: seq<PacketStore.Row>, id: string)
    ensures FindPacket(rows, id).Some? <==> PacketStore.Has(rows, id)
    ensures FindPacket(rows, id).Some? ==> FindPacket(rows, id).value.id == id
  {
    if rows != [] {
      var n := |rows| - 1;
      FindPacketNone(rows[..n], id);
      if i :| 0 <= i < n && rows[i].id == id {
        assert rows[..n][i].id == id;
      }
    }
  }

  lemma PacketsStay(lib: PacketStore.Lib, rows: seq<PacketStore.Row>, e: PacketStore.Event, id: string)
    requires FindPacket(rows, id).Some?
    ensures var q := FindPacket(PacketStore.Step(lib, rows, e), id);
            q.Some? && SamePacket(FindPacket(rows, id).value, q.value)
  {
    FindPacketMapped(lib, rows, e, id);
    FindPacketNone(rows, id);
    var next := PacketStore.Step(lib, rows, e);
    if e.Persist? && !PacketStore.Has(rows, e.id) {
      var touched := Map((r: PacketStore.Row) => PacketStore.Touch(lib, r, e), rows);
      var scopeType, scopeId := PacketStore.ScopeType(e.packet), PacketStore.ScopeId(e.packet);
      var superseded := Map((r: PacketStore.Row) => PacketStore.Supersede(r, e.tenant, scopeType, scopeId), rows);
      assert touched == superseded;
      assert next[..|next| - 1] == superseded;
      assert next[|next| - 1].id == e.id;
    }
  }

  lemma {:induction false} LatestSignedFound(rows: seq<PacketStore.Row>, tenant: Option<string>, subject: string)
    requires forall i, j :: 0 <= i < j < |rows| ==> rows[i].id != rows[j].id
    ensures var p := LatestSigned(rows, tenant, subject);
            p.Some? ==> p.value in rows && SignedFor(p.value, tenant, subject) && FindPacket(rows, p.value.id) == p
  {
    if rows != [] {
      var n := |rows| - 1;
      LatestSignedFound(rows[..n], tenant, subject);
      var p := LatestSigned(rows[..n], tenant, subject);
      if p.Some? {
        var i :| 0 <= i < n && rows[..n][i] == p.value;
        assert rows[i].id != rows[n].id;
      }
    }
  }

  // ---- Every step keeps the invariant ----

  lemma ScoresGrow(c: Setting, w: World, e: Event)
    ensures w.scores <= Step(c, w, e).0.scores
  {
  }

  lemma BackedStays(scores: seq<ScoreRow>, more: seq<ScoreRow>, v: Verification)
    requires scores <= more && ScoreInv(scores, v)
    ensures ScoreInv(more, v)
  {
    if v.trustScore.Some? {
      var r :| r in scores && v.scoreId == Some(r.id) && v.trustScore == Some(r.score) &&
               r.scopeType == GOVERNED_ACTION && r.scopeId == v.subjectId;
      assert r in more;
    }
  }

  lemma MoveKeepsScoreInv(c: Setting, w: World, e: Event, v: Verification, u: Verification)
    requires FindVerification(w.verifications, v.id) == Some(v) && Moves(c, w, e, v, u) && ScoreInv(w.scores, v)
    requires Step(c, w, e).0.verifications != w.verifications
    ensures ScoreInv(Step(c, w, e).0.scores, u)
  {
    var next := Step(c, w, e).0;
    ScoresGrow(c, w, e);
    if e.Approve? {
      var score := c.score(w.store, v.subjectId, e.tenant);
      var row := NewScore(w.scores, ActionScope(v.subjectId, e.tenant), e.scoreId, score.value);
      assert next.scores == w.scores + [row];
      assert row in next.scores;
    } else {
      BackedStays(w.scores, next.scores, v);
    }
  }

  lemma PacketInvStays(c: Setting, w: World, e: Event, v: Verification, u: Verification)
    requires PacketInv(w.packets, v)
    requires u.packetId == v.packetId && u.tenant == v.tenant && u.subjectId == v.subjectId
    ensures PacketInv(Step(c, w, e).0.packets, u)
  {
    if e.OnPackets? {
      PacketsStay(c.lib, w.packets, e.event, v.packetId);
    } else {
      assert Step(c, w, e).0.packets == w.packets;
    }
  }

  lemma StepKeepsRow(c: Setting, w: World, e: Event, id: string)
    requires PacketStore.VersionInv(w.packets) && RowInv(w, id)
    ensures RowInv(Step(c, w, e).0, id)
  {
    var next := Step(c, w, e).0;
    var found := FindVerification(w.verifications, id);
    if found.Some? {
      var v := found.value;
      FindHasId(w.verifications, id);
      StepMoves(c, w, e, id);
      var u := FindVerification(next.verifications, id).value;
      PacketInvStays(c, w, e, v, u);
      if u == v {
        ScoresGrow(c, w, e);
        BackedStays(w.scores, next.scores, v);
      } else {
        MoveKeepsScoreInv(c, w, e, v, u);
      }
    } else {
      StepOpens(c, w, e, id);
      if FindVerification(next.verifications, id).Some? {
        LatestSignedFound(w.packets, e.tenant, e.subjectId);
      }
    }
  }

  lemma PacketsKeepInv(c: Setting, w: World, e: Event)
    requires PacketStore.VersionInv(w.packets)
    ensures PacketStore.VersionInv(Step(c, w, e).0.packets)
  {
    if e.OnPackets? {
      PacketStore.StepKeepsInv(c.lib, w.packets, e.event);
    } else {
      assert Step(c, w, e).0.packets == w.packets;
    }
  }

  ghost predicate Initial(w: World) {
    PacketStore.VersionInv(w.packets) && w.verifications == [] && w.trail == []
  }

  // In every reachable state each verification's audit events spell out its lifecycle, an
  // approved or revoked one carries a score that met its minimum and is stored for its subject,
  // and the packet it was opened on is still there.
  lemma {:induction false} RunKeepsRow(c: Setting, w: World, es: seq<Event>, id: string)
    requires Initial(w)
    ensures PacketStore.VersionInv(Run(c, w, es).packets)
    ensures RowInv(Run(c, w, es), id)
  {
    if es != [] {
      RunKeepsRow(c, w, es[..|es| - 1], id);
      StepKeepsRow(c, Run(c, w, es[..|es| - 1]), es[|es| - 1], id);
      PacketsKeepInv(c, Run(c, w, es[..|es| - 1]), es[|es| - 1]);
    }
  }

  // A stored verification always finds its packet again, in the tenant it was opened in.
  lemma EvidenceIsNeverMissing(c: Setting, w: World, es: seq<Event>, after: World, v: Verification, now: int)
    requires Initial(w) && after == Run(c, w, es)
    requires FindVerification(after.verifications, v.id) == Some(v) && v.packetId != ""
    ensures EvidenceOf(c.lib, after.packets, v, now).Found?
  {
    RunKeepsRow(c, w, es, v.id);
  }

  // ---- The lifecycle ----

  predicate Edge(s: Status, t: Status) {
    || (s == Requested && (t == UnderReview || t == Rejected))
    || (s == UnderReview && t == Approved)
    || (s == Approved && t == Status.Revoked)
  }

  // Status moves only along the lifecycle, and who it is about never changes.
  lemma StatusFollowsLifecycle(c: Setting, w: World, e: Event, id: string)
    requires FindVerification(w.verifications, id).Some?
    ensures var v, u := FindVerification(w.verifications, id).value,
            FindVerification(Step(c, w, e).0.verifications, id);
            && u.Some? && (u.value == v || Edge(v.status, u.value.status))
            && (u.value.tenant, u.value.subjectId, u.value.minScore, u.value.packetId) ==
               (v.tenant, v.subjectId, v.minScore, v.packetId)
  {
    StepMoves(c, w, e, id);
  }

  // ---- What lies behind an approval ----

  // The i-th event of the run moved verification id while its packet verified valid.
  ghost predicate ReviewedOk(c: Setting, w: World, es: seq<Event>, i: int, id: string) {
    && 0 <= i < |es| && es[i].Review? && es[i].id == id
    && var v := FindVerification(Run(c, w, es[..i]).verifications, id);
       v.Some? && EvidenceOf(c.lib, Run(c, w, es[..i]).packets, v.value, es[i].now) == Found(PacketStore.Valid)
  }

  ghost predicate ApprovedOk(c: Setting, w: World, es: seq<Event>, j: int, id: string, score: nat, minScore: int) {
    && 0 <= j < |es| && es[j].Approve? && es[j].id == id
    && var before := Run(c, w, es[..j]);
       var v := FindVerification(before.verifications, id);
       && v.Some? && EvidenceOf(c.lib, before.packets, v.value, es[j].now) == Found(PacketStore.Valid)
       && c.score(before.store, v.value.subjectId, es[j].tenant) == Some(score) && score >= minScore
  }

  ghost predicate HistoryOk(c: Setting, w: World, es: seq<Event>, v: Verification) {
    && (v.status == UnderReview ==> exists i :: ReviewedOk(c, w, es, i, v.id))
    && (WasApproved(v.status) ==>
          exists i, j :: ReviewedOk(c, w, es, i, v.id) && i < j && v.trustScore.Some? &&
                         ApprovedOk(c, w, es, j, v.id, v.trustScore.value, v.minScore))
  }

  lemma ReviewedLonger(c: Setting, w: World, es: seq<Event>, i: int, id: string)
    requires es != [] && ReviewedOk(c, w, es[..|es| - 1], i, id)
    ensures ReviewedOk(c, w, es, i, id)
  {
    assert es[..|es| - 1][..i] == es[..i];
  }

  lemma ApprovedLonger(c: Setting, w: World, es: seq<Event>, j: int, id: string, score: nat, minScore: int)
    requires es != [] && ApprovedOk(c, w, es[..|es| - 1], j, id, score, minScore)
    ensures ApprovedOk(c, w, es, j, id, score, minScore)
  {
    assert es[..|es| - 1][..j] == es[..j];
  }

  lemma HistoryLonger(c: Setting, w: World, es: seq<Event>, v: Verification)
    requires es != [] && HistoryOk(c, w, es[..|es| - 1], v)
    ensures HistoryOk(c, w, es, v)
  {
    if v.status == UnderReview {
      var i :| ReviewedOk(c, w, es[..|es| - 1], i, v.id);
      ReviewedLonger(c, w, es, i, v.id);
    } else if WasApproved(v.status) {
      var i, j :| ReviewedOk(c, w, es[..|es| - 1], i, v.id) && i < j && v.trustScore.Some? &&
                  ApprovedOk(c, w, es[..|es| - 1], j, v.id, v.trustScore.value, v.minScore);
      ReviewedLonger(c, w, es, i, v.id);
      ApprovedLonger(c, w, es, j, v.id, v.trustScore.value, v.minScore);
    }
  }

  lemma MoveHistory(c: Setting, w: World, es: seq<Event>, v: Verification, u: Verification)
    requires es != []
    requires var before := Run(c, w, es[..|es| - 1]);
             FindVerification(before.verifications, v.id) == Some(v) && Moves(c, before, es[|es| - 1], v, u) &&
                 u.id == v.id
    requires HistoryOk(c, w, es[..|es| - 1], v)
    ensures HistoryOk(c, w, es, u)
  {
    var n := |es| - 1;
    if es[n].Review? && u.status == UnderReview {
      assert ReviewedOk(c, w, es, n, u.id);
    } else if es[n].Approve? {
      var i :| ReviewedOk(c, w, es[..n], i, v.id);
      ReviewedLonger(c, w, es, i, v.id);
      assert ApprovedOk(c, w, es, n, u.id, u.trustScore.value, u.minScore);
    } else if es[n].Revoke? {
      HistoryLonger(c, w, es, v);
    }
  }

  // Whenever a verification is approved or revoked, earlier in the run it was reviewed and then
  // approved while its packet verified valid, and the score it carries is the one its subject
  // had at the approval, at least its minimum.
  lemma {:induction false} ApprovalWasEarned(c: Setting, w: World, es: seq<Event>, id: string)
    requires Initial(w)
    ensures var v := FindVerification(Run(c, w, es).verifications, id);
            v.Some? ==> v.value.id == id && HistoryOk(c, w, es, v.value)
  {
    if es != [] {
      var n := |es| - 1;
      var before := Run(c, w, es[..n]);
      ApprovalWasEarned(c, w, es[..n], id);
      FindHasId(Run(c, w, es).verifications, id);
      var v := FindVerification(before.verifications, id);
      if v.None? {
        StepOpens(c, before, es[n], id);
      } else {
        StepMoves(c, before, es[n], id);
        var u := FindVerification(Run(c, w, es).verifications, id).value;
        if u == v.value {
          HistoryLonger(c, w, es, u);
        } else {
          MoveHistory(c, w, es, v.value, u);
        }
      }
    }
  }

  // ---- Refusals and tenants ----

  // A call that raises leaves every verification and the trail as they were; all it may leave
  // behind is the score row of an approval below the minimum.
  lemma RefusalChangesNothing(c: Setting, w: World, e: Event)
    requires Step(c, w, e).1.Some?
    ensures var (next, error) := Step(c, w, e);
            if error == Some(InsufficientTrustScore)
                then Same(w, next) && |next.scores| == |w.scores| + 1 && w.scores <= next.scores
            else next == w
  {
  }

  // A caller of one tenant can neither move nor learn of another tenant's verification.
  lemma OtherTenantsUntouched(c: Setting, w: World, e: Event, id: string, other: string)
    requires e.Review? || e.Approve? || e.Revoke?
    requires e.tenant.Some? && e.tenant != Some(other)
    requires var v := FindVerification(w.verifications, id); v.Some? && v.value.tenant == Some(other)
    ensures FindVerification(Step(c, w, e).0.verifications, id) == FindVerification(w.verifications, id)
    ensures e.id == id ==> Step(c, w, e) == (w, Some(VerificationNotFound))
  {
    FindHasId(w.verifications, id);
    StepMoves(c, w, e, id);
  }
}
