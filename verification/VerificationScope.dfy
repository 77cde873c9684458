// Tenant noninterference of the verification service: what a tenant's call returns, and what
// it leaves in that tenant's tables, is decided by that tenant's rows and the shared catalog.
module VerificationScope {
  import opened Prelude
  import opened EvidenceGraph
  import opened ScoreStore
  import opened VerificationModel
  import opened TrustScore
  import opened VerificationSafety
  import EvidencePacket
  import PacketStore
  import AuditLog

  function OwnRows(rows: seq<Verification>, t: string): seq<Verification> {
    Filter((v: Verification) => v.tenant == Some(t), rows)
  }

  function OwnPackets(rows: seq<PacketStore.Row>, t: string): seq<PacketStore.Row> {
    Filter((p: PacketStore.Row) => p.tenant == Some(t), rows)
  }

  function OwnScores(rows: seq<ScoreRow>, t: string): seq<ScoreRow> {
    Filter((r: ScoreRow) => r.tenant == Some(t), rows)
  }

  ghost predicate UniqueRows(rows: seq<Verification>) {
    forall i, j :: 0 <= i < j < |rows| ==> rows[i].id != rows[j].id
  }

  // The two worlds look alike to tenant t.
  ghost predicate Agree(a: World, b: World, t: string) {
    && WellKeyed(a.store) && WellKeyed(b.store) && Restrict(a.store, t) == Restrict(b.store, t)
    && PacketStore.UniqueIds(a.packets) && PacketStore.UniqueIds(b.packets) &&
        OwnPackets(a.packets, t) == OwnPackets(b.packets, t)
    && UniqueRows(a.verifications) && UniqueRows(b.verifications)
    && OwnRows(a.verifications, t) == OwnRows(b.verifications, t)
    && OwnScores(a.scores, t) == OwnScores(b.scores, t)
  }

  // ---- Lookups see only the tenant's rows ----

  lemma {:induction false} FindOwn(rows: seq<Verification>, id: string, t: string)
    requires UniqueRows(rows)
    ensures FindVerification(OwnRows(rows, t), id) == GetVerification(rows, id, Some(t))
  {
    if rows != [] {
      var n := |rows| - 1;
      var front, last := rows[..n], rows[n];
      FindOwn(front, id, t);
      AppendOwn(front, last, t);
      FindAppend(front, last, id);
      assert rows == front + [last];
      if last.tenant == Some(t) {
        FindAppend(OwnRows(front, t), last, id);
      } else if last.id == id {
        FindNone(front, id);
      }
    }
  }

  lemma {:induction false} FindNone(rows: seq<Verification>, id: string)
    requires forall i :: 0 <= i < |rows| ==> rows[i].id != id
    ensures FindVerification(rows, id).None?
  {
    if rows != [] {
      FindNone(rows[..|rows| - 1], id);
    }
  }

  lemma {:induction false} PacketOwn(rows: seq<PacketStore.Row>, id: string, t: string)
    requires PacketStore.UniqueIds(rows)
    ensures FindPacket(OwnPackets(rows, t), id) == GetPacket(rows, id, Some(t))
  {
    if rows != [] {
      var n := |rows| - 1;
      PacketOwn(rows[..n], id, t);
      var front := OwnPackets(rows[..n], t);
      assert OwnPackets(rows, t) == if rows[n].tenant == Some(t) then front + [rows[n]] else front;
      assert (front + [rows[n]])[..|front|] == front;
      if rows[n].id == id {
        PacketNone(rows[..n], id);
      }
    }
  }

  lemma {:induction false} PacketNone(rows: seq<PacketStore.Row>, id: string)
    requires forall i :: 0 <= i < |rows| ==> rows[i].id != id
    ensures FindPacket(rows, id).None?
  {
    if rows != [] {
      PacketNone(rows[..|rows| - 1], id);
    }
  }

  lemma AppendPacket(rows: seq<PacketStore.Row>, p: PacketStore.Row, t: string)
    ensures OwnPackets(rows + [p], t) == if p.tenant == Some(t) then OwnPackets(rows, t) + [p] else OwnPackets(rows, t)
  {
    assert (rows + [p])[..|rows|] == rows;
  }

  lemma {:induction false} LatestOwn(rows: seq<PacketStore.Row>, subject: string, t: string)
    ensures LatestSigned(rows, Some(t), subject) == LatestSigned(OwnPackets(rows, t), Some(t), subject)
  {
    if rows != [] {
      var n := |rows| - 1;
      var front, last := rows[..n], rows[n];
      assert rows == front + [last];
      LatestOwn(front, subject, t);
      AppendPacket(front, last, t);
    }
  }

  lemma {:induction false} VersionOwn(rows: seq<ScoreRow>, subject: string, t: string)
    ensures MaxVersion(rows, ActionScope(subject, Some(t))) ==
            MaxVersion(OwnScores(rows, t), ActionScope(subject, Some(t)))
  {
    if rows != [] {
      var n := |rows| - 1;
      var front, last, k := rows[..n], rows[n], ActionScope(subject, Some(t));
      assert rows == front + [last];
      VersionOwn(front, subject, t);
      AppendScore(front, last, t);
    }
  }

  lemma {:induction false} SetOwn(rows: seq<Verification>, u: Verification, t: string)
    requires u.tenant == Some(t)
    requires forall i :: 0 <= i < |rows| && rows[i].id == u.id ==> rows[i].tenant == Some(t)
    ensures OwnRows(SetVerification(rows, u), t) == SetVerification(OwnRows(rows, t), u)
  {
    if rows != [] {
      var n := |rows| - 1;
      SetOwn(rows[..n], u, t);
      assert SetVerification(rows, u)[..n] == SetVerification(rows[..n], u);
    }
  }

  lemma OwnerIsOne(rows: seq<Verification>, id: string, t: string)
    requires UniqueRows(rows) && GetVerification(rows, id, Some(t)).Some?
    ensures forall i :: 0 <= i < |rows| && rows[i].id == id ==> rows[i].tenant == Some(t)
  {
    IsFound(rows, id);
  }

  lemma {:induction false} IsFound(rows: seq<Verification>, id: string)
    requires UniqueRows(rows)
    ensures forall i :: 0 <= i < |rows| && rows[i].id == id ==> FindVerification(rows, id) == Some(rows[i])
  {
    if rows != [] {
      IsFound(rows[..|rows| - 1], id);
      assert forall i :: 0 <= i < |rows| - 1 ==> rows[..|rows| - 1][i] == rows[i];
    }
  }

  // ---- The two-run property ----

  // What tenant t gets back and what it can see afterwards.
  ghost predicate SameView(a: Outcome, b: Outcome, t: string) {
    && a.1 == b.1
    && OwnRows(a.0.verifications, t) == OwnRows(b.0.verifications, t)
    && OwnScores(a.0.scores, t) == OwnScores(b.0.scores, t)
  }

  // The fresh keys a call is given are new in both worlds.
  ghost predicate FreshKeys(a: World, b: World, e: Event) {
    && (e.Request? ==> FindVerification(a.verifications, e.id).None? && FindVerification(b.verifications, e.id).None?)
    && (e.Approve? ==> !HasScore(a.scores, e.scoreId) && !HasScore(b.scores, e.scoreId))
  }

  lemma EvidenceOwn(lib: PacketStore.Lib, a: World, b: World, v: Verification, t: string, now: int)
    requires Agree(a, b, t) && v.tenant == Some(t)
    ensures EvidenceOf(lib, a.packets, v, now) == EvidenceOf(lib, b.packets, v, now)
  {
    PacketOwn(a.packets, v.packetId, t);
    PacketOwn(b.packets, v.packetId, t);
  }

  lemma CommitOwn(a: World, b: World, u: Verification, action: AuditAction, t: string)
    requires UniqueRows(a.verifications) && UniqueRows(b.verifications) && u.tenant == Some(t)
    requires GetVerification(a.verifications, u.id, Some(t)).Some? &&
            GetVerification(b.verifications, u.id, Some(t)).Some?
    requires OwnRows(a.verifications, t) == OwnRows(b.verifications, t)
    ensures OwnRows(Commit(a, u, action).verifications, t) == OwnRows(Commit(b, u, action).verifications, t)
  {
    OwnerIsOne(a.verifications, u.id, t);
    OwnerIsOne(b.verifications, u.id, t);
    SetOwn(a.verifications, u, t);
    SetOwn(b.verifications, u, t);
  }

  lemma FoundOwn(a: World, b: World, id: string, t: string)
    requires Agree(a, b, t)
    ensures GetVerification(a.verifications, id, Some(t)) == GetVerification(b.verifications, id, Some(t))
    ensures var v := GetVerification(a.verifications, id, Some(t)); v.Some? ==>
            v.value.id == id && v.value.tenant == Some(t)
  {
    FindOwn(a.verifications, id, t);
    FindOwn(b.verifications, id, t);
    FindHasId(a.verifications, id);
  }

  lemma AppendOwn(rows: seq<Verification>, v: Verification, t: string)
    ensures OwnRows(rows + [v], t) == if v.tenant == Some(t) then OwnRows(rows, t) + [v] else OwnRows(rows, t)
  {
    assert (rows + [v])[..|rows|] == rows;
  }

  lemma AppendScore(rows: seq<ScoreRow>, r: ScoreRow, t: string)
    ensures OwnScores(rows + [r], t) == if r.tenant == Some(t) then OwnScores(rows, t) + [r] else OwnScores(rows, t)
  {
    assert (rows + [r])[..|rows|] == rows;
  }

  lemma RequestSeesOnlyOwn(c: Setting, a: World, b: World, t: string, e: Event)
    requires Agree(a, b, t) && e.Request? && e.tenant == Some(t) && FreshKeys(a, b, e)
    requires c.shows(a.store, e.subjectId, e.tenant) == c.shows(b.store, e.subjectId, e.tenant)
    ensures SameView(OnRequest(c, a, e), OnRequest(c, b, e), t)
  {
    LatestOwn(a.packets, e.subjectId, t);
    LatestOwn(b.packets, e.subjectId, t);
    var p := LatestSigned(a.packets, e.tenant, e.subjectId);
    if p.Some? {
      AppendOwn(a.verifications, Opened(e, p.value.id), t);
      AppendOwn(b.verifications, Opened(e, p.value.id), t);
    }
  }

  lemma ReviewSeesOnlyOwn(c: Setting, a: World, b: World, t: string, e: Event)
    requires Agree(a, b, t) && e.Review? && e.tenant == Some(t)
    ensures SameView(OnReview(c, a, e), OnReview(c, b, e), t)
  {
    FoundOwn(a, b, e.id, t);
    var v := GetVerification(a.verifications, e.id, e.tenant);
    if v.Some? {
      EvidenceOwn(c.lib, a, b, v.value, t, e.now);
      CommitOwn(a, b, Reviewed(v.value, e, EvidenceOf(c.lib, a.packets, v.value, e.now)), AuditReviewed, t);
    }
  }

  lemma SameNextVersion(xs: seq<ScoreRow>, ys: seq<ScoreRow>, subject: string, t: string)
    requires OwnScores(xs, t) == OwnScores(ys, t)
    ensures MaxVersion(xs, ActionScope(subject, Some(t))) == MaxVersion(ys, ActionScope(subject, Some(t)))
  {
    VersionOwn(xs, subject, t);
    VersionOwn(ys, subject, t);
  }

  lemma ScoredOwn(a: World, b: World, subject: string, t: string, id: string, score: nat)
    requires OwnScores(a.scores, t) == OwnScores(b.scores, t)
    ensures OwnScores(Scored(a, subject, Some(t), id, score).scores, t) ==
            OwnScores(Scored(b, subject, Some(t), id, score).scores, t)
  {
    var k := ActionScope(subject, Some(t));
    SameNextVersion(a.scores, b.scores, subject, t);
    var row := NewScore(a.scores, k, id, score);
    AppendScore(a.scores, row, t);
    AppendScore(b.scores, row, t);
  }

  lemma ApproveSeesOnlyOwn(c: Setting, a: World, b: World, t: string, e: Event)
    requires Agree(a, b, t) && e.Approve? && e.tenant == Some(t) && FreshKeys(a, b, e)
    requires forall subject :: c.score(a.store, subject, e.tenant) == c.score(b.store, subject, e.tenant)
    ensures SameView(OnApprove(c, a, e), OnApprove(c, b, e), t)
  {
    FoundOwn(a, b, e.id, t);
    var v := GetVerification(a.verifications, e.id, e.tenant);
    if v.Some? {
      EvidenceOwn(c.lib, a, b, v.value, t, e.now);
      var subject := v.value.subjectId;
      var score := c.score(a.store, subject, e.tenant);
      if score.Some? {
        ScoredOwn(a, b, subject, t, e.scoreId, score.value);
        CommitOwn(Scored(a, subject, e.tenant, e.scoreId, score.value),
                  Scored(b, subject, e.tenant, e.scoreId, score.value),
                  Granted(v.value, e, score.value), AuditApproved, t);
      }
    }
  }

  lemma RevokeSeesOnlyOwn(a: World, b: World, t: string, e: Event)
    requires Agree(a, b, t) && e.Revoke? && e.tenant == Some(t)
    ensures SameView(OnRevoke(a, e), OnRevoke(b, e), t)
  {
    FoundOwn(a, b, e.id, t);
    var v := GetVerification(a.verifications, e.id, e.tenant);
    if v.Some? {
      CommitOwn(a, b, Withdrawn(v.value, e), AuditRevoked, t);
    }
  }

  lemma ShowsOnlyOwn(h: AuditLog.Hasher, lib: PacketStore.Lib, env: AppEnv, a: World, b: World, t: string,
                     subject: string)
    requires Agree(a, b, t)
    ensures var c := SettingOf(h, lib, env);
            && c.shows(a.store, subject, Some(t)) == c.shows(b.store, subject, Some(t))
            && c.score(a.store, subject, Some(t)) == c.score(b.store, subject, Some(t))
  {
    GraphSeesOnlyOwn(a.store, subject, t);
    GraphSeesOnlyOwn(b.store, subject, t);
    EvidencePacket.PacketsSeeOnlyOwn(h, a.store, b.store, t, subject, None, None, "");
  }

  // In two worlds that look alike to tenant t, a call of t's returns the same answer and leaves
  // t the same verifications and scores.
  lemma CallSeesOnlyOwn(h: AuditLog.Hasher, lib: PacketStore.Lib, env: AppEnv, a: World, b: World, t: string, e: Event)
    requires Agree(a, b, t) && FreshKeys(a, b, e)
    requires (e.Request? || e.Review? || e.Approve? || e.Revoke?) && e.tenant == Some(t)
    ensures SameView(Step(SettingOf(h, lib, env), a, e), Step(SettingOf(h, lib, env), b, e), t)
  {
    var c := SettingOf(h, lib, env);
    match e
    case Request(_, _, subject, _, _, _) =>
      ShowsOnlyOwn(h, lib, env, a, b, t, subject);
      RequestSeesOnlyOwn(c, a, b, t, e);
    case Review(_, _, _, _, _) =>
      ReviewSeesOnlyOwn(c, a, b, t, e);
    case Approve(_, _, _, _, _) =>
      forall subject ensures c.score(a.store, subject, e.tenant) == c.score(b.store, subject, e.tenant) {
        ShowsOnlyOwn(h, lib, env, a, b, t, subject);
      }
      ApproveSeesOnlyOwn(c, a, b, t, e);
    case Revoke(_, _, _, _, _) =>
      RevokeSeesOnlyOwn(a, b, t, e);
  }
}
