// The stored trust scores: _persist, get_latest and score_action of
// services/trust_score_service.py.
module ScoreStore {
  import opened Prelude
  import opened EvidenceGraph
  import opened TrustScore
  import EvidencePacket
  import AuditLog

  datatype ScoreRow = ScoreRow(
    id: string, tenant: Option<string>, scopeType: string, scopeId: string, score: nat, band: Band, version: int)

  datatype Scope = Scope(tenant: Option<string>, scopeType: string, scopeId: string)

  predicate InScoreScope(r: ScoreRow, k: Scope) {
    r.scopeType == k.scopeType && r.scopeId == k.scopeId && InScope(r.tenant, k.tenant)
  }

  // max(version, default=0) over the scope; every tenant's rows count when unscoped.
  function MaxVersion(rows: seq<ScoreRow>, k: Scope): (v: int) {
    if rows == [] then 0
    else
      var r, before := rows[|rows| - 1], MaxVersion(rows[..|rows| - 1], k);
      if InScoreScope(r, k) && r.version > before then r.version else before
  }

  function NewScore(rows: seq<ScoreRow>, k: Scope, id: string, score: nat): ScoreRow {
    ScoreRow(id, k.tenant, k.scopeType, k.scopeId, score, BandFor(score), MaxVersion(rows, k) + 1)
  }

  // ORDER BY version DESC, first row of the scope.
  function Latest(rows: seq<ScoreRow>, k: Scope): Option<ScoreRow> {
    if rows == [] then None
    else
      var r, before := rows[|rows| - 1], Latest(rows[..|rows| - 1], k);
      if InScoreScope(r, k) && (before.None? || r.version > before.value.version) then Some(r) else before
  }

  lemma {:induction false} MaxVersionBounds(rows: seq<ScoreRow>, k: Scope)
    ensures MaxVersion(rows, k) >= 0
    ensures forall r :: r in rows && InScoreScope(r, k) ==> r.version <= MaxVersion(rows, k)
    ensures MaxVersion(rows, k) > 0 ==> exists r :: r in rows && InScoreScope(r, k) && r.version == MaxVersion(rows, k)
  {
    if rows != [] {
      MaxVersionBounds(rows[..|rows| - 1], k);
      var last := rows[|rows| - 1];
      assert last in rows;
    }
  }

  lemma {:induction false} LatestIsStored(rows: seq<ScoreRow>, k: Scope)
    ensures var l := Latest(rows, k);
            if l.Some? then l.value in rows && InScoreScope(l.value, k) &&
                            forall r :: r in rows && InScoreScope(r, k) ==> r.version <= l.value.version
            else forall r :: r in rows ==> !InScoreScope(r, k)
  {
    if rows != [] {
      LatestIsStored(rows[..|rows| - 1], k);
    }
  }

  // A stored score carries the score and its band, and is the latest of its scope at once, for its
  // tenant and for the operator who stored it: version 1, or one more than the greatest before.
  lemma StoredIsLatest(rows: seq<ScoreRow>, k: Scope, id: string, score: nat)
    ensures var row := NewScore(rows, k, id, score);
            && row == ScoreRow(id, k.tenant, k.scopeType, k.scopeId, score, BandFor(score), row.version)
            && Latest(rows + [row], k) == Some(row)
            && (row.version == 1 || exists r :: r in rows && InScoreScope(r, k) && r.version + 1 == row.version)
            && (forall r :: r in rows && InScoreScope(r, k) ==> r.version < row.version)
            && MaxVersion(rows + [row], k) == row.version
  {
    var row := NewScore(rows, k, id, score);
    assert (rows + [row])[..|rows|] == rows;
    MaxVersionBounds(rows, k);
    LatestIsStored(rows, k);
  }

  // score_action: score the packet the caller would see. None when there is no such action.
  function ActionScore(h: AuditLog.Hasher, s: Store, subject: string, tenant: Option<string>,
                       env: AppEnv): Option<nat> {
    var p := EvidencePacket.BuildActionPacket(h, s, subject, tenant, "");
    if p.None? then None else Some(Score(p.value, env))
  }

  const GOVERNED_ACTION := "governed_action"

  function ActionScope(subject: string, tenant: Option<string>): Scope {
    Scope(tenant, GOVERNED_ACTION, subject)
  }

  // The table of stored scores.
  class ScoreBook {
    var rows: seq<ScoreRow>

    constructor ()
      ensures rows == []
    {
      rows := [];
    }

    // _persist: store a scored packet as the next version of its scope.
    method Persist(k: Scope, id: string, p: EvidencePacket.Packet, env: AppEnv) returns (row: ScoreRow)
      modifies this
      ensures rows == old(rows) + [row]
      ensures row == NewScore(old(rows), k, id, Score(p, env))
    {
      var score, band, breakdown := ScorePacket(p, env);
      var newest := 0;
      for i := 0 to |rows|
        invariant rows == old(rows)
        invariant newest == MaxVersion(rows[..i], k)
      {
        assert rows[..i + 1][..i] == rows[..i];
        if InScoreScope(rows[i], k) && rows[i].version > newest {
          newest := rows[i].version;
        }
      }
      assert rows[..|rows|] == rows;
      row := ScoreRow(id, k.tenant, k.scopeType, k.scopeId, score, band, newest + 1);
      rows := rows + [row];
    }

    // get_latest.
    method GetLatest(k: Scope) returns (row: Option<ScoreRow>)
      ensures row == Latest(rows, k)
    {
      row := None;
      for i := 0 to |rows|
        invariant row == Latest(rows[..i], k)
      {
        assert rows[..i + 1][..i] == rows[..i];
        if InScoreScope(rows[i], k) && (row.None? || rows[i].version > row.value.version) {
          row := Some(rows[i]);
        }
      }
      assert rows[..|rows|] == rows;
    }
  }
}
