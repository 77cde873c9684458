// The evidence packet table with the methods that change it in place: persisting a new
// version, signing and revoking.
module PacketService {
  import opened Prelude
  import opened PacketStore
  import JsonText

  class PacketTable {
    var rows: seq<Row>

    ghost predicate Valid()
      reads this
    {
      VersionInv(rows)
    }

    constructor ()
      ensures Valid() && rows == []
    {
      rows := [];
    }

    // session.get(EvidencePacket, id), as a position.
    method Find(id: string) returns (k: nat)
      requires Valid()
      ensures k <= |rows|
      ensures k < |rows| <==> Has(rows, id)
      ensures k < |rows| ==> rows[k].id == id && forall j :: 0 <= j < |rows| && rows[j].id == id ==> j == k
    {
      k := 0;
      while k < |rows| && rows[k].id != id
        invariant k <= |rows|
        invariant forall j :: 0 <= j < k ==> rows[j].id != id
      {
        k := k + 1;
      }
    }

    // get_packet: a row of another tenant is not found.
    method GetPacket(id: string, tenant: Option<string>) returns (r: Option<Row>)
      requires Valid()
      ensures r.Some? ==> r.value in rows && r.value.id == id && InScope(r.value.tenant, tenant)
      ensures r.None? ==> forall q :: q in rows && q.id == id ==> tenant.Some? && q.tenant != tenant
    {
      var k := Find(id);
      r := if k < |rows| && InScope(rows[k].tenant, tenant) then Some(rows[k]) else None;
    }

    method NextVersionOf(tenant: Option<string>, scopeType: string, scopeId: Option<string>) returns (version: int)
      ensures version == NextVersion(rows, tenant, scopeType, scopeId)
    {
      var keep := (r: Row) => Existing(r, tenant, scopeType, scopeId);
      var newest: Option<int> := None;
      for i := 0 to |rows|
        invariant var existing := Filter(keep, rows[..i]);
                  newest == if existing == [] then None else Some(Max(existing))
      {
        assert rows[..i + 1][..i] == rows[..i];
        ghost var before := Filter(keep, rows[..i]);
        assert Filter(keep, rows[..i + 1]) == if keep(rows[i]) then before + [rows[i]] else before;
        if keep(rows[i]) {
          assert (before + [rows[i]])[..|before|] == before;
          if newest.None? || VersionOf(rows[i]) > newest.value {
            newest := Some(VersionOf(rows[i]));
          }
        }
      }
      assert rows[..|rows|] == rows;
      version := if newest.None? then 1 else newest.value + 1;
    }

    // persist_packet up to its first commit: the next version, with earlier active ones superseded.
    method Insert(lib: Lib, tenant: Option<string>, packet: JsonText.Json, id: string) returns (ok: bool)
      requires Valid()
      modifies this
      ensures Valid()
      ensures ok == !Has(old(rows), id)
      ensures rows == Step(lib, old(rows), Persist(tenant, packet, id))
    {
      var k := Find(id);
      if k < |rows| {
        return false;
      }
      StepKeepsInv(lib, rows, Persist(tenant, packet, id));
      var scopeType, scopeId := ScopeType(packet), ScopeId(packet);
      var version := NextVersionOf(tenant, scopeType, scopeId);
      ghost var was := rows;
      for i := 0 to |rows|
        invariant |rows| == |was|
        invariant forall j :: 0 <= j < i ==> rows[j] == Supersede(was[j], tenant, scopeType, scopeId)
        invariant forall j :: i <= j < |rows| ==> rows[j] == was[j]
      {
        if Existing(rows[i], tenant, scopeType, scopeId) && rows[i].retention == Active {
          rows := rows[i := rows[i].(retention := Superseded)];
        }
      }
      rows := rows + [NewRow(lib, tenant, packet, id, version)];
      assert rows == Persisted(lib, was, tenant, packet, id);
      ok := true;
    }

    // A re-sign overwrites the earlier signature and expiry.
    method SignPacket(lib: Lib, id: string, now: int, ttlDays: int)
      requires Valid()
      modifies this
      ensures Valid()
      ensures rows == Step(lib, old(rows), Sign(id, now, ttlDays))
    {
      StepKeepsInv(lib, rows, Sign(id, now, ttlDays));
      var k := Find(id);
      if k < |rows| {
        var r := rows[k];
        r := r.(signature := Some(lib.sign(Payload(r))), signedAt := Some(now));
        rows := rows[k := r.(expiresAt := Some(now + ttlDays * DAY))];
      }
      assert rows == Step(lib, old(rows), Sign(id, now, ttlDays));
    }

    method RevokePacket(lib: Lib, id: string, now: int, reason: string)
      requires Valid()
      modifies this
      ensures Valid()
      ensures rows == Step(lib, old(rows), Revoke(id, now, reason))
    {
      StepKeepsInv(lib, rows, Revoke(id, now, reason));
      var k := Find(id);
      if k < |rows| {
        rows := rows[k := rows[k].(revokedAt := Some(now), revocationReason := Some(reason))];
      }
      assert rows == Step(lib, old(rows), Revoke(id, now, reason));
    }

    // persist_packet: insert, then sign.
    method PersistPacket(lib: Lib, tenant: Option<string>, packet: JsonText.Json, id: string, now: int, ttlDays: int)
      returns (ok: bool)
      requires Valid()
      modifies this
      ensures Valid()
      ensures ok == !Has(old(rows), id)
      ensures rows == if ok then Step(lib, Step(lib, old(rows), Persist(tenant, packet, id)), Sign(id, now, ttlDays))
                      else old(rows)
    {
      ok := Insert(lib, tenant, packet, id);
      if ok {
        SignPacket(lib, id, now, ttlDays);
      }
    }
  }
}
