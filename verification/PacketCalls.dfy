// What persisting, signing and revoking do to the rows of the packet table, and which member of
// a packet its scope is read from.
module PacketCalls {
  import opened Prelude
  import opened PacketStore
  import JsonText

  // ---- Scope ----

  // v is the text of the first member of that name.
  ghost predicate IsMember(p: JsonText.Json, key: string, v: string) {
    p.Obj? && exists k :: 0 <= k < |p.members| && p.members[k] == (key, JsonText.Str(v)) &&
                          forall j :: 0 <= j < k ==> p.members[j].0 != key
  }

  lemma {:induction false} MemberInMeans(ms: seq<(string, JsonText.Json)>, key: string, v: string)
    ensures MemberIn(ms, key) == Some(v) <==> IsMember(JsonText.Obj(ms), key, v)
  {
    if ms != [] {
      MemberInMeans(ms[1..], key, v);
      if IsMember(JsonText.Obj(ms[1..]), key, v) && ms[0].0 != key {
        var k :| 0 <= k < |ms| - 1 && ms[1..][k] == (key, JsonText.Str(v)) &&
                 forall j :: 0 <= j < k ==> ms[1..][j].0 != key;
        assert ms[k + 1] == (key, JsonText.Str(v));
        forall j | 0 <= j < k + 1 ensures ms[j].0 != key {
          assert j > 0 ==> ms[1..][j - 1] == ms[j];
        }
      }
      if k :| 0 <= k < |ms| && ms[k] == (key, JsonText.Str(v)) && forall j :: 0 <= j < k ==> ms[j].0 != key {
        assert k > 0 ==> ms[1..][k - 1] == ms[k];
      }
    }
  }

  // A packet is stored under its packet_type, "governed_action" where it has none, and its
  // scope_id.
  lemma ScopeMeans(p: JsonText.Json, v: string)
    ensures IsMember(p, "packet_type", v) ==> ScopeType(p) == v
    ensures ScopeType(p) == v ==> IsMember(p, "packet_type", v) || v == "governed_action"
    ensures ScopeId(p) == Some(v) <==> IsMember(p, "scope_id", v)
  {
    if p.Obj? {
      MemberInMeans(p.members, "packet_type", v);
      MemberInMeans(p.members, "scope_id", v);
    }
  }

  // ---- Persist ----

  lemma {:induction false} MaxIsReached(rows: seq<Row>)
    requires rows != []
    ensures exists i :: 0 <= i < |rows| && VersionOf(rows[i]) == Max(rows)
  {
    if |rows| > 1 {
      MaxIsReached(rows[..|rows| - 1]);
      var i :| 0 <= i < |rows| - 1 && VersionOf(rows[..|rows| - 1][i]) == Max(rows[..|rows| - 1]);
      assert rows[i] == rows[..|rows| - 1][i];
    }
    assert VersionOf(rows[|rows| - 1]) == Max(rows) || |rows| > 1;
  }

  // The rows of the scope that a caller's persist looks at: its own, or anyone's when unscoped.
  predicate IsPrior(r: Row, e: Event)
    requires e.Persist?
  {
    r.scopeType == ScopeType(e.packet) && r.scopeId == ScopeId(e.packet) && (e.tenant == None || r.tenant == e.tenant)
  }

  // The next version is 1 for the first packet of a scope and else one more than the greatest.
  lemma NextVersionIs(rows: seq<Row>, e: Event)
    requires e.Persist? && forall r :: r in rows ==> r.version.Some?
    ensures var v := NextVersion(rows, e.tenant, ScopeType(e.packet), ScopeId(e.packet));
            && (forall r :: r in rows && IsPrior(r, e) ==> r.version.value < v)
            && if exists r :: r in rows && IsPrior(r, e)
               then exists r :: r in rows && IsPrior(r, e) && r.version.value + 1 == v
               else v == 1
  {
    var keep := (r: Row) => Existing(r, e.tenant, ScopeType(e.packet), ScopeId(e.packet));
    var prior := Filter(keep, rows);
    FilterSelects(keep, rows);
    forall r | r in rows && IsPrior(r, e) ensures r in prior {
      SelectsMembers(keep, rows, prior, r);
    }
    if prior != [] {
      MaxBounds(prior);
      MaxIsReached(prior);
      var i :| 0 <= i < |prior| && VersionOf(prior[i]) == Max(prior);
      SelectsMembers(keep, rows, prior, prior[i]);
    }
  }

  // A persist is refused on a taken key. Otherwise it adds one row, active and not yet signed,
  // that holds the packet as text and the hash of its content, and of the earlier rows marks
  // those superseded that were active in its scope.
  lemma PersistOutcome(lib: Lib, rows: seq<Row>, e: Event, i: nat)
    requires e.Persist? && i < |rows|
    ensures var next := Step(lib, rows, e);
            if exists k :: 0 <= k < |rows| && rows[k].id == e.id then next == rows
            else
              && |next| == |rows| + 1
              && next[|rows|] == Row(
                   e.id, e.tenant, ScopeType(e.packet), ScopeId(e.packet), Some(JsonText.Dump(e.packet)),
                   Some(PacketHash(lib, e.packet)),
                   Some(NextVersion(rows, e.tenant, ScopeType(e.packet), ScopeId(e.packet))), Active,
                   None, None, None, None, None)
              && next[i] == if IsPrior(rows[i], e) then rows[i].(retention := Superseded) else rows[i]
  {
  }

  // ---- Sign and revoke ----

  // Signing sets the signature over id, version and hash, and a validity of that many days;
  // revoking sets when and why. Neither touches another row or anything else of its own.
  lemma MarkOutcome(lib: Lib, rows: seq<Row>, e: Event, i: nat)
    requires !e.Persist? && i < |rows|
    ensures |Step(lib, rows, e)| == |rows|
    ensures var r, next := rows[i], Step(lib, rows, e)[i];
            if r.id != e.id then next == r
            else if e.Revoke? then next == r.(revokedAt := Some(e.now), revocationReason := Some(e.reason))
            else next == r.(signature := Some(lib.sign(SigningPayload(r.id, r.version, r.packetHash))),
                            signedAt := Some(e.now), expiresAt := Some(e.now + e.ttlDays * 24 * 60 * 60))
  {
  }

  // ---- Verify ----

  // What is hashed of a packet is every member but its generation time.
  lemma CoreMeans(p: JsonText.Json)
    ensures p.Obj? ==> Core(p).Obj? &&
                       Selects((m: (string, JsonText.Json)) => m.0 != "generated_at", p.members, Core(p).members)
    ensures !p.Obj? ==> Core(p) == p
  {
    if p.Obj? {
      FilterSelects((m: (string, JsonText.Json)) => m.0 != CLOCK, p.members);
    }
  }

  // The export parses to a packet whose content has the stored hash, and the signature is
  // accepted for the row's id, version and hash.
  ghost predicate IsGenuine(lib: Lib, r: Row) {
    && r.packetHash != None && r.packetHash != Some("") && r.jsonExport != None && r.jsonExport != Some("")
    && (exists p :: JsonText.Load(r.jsonExport.value) == Some(p) &&
                    lib.sha256(lib.canonical(Core(p))) == r.packetHash.value)
    && r.signature != None && lib.accepts(r.signature.value, SigningPayload(r.id, r.version, r.packetHash))
  }

  // The verdict on any row: unsigned first, then tampered, revoked, expired, and valid only if it
  // is none of these.
  lemma VerdictMeans(lib: Lib, r: Row, now: int)
    ensures VerifyPacket(lib, r, now) ==
            if r.signature == None || r.signature == Some("") then Unsigned
            else if !IsGenuine(lib, r) then Tampered
            else if r.revokedAt != None then Verdict.Revoked
            else if r.expiresAt != None && r.expiresAt.value < now then Expired
            else Valid
  {
    if r.jsonExport.Some? && JsonText.Load(r.jsonExport.value).Some? {
      assert PacketHash(lib, JsonText.Load(r.jsonExport.value).value) ==
          lib.sha256(lib.canonical(Core(JsonText.Load(r.jsonExport.value).value)));
    }
  }
}
