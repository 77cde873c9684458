// services/evidence_store.py and services/evidence_signature_service.py: stored evidence
// packets, their versions, signatures and verification.
module PacketStore {
  import opened Prelude
  import JsonText
  import CanonicalJson

  // SHA-256 over the compact canonical text of a packet, and an Ed25519 key pair.
  datatype Lib = Lib(
    sha256: string -> string, canonical: JsonText.Json -> string,
    sign: string -> string, accepts: (string, string) -> bool)

  predicate Plain(s: string) {
    forall i :: 0 <= i < |s| ==> s[i] != ':'
  }

  // What the code relies on: signatures are not empty and verify against the published key, and
  // a digest is a text, not empty and, being hexadecimal, without a colon.
  ghost predicate Sound(lib: Lib) {
    && (forall m :: lib.sign(m) != "" && lib.accepts(lib.sign(m), m))
    && (forall x :: lib.sha256(x) != "" && Plain(lib.sha256(x)))
  }

  datatype Retention = Active | Superseded

  datatype Row = Row(
    id: string, tenant: Option<string>, scopeType: string, scopeId: Option<string>, jsonExport: Option<string>,
    packetHash: Option<string>, version: Option<int>, retention: Retention, signature: Option<string>,
    signedAt: Option<int>, expiresAt: Option<int>, revokedAt: Option<int>, revocationReason: Option<string>)

  // ---- Content hash ----

  // packet.get(key) for a key whose value is text.
  function Member(p: JsonText.Json, key: string): Option<string> {
    if !p.Obj? then None else MemberIn(p.members, key)
  }

  function MemberIn(ms: seq<(string, JsonText.Json)>, key: string): Option<string> {
    if ms == [] then None
    else if ms[0].0 == key then (if ms[0].1.Str? then Some(ms[0].1.s) else None)
    else MemberIn(ms[1..], key)
  }

  const CLOCK := "generated_at"

  // The packet without its generation time.
  function Core(p: JsonText.Json): JsonText.Json {
    if p.Obj? then JsonText.Obj(Filter((m: (string, JsonText.Json)) => m.0 != CLOCK, p.members)) else p
  }

  function PacketHash(lib: Lib, p: JsonText.Json): string {
    lib.sha256(lib.canonical(Core(p)))
  }

  // ---- Versions ----

  predicate SameScope(r: Row, scopeType: string, scopeId: Option<string>) {
    r.scopeType == scopeType && r.scopeId == scopeId
  }

  // The rows a persist for (tenant, scope) looks at: every tenant's when unscoped.
  predicate Existing(r: Row, tenant: Option<string>, scopeType: string, scopeId: Option<string>) {
    SameScope(r, scopeType, scopeId) && InScope(r.tenant, tenant)
  }

  function VersionOf(r: Row): int {
    if r.version.Some? then r.version.value else 0
  }

  function Max(rows: seq<Row>): int
    requires rows != []
  {
    var v := VersionOf(rows[|rows| - 1]);
    if |rows| == 1 then v
    else
      var m := Max(rows[..|rows| - 1]);
      if v > m then v else m
  }

  function NextVersion(rows: seq<Row>, tenant: Option<string>, scopeType: string, scopeId: Option<string>): int {
    var existing := Filter((r: Row) => Existing(r, tenant, scopeType, scopeId), rows);
    if existing == [] then 1 else Max(existing) + 1
  }

  function Supersede(r: Row, tenant: Option<string>, scopeType: string, scopeId: Option<string>): Row {
    if Existing(r, tenant, scopeType, scopeId) && r.retention == Active then r.(retention := Superseded) else r
  }

  function ScopeType(p: JsonText.Json): string {
    var t := Member(p, "packet_type");
    if t.Some? then t.value else "governed_action"
  }

  function ScopeId(p: JsonText.Json): Option<string> {
    Member(p, "scope_id")
  }

  function NewRow(lib: Lib, tenant: Option<string>, p: JsonText.Json, id: string, version: int): Row {
    Row(id, tenant, ScopeType(p), ScopeId(p), Some(JsonText.Dump(p)), Some(PacketHash(lib, p)), Some(version), Active,
        None, None, None, None, None)
  }

  // persist_packet up to its first commit.
  function Persisted(lib: Lib, rows: seq<Row>, tenant: Option<string>, p: JsonText.Json, id: string): seq<Row> {
    var t, s := ScopeType(p), ScopeId(p);
    Map((r: Row) => Supersede(r, tenant, t, s), rows) + [NewRow(lib, tenant, p, id, NextVersion(rows, tenant, t, s))]
  }

  // ---- Signing ----

  function VersionText(v: Option<int>): string {
    if v.Some? then CanonicalJson.IntText(v.value) else "None"
  }

  function HashText(h: Option<string>): string {
    if h.Some? then h.value else "None"
  }

  function SigningPayload(id: string, version: Option<int>, hash: Option<string>): string {
    id + ":" + VersionText(version) + ":" + HashText(hash)
  }

  function Payload(r: Row): string {
    SigningPayload(r.id, r.version, r.packetHash)
  }

  const DAY := 86400

  function Signed(lib: Lib, r: Row, now: int, ttlDays: int): Row {
    r.(signature := Some(lib.sign(Payload(r))), signedAt := Some(now), expiresAt := Some(now + ttlDays * DAY))
  }

  // ---- Verification ----

  datatype Verdict = Unsigned | Tampered | Revoked | Expired | Valid

  predicate ContentIntact(lib: Lib, r: Row) {
    && Truthy(r.jsonExport) && Truthy(r.packetHash)
    && var p := JsonText.Load(r.jsonExport.value);
       p.Some? && PacketHash(lib, p.value) == r.packetHash.value
  }

  predicate SignatureOk(lib: Lib, r: Row) {
    Truthy(r.signature) && lib.accepts(r.signature.value, Payload(r))
  }

  function VerifyPacket(lib: Lib, r: Row, now: int): Verdict {
    if !Truthy(r.signature) then Unsigned
    else if !(ContentIntact(lib, r) && SignatureOk(lib, r)) then Tampered
    else if r.revokedAt.Some? then Revoked
    else if r.expiresAt.Some? && now > r.expiresAt.value then Expired
    else Valid
  }

  // ---- Runs ----

  datatype Event =
    | Persist(tenant: Option<string>, packet: JsonText.Json, id: string)
    | Sign(id: string, now: int, ttlDays: int)
    | Revoke(id: string, now: int, reason: string)

  predicate Has(rows: seq<Row>, id: string) {
    exists i :: 0 <= i < |rows| && rows[i].id == id
  }

  function RevokedRow(r: Row, now: int, reason: string): Row {
    r.(revokedAt := Some(now), revocationReason := Some(reason))
  }

  // What one event does to one row; a persist leaves it or supersedes it.
  function Touch(lib: Lib, r: Row, e: Event): Row {
    match e
    case Persist(tenant, p, _) => Supersede(r, tenant, ScopeType(p), ScopeId(p))
    case Sign(id, now, ttl) => if r.id == id then Signed(lib, r, now, ttl) else r
    case Revoke(id, now, reason) => if r.id == id then RevokedRow(r, now, reason) else r
  }

  // A repeated primary key is refused by the database.
  function Step(lib: Lib, rows: seq<Row>, e: Event): seq<Row> {
    match e
    case Persist(tenant, p, id) => if Has(rows, id) then rows else Persisted(lib, rows, tenant, p, id)
    case _ => Map((r: Row) => Touch(lib, r, e), rows)
  }

  function Run(lib: Lib, rows: seq<Row>, es: seq<Event>): seq<Row> {
    if es == [] then rows else Step(lib, Run(lib, rows, es[..|es| - 1]), es[|es| - 1])
  }

  // ---- Versions over runs ----

  predicate SameKey(a: Row, b: Row) {
    a.tenant == b.tenant && a.scopeType == b.scopeType && a.scopeId == b.scopeId
  }

  predicate Newer(a: Row, b: Row) {
    && a.version.Some? && b.version.Some? && a.version.value < b.version.value
    && a.retention == Superseded
  }

  ghost predicate UniqueIds(rows: seq<Row>) {
    forall i, j :: 0 <= i < j < |rows| ==> rows[i].id != rows[j].id
  }

  // Along the table, the versions of one key grow and only its last row may be active.
  ghost predicate VersionInv(rows: seq<Row>) {
    && (forall i :: 0 <= i < |rows| ==> rows[i].version.Some?)
    && UniqueIds(rows)
    && (forall i, j :: 0 <= i < j < |rows| && SameKey(rows[i], rows[j]) ==> Newer(rows[i], rows[j]))
  }

  lemma {:induction false} MaxBounds(rows: seq<Row>)
    requires rows != []
    ensures forall r :: r in rows ==> VersionOf(r) <= Max(rows)
  {
    if |rows| > 1 {
      MaxBounds(rows[..|rows| - 1]);
    }
  }

  lemma NextVersionExceeds(rows: seq<Row>, tenant: Option<string>, scopeType: string, scopeId: Option<string>, i: nat)
    requires i < |rows| && Existing(rows[i], tenant, scopeType, scopeId)
    ensures VersionOf(rows[i]) < NextVersion(rows, tenant, scopeType, scopeId)
  {
    var keep := (r: Row) => Existing(r, tenant, scopeType, scopeId);
    FilterComplete(keep, rows, i);
    MaxBounds(Filter(keep, rows));
  }

  lemma StepKeepsInv(lib: Lib, rows: seq<Row>, e: Event)
    requires VersionInv(rows)
    ensures VersionInv(Step(lib, rows, e))
  {
    var next := Step(lib, rows, e);
    if e.Persist? && !Has(rows, e.id) {
      var n := |rows|;
      forall i | 0 <= i < n && SameKey(next[i], next[n]) ensures Newer(next[i], next[n]) {
        NextVersionExceeds(rows, e.tenant, ScopeType(e.packet), ScopeId(e.packet), i);
      }
    }
  }

  // Over any mix of scoped and unscoped persists, re-signings and revocations: versions of one
  // (tenant, scope) strictly increase and none but the latest is active.
  lemma {:induction false} VersionsOverRuns(lib: Lib, es: seq<Event>)
    ensures VersionInv(Run(lib, [], es))
  {
    if es != [] {
      VersionsOverRuns(lib, es[..|es| - 1]);
      StepKeepsInv(lib, Run(lib, [], es[..|es| - 1]), es[|es| - 1]);
    }
  }

  // Right after a persist the new row is the one active row of its key; after an unscoped one
  // it is the one active row of the scope in any tenant.
  lemma NewRowIsOnlyActive(lib: Lib, rows: seq<Row>, tenant: Option<string>, p: JsonText.Json, id: string, i: nat)
    requires i < |Persisted(lib, rows, tenant, p, id)|
    ensures var next := Persisted(lib, rows, tenant, p, id);
            var added := next[|rows|];
            && added.id == id && added.retention == Active
            && (SameKey(next[i], added) || (tenant.None? && SameScope(next[i], added.scopeType, added.scopeId)) ==>
                  (next[i].retention == Active <==> i == |rows|))
  {
  }

  // The event persists for a tenant other than `other`, or signs or revokes a row that is not
  // `other`'s, as a caller of another tenant does.
  predicate ActsElsewhere(rows: seq<Row>, e: Event, other: string) {
    match e
    case Persist(tenant, _, _) => tenant.Some? && tenant != Some(other)
    case Sign(id, _, _) => forall i :: 0 <= i < |rows| && rows[i].id == id ==> rows[i].tenant != Some(other)
    case Revoke(id, _, _) => forall i :: 0 <= i < |rows| && rows[i].id == id ==> rows[i].tenant != Some(other)
  }

  // Persisting, signing and revoking for one tenant leaves every other tenant's packets alone.
  lemma StepStaysInTenant(lib: Lib, rows: seq<Row>, e: Event, other: string)
    requires ActsElsewhere(rows, e, other)
    ensures var mine := (r: Row) => r.tenant == Some(other);
            Filter(mine, Step(lib, rows, e)) == Filter(mine, rows)
  {
    var mine := (r: Row) => r.tenant == Some(other);
    match e
    case Persist(tenant, p, id) =>
      FilterUnmoved(mine, (r: Row) => Supersede(r, tenant, ScopeType(p), ScopeId(p)), rows);
      var next := Persisted(lib, rows, tenant, p, id);
      assert next[..|next| - 1] == Map((r: Row) => Supersede(r, tenant, ScopeType(p), ScopeId(p)), rows);
    case _ =>
      FilterUnmoved(mine, (r: Row) => Touch(lib, r, e), rows);
  }

  lemma {:induction false} FilterUnmoved(mine: Row -> bool, f: Row -> Row, rows: seq<Row>)
    requires forall i :: 0 <= i < |rows| ==>
            (mine(f(rows[i])) <==> mine(rows[i])) && (mine(rows[i]) ==> f(rows[i]) == rows[i])
    ensures Filter(mine, Map(f, rows)) == Filter(mine, rows)
  {
    if rows != [] {
      var n := |rows| - 1;
      FilterUnmoved(mine, f, rows[..n]);
      assert Map(f, rows)[..n] == Map(f, rows[..n]);
    }
  }
}
