// What verifying a stored packet says: over any run of persists, re-signings, revocations and
// passing time, and after an edit of the stored row behind the services' back.
module PacketVerdict {
  import opened Prelude
  import opened PacketStore
  import JsonText
  import CanonicalJson

  // ---- Persist, sign, verify ----

  // The row was stored for packet p and is signed over exactly what it holds.
  ghost predicate Issued(lib: Lib, r: Row, p: JsonText.Json) {
    && r.jsonExport == Some(JsonText.Dump(p))
    && r.packetHash == Some(PacketHash(lib, p))
    && r.signature == Some(lib.sign(Payload(r)))
  }

  lemma IssuedVerifies(lib: Lib, r: Row, p: JsonText.Json)
    requires Sound(lib) && JsonText.WellFormed(p) && Issued(lib, r, p)
    ensures ContentIntact(lib, r) && SignatureOk(lib, r)
  {
    JsonText.LoadsDump(p);
    JsonText.RenderStarts(p, 0);
    assert lib.sign(Payload(r)) != "" && lib.accepts(lib.sign(Payload(r)), Payload(r));
    assert lib.sha256(lib.canonical(Core(p))) != "";
  }

  predicate WasRevoked(es: seq<Event>, id: string) {
    exists i :: 0 <= i < |es| && es[i].Revoke? && es[i].id == id
  }

  function ExpiryAfter(e: Event, id: string, before: int): int {
    if e.Sign? && e.id == id then e.now + e.ttlDays * DAY else before
  }

  // The expiry set by the last signing of id in es, or the one before.
  function Expiry(es: seq<Event>, id: string, before: int): int {
    if es == [] then before
    else ExpiryAfter(es[|es| - 1], id, Expiry(es[..|es| - 1], id, before))
  }

  lemma RevokedSplit(es: seq<Event>, id: string)
    requires es != []
    ensures var e := es[|es| - 1];
            WasRevoked(es, id) <==> WasRevoked(es[..|es| - 1], id) || (e.Revoke? && e.id == id)
  {
    var n := |es| - 1;
    forall i | 0 <= i < n && es[i].Revoke? && es[i].id == id ensures WasRevoked(es[..n], id) {
      assert es[..n][i] == es[i];
    }
    if WasRevoked(es[..n], id) {
      var i :| 0 <= i < n && es[..n][i].Revoke? && es[..n][i].id == id;
      assert es[i] == es[..n][i];
    }
  }

  // r is p's row, revoked or not, and expires when it should.
  ghost predicate Tracks(lib: Lib, r: Row, p: JsonText.Json, id: string, revoked: bool, expiry: int) {
    r.id == id && Issued(lib, r, p) && (r.revokedAt.Some? <==> revoked) && r.expiresAt == Some(expiry)
  }

  lemma StepTracks(lib: Lib, rows: seq<Row>, e: Event, k: nat, p: JsonText.Json, id: string, revoked: bool, expiry: int)
    requires k < |rows| && Tracks(lib, rows[k], p, id, revoked, expiry)
    ensures k < |Step(lib, rows, e)|
    ensures Tracks(lib, Step(lib, rows, e)[k], p, id, revoked || (e.Revoke? && e.id == id), ExpiryAfter(e, id, expiry))
  {
  }

  lemma {:induction false} RunTracks(lib: Lib, rows: seq<Row>, es: seq<Event>, k: nat, p: JsonText.Json, id: string,
                                     expiry: int)
    requires k < |rows| && Tracks(lib, rows[k], p, id, false, expiry)
    ensures k < |Run(lib, rows, es)|
    ensures Tracks(lib, Run(lib, rows, es)[k], p, id, WasRevoked(es, id), Expiry(es, id, expiry))
  {
    if es != [] {
      var n := |es| - 1;
      RunTracks(lib, rows, es[..n], k, p, id, expiry);
      StepTracks(lib, Run(lib, rows, es[..n]), es[n], k, p, id, WasRevoked(es[..n], id), Expiry(es[..n], id, expiry));
      RevokedSplit(es, id);
    }
  }

  // The verdict on p's row at a time: revoked, else expired, else valid.
  lemma TrackedVerdict(lib: Lib, r: Row, p: JsonText.Json, id: string, revoked: bool, expiry: int, now: int)
    requires Sound(lib) && JsonText.WellFormed(p) && Tracks(lib, r, p, id, revoked, expiry)
    ensures VerifyPacket(lib, r, now) == if revoked then Revoked else if now > expiry then Expired else Valid
  {
    IssuedVerifies(lib, r, p);
  }

  // A stored and signed packet's verdict after any further run is decided by that run alone:
  // revoked once it was revoked, however it is re-signed; else expired once the last signature
  // ran out; else valid. It is never tampered or unsigned.
  lemma VerdictAfterRun(lib: Lib, before: seq<Row>, tenant: Option<string>, p: JsonText.Json, id: string, signedAt: int,
                        ttlDays: int, es: seq<Event>, now: int)
    requires Sound(lib) && JsonText.WellFormed(p) && !Has(before, id)
    ensures var stored := Step(lib, Step(lib, before, Persist(tenant, p, id)), Sign(id, signedAt, ttlDays));
            var rows := Run(lib, stored, es);
            && |before| < |rows| && rows[|before|].id == id
            && VerifyPacket(lib, rows[|before|], now) ==
               if WasRevoked(es, id) then Revoked
               else if now > Expiry(es, id, signedAt + ttlDays * DAY) then Expired
               else Valid
  {
    var stored := Step(lib, Step(lib, before, Persist(tenant, p, id)), Sign(id, signedAt, ttlDays));
    var expiry := signedAt + ttlDays * DAY;
    RunTracks(lib, stored, es, |before|, p, id, expiry);
    TrackedVerdict(lib, Run(lib, stored, es)[|before|], p, id, WasRevoked(es, id), Expiry(es, id, expiry), now);
  }

  // Once revoked, a row of any content never verifies valid again.
  lemma {:induction false} RevokedStaysRevoked(lib: Lib, rows: seq<Row>, es: seq<Event>, k: nat, now: int)
    requires k < |rows| && rows[k].revokedAt.Some?
    ensures var after := Run(lib, rows, es);
            k < |after| && after[k].id == rows[k].id && after[k].revokedAt.Some? &&
                VerifyPacket(lib, after[k], now) != Valid
  {
    if es != [] {
      RevokedStaysRevoked(lib, rows, es[..|es| - 1], k, now);
    }
  }

  // The generation time is outside the hash.
  lemma HashIgnoresClock(lib: Lib, front: seq<(string, JsonText.Json)>, back: seq<(string, JsonText.Json)>,
                         a: JsonText.Json, b: JsonText.Json)
    ensures PacketHash(lib, JsonText.Obj(front + [(CLOCK, a)] + back)) ==
            PacketHash(lib, JsonText.Obj(front + [(CLOCK, b)] + back))
  {
    var keep := (m: (string, JsonText.Json)) => m.0 != CLOCK;
    forall x: JsonText.Json
      ensures Filter(keep, front + [(CLOCK, x)] + back) == Filter(keep, front) + Filter(keep, back)
    {
      FilterAppend(keep, front + [(CLOCK, x)], back);
      FilterAppend(keep, front, [(CLOCK, x)]);
      assert Filter(keep, [(CLOCK, x)]) == [];
    }
  }

  // ---- The signing payload ----

  // Two texts cut at their last colon.
  lemma {:induction false} CutAtColon(a: string, b: string, x: string, y: string)
    requires Plain(x) && Plain(y) && a + ":" + x == b + ":" + y
    ensures a == b && x == y
  {
    var s, t := a + ":" + x, b + ":" + y;
    var n := |s| - 1;
    assert (x == "" <==> s[n] == ':') && (y == "" <==> t[n] == ':');
    if x == "" {
      assert s[..n] == a && t[..n] == b;
    } else {
      assert s[..n] == a + ":" + x[..|x| - 1] && t[..n] == b + ":" + y[..|y| - 1];
      assert x[|x| - 1] == s[n] && y[|y| - 1] == t[n];
      CutAtColon(a, b, x[..|x| - 1], y[..|y| - 1]);
      assert x == x[..|x| - 1] + [s[n]] && y == y[..|y| - 1] + [t[n]];
    }
  }

  lemma VersionTextPlain(v: Option<int>)
    ensures Plain(VersionText(v)) && (v.Some? ==> VersionText(v)[0] != 'N')
  {
    if v.Some? {
      var d := CanonicalJson.DigitsText(if v.value < 0 then -v.value else v.value);
      assert forall i :: 0 <= i < |d| ==> CanonicalJson.IsDigit(d[i]);
    }
  }

  lemma VersionTextInjective(v: Option<int>, w: Option<int>)
    requires VersionText(v) == VersionText(w)
    ensures v == w
  {
    VersionTextPlain(v);
    VersionTextPlain(w);
    if v.Some? && w.Some? {
      CanonicalJson.IntInjective(v.value, w.value);
    }
  }

  // The signed bytes determine id, version and hash: whatever the id contains, the text cuts at
  // its last two colons, because neither a digest nor a version holds one.
  lemma PayloadInjective(id: string, version: Option<int>, hash: string, id': string, version': Option<int>,
                         hash': string)
    requires Plain(hash) && Plain(hash')
    ensures SigningPayload(id, version, Some(hash)) == SigningPayload(id', version', Some(hash')) <==>
            id == id' && version == version' && hash == hash'
  {
    if SigningPayload(id, version, Some(hash)) == SigningPayload(id', version', Some(hash')) {
      VersionTextPlain(version);
      VersionTextPlain(version');
      CutAtColon(id + ":" + VersionText(version), id' + ":" + VersionText(version'), hash, hash');
      CutAtColon(id, id', VersionText(version), VersionText(version'));
      VersionTextInjective(version, version');
    }
  }

  // ---- Tamper evidence ----

  // The idealisations of the two primitives, on the rows at hand only: a signature over one
  // payload is not accepted for another, and two different canonical texts do not hash alike.
  ghost predicate NoForgery(lib: Lib, r: Row, q: Row) {
    lib.accepts(lib.sign(Payload(r)), Payload(q)) ==> Payload(q) == Payload(r)
  }

  ghost predicate NoCollision(lib: Lib, p: JsonText.Json, q: JsonText.Json) {
    PacketHash(lib, p) == PacketHash(lib, q) ==> lib.canonical(Core(p)) == lib.canonical(Core(q))
  }

  // A stored row q that carries r's signature verifies as tampered unless it still has r's
  // identity, version and hash and its export still holds r's packet up to what the canonical
  // text leaves out: the generation time, the spacing and the order of keys. Nothing else is
  // bound.
  lemma EditIsTampered(lib: Lib, r: Row, p: JsonText.Json, q: Row, now: int)
    requires Sound(lib) && JsonText.WellFormed(p) && Issued(lib, r, p)
    requires q.signature == r.signature
    requires NoForgery(lib, r, q)
    requires Truthy(q.jsonExport) && JsonText.Load(q.jsonExport.value).Some? ==>
               NoCollision(lib, p, JsonText.Load(q.jsonExport.value).value)
    ensures VerifyPacket(lib, q, now) != Tampered <==>
            && q.id == r.id && q.version == r.version && q.packetHash == r.packetHash
            && Truthy(q.jsonExport) && JsonText.Load(q.jsonExport.value).Some?
            && lib.canonical(Core(JsonText.Load(q.jsonExport.value).value)) == lib.canonical(Core(p))
  {
    IssuedVerifies(lib, r, p);
    if ContentIntact(lib, q) && SignatureOk(lib, q) {
      PayloadInjective(q.id, q.version, q.packetHash.value, r.id, r.version, r.packetHash.value);
    }
  }
}
