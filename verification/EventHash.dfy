// services/audit_service.py, the hashing half: what one event's hash is computed from.
module EventHash {
  import opened Prelude
  import opened CanonicalJson

  // The library calls the hash is built from, as arbitrary functions: SHA-256 of a text and
  // the ISO-8601 rendering of a UTC instant. Nothing is assumed about either.
  datatype Lib = Lib(sha256: string -> string, isoFormat: int -> string)

  // A datetime: wall-clock microseconds and the offset from UTC; naive when it has none.
  datatype Timestamp = Timestamp(wall: int, offset: Option<int>)

  datatype Fields = Fields(
    action: string,
    resourceType: string,
    resourceId: string,
    tenantId: Option<string>,
    actor: Option<string>,
    actorUserId: Option<string>,
    actorType: Option<string>,
    actionType: Option<string>,
    policyVersion: Option<string>,
    decision: Option<string>,
    reason: Option<string>,
    metadataJson: Option<string>,
    createdAt: Option<Timestamp>)

  // The part of an audit row that its hash commits to.
  datatype Core = Core(seqNo: Option<int>, fields: Fields, previousHash: Option<string>)

  function Iso(lib: Lib, t: Option<Timestamp>): Option<string> {
    match t
    case None => None
    case Some(Timestamp(wall, None)) => Some(lib.isoFormat(wall))
    case Some(Timestamp(wall, Some(offset))) => Some(lib.isoFormat(wall - offset))
  }

  function OptText(s: Option<string>): Scalar {
    if s.Some? then Text(s.value) else Null
  }

  // The members of the canonical payload in sorted key order.
  function PayloadMembers(lib: Lib, c: Core): seq<Member> {
    var f := c.fields;
    [ ("action", Text(f.action)),
      ("action_type", OptText(f.actionType)),
      ("actor", OptText(f.actor)),
      ("actor_type", OptText(f.actorType)),
      ("actor_user_id", OptText(f.actorUserId)),
      ("created_at", OptText(Iso(lib, f.createdAt))),
      ("decision", OptText(f.decision)),
      ("metadata_json", OptText(f.metadataJson)),
      ("policy_version", OptText(f.policyVersion)),
      ("previous_hash", OptText(c.previousHash)),
      ("reason", OptText(f.reason)),
      ("resource_id", Text(f.resourceId)),
      ("resource_type", Text(f.resourceType)),
      ("seq", if c.seqNo.Some? then Number(c.seqNo.value) else Null),
      ("tenant_id", OptText(f.tenantId)) ]
  }

  function CanonicalPayload(lib: Lib, c: Core): string {
    ObjectText(PayloadMembers(lib, c))
  }

  function ComputeEventHash(lib: Lib, c: Core): string {
    lib.sha256(CanonicalPayload(lib, c))
  }

  // Agreement on everything the hash commits to: the position, the previous hash, and every
  // field, the timestamp through its canonical UTC rendering.
  ghost predicate SameHashedFields(lib: Lib, a: Core, b: Core) {
    && a.(fields := a.fields.(createdAt := None)) == b.(fields := b.fields.(createdAt := None))
    && Iso(lib, a.fields.createdAt) == Iso(lib, b.fields.createdAt)
  }

  // The canonical payload loses nothing: it is the same text exactly for events that agree on
  // every hashed field.
  lemma PayloadCommits(lib: Lib, a: Core, b: Core)
    ensures CanonicalPayload(lib, a) == CanonicalPayload(lib, b) <==> SameHashedFields(lib, a, b)
  {
    if CanonicalPayload(lib, a) == CanonicalPayload(lib, b) {
      ObjectInjective(PayloadMembers(lib, a), PayloadMembers(lib, b));
    }
  }

  // The UTC wall clock a timestamp stands for; one without an offset is taken as UTC already.
  function Utc(t: Timestamp): int {
    t.wall - if t.offset.Some? then t.offset.value else 0
  }

  // An event read back with another timestamp has the same payload exactly when the timestamp
  // stands for the same instant: a backend may drop or change the offset, but not the time.
  lemma HashCommitsToInstant(lib: Lib, c: Core, t: Timestamp, u: Timestamp)
    requires forall x, y :: lib.isoFormat(x) == lib.isoFormat(y) ==> x == y
    ensures var a := c.(fields := c.fields.(createdAt := Some(t)));
            var b := c.(fields := c.fields.(createdAt := Some(u)));
            CanonicalPayload(lib, a) == CanonicalPayload(lib, b) <==> Utc(t) == Utc(u)
  {
    var a := c.(fields := c.fields.(createdAt := Some(t)));
    var b := c.(fields := c.fields.(createdAt := Some(u)));
    PayloadCommits(lib, a, b);
    assert Iso(lib, Some(t)) == Some(lib.isoFormat(Utc(t))) && Iso(lib, Some(u)) == Some(lib.isoFormat(Utc(u)));
  }
}
