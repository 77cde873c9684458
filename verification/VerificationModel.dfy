// services/verification_service.py: the procurement verification of a governed action, from
// request through review and approval to revocation, over the packets and scores it consumes.
module VerificationModel {
  import opened Prelude
  import opened EvidenceGraph
  import opened ScoreStore
  import opened TrustScore
  import PacketStore
  import AuditLog

  datatype Status = Requested | UnderReview | Rejected | Approved | Revoked

  datatype Verification = Verification(
    id: string, tenant: Option<string>, subjectType: string, subjectId: string, status: Status, packetId: string,
    scoreId: Option<string>, trustScore: Option<nat>, minScore: int, requestedBy: Option<string>,
    reviewedBy: Option<string>, decidedBy: Option<string>, notes: Option<string>, reason: Option<string>,
    reviewedAt: Option<int>, decidedAt: Option<int>)

  // The audit events of a verification.
  datatype AuditAction = AuditRequested | AuditReviewed | AuditApproved | AuditRevoked

  datatype Entry = Entry(action: AuditAction, verificationId: string, status: Status)

  // What stays fixed over a run: the keys, and how a store shows a subject to a caller and
  // scores it for them.
  datatype Setting = Setting(
    lib: PacketStore.Lib,
    shows: (Store, string, Option<string>) -> bool,
    score: (Store, string, Option<string>) -> Option<nat>)

  // The setting of a deployment: the evidence graph and the trust score over it.
  function SettingOf(h: AuditLog.Hasher, lib: PacketStore.Lib, env: AppEnv): Setting {
    Setting(lib,
            (s: Store, subject: string, tenant: Option<string>) => GetEvidenceGraph(s, subject, tenant).Some?,
            (s: Store, subject: string, tenant: Option<string>) => ActionScore(h, s, subject, tenant, env))
  }

  datatype World = World(
    store: Store, packets: seq<PacketStore.Row>, scores: seq<ScoreRow>, verifications: seq<Verification>,
    trail: seq<Entry>)

  datatype Evidence = Missing | Found(verdict: PacketStore.Verdict)

  datatype Error =
    | SubjectNotFound | NoSignedEvidence | VerificationNotFound | InvalidTransition
    | EvidenceNotValid(evidence: Evidence) | InsufficientTrustScore | DuplicateKey

  datatype Event =
    | Request(id: string, tenant: Option<string>, subjectId: string, actor: Option<string>, subjectType: string,
              minScore: int)
    | Review(id: string, tenant: Option<string>, actor: Option<string>, notes: Option<string>, now: int)
    | Approve(id: string, tenant: Option<string>, actor: Option<string>, now: int, scoreId: string)
    | Revoke(id: string, tenant: Option<string>, actor: Option<string>, reason: string, now: int)
    | OnPackets(event: PacketStore.Event)
    | OnStore(store: Store)
    | OnScores(row: ScoreRow)

  // ---- Lookups ----

  function FindVerification(rows: seq<Verification>, id: string): Option<Verification> {
    if rows == [] then None
    else if rows[|rows| - 1].id == id then Some(rows[|rows| - 1])
    else FindVerification(rows[..|rows| - 1], id)
  }

  function GetVerification(rows: seq<Verification>, id: string, tenant: Option<string>): Option<Verification> {
    var v := FindVerification(rows, id);
    if v.Some? && InScope(v.value.tenant, tenant) then v else None
  }

  function FindPacket(rows: seq<PacketStore.Row>, id: string): Option<PacketStore.Row> {
    if rows == [] then None
    else if rows[|rows| - 1].id == id then Some(rows[|rows| - 1])
    else FindPacket(rows[..|rows| - 1], id)
  }

  function GetPacket(rows: seq<PacketStore.Row>, id: string, tenant: Option<string>): Option<PacketStore.Row> {
    var p := FindPacket(rows, id);
    if p.Some? && InScope(p.value.tenant, tenant) then p else None
  }

  predicate SignedFor(p: PacketStore.Row, tenant: Option<string>, subjectId: string) {
    p.scopeType == GOVERNED_ACTION && p.scopeId == Some(subjectId) && p.signature.Some? && InScope(p.tenant, tenant)
  }

  // _latest_signed_packet: the signed packet of the subject with the greatest version.
  function LatestSigned(rows: seq<PacketStore.Row>, tenant: Option<string>,
                        subjectId: string): Option<PacketStore.Row> {
    if rows == [] then None
    else
      var p, before := rows[|rows| - 1], LatestSigned(rows[..|rows| - 1], tenant, subjectId);
      if SignedFor(p, tenant, subjectId) &&
          (before.None? || PacketStore.VersionOf(p) > PacketStore.VersionOf(before.value))
      then Some(p) else before
  }

  // _evidence_status: the referenced packet as the verification's own tenant sees it.
  function EvidenceOf(lib: PacketStore.Lib, packets: seq<PacketStore.Row>, v: Verification, now: int): Evidence {
    var p := if v.packetId == "" then None else GetPacket(packets, v.packetId, v.tenant);
    if p.None? then Missing else Found(PacketStore.VerifyPacket(lib, p.value, now))
  }

  function SetVerification(rows: seq<Verification>, v: Verification): seq<Verification> {
    Map((r: Verification) => if r.id == v.id then v else r, rows)
  }

  predicate HasScore(rows: seq<ScoreRow>, id: string) {
    exists i :: 0 <= i < |rows| && rows[i].id == id
  }

  // ---- Transitions of one row ----

  function Opened(e: Event, packetId: string): Verification
    requires e.Request?
  {
    Verification(e.id, e.tenant, e.subjectType, e.subjectId, Requested, packetId, None, None, e.minScore, e.actor,
                 None, None, None, None, None, None)
  }

  function EvidenceReason(ev: Evidence): string {
    match ev
    case Missing => "evidence_missing"
    case Found(Unsigned) => "evidence_unsigned"
    case Found(Tampered) => "evidence_tampered"
    case Found(Revoked) => "evidence_revoked"
    case Found(Expired) => "evidence_expired"
    case Found(Valid) => "evidence_valid"
  }

  function Reviewed(v: Verification, e: Event, ev: Evidence): Verification
    requires e.Review?
  {
    v.(reviewedBy := e.actor, notes := e.notes, reviewedAt := Some(e.now),
       status := if ev == Found(PacketStore.Valid) then UnderReview else Rejected,
       reason := if ev == Found(PacketStore.Valid) then None else Some(EvidenceReason(ev)))
  }

  function Granted(v: Verification, e: Event, score: nat): Verification
    requires e.Approve?
  {
    v.(status := Approved, decidedBy := e.actor, decidedAt := Some(e.now), trustScore := Some(score),
       scoreId := Some(e.scoreId), reason := Some("approved"))
  }

  function Withdrawn(v: Verification, e: Event): Verification
    requires e.Revoke?
  {
    v.(status := Status.Revoked, decidedBy := e.actor, decidedAt := Some(e.now), reason := Some(e.reason))
  }

  // ---- The service calls ----

  // The new world, and the error raised if any.
  type Outcome = (World, Option<Error>)

  function Refused(w: World, e: Error): Outcome {
    (w, Some(e))
  }

  function Commit(w: World, v: Verification, action: AuditAction): World {
    w.(verifications := SetVerification(w.verifications, v), trail := w.trail + [Entry(action, v.id, v.status)])
  }

  function OnRequest(c: Setting, w: World, e: Event): Outcome
    requires e.Request?
  {
    if !c.shows(w.store, e.subjectId, e.tenant) then Refused(w, SubjectNotFound)
    else
      var p := LatestSigned(w.packets, e.tenant, e.subjectId);
      if p.None? then Refused(w, NoSignedEvidence)
      else if FindVerification(w.verifications, e.id).Some? then Refused(w, DuplicateKey)
      else
        (w.(verifications := w.verifications + [Opened(e, p.value.id)],
            trail := w.trail + [Entry(AuditRequested, e.id, Requested)]), None)
  }

  function OnReview(c: Setting, w: World, e: Event): Outcome
    requires e.Review?
  {
    var v := GetVerification(w.verifications, e.id, e.tenant);
    if v.None? then Refused(w, VerificationNotFound)
    else if v.value.status != Requested then Refused(w, InvalidTransition)
    else (Commit(w, Reviewed(v.value, e, EvidenceOf(c.lib, w.packets, v.value, e.now)), AuditReviewed), None)
  }

  // score_action stores a new score row before the threshold is looked at.
  function Scored(w: World, subject: string, tenant: Option<string>, id: string, score: nat): World {
    w.(scores := w.scores + [NewScore(w.scores, ActionScope(subject, tenant), id, score)])
  }

  function OnApprove(c: Setting, w: World, e: Event): Outcome
    requires e.Approve?
  {
    var v := GetVerification(w.verifications, e.id, e.tenant);
    if v.None? then Refused(w, VerificationNotFound)
    else if v.value.status != UnderReview then Refused(w, InvalidTransition)
    else
      var ev := EvidenceOf(c.lib, w.packets, v.value, e.now);
      if ev != Found(PacketStore.Valid) then Refused(w, EvidenceNotValid(ev))
      else
        var score := c.score(w.store, v.value.subjectId, e.tenant);
        if score.None? then Refused(w, SubjectNotFound)
        else if HasScore(w.scores, e.scoreId) then Refused(w, DuplicateKey)
        else
          var scored := Scored(w, v.value.subjectId, e.tenant, e.scoreId, score.value);
          if score.value < v.value.minScore then Refused(scored, InsufficientTrustScore)
          else (Commit(scored, Granted(v.value, e, score.value), AuditApproved), None)
  }

  function OnRevoke(w: World, e: Event): Outcome
    requires e.Revoke?
  {
    var v := GetVerification(w.verifications, e.id, e.tenant);
    if v.None? then Refused(w, VerificationNotFound)
    else if v.value.status != Approved then Refused(w, InvalidTransition)
    else (Commit(w, Withdrawn(v.value, e), AuditRevoked), None)
  }

  function Step(c: Setting, w: World, e: Event): Outcome {
    match e
    case Request(_, _, _, _, _, _) => OnRequest(c, w, e)
    case Review(_, _, _, _, _) => OnReview(c, w, e)
    case Approve(_, _, _, _, _) => OnApprove(c, w, e)
    case Revoke(_, _, _, _, _) => OnRevoke(w, e)
    case OnPackets(p) => (w.(packets := PacketStore.Step(c.lib, w.packets, p)), None)
    case OnStore(s) => (w.(store := s), None)
    case OnScores(row) =>
      if HasScore(w.scores, row.id) then Refused(w, DuplicateKey) else (w.(scores := w.scores + [row]), None)
  }

  function Run(c: Setting, w: World, es: seq<Event>): World {
    if es == [] then w else Step(c, Run(c, w, es[..|es| - 1]), es[|es| - 1]).0
  }
}
