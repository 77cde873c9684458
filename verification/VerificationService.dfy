// The verification service as a class: each method checks the row, assigns its fields and
// appends the audit event.
module VerificationService {
  import opened Prelude
  import opened EvidenceGraph
  import opened ScoreStore
  import opened VerificationModel
  import opened VerificationSafety
  import PacketStore

  class Desk {
    const setting: Setting
    var store: Store
    var packets: seq<PacketStore.Row>
    var scores: seq<ScoreRow>
    var verifications: seq<Verification>
    var trail: seq<Entry>

    constructor (setting: Setting, store: Store, packets: seq<PacketStore.Row>)
      ensures this.setting == setting
      ensures View() == World(store, packets, [], [], [])
    {
      this.setting, this.store, this.packets := setting, store, packets;
      scores, verifications, trail := [], [], [];
    }

    function View(): World
      reads this
    {
      World(store, packets, scores, verifications, trail)
    }

    // _latest_signed_packet: the newest signed packet of the subject.
    method LatestSignedPacket(tenant: Option<string>, subjectId: string) returns (p: Option<PacketStore.Row>)
      ensures p == LatestSigned(packets, tenant, subjectId)
    {
      p := None;
      for i := 0 to |packets|
        invariant p == LatestSigned(packets[..i], tenant, subjectId)
      {
        assert packets[..i + 1][..i] == packets[..i];
        var q := packets[i];
        if SignedFor(q, tenant, subjectId) && (p.None? || PacketStore.VersionOf(q) > PacketStore.VersionOf(p.value)) {
          p := Some(q);
        }
      }
      assert packets[..|packets|] == packets;
    }

    method RequestVerification(e: Event) returns (error: Option<Error>)
      requires e.Request?
      modifies this
      ensures (View(), error) == Step(setting, old(View()), e)
    {
      if !setting.shows(store, e.subjectId, e.tenant) {
        return Some(SubjectNotFound);
      }
      var p := LatestSignedPacket(e.tenant, e.subjectId);
      if p.None? {
        return Some(NoSignedEvidence);
      }
      if FindVerification(verifications, e.id).Some? {
        return Some(DuplicateKey);
      }
      verifications := verifications + [Opened(e, p.value.id)];
      trail := trail + [Entry(AuditRequested, e.id, Requested)];
      error := None;
    }

    method ReviewVerification(e: Event) returns (error: Option<Error>)
      requires e.Review?
      modifies this
      ensures (View(), error) == Step(setting, old(View()), e)
    {
      var found := GetVerification(verifications, e.id, e.tenant);
      if found.None? {
        return Some(VerificationNotFound);
      }
      var row := found.value;
      if row.status != Requested {
        return Some(InvalidTransition);
      }
      var ev := EvidenceOf(setting.lib, packets, row, e.now);
      row := row.(reviewedBy := e.actor, notes := e.notes, reviewedAt := Some(e.now));
      if ev == Found(PacketStore.Valid) {
        row := row.(status := UnderReview, reason := None);
      } else {
        row := row.(status := Rejected, reason := Some(EvidenceReason(ev)));
      }
      Save(row, AuditReviewed);
      error := None;
    }

    method ApproveVerification(e: Event) returns (error: Option<Error>)
      requires e.Approve?
      modifies this
      ensures (View(), error) == Step(setting, old(View()), e)
    {
      var found := GetVerification(verifications, e.id, e.tenant);
      if found.None? {
        return Some(VerificationNotFound);
      }
      var row := found.value;
      if row.status != UnderReview {
        return Some(InvalidTransition);
      }
      var ev := EvidenceOf(setting.lib, packets, row, e.now);
      if ev != Found(PacketStore.Valid) {
        return Some(EvidenceNotValid(ev));
      }
      var score := setting.score(store, row.subjectId, e.tenant);
      if score.None? {
        return Some(SubjectNotFound);
      }
      if HasScore(scores, e.scoreId) {
        return Some(DuplicateKey);
      }
      scores := scores + [NewScore(scores, ActionScope(row.subjectId, e.tenant), e.scoreId, score.value)];
      if score.value < row.minScore {
        return Some(InsufficientTrustScore);
      }
      row := row.(status := Approved, decidedBy := e.actor, decidedAt := Some(e.now));
      row := row.(trustScore := score, scoreId := Some(e.scoreId), reason := Some("approved"));
      Save(row, AuditApproved);
      error := None;
    }

    method RevokeVerification(e: Event) returns (error: Option<Error>)
      requires e.Revoke?
      modifies this
      ensures (View(), error) == Step(setting, old(View()), e)
    {
      var found := GetVerification(verifications, e.id, e.tenant);
      if found.None? {
        return Some(VerificationNotFound);
      }
      var row := found.value;
      if row.status != Approved {
        return Some(InvalidTransition);
      }
      row := row.(status := Status.Revoked, decidedBy := e.actor, decidedAt := Some(e.now), reason := Some(e.reason));
      Save(row, AuditRevoked);
      error := None;
    }

    // session.commit, then the audit record of the row as it now is.
    method Save(row: Verification, action: AuditAction)
      modifies this
      ensures View() == Commit(old(View()), row, action)
    {
      verifications := SetVerification(verifications, row);
      trail := trail + [Entry(action, row.id, row.status)];
    }
  }
}
