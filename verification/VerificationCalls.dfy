// What each call of the verification service does, row by row: the packet a request opens on,
// when a call is refused and with which error, and every field that it sets.
module VerificationCalls {
  import opened Prelude
  import opened EvidenceGraph
  import opened ScoreStore
  import opened VerificationModel
  import opened VerificationSafety
  import opened VerificationRuns
  import TrustScore
  import PacketStore
  import AuditLog
  import EvidencePacket
  import EvidenceRows
  import ScoreLaws

  // ---- The newest signed packet ----

  // A signed packet of the governed action that the caller may see.
  predicate IsEvidence(p: PacketStore.Row, tenant: Option<string>, subject: string) {
    && p.scopeType == "governed_action" && p.scopeId == Some(subject) && p.signature != None
    && (tenant == None || p.tenant == tenant)
  }

  // ... of which no other one has a greater version.
  ghost predicate IsNewest(rows: seq<PacketStore.Row>, tenant: Option<string>, subject: string, p: PacketStore.Row) {
    && p in rows && IsEvidence(p, tenant, subject) && p.version.Some?
    && forall q :: q in rows && IsEvidence(q, tenant, subject) && q.version.Some? ==> q.version.value <= p.version.value
  }

  ghost predicate Versioned(rows: seq<PacketStore.Row>) {
    forall p :: p in rows ==> p.version.Some?
  }

  // The packet found is the newest signed one; none is found exactly if there is none.
  lemma {:induction false} LatestIsNewest(rows: seq<PacketStore.Row>, tenant: Option<string>, subject: string)
    requires Versioned(rows)
    ensures var p := LatestSigned(rows, tenant, subject);
            if p.Some? then IsNewest(rows, tenant, subject, p.value)
            else forall q :: q in rows ==> !IsEvidence(q, tenant, subject)
  {
    if rows != [] {
      LatestIsNewest(rows[..|rows| - 1], tenant, subject);
    }
  }

  // Within a tenant there is only one newest: a later version was persisted after it.
  lemma NewestIsUnique(rows: seq<PacketStore.Row>, t: string, subject: string, p: PacketStore.Row, q: PacketStore.Row)
    requires PacketStore.VersionInv(rows)
    requires IsNewest(rows, Some(t), subject, p) && IsNewest(rows, Some(t), subject, q)
    ensures p == q
  {
    var i :| 0 <= i < |rows| && rows[i] == p;
    var j :| 0 <= j < |rows| && rows[j] == q;
    if i < j {
      assert PacketStore.SameKey(rows[i], rows[j]);
    } else if j < i {
      assert PacketStore.SameKey(rows[j], rows[i]);
    }
  }

  // The request opened one verification, on packet p.
  predicate OpenedOn(w: World, e: Event, next: World, p: PacketStore.Row)
    requires e.Request?
  {
    next == World(
      w.store, w.packets, w.scores,
      w.verifications +
        [Verification(e.id, e.tenant, e.subjectType, e.subjectId, Requested, p.id, None, None, e.minScore, e.actor,
                      None, None, None, None, None, None)],
      w.trail + [Entry(AuditRequested, e.id, Requested)])
  }

  // A request is refused, in this order, for a subject the caller cannot see, without signed
  // evidence, or for a taken key; otherwise it opens one verification, on the newest packet.
  lemma RequestOutcome(c: Setting, w: World, e: Event)
    requires e.Request? && Versioned(w.packets)
    ensures var (next, error) := Step(c, w, e);
            var evidence := exists p :: p in w.packets && IsEvidence(p, e.tenant, e.subjectId);
            var taken := exists k :: 0 <= k < |w.verifications| && w.verifications[k].id == e.id;
            && error == (if !c.shows(w.store, e.subjectId, e.tenant) then Some(SubjectNotFound)
                         else if !evidence then Some(NoSignedEvidence)
                         else if taken then Some(DuplicateKey) else None)
            && (error.Some? ==> next == w)
            && (error.None? ==>
                  exists p :: IsNewest(w.packets, e.tenant, e.subjectId, p) && OpenedOn(w, e, next, p))
  {
    LatestIsNewest(w.packets, e.tenant, e.subjectId);
    FindsVerification(w.verifications, e.id);
  }

  // The i-th event of the run requested the verification, for the subject, tenant and minimum it
  // carries and on what was then the newest packet.
  ghost predicate RequestedOn(c: Setting, w: World, es: seq<Event>, i: int, v: Verification) {
    && 0 <= i < |es| && es[i].Request? && es[i].id == v.id
    && (es[i].tenant, es[i].subjectId, es[i].minScore) == (v.tenant, v.subjectId, v.minScore)
    && exists p :: IsNewest(Run(c, w, es[..i]).packets, v.tenant, v.subjectId, p) && p.id == v.packetId
  }

  // Every verification of every run rests on the packet that was its subject's newest signed one
  // when it was requested, and none of what it was requested for ever changes.
  lemma {:induction false} RestsOnNewest(c: Setting, w: World, es: seq<Event>, id: string)
    requires Initial(w)
    ensures var v := FindVerification(Run(c, w, es).verifications, id);
            v.Some? ==> v.value.id == id && exists i :: RequestedOn(c, w, es, i, v.value)
  {
    if es != [] {
      var n := |es| - 1;
      var before := Run(c, w, es[..n]);
      var v, u := FindVerification(before.verifications, id), FindVerification(Run(c, w, es).verifications, id);
      RestsOnNewest(c, w, es[..n], id);
      FindHasId(Run(c, w, es).verifications, id);
      if v.Some? {
        StatusFollowsLifecycle(c, before, es[n], id);
        var i :| RequestedOn(c, w, es[..n], i, v.value);
        assert es[..n][..i] == es[..i];
        assert RequestedOn(c, w, es, i, u.value);
      } else if u.Some? {
        RunKeepsRow(c, w, es[..n], id);
        StepOpens(c, before, es[n], id);
        LatestIsNewest(before.packets, es[n].tenant, es[n].subjectId);
        assert RequestedOn(c, w, es, n, u.value);
      }
    }
  }

  // ---- Keys ----

  ghost predicate UniqueKeys(rows: seq<Verification>) {
    forall i, j :: 0 <= i < j < |rows| ==> rows[i].id != rows[j].id
  }

  // No run gives two verifications the same key.
  lemma {:induction false} KeysStayUnique(c: Setting, w: World, es: seq<Event>)
    requires UniqueKeys(w.verifications)
    ensures UniqueKeys(Run(c, w, es).verifications)
  {
    if es != [] {
      var before, e := Run(c, w, es[..|es| - 1]), es[|es| - 1];
      KeysStayUnique(c, w, es[..|es| - 1]);
      StepOutcome(c, before, e);
      if e.Request? {
        FindsVerification(before.verifications, e.id);
      }
    }
  }

  lemma {:induction false} FindsVerification(rows: seq<Verification>, id: string)
    ensures var v := FindVerification(rows, id);
            if v.Some? then v.value in rows && v.value.id == id else forall k :: 0 <= k < |rows| ==> rows[k].id != id
  {
    if rows != [] {
      FindsVerification(rows[..|rows| - 1], id);
    }
  }

  // The k-th row is the one that the call is about, and the caller may see it.
  predicate IsAbout(w: World, id: string, tenant: Option<string>, k: int) {
    0 <= k < |w.verifications| && w.verifications[k].id == id && (tenant == None || w.verifications[k].tenant == tenant)
  }

  lemma AboutMeans(w: World, id: string, tenant: Option<string>, k: int)
    requires UniqueKeys(w.verifications)
    ensures IsAbout(w, id, tenant, k) ==> GetVerification(w.verifications, id, tenant) == Some(w.verifications[k])
    ensures GetVerification(w.verifications, id, tenant).Some? ==> exists j :: IsAbout(w, id, tenant, j)
  {
    FindsVerification(w.verifications, id);
    var v := FindVerification(w.verifications, id);
    if v.Some? {
      var j :| 0 <= j < |w.verifications| && w.verifications[j] == v.value;
      assert IsAbout(w, id, tenant, k) ==> j == k;
      assert InScope(v.value.tenant, tenant) ==> IsAbout(w, id, tenant, j);
    }
  }

  // A review, an approval or a revocation is not found exactly if the caller has no such row.
  lemma NotFoundIff(c: Setting, w: World, e: Event)
    requires UniqueKeys(w.verifications) && (e.Review? || e.Approve? || e.Revoke?)
    ensures Step(c, w, e).1 == Some(VerificationNotFound) <==> !exists k :: IsAbout(w, e.id, e.tenant, k)
  {
    AboutMeans(w, e.id, e.tenant, 0);
    if k :| IsAbout(w, e.id, e.tenant, k) {
      AboutMeans(w, e.id, e.tenant, k);
    }
  }

  // Row k became v, with one audit event; nothing else changed but the scores.
  predicate Became(w: World, next: World, k: int, v: Verification, action: AuditAction)
    requires 0 <= k < |w.verifications|
  {
    && (next.store, next.packets) == (w.store, w.packets)
    && next.verifications == w.verifications[k := v]
    && next.trail == w.trail + [Entry(action, v.id, v.status)]
  }

  lemma SetAt(rows: seq<Verification>, v: Verification, k: nat)
    requires UniqueKeys(rows) && k < |rows| && rows[k].id == v.id
    ensures SetVerification(rows, v) == rows[k := v]
  {
    forall i | 0 <= i < |rows| ensures SetVerification(rows, v)[i] == rows[k := v][i] {
      assert rows[i].id == v.id ==> i == k;
    }
  }

  // The packet is the one the verification names, and of its tenant.
  predicate IsNamed(p: PacketStore.Row, v: Verification) {
    v.packetId != "" && p.id == v.packetId && (v.tenant == None || p.tenant == v.tenant)
  }

  // There is no such packet, or there is and it verifies now as the evidence says.
  ghost predicate EvidenceIs(lib: PacketStore.Lib, packets: seq<PacketStore.Row>, v: Verification, now: int,
                             ev: Evidence) {
    match ev
    case Missing => forall p :: p in packets ==> !IsNamed(p, v)
    case Found(verdict) =>
      exists p :: p in packets && IsNamed(p, v) && PacketStore.VerifyPacket(lib, p, now) == verdict
  }

  lemma {:induction false} FindsPacket(rows: seq<PacketStore.Row>, id: string)
    ensures var p := FindPacket(rows, id);
            if p.Some? then p.value in rows && p.value.id == id else forall k :: 0 <= k < |rows| ==> rows[k].id != id
  {
    if rows != [] {
      FindsPacket(rows[..|rows| - 1], id);
    }
  }

  lemma EvidenceMeans(lib: PacketStore.Lib, packets: seq<PacketStore.Row>, v: Verification, now: int, ev: Evidence)
    requires PacketStore.UniqueIds(packets)
    ensures EvidenceOf(lib, packets, v, now) == ev <==> EvidenceIs(lib, packets, v, now, ev)
  {
    FindsPacket(packets, v.packetId);
    var p := FindPacket(packets, v.packetId);
    if p.Some? {
      var i :| 0 <= i < |packets| && packets[i] == p.value;
      forall q | q in packets && q.id == v.packetId ensures q == p.value {
        var j :| 0 <= j < |packets| && packets[j] == q;
        assert i == j;
      }
    }
  }

  // Only a requested verification is reviewed; it goes under review on valid evidence and is
  // rejected, for what the evidence is instead, otherwise.
  lemma ReviewSets(c: Setting, w: World, e: Event, k: int, ev: Evidence)
    requires e.Review? && UniqueKeys(w.verifications) && PacketStore.UniqueIds(w.packets)
    requires IsAbout(w, e.id, e.tenant, k) && EvidenceIs(c.lib, w.packets, w.verifications[k], e.now, ev)
    ensures var (next, error) := Step(c, w, e);
            var v := w.verifications[k];
            var status := if ev == Found(PacketStore.Valid) then UnderReview else Rejected;
            var reason := match ev
                          case Found(Valid) => None
                          case Found(Unsigned) => Some("evidence_unsigned")
                          case Found(Tampered) => Some("evidence_tampered")
                          case Found(Revoked) => Some("evidence_revoked")
                          case Found(Expired) => Some("evidence_expired")
                          case Missing => Some("evidence_missing");
            if v.status != Requested then (next, error) == (w, Some(InvalidTransition))
            else
              && error == None && next.scores == w.scores
              && Became(w, next, k,
                   Verification(v.id, v.tenant, v.subjectType, v.subjectId, status, v.packetId, v.scoreId, v.trustScore,
                                v.minScore, v.requestedBy, e.actor, v.decidedBy, e.notes, reason, Some(e.now),
                                v.decidedAt), AuditReviewed)
  {
    AboutMeans(w, e.id, e.tenant, k);
    EvidenceMeans(c.lib, w.packets, w.verifications[k], e.now, ev);
    SetAt(w.verifications, Reviewed(w.verifications[k], e, ev), k);
  }

  predicate ScoresSubject(r: ScoreRow, tenant: Option<string>, subject: string) {
    r.scopeType == "governed_action" && r.scopeId == subject && (tenant == None || r.tenant == tenant)
  }

  // The score of an approval attempt: the next version of the subject's scope.
  ghost predicate ScoreStored(scores: seq<ScoreRow>, more: seq<ScoreRow>, e: Event, subject: string, score: nat)
    requires e.Approve?
  {
    exists version ::
      && more == scores + [ScoreRow(e.scoreId, e.tenant, "governed_action", subject, score, TrustScore.BandFor(score),
                                    version)]
      && version >= 1
      && forall r :: r in scores && ScoresSubject(r, e.tenant, subject) ==> r.version < version
  }

  lemma ScoredMeans(w: World, e: Event, subject: string, score: nat)
    requires e.Approve?
    ensures ScoreStored(w.scores, Scored(w, subject, e.tenant, e.scoreId, score).scores, e, subject, score)
  {
    var key := ActionScope(subject, e.tenant);
    MaxVersionBounds(w.scores, key);
    forall r | r in w.scores && ScoresSubject(r, e.tenant, subject) ensures r.version < MaxVersion(w.scores, key) + 1 {
      assert InScoreScope(r, key);
    }
    assert NewScore(w.scores, key, e.scoreId, score).version == MaxVersion(w.scores, key) + 1;
  }

  // Only a verification under review is approved, on evidence that is valid now and a score at
  // least its minimum; each refusal has its error, in this order.
  lemma ApproveAnswers(c: Setting, w: World, e: Event, k: int, ev: Evidence)
    requires e.Approve? && UniqueKeys(w.verifications) && PacketStore.UniqueIds(w.packets)
    requires IsAbout(w, e.id, e.tenant, k) && EvidenceIs(c.lib, w.packets, w.verifications[k], e.now, ev)
    ensures var v := w.verifications[k];
            var score := c.score(w.store, v.subjectId, e.tenant);
            var taken := exists i :: 0 <= i < |w.scores| && w.scores[i].id == e.scoreId;
            Step(c, w, e).1 == if v.status != UnderReview then Some(InvalidTransition)
                               else if ev != Found(PacketStore.Valid) then Some(EvidenceNotValid(ev))
                               else if score.None? then Some(SubjectNotFound)
                               else if taken then Some(DuplicateKey)
                               else if score.value < v.minScore then Some(InsufficientTrustScore) else None
  {
    AboutMeans(w, e.id, e.tenant, k);
    EvidenceMeans(c.lib, w.packets, w.verifications[k], e.now, ev);
  }

  // An approval stores the score and sets the decision; one that fails for the score stores it
  // too, and that is all.
  lemma ApproveSets(c: Setting, w: World, e: Event, k: int)
    requires e.Approve? && UniqueKeys(w.verifications) && IsAbout(w, e.id, e.tenant, k)
    requires var error := Step(c, w, e).1; error == None || error == Some(InsufficientTrustScore)
    ensures var (next, error) := Step(c, w, e);
            var v := w.verifications[k];
            var score := c.score(w.store, v.subjectId, e.tenant);
            && score.Some? && ScoreStored(w.scores, next.scores, e, v.subjectId, score.value)
            && if error == None then
                 Became(w, next, k,
                   Verification(v.id, v.tenant, v.subjectType, v.subjectId, Approved, v.packetId, Some(e.scoreId),
                                score, v.minScore, v.requestedBy, v.reviewedBy, e.actor, v.notes, Some("approved"),
                                v.reviewedAt, Some(e.now)), AuditApproved)
               else next == w.(scores := next.scores)
  {
    var v := w.verifications[k];
    AboutMeans(w, e.id, e.tenant, k);
    var score := c.score(w.store, v.subjectId, e.tenant);
    ScoredMeans(w, e, v.subjectId, score.value);
    SetAt(w.verifications, Granted(v, e, score.value), k);
  }

  // Only an approved verification is revoked, for the reason given, its score and evidence kept.
  lemma RevokeSets(c: Setting, w: World, e: Event, k: int)
    requires e.Revoke? && UniqueKeys(w.verifications) && IsAbout(w, e.id, e.tenant, k)
    ensures var (next, error) := Step(c, w, e);
            var v := w.verifications[k];
            if v.status != Approved then (next, error) == (w, Some(InvalidTransition))
            else
              && error == None && next.scores == w.scores
              && Became(w, next, k,
                   Verification(v.id, v.tenant, v.subjectType, v.subjectId, Status.Revoked, v.packetId, v.scoreId,
                                v.trustScore, v.minScore, v.requestedBy, v.reviewedBy, e.actor, v.notes,
                                Some(e.reason), v.reviewedAt, Some(e.now)), AuditRevoked)
  {
    AboutMeans(w, e.id, e.tenant, k);
    SetAt(w.verifications, Withdrawn(w.verifications[k], e), k);
  }

  // ---- A deployment ----

  // In a deployment a caller sees exactly the subjects that are actions in scope.
  lemma DeploymentShows(h: AuditLog.Hasher, lib: PacketStore.Lib, env: TrustScore.AppEnv, s: Store, subject: string,
                        tenant: Option<string>)
    requires WellKeyed(s)
    ensures SettingOf(h, lib, env).shows(s, subject, tenant) <==>
            exists a :: a in s.actions && a.id == subject && (tenant == None || a.tenant == tenant)
  {
    EvidenceRows.GraphIsOfAction(s, subject, tenant);
  }

  // A subject's score is that of the action packet built for the caller, whenever it is built.
  lemma DeploymentScores(h: AuditLog.Hasher, lib: PacketStore.Lib, env: TrustScore.AppEnv, s: Store, subject: string,
                         tenant: Option<string>, now: string, p: Option<EvidencePacket.Packet>)
    requires p == EvidencePacket.BuildActionPacket(h, s, subject, tenant, now)
    ensures SettingOf(h, lib, env).score(s, subject, tenant) ==
            if p.Some? then Some(TrustScore.Score(p.value, env)) else None
  {
    var q := EvidencePacket.BuildActionPacket(h, s, subject, tenant, "");
    if p.Some? {
      ScoreLaws.TotalIgnoresClock(TrustScore.DIMENSIONS, p.value, q.value, env);
    }
  }

  // An approval in a deployment means: the evidence verifies valid at that moment, and the packet
  // of the subject scores at least the minimum that was asked for.
  lemma DeploymentApproves(h: AuditLog.Hasher, lib: PacketStore.Lib, env: TrustScore.AppEnv, w: World, e: Event, k: int,
                           ev: Evidence, now: string)
    requires e.Approve? && UniqueKeys(w.verifications) && PacketStore.UniqueIds(w.packets)
    requires IsAbout(w, e.id, e.tenant, k) && EvidenceIs(lib, w.packets, w.verifications[k], e.now, ev)
    requires Step(SettingOf(h, lib, env), w, e).1 == None
    ensures var p := EvidencePacket.BuildActionPacket(h, w.store, w.verifications[k].subjectId, e.tenant, now);
            && w.verifications[k].status == UnderReview && ev == Found(PacketStore.Valid)
            && p.Some? && TrustScore.Score(p.value, env) >= w.verifications[k].minScore
  {
    ApproveAnswers(SettingOf(h, lib, env), w, e, k, ev);
    DeploymentScores(h, lib, env, w.store, w.verifications[k].subjectId, e.tenant, now,
                     EvidencePacket.BuildActionPacket(h, w.store, w.verifications[k].subjectId, e.tenant, now));
  }
}
