// What every run of the verification service keeps: the lifecycle, its audit trail, and the
// evidence and score behind every approval.
module VerificationSafety {
  import opened Prelude
  import opened EvidenceGraph
  import opened ScoreStore
  import opened VerificationModel
  import PacketStore

  // ---- One step, seen from one row ----

  // Event e takes row v to u in world w.
  ghost predicate Moves(c: Setting, w: World, e: Event, v: Verification, u: Verification) {
    match e
    case Review(id, tenant, _, _, now) =>
      && id == v.id && InScope(v.tenant, tenant) && v.status == Requested
      && u == Reviewed(v, e, EvidenceOf(c.lib, w.packets, v, now))
    case Approve(id, tenant, _, now, _) =>
      && id == v.id && InScope(v.tenant, tenant) && v.status == UnderReview
      && EvidenceOf(c.lib, w.packets, v, now) == Found(PacketStore.Valid)
      && var score := c.score(w.store, v.subjectId, tenant);
         score.Some? && score.value >= v.minScore && u == Granted(v, e, score.value)
    case Revoke(id, tenant, _, _, _) =>
      id == v.id && InScope(v.tenant, tenant) && v.status == Approved && u == Withdrawn(v, e)
    case _ => false
  }

  function ActionOf(e: Event): AuditAction {
    match e
    case Review(_, _, _, _, _) => AuditReviewed
    case Approve(_, _, _, _, _) => AuditApproved
    case Revoke(_, _, _, _, _) => AuditRevoked
    case _ => AuditRequested
  }

  function TrailOf(trail: seq<Entry>, id: string): seq<Entry> {
    Filter((t: Entry) => t.verificationId == id, trail)
  }

  lemma {:induction false} FindSet(rows: seq<Verification>, u: Verification, id: string)
    ensures FindVerification(SetVerification(rows, u), id) ==
            var v := FindVerification(rows, id); if v.Some? && id == u.id then Some(u) else v
  {
    if rows != [] {
      var n := |rows| - 1;
      FindSet(rows[..n], u, id);
      assert SetVerification(rows, u)[..n] == SetVerification(rows[..n], u);
    }
  }

  lemma {:induction false} FindHasId(rows: seq<Verification>, id: string)
    ensures var v := FindVerification(rows, id); v.Some? ==> v.value.id == id && v.value in rows
  {
    if rows != [] {
      FindHasId(rows[..|rows| - 1], id);
    }
  }

  lemma FindAppend(rows: seq<Verification>, v: Verification, id: string)
    ensures FindVerification(rows + [v], id) == if v.id == id then Some(v) else FindVerification(rows, id)
  {
    assert (rows + [v])[..|rows|] == rows;
  }

  lemma TrailAppend(trail: seq<Entry>, t: Entry, id: string)
    ensures TrailOf(trail + [t], id) == TrailOf(trail, id) + if t.verificationId == id then [t] else []
  {
    assert (trail + [t])[..|trail|] == trail;
  }

  // What a call other than a request does to the rows: nothing, or one move of one row with
  // its audit event.
  ghost predicate Same(w: World, next: World) {
    next.verifications == w.verifications && next.trail == w.trail
  }

  ghost predicate MovesOne(c: Setting, w: World, e: Event, next: World, u: Verification) {
    && FindVerification(w.verifications, u.id).Some?
    && Moves(c, w, e, FindVerification(w.verifications, u.id).value, u)
    && next.verifications == SetVerification(w.verifications, u)
    && next.trail == w.trail + [Entry(ActionOf(e), u.id, u.status)]
  }

  lemma ReviewOutcome(c: Setting, w: World, e: Event)
    requires e.Review?
    ensures var next := OnReview(c, w, e).0; Same(w, next) || exists u :: MovesOne(c, w, e, next, u)
  {
    FindHasId(w.verifications, e.id);
    var v := GetVerification(w.verifications, e.id, e.tenant);
    if v.Some? && v.value.status == Requested {
      assert MovesOne(c, w, e, OnReview(c, w, e).0, Reviewed(v.value, e, EvidenceOf(c.lib, w.packets, v.value, e.now)));
    }
  }

  lemma ApproveOutcome(c: Setting, w: World, e: Event)
    requires e.Approve?
    ensures var next := OnApprove(c, w, e).0; Same(w, next) || exists u :: MovesOne(c, w, e, next, u)
  {
    FindHasId(w.verifications, e.id);
    var next := OnApprove(c, w, e).0;
    if !Same(w, next) {
      var v := GetVerification(w.verifications, e.id, e.tenant).value;
      assert MovesOne(c, w, e, next, Granted(v, e, c.score(w.store, v.subjectId, e.tenant).value));
    }
  }

  lemma RevokeOutcome(c: Setting, w: World, e: Event)
    requires e.Revoke?
    ensures var next := OnRevoke(w, e).0; Same(w, next) || exists u :: MovesOne(c, w, e, next, u)
  {
    FindHasId(w.verifications, e.id);
    var v := GetVerification(w.verifications, e.id, e.tenant);
    if v.Some? && v.value.status == Approved {
      assert MovesOne(c, w, e, OnRevoke(w, e).0, Withdrawn(v.value, e));
    }
  }

  ghost predicate Opens(w: World, e: Event, next: World, p: PacketStore.Row) {
    && e.Request? && LatestSigned(w.packets, e.tenant, e.subjectId) == Some(p)
    && FindVerification(w.verifications, e.id).None?
    && next.verifications == w.verifications + [Opened(e, p.id)]
    && next.trail == w.trail + [Entry(AuditRequested, e.id, Requested)]
  }

  lemma StepOutcome(c: Setting, w: World, e: Event)
    ensures var next := Step(c, w, e).0;
            Same(w, next) || (exists u :: MovesOne(c, w, e, next, u)) || exists p :: Opens(w, e, next, p)
  {
    match e
    case Request(id, tenant, subject, _, _, _) =>
      var next := Step(c, w, e).0;
      if !Same(w, next) {
        assert Opens(w, e, next, LatestSigned(w.packets, tenant, subject).value);
      }
    case Review(_, _, _, _, _) => ReviewOutcome(c, w, e);
    case Approve(_, _, _, _, _) => ApproveOutcome(c, w, e);
    case Revoke(_, _, _, _, _) => RevokeOutcome(c, w, e);
    case _ =>
  }

  ghost predicate RowMoves(c: Setting, w: World, e: Event, next: World, v: Verification, u: Verification) {
    && Moves(c, w, e, v, u) && u.id == v.id
    && TrailOf(next.trail, v.id) == TrailOf(w.trail, v.id) + [Entry(ActionOf(e), v.id, u.status)]
  }

  // A stored verification changes only by a move of its own, and each move is audited once.
  lemma StepMoves(c: Setting, w: World, e: Event, id: string)
    requires FindVerification(w.verifications, id).Some?
    ensures var v := FindVerification(w.verifications, id).value;
            var next := Step(c, w, e).0;
            var u := FindVerification(next.verifications, id);
            && u.Some?
            && ((u.value == v && TrailOf(next.trail, id) == TrailOf(w.trail, id)) ||
                RowMoves(c, w, e, next, v, u.value))
  {
    StepOutcome(c, w, e);
    FindHasId(w.verifications, id);
    var next := Step(c, w, e).0;
    if u :| MovesOne(c, w, e, next, u) {
      FindSet(w.verifications, u, id);
      TrailAppend(w.trail, Entry(ActionOf(e), u.id, u.status), id);
    } else if p :| Opens(w, e, next, p) {
      FindAppend(w.verifications, Opened(e, p.id), id);
      TrailAppend(w.trail, Entry(AuditRequested, e.id, Requested), id);
    }
  }

  // The only new verification is the one a request opens, and it is audited once.
  lemma StepOpens(c: Setting, w: World, e: Event, id: string)
    requires FindVerification(w.verifications, id).None?
    ensures var next := Step(c, w, e).0;
            var u := FindVerification(next.verifications, id);
            if u.None? then TrailOf(next.trail, id) == TrailOf(w.trail, id)
            else
              && e.Request? && e.id == id
              && (var p := LatestSigned(w.packets, e.tenant, e.subjectId); p.Some? && u.value == Opened(e, p.value.id))
              && TrailOf(next.trail, id) == TrailOf(w.trail, id) + [Entry(AuditRequested, id, Requested)]
  {
    StepOutcome(c, w, e);
    var next := Step(c, w, e).0;
    if u :| MovesOne(c, w, e, next, u) {
      FindSet(w.verifications, u, id);
      TrailAppend(w.trail, Entry(ActionOf(e), u.id, u.status), id);
    } else if p :| Opens(w, e, next, p) {
      FindAppend(w.verifications, Opened(e, p.id), id);
      TrailAppend(w.trail, Entry(AuditRequested, e.id, Requested), id);
    }
  }
}
