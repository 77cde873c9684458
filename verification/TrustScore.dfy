// services/trust_score_service.py: the ten scored dimensions of an evidence packet, their
// sum, and the versioned rows it is stored in.
module TrustScore {
  import opened Prelude
  import opened EvidencePacket
  import AuditLog

  datatype AppEnv = Demo | Staging | Production

  datatype Band = Verified | Strong | Moderate | Weak | HighRisk

  datatype Dimension =
    | AuditIntegrity | ApprovalCoverage | ControlCoverage | EvidenceCompleteness | RegulatoryMapping
    | RbacEnforcement | TenantIsolation | IncidentHistory | PolicyEnforcement | ExecutionTraceability

  const DIMENSIONS := [
    AuditIntegrity, ApprovalCoverage, ControlCoverage, EvidenceCompleteness, RegulatoryMapping,
    RbacEnforcement, TenantIsolation, IncidentHistory, PolicyEnforcement, ExecutionTraceability ]

  function MaxPoints(d: Dimension): nat {
    match d
    case AuditIntegrity => 15
    case ApprovalCoverage | ControlCoverage | EvidenceCompleteness => 12
    case RegulatoryMapping | RbacEnforcement => 10
    case TenantIsolation => 8
    case IncidentHistory | PolicyEnforcement | ExecutionTraceability => 7
  }

  // Python's round(num / den): to the nearest integer, a tie to the even one.
  function Round(num: nat, den: nat): nat
    requires den > 0
  {
    var q, r := num / den, num % den;
    if 2 * r < den || (2 * r == den && q % 2 == 0) then q else q + 1
  }

  function Count<T>(keep: T -> bool, xs: seq<T>): (n: nat)
    ensures n <= |xs|
  {
    if xs == [] then 0 else Count(keep, xs[..|xs| - 1]) + if keep(xs[|xs| - 1]) then 1 else 0
  }

  predicate EndsWith(text: string, part: string) {
    |part| <= |text| && text[|text| - |part|..] == part
  }

  function ApprovedCount(c: Content): nat {
    Count((a: ApprovalItem) => a.status == "approved", c.approvals)
  }

  function BoundCount(c: Content): nat {
    Count((d: DecisionItem) => Truthy(d.versionId), c.decisions)
  }

  predicate Submits(c: Content) {
    exists e :: e in c.events && EndsWith(e.action, "submitted")
  }

  predicate Decides(c: Content) {
    exists e :: e in c.events && Contains(e.action, "approv")
  }

  // The share of `part` in `whole` of the dimension's points: all of them only on the branch
  // for a complete share, and rounded otherwise.
  function Share(d: Dimension, part: nat, whole: nat): nat {
    if whole > 0 && part == whole then MaxPoints(d)
    else if part > 0 && whole > 0 then Round(MaxPoints(d) * part, whole)
    else 0
  }

  // The ten scorers.
  function Earned(d: Dimension, p: Packet, env: AppEnv): nat {
    var c := p.content;
    match d
    case AuditIntegrity => if p.verification.status == AuditLog.Verified then 15 else 0
    case ApprovalCoverage => Share(d, ApprovedCount(c), |c.approvals|)
    case ControlCoverage => if c.controls != [] then 12 else 0
    case EvidenceCompleteness =>
      if c.gaps == {} then 12 else 12 - (if 4 * |c.gaps| < 12 then 4 * |c.gaps| else 12)
    case RegulatoryMapping => if c.regulations != {} then 10 else 0
    case RbacEnforcement => if env != Demo then 10 else Round(10, 2)
    case TenantIsolation => if Truthy(p.tenantId) then 8 else 0
    case IncidentHistory =>
      if p.verification.status == AuditLog.Failed then 0
      else if c.overrides == [] then 7 else Round(7, 2)
    case PolicyEnforcement => Share(d, BoundCount(c), |c.decisions|)
    case ExecutionTraceability =>
      (if Submits(c) then 7 / 2 else 0) + (if Decides(c) then 7 - 7 / 2 else 0)
  }

  function Total(ds: seq<Dimension>, p: Packet, env: AppEnv): nat {
    if ds == [] then 0 else Total(ds[..|ds| - 1], p, env) + Earned(ds[|ds| - 1], p, env)
  }

  function MaxTotal(ds: seq<Dimension>): nat {
    if ds == [] then 0 else MaxTotal(ds[..|ds| - 1]) + MaxPoints(ds[|ds| - 1])
  }

  function Score(p: Packet, env: AppEnv): nat {
    Total(DIMENSIONS, p, env)
  }

  // ---- Bounds ----

  // How far num / den lies above its rounding, in units of 1 / (2 * den).
  function Excess(num: nat, den: nat): int
    requires den > 0
  {
    2 * num - 2 * (Round(num, den) * den)
  }

  lemma RoundIsNearest(num: nat, den: nat)
    requires den > 0
    ensures 0 - den <= Excess(num, den) <= den
    ensures Excess(num, den) == den || -Excess(num, den) == den ==> Round(num, den) % 2 == 0
  {
    var q, r := num / den, num % den;
    assert num == q * den + r;
    assert (q + 1) * den == q * den + den;
  }

  lemma ScaleLe(k: nat, a: int, b: int)
    requires a <= b
    ensures a * k <= b * k
  {
    assert (b - a) * k >= 0;
    assert (b - a) * k == b * k - a * k;
  }

  lemma RoundAtMost(num: nat, den: nat, m: int)
    requires den > 0
    ensures Round(num, den) > m ==> 2 * num >= 2 * (m * den) + den
    ensures Round(num, den) < m ==> 2 * num <= 2 * (m * den) - den
  {
    var r := Round(num, den);
    RoundIsNearest(num, den);
    if r > m {
      ScaleLe(den, m + 1, r);
      assert (m + 1) * den == m * den + den;
    } else if r < m {
      ScaleLe(den, r, m - 1);
      assert (m - 1) * den == m * den - den;
    }
  }

  // A rounded share of m points reaches m exactly when it misses m by less than half a point,
  // or by half a point where m is even.
  lemma FullShare(m: nat, part: nat, whole: nat)
    requires part <= whole && whole > 0
    ensures Round(m * part, whole) <= m
    ensures var missing := 2 * (m * whole) - 2 * (m * part);
            Round(m * part, whole) == m <==> missing < whole || (m % 2 == 0 && missing == whole)
  {
    var r, num, full := Round(m * part, whole), m * part, m * whole;
    ScaleLe(m, part, whole);
    RoundAtMost(num, whole, m);
    RoundIsNearest(num, whole);
    if r == m - 1 {
      assert (m - 1) * whole == full - whole;
    } else if r < m - 1 {
      RoundAtMost(num, whole, m - 1);
      assert (m - 1) * whole == full - whole;
    }
  }

  lemma RoundMonotone(a: nat, b: nat, den: nat)
    requires a <= b && den > 0
    ensures Round(a, den) <= Round(b, den)
  {
    var y := Round(b, den);
    RoundIsNearest(b, den);
    RoundAtMost(a, den, y);
    if a == b {
      assert Round(a, den) == y;
    }
  }

  // Every scorer stays between 0 and its dimension's maximum, for every packet.
  lemma EarnedInRange(d: Dimension, p: Packet, env: AppEnv)
    ensures Earned(d, p, env) <= MaxPoints(d)
  {
    var c := p.content;
    if d == ApprovalCoverage && c.approvals != [] {
      FullShare(12, ApprovedCount(c), |c.approvals|);
    } else if d == PolicyEnforcement && c.decisions != [] {
      FullShare(7, BoundCount(c), |c.decisions|);
    }
  }

  lemma {:induction false} TotalInRange(ds: seq<Dimension>, p: Packet, env: AppEnv)
    ensures Total(ds, p, env) <= MaxTotal(ds)
    ensures Total(ds, p, env) == MaxTotal(ds) <==> forall d :: d in ds ==> Earned(d, p, env) == MaxPoints(d)
  {
    if ds != [] {
      var n := |ds| - 1;
      TotalInRange(ds[..n], p, env);
      EarnedInRange(ds[n], p, env);
      assert ds == ds[..n] + [ds[n]];
    }
  }

  lemma MaxTotalStep(n: nat)
    requires n < 10
    ensures MaxTotal(DIMENSIONS[..n + 1]) == MaxTotal(DIMENSIONS[..n]) + MaxPoints(DIMENSIONS[n])
  {
    assert DIMENSIONS[..n + 1][..n] == DIMENSIONS[..n];
  }

  lemma MaximaSumTo100()
    ensures MaxTotal(DIMENSIONS) == 100
    ensures forall d: Dimension :: d in DIMENSIONS
  {
    for n := 0 to 10
      invariant MaxTotal(DIMENSIONS[..n]) == [0, 15, 27, 39, 51, 61, 71, 79, 86, 93, 100][n]
    {
      MaxTotalStep(n);
    }
    assert DIMENSIONS[..10] == DIMENSIONS;
    forall d: Dimension ensures d in DIMENSIONS {
      var i := match d
        case AuditIntegrity => 0 case ApprovalCoverage => 1 case ControlCoverage => 2 case EvidenceCompleteness => 3
        case RegulatoryMapping => 4 case RbacEnforcement => 5 case TenantIsolation => 6 case IncidentHistory => 7
        case PolicyEnforcement => 8 case ExecutionTraceability => 9;
      assert DIMENSIONS[i] == d;
    }
  }

  // What a packet must show for full marks.
  ghost predicate Flawless(p: Packet, env: AppEnv) {
    var c := p.content;
    && p.verification.status == AuditLog.Verified
    && c.approvals != [] && 24 * ApprovedCount(c) >= 23 * |c.approvals|
    && c.controls != [] && c.gaps == {} && c.regulations != {}
    && env != Demo && Truthy(p.tenantId) && c.overrides == []
    && c.decisions != [] && 14 * BoundCount(c) > 13 * |c.decisions|
    && Submits(c) && Decides(c)
  }

  lemma FullMarks(d: Dimension, p: Packet, env: AppEnv)
    ensures Flawless(p, env) ==> Earned(d, p, env) == MaxPoints(d)
    ensures Earned(d, p, env) == MaxPoints(d) ==>
            var c := p.content;
            match d
            case AuditIntegrity => p.verification.status == AuditLog.Verified
            case ApprovalCoverage => c.approvals != [] && 24 * ApprovedCount(c) >= 23 * |c.approvals|
            case ControlCoverage => c.controls != []
            case EvidenceCompleteness => c.gaps == {}
            case RegulatoryMapping => c.regulations != {}
            case RbacEnforcement => env != Demo
            case TenantIsolation => Truthy(p.tenantId)
            case IncidentHistory => c.overrides == []
            case PolicyEnforcement => c.decisions != [] && 14 * BoundCount(c) > 13 * |c.decisions|
            case ExecutionTraceability => Submits(c) && Decides(c)
  {
    var c := p.content;
    if d == ApprovalCoverage && c.approvals != [] {
      FullShare(12, ApprovedCount(c), |c.approvals|);
    } else if d == PolicyEnforcement && c.decisions != [] {
      FullShare(7, BoundCount(c), |c.decisions|);
    }
  }

  // The score is 0 to 100, so the clamp changes nothing, and it is 100 exactly for a flawless
  // packet: rounding lets 23 of 24 approvals pass for all of them, but not 13 of 14 bindings.
  lemma ScoreIs100Iff(p: Packet, env: AppEnv)
    ensures Score(p, env) <= 100
    ensures Score(p, env) == 100 <==> Flawless(p, env)
  {
    MaximaSumTo100();
    TotalInRange(DIMENSIONS, p, env);
    forall d: Dimension ensures Flawless(p, env) ==> Earned(d, p, env) == MaxPoints(d) {
      FullMarks(d, p, env);
    }
    if Score(p, env) == 100 {
      FullMarks(AuditIntegrity, p, env);
      FullMarks(ApprovalCoverage, p, env);
      FullMarks(ControlCoverage, p, env);
      FullMarks(EvidenceCompleteness, p, env);
      FullMarks(RegulatoryMapping, p, env);
      FullMarks(RbacEnforcement, p, env);
      FullMarks(TenantIsolation, p, env);
      FullMarks(IncidentHistory, p, env);
      FullMarks(PolicyEnforcement, p, env);
      FullMarks(ExecutionTraceability, p, env);
    }
  }

  // ---- score_packet ----

  function BandFor(score: int): Band {
    if score >= 90 then Verified
    else if score >= 75 then Strong
    else if score >= 60 then Moderate
    else if score >= 40 then Weak
    else HighRisk
  }

  // The source clamps the sum to 0..100; the contract shows the clamp never acts.
  method ScorePacket(p: Packet, env: AppEnv) returns (score: nat, band: Band, breakdown: seq<(Dimension, nat)>)
    ensures score == Score(p, env) <= 100
    ensures band == BandFor(score)
    ensures |breakdown| == 10
    ensures forall i :: 0 <= i < 10 ==> breakdown[i] == (DIMENSIONS[i], Earned(DIMENSIONS[i], p, env))
  {
    breakdown := [];
    var total: int := 0;
    for i := 0 to |DIMENSIONS|
      invariant |breakdown| == i
      invariant forall j :: 0 <= j < i ==> breakdown[j] == (DIMENSIONS[j], Earned(DIMENSIONS[j], p, env))
      invariant total == Total(DIMENSIONS[..i], p, env)
    {
      assert DIMENSIONS[..i + 1][..i] == DIMENSIONS[..i];
      var earned := Earned(DIMENSIONS[i], p, env);
      breakdown := breakdown + [(DIMENSIONS[i], earned)];
      total := total + earned;
    }
    assert DIMENSIONS[..|DIMENSIONS|] == DIMENSIONS;
    ScoreIs100Iff(p, env);
    if total > 100 {
      total := 100;
    }
    if total < 0 {
      total := 0;
    }
    score := total;
    band := BandFor(score);
  }
}
