// What every dimension of the trust score earns, full marks or not, counted on the packet.
module ScorePoints {
  import opened Prelude
  import opened EvidencePacket
  import opened TrustScore
  import AuditLog

  lemma {:induction false} CountIsKept<T>(keep: T -> bool, xs: seq<T>)
    ensures Count(keep, xs) == |Filter(keep, xs)|
  {
    if xs != [] {
      CountIsKept(keep, xs[..|xs| - 1]);
    }
  }

  // e is the whole number of points nearest to the share `part` of `whole` in m points, the even
  // one of two as near; nothing for nothing.
  predicate IsShare(m: nat, part: nat, whole: nat, e: nat) {
    if part == 0 then e == 0
    else
      var error := 2 * (m * part) - 2 * (e * whole);
      0 - whole <= error <= whole && (error == whole || error == 0 - whole ==> e % 2 == 0)
  }

  lemma ShareIsNearest(d: Dimension, part: nat, whole: nat)
    requires part <= whole
    ensures IsShare(MaxPoints(d), part, whole, Share(d, part, whole))
  {
    if part > 0 {
      RoundIsNearest(MaxPoints(d) * part, whole);
    }
  }

  // Approvals earn their approved share of 12 points, decisions the share of 7 that is bound to
  // a policy version.
  lemma SharesEarned(p: Packet, env: AppEnv)
    ensures var c := p.content;
            && IsShare(12, |Filter((a: ApprovalItem) => a.status == "approved", c.approvals)|, |c.approvals|,
                       Earned(ApprovalCoverage, p, env))
            && IsShare(7, |Filter((d: DecisionItem) => d.versionId != None && d.versionId != Some(""), c.decisions)|,
                       |c.decisions|, Earned(PolicyEnforcement, p, env))
  {
    var c := p.content;
    CountIsKept((a: ApprovalItem) => a.status == "approved", c.approvals);
    CountIsKept((d: DecisionItem) => Truthy(d.versionId), c.decisions);
    FilterMap((d: DecisionItem) => d, (d: DecisionItem) => d.versionId != None && d.versionId != Some(""),
              (d: DecisionItem) => Truthy(d.versionId), c.decisions);
    assert Map((d: DecisionItem) => d, c.decisions) == c.decisions;
    ShareIsNearest(ApprovalCoverage, ApprovedCount(c), |c.approvals|);
    ShareIsNearest(PolicyEnforcement, BoundCount(c), |c.decisions|);
  }

  // Seven others: all or nothing, a half outside production and for recorded overrides, and
  // four points lost per gap.
  lemma PointsEarned(p: Packet, env: AppEnv)
    ensures var c, v := p.content, p.verification.status;
            && Earned(AuditIntegrity, p, env) == (if v == AuditLog.Verified then 15 else 0)
            && Earned(ControlCoverage, p, env) == (if |c.controls| > 0 then 12 else 0)
            && Earned(RegulatoryMapping, p, env) == (if |c.regulations| > 0 then 10 else 0)
            && Earned(RbacEnforcement, p, env) == (if env == Demo then 5 else 10)
            && Earned(TenantIsolation, p, env) == (if p.tenantId == None || p.tenantId == Some("") then 0 else 8)
            && Earned(IncidentHistory, p, env) ==
               (if v == AuditLog.Failed then 0 else if |c.overrides| > 0 then 4 else 7)
            && Earned(EvidenceCompleteness, p, env) ==
               (match |c.gaps| case 0 => 12 case 1 => 8 case 2 => 4 case _ => 0)
  {
    assert p.content.gaps != {} ==> |p.content.gaps| > 0;
  }

  ghost predicate Ends(text: string, part: string) {
    exists before :: text == before + part
  }

  ghost predicate Says(text: string, part: string) {
    exists k :: 0 <= k <= |text| && part <= text[k..]
  }

  lemma EndsMeans(text: string, part: string)
    ensures EndsWith(text, part) <==> Ends(text, part)
  {
    if EndsWith(text, part) {
      assert text == text[..|text| - |part|] + part;
    }
  }

  lemma SubmitsMeans(c: Content)
    ensures Submits(c) <==> exists i :: 0 <= i < |c.events| && Ends(c.events[i].action, "submitted")
  {
    forall i | 0 <= i < |c.events|
      ensures EndsWith(c.events[i].action, "submitted") <==> Ends(c.events[i].action, "submitted")
    {
      EndsMeans(c.events[i].action, "submitted");
    }
  }

  lemma DecidesMeans(c: Content)
    ensures Decides(c) <==> exists i :: 0 <= i < |c.events| && Says(c.events[i].action, "approv")
  {
    forall i | 0 <= i < |c.events|
      ensures Contains(c.events[i].action, "approv") <==> Says(c.events[i].action, "approv")
    {
      ContainsMeans(c.events[i].action, "approv");
    }
  }

  // The trace earns three points for a submission event and four for one that speaks of approval.
  lemma TraceEarned(p: Packet, env: AppEnv)
    ensures var events := p.content.events;
            var submitted := exists i :: 0 <= i < |events| && Ends(events[i].action, "submitted");
            var decided := exists i :: 0 <= i < |events| && Says(events[i].action, "approv");
            Earned(ExecutionTraceability, p, env) == (if submitted then 3 else 0) + if decided then 4 else 0
  {
    SubmitsMeans(p.content);
    DecidesMeans(p.content);
  }

  // The bands, from their lower bounds.
  lemma BandMeans(score: int)
    ensures BandFor(score) == Verified <==> score >= 90
    ensures BandFor(score) == Strong <==> 75 <= score < 90
    ensures BandFor(score) == Moderate <==> 60 <= score < 75
    ensures BandFor(score) == Weak <==> 40 <= score < 60
    ensures BandFor(score) == HighRisk <==> score < 40
  {
  }
}
