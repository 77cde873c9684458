// What each call of the policy registry does, row by row: whom it is refused to, which rows it
// changes and how, and that it never reaches another tenant's rows.
module PolicyCalls {
  import opened Prelude
  import opened PolicyRegistry
  import opened PolicyRuns

  predicate Switches(e: Event) {
    e.Activate? || e.RollbackTo?
  }

  // The row is the caller's: its tenant's, or anyone's for the operator.
  predicate IsTarget(e: Event, p: Policy)
    requires Switches(e)
  {
    p.id == e.id && (e.scope == None || p.tenant == e.scope)
  }

  ghost predicate HasTarget(rows: seq<Policy>, e: Event)
    requires Switches(e)
  {
    exists k :: 0 <= k < |rows| && IsTarget(e, rows[k])
  }

  lemma TargetFound(rows: seq<Policy>, e: Event)
    requires UniqueIds(rows) && Switches(e)
    ensures var p := GetVersion(rows, e.id, e.scope);
            if p.Some? then p.value in rows && IsTarget(e, p.value) else !HasTarget(rows, e)
  {
    FindMeans(rows, e.id);
    if k :| 0 <= k < |rows| && IsTarget(e, rows[k]) {
      var p := Find(rows, e.id).value;
      var i :| 0 <= i < |rows| && rows[i] == p;
      assert i == k;
    }
  }

  // Activating or rolling back is refused, as not found, exactly if the caller has no version of
  // that id, and changes nothing then.
  lemma SwitchRefusedIff(rows: seq<Policy>, e: Event)
    requires UniqueIds(rows) && Switches(e)
    ensures Step(rows, e).1 == (if HasTarget(rows, e) then None else Some(VersionNotFound))
    ensures Step(rows, e).1.Some? ==> Step(rows, e).0 == rows
  {
    TargetFound(rows, e);
  }

  // A tenant that names another tenant's version, or the system's, gets not found; and whatever
  // it names, every row that is not its own stays exactly as it is.
  lemma SwitchStaysInTenant(rows: seq<Policy>, e: Event, t: string, i: nat)
    requires UniqueIds(rows) && Switches(e) && e.scope == Some(t)
    requires i < |rows| && rows[i].tenant != Some(t)
    ensures rows[i].id == e.id ==> Step(rows, e) == (rows, Some(VersionNotFound))
    ensures |Step(rows, e).0| == |rows| && Step(rows, e).0[i] == rows[i]
  {
    TargetFound(rows, e);
    FindMeans(rows, e.id);
    if GetVersion(rows, e.id, e.scope).Some? {
      var k :| 0 <= k < |rows| && rows[k] == GetVersion(rows, e.id, e.scope).value;
      assert rows[i].id == e.id ==> i == k;
    }
  }

  // What activating or rolling back to the k-th row makes of every row: that one is active from
  // now on and without an end, an active one of its tenant and name ends now, no other changes.
  lemma SwitchOutcome(rows: seq<Policy>, e: Event, k: nat, i: nat)
    requires UniqueIds(rows) && Switches(e)
    requires k < |rows| && IsTarget(e, rows[k]) && i < |rows|
    ensures |Step(rows, e).0| == |rows|
    ensures var (r, next) := (rows[i], Step(rows, e).0[i]);
            if i == k then
              next == Policy(r.id, r.tenant, r.name, r.version, Active, true, Some(e.now), None,
                             if e.approvedBy == None || e.approvedBy == Some("") then r.approvedBy else e.approvedBy)
            else if r.status == Active && r.tenant == rows[k].tenant && r.name == rows[k].name then
              next == Policy(r.id, r.tenant, r.name, r.version, Superseded, false, r.effectiveFrom, Some(e.now),
                             r.approvedBy)
            else next == r
  {
    TargetFound(rows, e);
    var p := GetVersion(rows, e.id, e.scope).value;
    var j :| 0 <= j < |rows| && rows[j] == p;
    assert j == k;
    assert i != k ==> rows[i].id != rows[k].id;
  }

  // A new version is a draft that nothing is bound to yet; it is refused exactly if its key is
  // taken, or, for a tenant, its name and version are.
  lemma CreateOutcome(rows: seq<Policy>, e: Event)
    requires e.Create?
    ensures var (next, error) := Step(rows, e);
            && (error == None || error == Some(DuplicateKey))
            && (error.Some? <==>
                exists i :: 0 <= i < |rows| &&
                  (rows[i].id == e.id ||
                   (e.tenant != None &&
                    (rows[i].tenant, rows[i].name, rows[i].version) == (e.tenant, e.name, e.version))))
            && next == if error.Some? then rows
                       else rows + [Policy(e.id, e.tenant, e.name, e.version, Draft, false, None, None, None)]
  {
  }

  // Seeding touches no row but the system's v1: a first one is inserted active, an inactive one
  // becomes active again with its dates kept, two are an error.
  lemma SeedOutcome(rows: seq<Policy>, id: string, now: int, i: nat)
    requires i < |rows|
    ensures var (next, error) := Step(rows, Seed(id, now)); var r := rows[i];
            && |rows| <= |next| <= |rows| + 1
            && (if error.None? && r.tenant == None && r.name == "ai_vendor_governance" && r.version == "v1" then
                  next[i] == (if r.status == Active then r
                              else Policy(r.id, r.tenant, r.name, r.version, Active, true,
                                          if r.effectiveFrom == None then Some(now) else r.effectiveFrom,
                                          r.effectiveTo, r.approvedBy))
                else next[i] == r)
            && (|next| > |rows| ==>
                  && next[|rows|] == Policy(id, None, "ai_vendor_governance", "v1", Active, true, Some(now), None, None)
                  && !IsSystemV1(r) && r.id != id)
  {
    SystemV1Found(rows);
  }

  lemma {:induction false} TwoSystemV1(rows: seq<Policy>)
    requires |SystemV1(rows)| > 1
    ensures exists i, j :: 0 <= i < j < |rows| && IsSystemV1(rows[i]) && IsSystemV1(rows[j])
  {
    var n := |rows| - 1;
    if |SystemV1(rows[..n])| > 1 {
      TwoSystemV1(rows[..n]);
      var i, j :| 0 <= i < j < n && IsSystemV1(rows[..n][i]) && IsSystemV1(rows[..n][j]);
      assert IsSystemV1(rows[i]) && IsSystemV1(rows[j]);
    } else {
      FilterSound((p: Policy) => IsSystemV1(p), rows[..n]);
      var p := SystemV1(rows[..n])[0];
      var i :| 0 <= i < n && rows[..n][i] == p;
      assert IsSystemV1(rows[i]) && IsSystemV1(rows[n]);
    }
  }

  // Seeding fails exactly on two v1 rows of the system, or on a taken key, and inserts a row
  // exactly when there is no v1 yet.
  lemma SeedAnswers(rows: seq<Policy>, id: string, now: int)
    ensures var (next, error) := Step(rows, Seed(id, now));
            var none := forall i :: 0 <= i < |rows| ==> !IsSystemV1(rows[i]);
            var taken := exists i :: 0 <= i < |rows| && rows[i].id == id;
            && (error == Some(MultipleResults) <==>
                exists i, j :: 0 <= i < j < |rows| && IsSystemV1(rows[i]) && IsSystemV1(rows[j]))
            && (error == Some(DuplicateKey) <==> none && taken)
            && (|next| == |rows| + 1 <==> none && !taken)
            && (error.Some? ==> next == rows)
  {
    SystemV1Found(rows);
    if |SystemV1(rows)| > 1 {
      TwoSystemV1(rows);
    }
    if i, j :| 0 <= i < j < |rows| && IsSystemV1(rows[i]) && IsSystemV1(rows[j]) {
      SystemV1Alone(rows, i, j);
    }
  }
}
