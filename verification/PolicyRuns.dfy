// What runs of the policy registry keep: one active version per (tenant, name), what
// get_active returns, rollback, and the registration of what a binding names.
module PolicyRuns {
  import opened Prelude
  import opened PolicyRegistry

  // ---- Seeding ----

  lemma SystemV1Alone(rows: seq<Policy>, i: nat, j: nat)
    requires i < j < |rows| && IsSystemV1(rows[i]) && IsSystemV1(rows[j])
    ensures |SystemV1(rows)| > 1
    decreases |rows|
  {
    var n := |rows| - 1;
    if j < n {
      SystemV1Alone(rows[..n], i, j);
    } else {
      FilterComplete((p: Policy) => IsSystemV1(p), rows[..n], i);
      assert SystemV1(rows) == SystemV1(rows[..n]) + [rows[n]];
    }
  }

  lemma SystemV1Found(rows: seq<Policy>)
    ensures SystemV1(rows) == [] <==> forall i :: 0 <= i < |rows| ==> !IsSystemV1(rows[i])
  {
    var keep := (p: Policy) => IsSystemV1(p);
    forall i | 0 <= i < |rows| && IsSystemV1(rows[i]) ensures SystemV1(rows) != [] {
      FilterComplete(keep, rows, i);
    }
    FilterSound(keep, rows);
    if SystemV1(rows) != [] {
      assert SystemV1(rows)[0] in rows;
    }
  }

  lemma InsertSeed(rows: seq<Policy>, id: string, now: int)
    requires Inv(rows) && SystemV1(rows) == [] && !Clashes(rows, FirstSeed(id, now))
    ensures Inv(rows + [FirstSeed(id, now)]) <==> SeedIsSafe(rows)
  {
    var seed := FirstSeed(id, now);
    var next := rows + [seed];
    var n := |rows|;
    SystemV1Found(rows);
    if SeedIsSafe(rows) {
      forall i | 0 <= i < n && SameKey(next[i], seed) ensures next[i].status != Active {
        assert !IsSystemV1(rows[i]);
        assert !IsActiveOf(rows[i], None, DEFAULT_NAME);
      }
    } else {
      var i :| 0 <= i < n && IsActiveOf(rows[i], None, DEFAULT_NAME) && !IsSystemV1(rows[i]);
      assert next[i].status == Active && SameKey(next[i], next[n]);
      assert !OneActive(next);
    }
  }

  lemma ReviveSeed(rows: seq<Policy>, now: int, k: nat)
    requires Inv(rows) && k < |rows| && IsSystemV1(rows[k]) && |SystemV1(rows)| == 1
    ensures var next := Map((p: Policy) => if IsSystemV1(p) then Reseeded(p, now) else p, rows);
            Inv(next) <==> SeedIsSafe(rows)
  {
    var next := Map((p: Policy) => if IsSystemV1(p) then Reseeded(p, now) else p, rows);
    forall i | 0 <= i < |rows| && IsSystemV1(rows[i]) ensures i == k {
      if i < k {
        SystemV1Alone(rows, i, k);
      } else if k < i {
        SystemV1Alone(rows, k, i);
      }
    }
    if Inv(next) {
      forall i | 0 <= i < |rows| && IsActiveOf(rows[i], None, DEFAULT_NAME) ensures IsSystemV1(rows[i]) {
        assert i < k ==> SameKey(next[i], next[k]);
        assert k < i ==> SameKey(next[k], next[i]);
      }
    }
    if SeedIsSafe(rows) {
      forall i, j | 0 <= i < j < |rows| && SameKey(next[i], next[j])
        ensures !(next[i].status == Active && next[j].status == Active)
      {
        assert SameKey(rows[i], rows[j]);
        assert IsActiveOf(rows[i], None, DEFAULT_NAME) ==> IsSystemV1(rows[i]);
        assert IsActiveOf(rows[j], None, DEFAULT_NAME) ==> IsSystemV1(rows[j]);
      }
    }
  }

  // Seeding, which every application start does, keeps one active version per (tenant, name)
  // exactly when no system default other than v1 is active; a refused seeding changes nothing.
  lemma SeedKeepsInvIff(rows: seq<Policy>, id: string, now: int)
    requires Inv(rows)
    ensures var (next, error) := Seeded(rows, id, now);
            if error.Some? then next == rows else Inv(next) <==> SeedIsSafe(rows)
  {
    var existing := SystemV1(rows);
    if existing == [] && !Clashes(rows, FirstSeed(id, now)) {
      InsertSeed(rows, id, now);
    } else if |existing| == 1 {
      FilterSound((p: Policy) => IsSystemV1(p), rows);
      assert existing[0] in rows;
      var k :| 0 <= k < |rows| && rows[k] == existing[0];
      ReviveSeed(rows, now, k);
    }
  }

  const PUBLISH := Create("b", None, DEFAULT_NAME, "v2")

  // The registry after a first start and the publication of a system version v2.
  function Published(now: int): seq<Policy> {
    [Retired(FirstSeed("a", now), now), Made(NewDraft(PUBLISH), None, now)]
  }

  lemma PublishedIsReached(now: int)
    ensures Run([], [Seed("a", now), PUBLISH, Activate("b", None, None, now)]) == Published(now)
  {
    var seed, activate := Seed("a", now), Activate("b", None, None, now);
    var v1, draft := FirstSeed("a", now), NewDraft(PUBLISH);
    var w1, w2 := [v1], [v1, draft];
    assert [] + [v1] == [v1] && [v1] + [draft] == [v1, draft];
    assert Seeded([], "a", now) == Add([], v1) == (w1, None);
    assert "a"[0] != "b"[0];
    assert Add(w1, draft) == (w2, None);
    assert [v1, draft][..1] == [v1];
    assert Find(w2, "b") == Some(draft);
    assert Map((r: Policy) => Switch(draft, None, now, r), w2) == Published(now);
    var es := [seed, PUBLISH, activate];
    assert es[..2] == [seed, PUBLISH] && es[..2][..1] == [seed] && [seed][..0] == [];
    assert Run([], [seed]) == w1;
    assert Run([], es[..2]) == w2;
  }

  lemma FilterPair(keep: Policy -> bool, p: Policy, q: Policy)
    ensures Filter(keep, [p, q]) == (if keep(p) then [p] else []) + (if keep(q) then [q] else [])
  {
    assert [p, q][..1] == [p] && [p][..0] == [];
    assert Filter(keep, [p]) == if keep(p) then [p] else [];
  }

  // Why the condition is needed: start, publish and activate a system v2, start again. Both
  // versions are then active and get_active goes back to v1.
  lemma RestartUndoesActivation(now: int)
    ensures var published := Run([], [Seed("a", now), PUBLISH, Activate("b", None, None, now)]);
            var restarted := Seeded(published, "c", now).0;
            && |published| == 2 && |restarted| == 2 && !OneActive(restarted)
            && GetActive(published, None, DEFAULT_NAME) == Some(published[1])
            && GetActive(restarted, None, DEFAULT_NAME) == Some(restarted[0])
            && published[1].version == "v2" && restarted[0].version == "v1"
  {
    PublishedIsReached(now);
    var r1, r2 := Retired(FirstSeed("a", now), now), Made(NewDraft(PUBLISH), None, now);
    var again := Reseeded(r1, now);
    assert r2.version[1] == '2' && r1.version[1] == '1';
    FilterPair((p: Policy) => IsSystemV1(p), r1, r2);
    FilterPair((p: Policy) => IsActiveOf(p, None, DEFAULT_NAME), r1, r2);
    FilterPair((p: Policy) => IsActiveOf(p, None, DEFAULT_NAME), again, r2);
    assert SystemV1([r1, r2]) == [r1];
    var restarted := Seeded(Published(now), "c", now).0;
    assert restarted == [again, r2];
    assert SameKey(restarted[0], restarted[1]) && restarted[0].status == Active && restarted[1].status == Active;
  }

  // ---- Runs ----

  lemma CreateKeepsInv(rows: seq<Policy>, e: Event)
    requires Inv(rows) && e.Create?
    ensures Inv(Step(rows, e).0)
  {
  }

  // Every start of the application found the registry safe to seed.
  ghost predicate SeedsSafely(es: seq<Event>) {
    forall i :: 0 <= i < |es| && es[i].Seed? ==> SeedIsSafe(Run([], es[..i]))
  }

  // Over all runs of create, activate and rollback, with seeding only while no other
  // system default is active: at most one active version per (tenant, name), is_active in step
  // with the status, and an end date on every superseded row.
  lemma {:induction false} RunKeepsInv(es: seq<Event>)
    requires SeedsSafely(es)
    ensures Inv(Run([], es))
  {
    if es != [] {
      var n := |es| - 1;
      var e := es[n];
      var before := Run([], es[..n]);
      assert SeedsSafely(es[..n]) by {
        forall i | 0 <= i < n && es[..n][i].Seed? ensures SeedIsSafe(Run([], es[..n][..i])) {
          assert es[..n][..i] == es[..i] && es[i].Seed?;
        }
      }
      RunKeepsInv(es[..n]);
      match e
      case Create(_, _, _, _) => CreateKeepsInv(before, e);
      case Activate(id, scope, approver, now) => ActivateKeepsInv(before, id, scope, approver, now);
      case RollbackTo(id, scope, approver, now) => ActivateKeepsInv(before, id, scope, approver, now);
      case Seed(id, now) => SeedKeepsInvIff(before, id, now);
    }
  }

  // ---- get_active ----

  lemma ActiveVersionsMeans(rows: seq<Policy>, tenant: Option<string>, name: string, p: Policy)
    requires Inv(rows)
    ensures p in ActiveVersions(rows, tenant, name) <==> p in rows && IsActiveOf(p, tenant, name)
    ensures var active := ActiveVersions(rows, tenant, name);
            active != [] && p in rows && IsActiveOf(p, tenant, name) ==> active[0] == p
  {
    var keep := (q: Policy) => IsActiveOf(q, tenant, name);
    FilterSound(keep, rows);
    if p in rows && IsActiveOf(p, tenant, name) {
      var i :| 0 <= i < |rows| && rows[i] == p;
      FilterComplete(keep, rows, i);
      var active := ActiveVersions(rows, tenant, name);
      assert active[0] in rows;
      var j :| 0 <= j < |rows| && rows[j] == active[0];
    }
  }

  // get_active returns exactly the tenant's one active version, or, when the tenant has none,
  // the system's.
  lemma GetActiveMeans(rows: seq<Policy>, tenant: Option<string>, name: string, p: Policy)
    requires Inv(rows)
    ensures GetActive(rows, tenant, name) == Some(p) <==>
            && p in rows
            && (IsActiveOf(p, tenant, name) ||
                (IsActiveOf(p, None, name) && forall q :: q in rows ==> !IsActiveOf(q, tenant, name)))
  {
    ActiveVersionsMeans(rows, tenant, name, p);
    ActiveVersionsMeans(rows, None, name, p);
    var own, system := ActiveVersions(rows, tenant, name), ActiveVersions(rows, None, name);
    if own != [] {
      ActiveVersionsMeans(rows, tenant, name, own[0]);
    }
    if system != [] {
      ActiveVersionsMeans(rows, None, name, system[0]);
    }
    if q :| q in rows && IsActiveOf(q, tenant, name) {
      ActiveVersionsMeans(rows, tenant, name, q);
    }
  }

  // ---- Activation and rollback ----

  // Activating a version makes it the one its tenant gets, and leaves every other (tenant, name)
  // as it was.
  lemma ActivateSelects(rows: seq<Policy>, id: string, scope: Option<string>, approvedBy: Option<string>, now: int)
    requires Inv(rows) && GetVersion(rows, id, scope).Some?
    ensures var pol := GetVersion(rows, id, scope).value;
            var next := Activated(rows, id, scope, approvedBy, now).0;
            && GetActive(next, pol.tenant, pol.name) == Some(Made(pol, approvedBy, now))
            && |next| == |rows|
            && forall i :: 0 <= i < |rows| && !SameKey(rows[i], pol) ==> next[i] == rows[i]
  {
    FindMeans(rows, id);
    var pol := GetVersion(rows, id, scope).value;
    var next := Activated(rows, id, scope, approvedBy, now).0;
    var k :| 0 <= k < |rows| && rows[k] == pol;
    assert next[k] == Made(pol, approvedBy, now);
    ActivateKeepsInv(rows, id, scope, approvedBy, now);
    GetActiveMeans(next, pol.tenant, pol.name, Made(pol, approvedBy, now));
    forall i | 0 <= i < |rows| && !SameKey(rows[i], pol) ensures next[i] == rows[i] {
      assert rows[i].id == pol.id ==> i == k;
    }
  }

  lemma {:induction false} FindSwitched(rows: seq<Policy>, pol: Policy, approvedBy: Option<string>, now: int,
                                        id: string)
    ensures Find(Map((r: Policy) => Switch(pol, approvedBy, now, r), rows), id) ==
            var p := Find(rows, id); if p.Some? then Some(Switch(pol, approvedBy, now, p.value)) else None
  {
    if rows != [] {
      var f := (r: Policy) => Switch(pol, approvedBy, now, r);
      assert Map(f, rows)[..|rows| - 1] == Map(f, rows[..|rows| - 1]);
      FindSwitched(rows[..|rows| - 1], pol, approvedBy, now, id);
    }
  }

  // Activating a version leaves every other one findable under the same key and label.
  lemma StillFound(rows: seq<Policy>, id: string, next: string, scope: Option<string>, approvedBy: Option<string>,
                   now: int)
    requires GetVersion(rows, id, scope).Some?
    ensures var found := GetVersion(Activated(rows, next, scope, approvedBy, now).0, id, scope);
            found.Some? && Identity(GetVersion(rows, id, scope).value, found.value)
  {
    var pol := GetVersion(rows, next, scope);
    if pol.Some? {
      FindSwitched(rows, pol.value, approvedBy, now, id);
    }
  }

  // Rolling back: after any other version was activated, activating the previous one again
  // makes get_active return that previous version, at its new date.
  lemma RollbackRestores(rows: seq<Policy>, previous: string, next: string, scope: Option<string>,
                         approvedBy: Option<string>, first: int, now: int)
    requires Inv(rows) && GetVersion(rows, previous, scope).Some?
    ensures var before := GetVersion(rows, previous, scope).value;
            var published := Step(rows, Activate(next, scope, approvedBy, first)).0;
            var (back, error) := Step(published, RollbackTo(previous, scope, approvedBy, now));
            && error.None?
            && var active := GetActive(back, before.tenant, before.name);
               active.Some? && active.value.id == previous && active.value.version == before.version &&
               active.value.effectiveFrom == Some(now)
  {
    FindMeans(rows, previous);
    StillFound(rows, previous, next, scope, approvedBy, first);
    ActivateKeepsInv(rows, next, scope, approvedBy, first);
    ActivateSelects(Activated(rows, next, scope, approvedBy, first).0, previous, scope, approvedBy, now);
  }

  // ---- What bindings name ----

  // A binding made for a tenant names a registered version by its id and label, of that tenant
  // or of the system, or no version with the pilot label.
  ghost predicate Registered(rows: seq<Policy>, tenant: Option<string>, b: Binding) {
    if b.versionId.None? then b.versionText == "pilot-v1"
    else exists p :: p in rows && p.id == b.versionId.value && p.version == b.versionText && p.name == DEFAULT_NAME &&
                     (p.tenant == tenant || p.tenant.None?)
  }

  predicate Identity(p: Policy, q: Policy) {
    (p.id, p.tenant, p.name, p.version) == (q.id, q.tenant, q.name, q.version)
  }

  lemma RegisteredStays(rows: seq<Policy>, e: Event, tenant: Option<string>, b: Binding)
    requires Registered(rows, tenant, b)
    ensures Registered(Step(rows, e).0, tenant, b)
  {
    if b.versionId.Some? {
      var p :| p in rows && p.id == b.versionId.value && p.version == b.versionText && p.name == DEFAULT_NAME &&
               (p.tenant == tenant || p.tenant.None?);
      var i :| 0 <= i < |rows| && rows[i] == p;
      assert Step(rows, e).0[i] in Step(rows, e).0;
    }
  }

  lemma InEffectIsRegistered(rows: seq<Policy>, tenant: Option<string>)
    ensures Registered(rows, tenant, InEffect(rows, tenant))
  {
    FilterSound((p: Policy) => IsActiveOf(p, tenant, DEFAULT_NAME), rows);
    FilterSound((p: Policy) => IsActiveOf(p, None, DEFAULT_NAME), rows);
  }

  // A binding names a registered version exactly when that version is the tenant's active one,
  // or the system's where the tenant has none.
  lemma InEffectMeans(rows: seq<Policy>, tenant: Option<string>, p: Policy)
    requires Inv(rows) && p in rows
    ensures InEffect(rows, tenant).versionId == Some(p.id) <==>
            || IsActiveOf(p, tenant, DEFAULT_NAME)
            || (IsActiveOf(p, None, DEFAULT_NAME) && forall q :: q in rows ==> !IsActiveOf(q, tenant, DEFAULT_NAME))
  {
    GetActiveMeans(rows, tenant, DEFAULT_NAME, p);
    var active := GetActive(rows, tenant, DEFAULT_NAME);
    if active.Some? {
      GetActiveMeans(rows, tenant, DEFAULT_NAME, active.value);
    }
  }
}
