// The policy registry as a class: the table of versions, changed in place.
module PolicyService {
  import opened Prelude
  import opened PolicyRegistry

  class Policies {
    var policies: seq<Policy>

    constructor ()
      ensures policies == []
    {
      policies := [];
    }

    // get_version: the newest row wins, as a position.
    method GetVersionAt(id: string, scope: Option<string>) returns (k: int)
      ensures -1 <= k < |policies|
      ensures GetVersion(policies, id, scope) == if k < 0 then None else Some(policies[k])
      ensures k >= 0 ==> policies[k].id == id
    {
      k := |policies| - 1;
      assert policies[..k + 1] == policies;
      while k >= 0 && policies[k].id != id
        invariant -1 <= k < |policies|
        invariant Find(policies, id) == Find(policies[..k + 1], id)
      {
        assert policies[..k + 1][..k] == policies[..k];
        k := k - 1;
      }
      if k >= 0 && scope.Some? && policies[k].tenant != scope {
        k := -1;
      }
    }

    // get_active.
    method ActivePolicy(tenant: Option<string>, name: string) returns (p: Option<Policy>)
      ensures p == GetActive(policies, tenant, name)
    {
      var own := FirstActive(tenant, name);
      if own.Some? {
        return own;
      }
      p := None;
      if tenant.Some? {
        p := FirstActive(None, name);
      }
    }

    method FirstActive(tenant: Option<string>, name: string) returns (p: Option<Policy>)
      ensures var active := ActiveVersions(policies, tenant, name);
              p == if active == [] then None else Some(active[0])
    {
      var keep := (q: Policy) => IsActiveOf(q, tenant, name);
      var i := 0;
      while i < |policies|
        invariant i <= |policies|
        invariant Filter(keep, policies[..i]) == []
      {
        assert policies[..i + 1][..i] == policies[..i];
        if keep(policies[i]) {
          assert policies == policies[..i + 1] + policies[i + 1..];
          FilterAppend(keep, policies[..i + 1], policies[i + 1..]);
          return Some(policies[i]);
        }
        i := i + 1;
      }
      assert policies[..|policies|] == policies;
      p := None;
    }

    method CreateVersion(e: Event) returns (error: Option<Error>)
      requires e.Create?
      modifies this
      ensures (policies, error) == Step(old(policies), e)
    {
      if Clashes(policies, NewDraft(e)) {
        return Some(DuplicateKey);
      }
      policies := policies + [NewDraft(e)];
      error := None;
    }

    // Supersede the other active versions of the key one by one, then make this one active.
    method Activate(id: string, scope: Option<string>, approvedBy: Option<string>, now: int)
        returns (error: Option<Error>)
      requires UniqueIds(policies)
      modifies this
      ensures (policies, error) == Activated(old(policies), id, scope, approvedBy, now)
    {
      var k := GetVersionAt(id, scope);
      if k < 0 {
        return Some(VersionNotFound);
      }
      var pol := policies[k];
      ghost var was := policies;
      for i := 0 to |policies|
        invariant |policies| == |was|
        invariant forall j :: 0 <= j < i && was[j].id != id ==> policies[j] == Switch(pol, approvedBy, now, was[j])
        invariant forall j :: 0 <= j < |was| && (i <= j || was[j].id == id) ==> policies[j] == was[j]
      {
        if policies[i].id != pol.id && IsActiveOf(policies[i], pol.tenant, pol.name) {
          policies := policies[i := Retired(policies[i], now)];
        }
      }
      pol := pol.(status := Active, isActive := true, effectiveFrom := Some(now), effectiveTo := None);
      if Truthy(approvedBy) {
        pol := pol.(approvedBy := approvedBy);
      }
      policies := policies[k := pol];
      assert policies == Map((r: Policy) => Switch(was[k], approvedBy, now, r), was);
      error := None;
    }

    // Rolling back is activating a previous version.
    method Rollback(id: string, scope: Option<string>, approvedBy: Option<string>, now: int)
        returns (error: Option<Error>)
      requires UniqueIds(policies)
      modifies this
      ensures (policies, error) == Step(old(policies), RollbackTo(id, scope, approvedBy, now))
    {
      var k := GetVersionAt(id, scope);
      if k < 0 {
        return Some(VersionNotFound);
      }
      error := Activate(id, scope, approvedBy, now);
    }

    method SeedDefaultPolicy(id: string, now: int) returns (error: Option<Error>)
      modifies this
      ensures (policies, error) == Seeded(old(policies), id, now)
    {
      var existing := SystemV1(policies);
      if |existing| > 1 {
        return Some(MultipleResults);
      }
      if |existing| == 0 {
        if Clashes(policies, FirstSeed(id, now)) {
          return Some(DuplicateKey);
        }
        policies := policies + [FirstSeed(id, now)];
        return None;
      }
      ghost var was := policies;
      for i := 0 to |policies|
        invariant |policies| == |was|
        invariant forall j :: 0 <= j < i ==> policies[j] == if IsSystemV1(was[j]) then Reseeded(was[j], now) else was[j]
        invariant forall j :: i <= j < |was| ==> policies[j] == was[j]
      {
        if IsSystemV1(policies[i]) && policies[i].status != Active {
          var p := policies[i].(status := Active, isActive := true);
          if p.effectiveFrom.None? {
            p := p.(effectiveFrom := Some(now));
          }
          policies := policies[i := p];
        }
      }
      assert policies == Map((p: Policy) => if IsSystemV1(p) then Reseeded(p, now) else p, was);
      error := None;
    }
  }
}
