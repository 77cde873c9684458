// services/policy_version_service.py: versions of governance policies and the one active version
// of each (tenant, name).
module PolicyRegistry {
  import opened Prelude

  datatype Status = Draft | Active | Superseded

  datatype Policy = Policy(
    id: string, tenant: Option<string>, name: string, version: string, status: Status, isActive: bool,
    effectiveFrom: Option<int>, effectiveTo: Option<int>, approvedBy: Option<string>)

  datatype Error = VersionNotFound | DuplicateKey | MultipleResults

  const DEFAULT_NAME := "ai_vendor_governance"
  const PILOT_LABEL := "pilot-v1"

  datatype Event =
    | Create(id: string, tenant: Option<string>, name: string, version: string)
    | Activate(id: string, scope: Option<string>, approvedBy: Option<string>, now: int)
    | RollbackTo(id: string, scope: Option<string>, approvedBy: Option<string>, now: int)
    | Seed(id: string, now: int)

  // ---- Queries ----

  predicate IsActiveOf(p: Policy, tenant: Option<string>, name: string) {
    p.name == name && p.status == Active && p.tenant == tenant
  }

  function ActiveVersions(rows: seq<Policy>, tenant: Option<string>, name: string): seq<Policy> {
    Filter((p: Policy) => IsActiveOf(p, tenant, name), rows)
  }

  // The active version of (tenant, name), or else the system's.
  function GetActive(rows: seq<Policy>, tenant: Option<string>, name: string): Option<Policy> {
    var own, system := ActiveVersions(rows, tenant, name), ActiveVersions(rows, None, name);
    if own != [] then Some(own[0])
    else if tenant.Some? && system != [] then Some(system[0])
    else None
  }

  function Find(rows: seq<Policy>, id: string): Option<Policy> {
    if rows == [] then None
    else if rows[|rows| - 1].id == id then Some(rows[|rows| - 1])
    else Find(rows[..|rows| - 1], id)
  }

  // get_version: a row of another tenant is not found.
  function GetVersion(rows: seq<Policy>, id: string, scope: Option<string>): Option<Policy> {
    var p := Find(rows, id);
    if p.Some? && InScope(p.value.tenant, scope) then p else None
  }

  // The database's primary key and its unique (tenant, name, version), which binds no system row.
  predicate Clashes(rows: seq<Policy>, p: Policy) {
    exists i :: 0 <= i < |rows| &&
      (rows[i].id == p.id ||
       (p.tenant.Some? && rows[i].tenant == p.tenant && rows[i].name == p.name && rows[i].version == p.version))
  }

  predicate IsSystemV1(p: Policy) {
    p.tenant.None? && p.name == DEFAULT_NAME && p.version == "v1"
  }

  function SystemV1(rows: seq<Policy>): seq<Policy> {
    Filter((p: Policy) => IsSystemV1(p), rows)
  }

  // ---- Operations ----

  // The new table, and the error raised if any.
  type Outcome = (seq<Policy>, Option<Error>)

  function NewDraft(e: Event): Policy
    requires e.Create?
  {
    Policy(e.id, e.tenant, e.name, e.version, Draft, false, None, None, None)
  }

  function Add(rows: seq<Policy>, p: Policy): Outcome {
    if Clashes(rows, p) then (rows, Some(DuplicateKey)) else (rows + [p], None)
  }

  function Retired(p: Policy, now: int): Policy {
    p.(status := Superseded, isActive := false, effectiveTo := Some(now))
  }

  function Made(p: Policy, approvedBy: Option<string>, now: int): Policy {
    p.(status := Active, isActive := true, effectiveFrom := Some(now), effectiveTo := None,
       approvedBy := if Truthy(approvedBy) then approvedBy else p.approvedBy)
  }

  // What activating pol does to one row.
  function Switch(pol: Policy, approvedBy: Option<string>, now: int, r: Policy): Policy {
    if r.id == pol.id then Made(r, approvedBy, now)
    else if IsActiveOf(r, pol.tenant, pol.name) then Retired(r, now)
    else r
  }

  function Activated(rows: seq<Policy>, id: string, scope: Option<string>, approvedBy: Option<string>,
                     now: int): Outcome {
    var pol := GetVersion(rows, id, scope);
    if pol.None? then (rows, Some(VersionNotFound))
    else (Map((r: Policy) => Switch(pol.value, approvedBy, now, r), rows), None)
  }

  // Seeding reactivates the system v1 without touching its end date or any other version.
  function Reseeded(p: Policy, now: int): Policy {
    if p.status == Active then p
    else
      var from := if p.effectiveFrom.None? then Some(now) else p.effectiveFrom;
      p.(status := Active, isActive := true, effectiveFrom := from)
  }

  function FirstSeed(id: string, now: int): Policy {
    Policy(id, None, DEFAULT_NAME, "v1", Active, true, Some(now), None, None)
  }

  function Seeded(rows: seq<Policy>, id: string, now: int): Outcome {
    var existing := SystemV1(rows);
    if |existing| > 1 then (rows, Some(MultipleResults))
    else if existing == [] then Add(rows, FirstSeed(id, now))
    else (Map((p: Policy) => if IsSystemV1(p) then Reseeded(p, now) else p, rows), None)
  }

  // What a submitted action is bound to: a version's id, if any, and its label.
  datatype Binding = Binding(versionId: Option<string>, versionText: string)

  function InEffect(rows: seq<Policy>, tenant: Option<string>): Binding {
    var p := GetActive(rows, tenant, DEFAULT_NAME);
    if p.Some? then Binding(Some(p.value.id), p.value.version) else Binding(None, PILOT_LABEL)
  }

  function Step(rows: seq<Policy>, e: Event): Outcome {
    match e
    case Create(_, _, _, _) => Add(rows, NewDraft(e))
    case Activate(id, scope, approver, now) => Activated(rows, id, scope, approver, now)
    case RollbackTo(id, scope, approver, now) => Activated(rows, id, scope, approver, now)
    case Seed(id, now) => Seeded(rows, id, now)
  }

  function Run(rows: seq<Policy>, es: seq<Event>): seq<Policy> {
    if es == [] then rows else Step(Run(rows, es[..|es| - 1]), es[|es| - 1]).0
  }

  // ---- The invariant ----

  predicate SameKey(p: Policy, q: Policy) {
    p.tenant == q.tenant && p.name == q.name
  }

  ghost predicate UniqueIds(rows: seq<Policy>) {
    forall i, j :: 0 <= i < j < |rows| ==> rows[i].id != rows[j].id
  }

  predicate RowOk(p: Policy) {
    && (p.isActive <==> p.status == Active)
    && (p.status == Superseded ==> p.effectiveTo.Some?)
    && (p.status == Active ==> p.effectiveFrom.Some?)
  }

  // At most one active version per (tenant, name).
  ghost predicate OneActive(rows: seq<Policy>) {
    forall i, j :: 0 <= i < j < |rows| && SameKey(rows[i], rows[j]) ==>
        !(rows[i].status == Active && rows[j].status == Active)
  }

  ghost predicate RowsOk(rows: seq<Policy>) {
    UniqueIds(rows) && forall i :: 0 <= i < |rows| ==> RowOk(rows[i])
  }

  ghost predicate Inv(rows: seq<Policy>) {
    RowsOk(rows) && OneActive(rows)
  }

  lemma {:induction false} FindMeans(rows: seq<Policy>, id: string)
    ensures var p := Find(rows, id);
            if p.Some? then p.value in rows && p.value.id == id else forall i :: 0 <= i < |rows| ==> rows[i].id != id
  {
    if rows != [] {
      FindMeans(rows[..|rows| - 1], id);
    }
  }

  lemma SwitchKeepsOneActive(rows: seq<Policy>, pol: Policy, approvedBy: Option<string>, now: int, next: seq<Policy>)
    requires UniqueIds(rows) && OneActive(rows) && next == Map((r: Policy) => Switch(pol, approvedBy, now, r), rows)
    requires forall i :: 0 <= i < |rows| && rows[i].id == pol.id ==> rows[i] == pol
    ensures OneActive(next)
  {
    forall i, j | 0 <= i < j < |rows| && SameKey(next[i], next[j])
      ensures !(next[i].status == Active && next[j].status == Active)
    {
    }
  }

  lemma ActivateKeepsInv(rows: seq<Policy>, id: string, scope: Option<string>, approvedBy: Option<string>, now: int)
    requires Inv(rows)
    ensures Inv(Activated(rows, id, scope, approvedBy, now).0)
  {
    var found, next := GetVersion(rows, id, scope), Activated(rows, id, scope, approvedBy, now).0;
    if found.Some? {
      FindMeans(rows, id);
      var k :| 0 <= k < |rows| && rows[k] == found.value;
      forall i | 0 <= i < |rows| && rows[i].id == id ensures rows[i] == found.value {
        assert i == k;
      }
      SwitchKeepsOneActive(rows, found.value, approvedBy, now, next);
    }
  }

  // No system default but v1 is active.
  predicate SeedIsSafe(rows: seq<Policy>) {
    forall i :: 0 <= i < |rows| && IsActiveOf(rows[i], None, DEFAULT_NAME) ==> IsSystemV1(rows[i])
  }
}
