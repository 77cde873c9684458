// services/audit_service.py, the table half: the hash-chained audit log, its single write path
// `record` and the two integrity checks, over any hash of an event's core.
module AuditLog {
  import opened Prelude
  import opened EventHash

  const GENESIS_HASH: string := "0000000000000000000000000000000000000000000000000000000000000000"
  const MAX_RECORD_ATTEMPTS := 50

  type Hasher = Core -> string

  // compute_event_hash of the service.
  function HasherOf(lib: Lib): Hasher {
    (c: Core) => ComputeEventHash(lib, c)
  }

  // One row of audit_events. Legacy rows carry neither a seq nor a hash.
  datatype Row = Row(core: Core, eventHash: Option<string>)

  // ---- Queries ----

  // ORDER BY seq, with NULL first.
  predicate SeqLe(a: Row, b: Row) {
    a.core.seqNo.None? || (b.core.seqNo.Some? && a.core.seqNo.value <= b.core.seqNo.value)
  }

  function Chained(rows: seq<Row>): seq<Row> {
    Filter((r: Row) => r.eventHash.Some?, rows)
  }

  function OrderedChain(rows: seq<Row>): seq<Row> {
    OrderBy(SeqLe, Chained(rows))
  }

  function ChainHead(rows: seq<Row>): Option<Row> {
    var c := OrderedChain(rows);
    if c == [] then None else Some(c[|c| - 1])
  }

  ghost predicate SeqTaken(rows: seq<Row>, n: Option<int>) {
    n.Some? && exists i :: 0 <= i < |rows| && rows[i].core.seqNo == n
  }

  // The row `record` builds on top of the head it has read.
  function NextRow(h: Hasher, head: Option<Row>, f: Fields): (row: Row)
    ensures SelfHashed(h, row) && row.core.fields == f && row.core.seqNo.Some?
  {
    var core := Core(
      Some(if head.Some? && head.value.core.seqNo.Some? then head.value.core.seqNo.value + 1 else 1),
      f,
      if head.Some? then head.value.eventHash else Some(GENESIS_HASH));
    Row(core, Some(h(core)))
  }

  // ---- The chain invariant ----

  function ExpectedPrevious(chain: seq<Row>, i: nat): Option<string>
    requires i <= |chain|
  {
    if i == 0 then Some(GENESIS_HASH) else chain[i - 1].eventHash
  }

  predicate Linked(chain: seq<Row>, i: nat)
    requires i < |chain|
  {
    chain[i].core.previousHash == ExpectedPrevious(chain, i)
  }

  predicate SelfHashed(h: Hasher, row: Row) {
    row.eventHash == Some(h(row.core))
  }

  // What verify_chain asks of position i.
  predicate RowChecks(h: Hasher, chain: seq<Row>, i: nat)
    requires i < |chain|
  {
    Linked(chain, i) && SelfHashed(h, chain[i])
  }

  // A table as the write path leaves it: the hashed rows are numbered 1..n in the order they
  // were committed, every one links to its predecessor and re-hashes to itself, and only
  // hashed rows are numbered.
  ghost predicate ChainInv(h: Hasher, rows: seq<Row>) {
    var c := Chained(rows);
    && (forall i :: 0 <= i < |c| ==> c[i].core.seqNo == Some(i + 1))
    && (forall i :: 0 <= i < |c| ==> RowChecks(h, c, i))
    && (forall i :: 0 <= i < |rows| && rows[i].core.seqNo.Some? ==> rows[i].eventHash.Some?)
  }

  lemma ChainIsOrdered(h: Hasher, rows: seq<Row>)
    requires ChainInv(h, rows)
    ensures OrderedChain(rows) == Chained(rows)
  {
    OrderByOrdered(SeqLe, Chained(rows));
  }

  // Under the invariant the unique constraint is exactly the chain length.
  lemma TakenIff(h: Hasher, rows: seq<Row>, n: int)
    requires ChainInv(h, rows)
    ensures SeqTaken(rows, Some(n)) <==> 1 <= n <= |Chained(rows)|
  {
    var c := Chained(rows);
    if SeqTaken(rows, Some(n)) {
      var i :| 0 <= i < |rows| && rows[i].core.seqNo == Some(n);
      FilterComplete((r: Row) => r.eventHash.Some?, rows, i);
      var k :| 0 <= k < |c| && c[k] == rows[i];
      assert c[k].core.seqNo == Some(k + 1);
    }
    if 1 <= n <= |c| {
      assert c[n - 1].core.seqNo == Some(n - 1 + 1);
      FilterSound((r: Row) => r.eventHash.Some?, rows);
      assert c[n - 1] in rows;
    }
  }

  // Under the invariant the head is the last row of the chain, so a row built on it is
  // numbered one past the end.
  lemma NextAfterHead(h: Hasher, rows: seq<Row>, f: Fields)
    requires ChainInv(h, rows)
    ensures var c := Chained(rows); var row := NextRow(h, ChainHead(rows), f);
            row.core.seqNo == Some(|c| + 1) && row.core.previousHash == ExpectedPrevious(c, |c|)
  {
    ChainIsOrdered(h, rows);
    var c := Chained(rows);
    if c != [] {
      assert c[|c| - 1].core.seqNo == Some(|c| - 1 + 1);
    }
  }

  // Appending a row that is numbered and linked past the end keeps the chain.
  lemma ChainGrows(h: Hasher, rows: seq<Row>, row: Row)
    requires ChainInv(h, rows) && SelfHashed(h, row)
    requires row.core.seqNo == Some(|Chained(rows)| + 1)
    requires row.core.previousHash == ExpectedPrevious(Chained(rows), |Chained(rows)|)
    ensures Chained(rows + [row]) == Chained(rows) + [row] && ChainInv(h, rows + [row])
  {
    var c, d := Chained(rows), Chained(rows + [row]);
    forall i | 0 <= i < |d| ensures d[i].core.seqNo == Some(i + 1) && RowChecks(h, d, i) {
      if i < |c| {
        assert d[i] == c[i] && RowChecks(h, c, i);
        assert i > 0 ==> d[i - 1] == c[i - 1];
      } else {
        assert d[i] == row;
        assert i > 0 ==> d[i - 1] == c[i - 1];
      }
    }
  }

  // A row built on the current head extends the chain, and its number is free.
  lemma CommitExtends(h: Hasher, rows: seq<Row>, f: Fields)
    requires ChainInv(h, rows)
    ensures var row := NextRow(h, ChainHead(rows), f);
            && row.core.seqNo == Some(|Chained(rows)| + 1)
            && !SeqTaken(rows, row.core.seqNo)
            && Chained(rows + [row]) == Chained(rows) + [row]
            && ChainInv(h, rows + [row])
  {
    var row := NextRow(h, ChainHead(rows), f);
    NextAfterHead(h, rows, f);
    TakenIff(h, rows, |Chained(rows)| + 1);
    ChainGrows(h, rows, row);
  }

  // ---- verify_chain ----

  datatype Status = Empty | Verified | Failed

  datatype Reason = BrokenLink | HashMismatch

  datatype Verification = Verification(
    status: Status, verifiedCount: nat, totalCount: nat, brokenAtSeq: Option<int>, reason: Option<Reason>)

  // The first position at which the chain does not check, or its length.
  function FirstBreak(h: Hasher, chain: seq<Row>, i: nat): (k: nat)
    requires i <= |chain|
    ensures i <= k <= |chain|
    ensures forall j :: i <= j < k ==> RowChecks(h, chain, j)
    ensures k < |chain| ==> !RowChecks(h, chain, k)
    decreases |chain| - i
  {
    if i == |chain| || !RowChecks(h, chain, i) then i else FirstBreak(h, chain, i + 1)
  }

  function VerifyList(h: Hasher, chain: seq<Row>): Verification {
    var k := FirstBreak(h, chain, 0);
    if chain == [] then Verification(Empty, 0, 0, None, None)
    else if k == |chain| then Verification(Verified, |chain|, |chain|, None, None)
    else Verification(Failed, k, |chain|, chain[k].core.seqNo,
                      Some(if !Linked(chain, k) then BrokenLink else HashMismatch))
  }

  // What the verdict says, position by position.
  lemma VerdictMeaning(h: Hasher, chain: seq<Row>, k: nat)
    requires k <= |chain|
    requires forall j :: 0 <= j < k ==> RowChecks(h, chain, j)
    requires k < |chain| ==> !RowChecks(h, chain, k)
    ensures var v := VerifyList(h, chain);
            && (v.status == Failed <==> k < |chain|)
            && v.verifiedCount == k && v.totalCount == |chain|
            && (k < |chain| ==> v.brokenAtSeq == chain[k].core.seqNo &&
                                v.reason == Some(if !Linked(chain, k) then BrokenLink else HashMismatch))
  {
    var b := FirstBreak(h, chain, 0);
    if k < b {
      assert false;
    }
  }

  // verify_tenant_events: self-hashes only, over one tenant's rows.
  function TenantChain(rows: seq<Row>, tenant: string): seq<Row> {
    OrderBy(SeqLe, Filter((r: Row) => r.core.fields.tenantId == Some(tenant) && r.eventHash.Some?, rows))
  }

  function FirstMismatch(h: Hasher, rows: seq<Row>, i: nat): (k: nat)
    requires i <= |rows|
    ensures i <= k <= |rows|
    ensures forall j :: i <= j < k ==> SelfHashed(h, rows[j])
    ensures k < |rows| ==> !SelfHashed(h, rows[k])
    decreases |rows| - i
  {
    if i == |rows| || !SelfHashed(h, rows[i]) then i else FirstMismatch(h, rows, i + 1)
  }

  function VerifyTenantList(h: Hasher, rows: seq<Row>): Verification {
    var k := FirstMismatch(h, rows, 0);
    if rows == [] then Verification(Empty, 0, 0, None, None)
    else if k == |rows| then Verification(Verified, |rows|, |rows|, None, None)
    else Verification(Failed, k, |rows|, rows[k].core.seqNo, Some(HashMismatch))
  }

  // Every table the write path can leave behind passes both checks, whoever asks.
  lemma InvariantVerifies(h: Hasher, rows: seq<Row>, tenant: string)
    requires ChainInv(h, rows)
    ensures VerifyList(h, OrderedChain(rows)).status ==
            if Chained(rows) == [] then Empty else Verified
    ensures VerifyTenantList(h, TenantChain(rows, tenant)).status != Failed
  {
    ChainIsOrdered(h, rows);
    VerdictMeaning(h, Chained(rows), |Chained(rows)|);
    var mine := Filter((r: Row) => r.core.fields.tenantId == Some(tenant) && r.eventHash.Some?, rows);
    var t := TenantChain(rows, tenant);
    FilterSound((r: Row) => r.core.fields.tenantId == Some(tenant) && r.eventHash.Some?, rows);
    OrderBySound(SeqLe, mine);
    forall j | 0 <= j < |t| ensures SelfHashed(h, t[j]) {
      var i :| 0 <= i < |rows| && rows[i] == t[j];
      FilterComplete((r: Row) => r.eventHash.Some?, rows, i);
      var k :| 0 <= k < |Chained(rows)| && Chained(rows)[k] == rows[i];
      assert RowChecks(h, Chained(rows), k);
    }
  }

  // ---- The service over a mutable table ----

  // A foreign commit: another writer's complete append.
  function Append(h: Hasher, rows: seq<Row>, f: Fields): seq<Row> {
    rows + [NextRow(h, ChainHead(rows), f)]
  }

  function AppendAll(h: Hasher, rows: seq<Row>, fs: seq<Fields>): seq<Row> {
    if fs == [] then rows else Append(h, AppendAll(h, rows, fs[..|fs| - 1]), fs[|fs| - 1])
  }

  // `after` is `before` with one hashed row for each of fs, in order. With the chain invariant
  // on `after` this leaves no freedom: numbers, links and hashes follow from the fields.
  ghost predicate Appended(before: seq<Row>, after: seq<Row>, fs: seq<Fields>) {
    && before <= after
    && |after| == |before| + |fs|
    && forall k :: 0 <= k < |fs| ==> after[|before| + k].core.fields == fs[k] && after[|before| + k].eventHash.Some?
  }

  lemma AppendedThenAppended(a: seq<Row>, b: seq<Row>, c: seq<Row>, fs: seq<Fields>, gs: seq<Fields>)
    requires Appended(a, b, fs) && Appended(b, c, gs)
    ensures Appended(a, c, fs + gs)
  {
    forall k | 0 <= k < |fs + gs|
      ensures c[|a| + k].core.fields == (fs + gs)[k] && c[|a| + k].eventHash.Some?
    {
      if k < |fs| {
        assert c[|a| + k] == b[|a| + k];
      } else {
        assert c[|a| + k] == c[|b| + (k - |fs|)];
      }
    }
  }

  lemma AppendExtends(h: Hasher, rows: seq<Row>, f: Fields)
    requires ChainInv(h, rows)
    ensures ChainInv(h, Append(h, rows, f))
    ensures |Chained(Append(h, rows, f))| == |Chained(rows)| + 1
    ensures Appended(rows, Append(h, rows, f), [f])
  {
    CommitExtends(h, rows, f);
  }

  lemma {:induction false} AppendAllExtends(h: Hasher, rows: seq<Row>, fs: seq<Fields>)
    requires ChainInv(h, rows)
    ensures ChainInv(h, AppendAll(h, rows, fs))
    ensures |Chained(AppendAll(h, rows, fs))| == |Chained(rows)| + |fs|
    ensures Appended(rows, AppendAll(h, rows, fs), fs)
  {
    if fs != [] {
      var n := |fs| - 1;
      var mid := AppendAll(h, rows, fs[..n]);
      AppendAllExtends(h, rows, fs[..n]);
      AppendExtends(h, mid, fs[n]);
      AppendedThenAppended(rows, mid, Append(h, mid, fs[n]), fs[..n], [fs[n]]);
      assert fs == fs[..n] + [fs[n]];
    }
  }

  // ---- Recording an event never worsens a check ----

  predicate NoWorse(a: Status, b: Status) {
    a == b || (a == Empty && b == Verified)
  }

  lemma HeadComesBefore(h: Hasher, rows: seq<Row>, f: Fields)
    ensures OrderedChain(Append(h, rows, f)) == OrderedChain(rows) + [NextRow(h, ChainHead(rows), f)]
  {
    var row := NextRow(h, ChainHead(rows), f);
    assert (rows + [row])[..|rows|] == rows;
    assert (Chained(rows) + [row])[..|Chained(rows)|] == Chained(rows);
  }

  // Whatever has happened to the table before, a further event recorded by the service leaves a
  // failed check failed and a passed one passed.
  lemma AppendIsNoWorse(h: Hasher, rows: seq<Row>, f: Fields)
    ensures NoWorse(VerifyList(h, OrderedChain(rows)).status, VerifyList(h, OrderedChain(Append(h, rows, f))).status)
  {
    var chain, row := OrderedChain(rows), NextRow(h, ChainHead(rows), f);
    var longer, k := chain + [row], FirstBreak(h, chain, 0);
    HeadComesBefore(h, rows, f);
    forall j | 0 <= j < |chain| ensures RowChecks(h, longer, j) <==> RowChecks(h, chain, j) {
    }
    if k == |chain| {
      assert RowChecks(h, longer, |chain|);
      VerdictMeaning(h, longer, |longer|);
    } else {
      VerdictMeaning(h, longer, k);
    }
  }

  function OwnRows(rows: seq<Row>, tenant: string): seq<Row> {
    Filter((r: Row) => r.core.fields.tenantId == Some(tenant) && r.eventHash.Some?, rows)
  }

  // The tenant check fails exactly if some hashed row of the tenant does not recompute.
  lemma TenantVerdict(h: Hasher, rows: seq<Row>, tenant: string)
    ensures VerifyTenantList(h, TenantChain(rows, tenant)).status ==
            if OwnRows(rows, tenant) == [] then Empty
            else if forall r :: r in OwnRows(rows, tenant) ==> SelfHashed(h, r) then Verified
            else Failed
  {
    var mine, chain := OwnRows(rows, tenant), TenantChain(rows, tenant);
    OrderByPermutes(SeqLe, mine);
    assert |multiset(chain)| == |chain|;
    assert forall r :: r in mine <==> r in multiset(chain);
    var k := FirstMismatch(h, chain, 0);
    if k < |chain| {
      assert chain[k] in multiset(chain);
    }
  }

  lemma TenantAppendIsNoWorse(h: Hasher, rows: seq<Row>, f: Fields, tenant: string)
    ensures NoWorse(VerifyTenantList(h, TenantChain(rows, tenant)).status,
                    VerifyTenantList(h, TenantChain(Append(h, rows, f), tenant)).status)
  {
    var row := NextRow(h, ChainHead(rows), f);
    TenantVerdict(h, rows, tenant);
    TenantVerdict(h, Append(h, rows, f), tenant);
    assert (rows + [row])[..|rows|] == rows;
  }

  // The race for the next number: a row built on the head read before the rivals committed is
  // refused exactly when there was a rival.
  lemma RaceDecided(h: Hasher, rows: seq<Row>, f: Fields, rivals: seq<Fields>)
    requires ChainInv(h, rows)
    ensures ChainInv(h, AppendAll(h, rows, rivals)) && Appended(rows, AppendAll(h, rows, rivals), rivals)
    ensures SeqTaken(AppendAll(h, rows, rivals), NextRow(h, ChainHead(rows), f).core.seqNo) <==> rivals != []
  {
    CommitExtends(h, rows, f);
    AppendAllExtends(h, rows, rivals);
    TakenIff(h, AppendAll(h, rows, rivals), |Chained(rows)| + 1);
  }

  // What happens around attempt i of one `record` call: the appends other writers commit
  // between its head read and its own commit, whether the database is locked then, and the UTC
  // time at which the attempt builds its row.
  datatype Weather = Weather(rivals: nat -> seq<Fields>, locked: nat -> bool, clock: nat -> int)

  // The fields of the i-th attempt's row: the caller's, with the time of that attempt.
  function Stamped(f: Fields, w: Weather, i: nat): Fields {
    f.(createdAt := Some(Timestamp(w.clock(i), Some(0))))
  }

  function RivalsBefore(w: Weather, n: nat): seq<Fields> {
    if n == 0 then [] else RivalsBefore(w, n - 1) + w.rivals(n - 1)
  }

  predicate Calm(w: Weather, i: nat) {
    w.rivals(i) == [] && !w.locked(i)
  }

  class AuditStore {
    var rows: seq<Row>

    constructor (legacy: seq<Row>)
      ensures rows == legacy
    {
      rows := legacy;
    }

    method TryCommit(row: Row) returns (ok: bool)
      modifies this
      ensures ok == !SeqTaken(old(rows), row.core.seqNo)
      ensures rows == if ok then old(rows) + [row] else old(rows)
    {
      for i := 0 to |rows|
        invariant row.core.seqNo.Some? ==> forall j :: 0 <= j < i ==> rows[j].core.seqNo != row.core.seqNo
        invariant rows == old(rows)
      {
        if row.core.seqNo.Some? && rows[i].core.seqNo == row.core.seqNo {
          return false;
        }
      }
      rows := rows + [row];
      ok := true;
    }

    // One attempt: read the head, build the row on it, and commit after the rivals have. The
    // unique constraint refuses the commit exactly when a rival got in between.
    method Attempt(h: Hasher, f: Fields, rivals: seq<Fields>, locked: bool) returns (row: Option<Row>)
      requires ChainInv(h, rows)
      modifies this
      ensures ChainInv(h, rows)
      ensures row.Some? <==> rivals == [] && !locked
      ensures Appended(old(rows), rows, if row.Some? then [f] else rivals)
      ensures row.Some? ==> rows == old(rows) + [row.value]
    {
      var candidate := NextRow(h, ChainHead(rows), f);
      RaceDecided(h, rows, f, rivals);
      AppendExtends(h, rows, f);
      rows := AppendAll(h, rows, rivals);
      row := None;
      if !locked {
        var committed := TryCommit(candidate);
        if committed {
          row := Some(candidate);
        }
      }
    }

    // `record`: on a lost race roll back and retry, at most fifty times. The call succeeds in
    // the first attempt with neither a foreign commit nor a lock, and fails exactly when all
    // fifty are disturbed. Either way the table is the old one with the foreign rows appended
    // in order, plus this call's single row, at the time of that attempt, if it succeeds.
    method Record(h: Hasher, f: Fields, w: Weather) returns (row: Option<Row>, attempts: nat)
      requires ChainInv(h, rows)
      modifies this
      ensures ChainInv(h, rows)
      ensures if row.Some? then attempts < 50 && Calm(w, attempts) else attempts == 50
      ensures forall i :: 0 <= i < attempts ==> !Calm(w, i)
      ensures Appended(old(rows), rows, RivalsBefore(w, attempts) + if row.Some? then [Stamped(f, w, attempts)] else [])
      ensures row.Some? ==> row.value == rows[|rows| - 1]
    {
      attempts := 0;
      assert Appended(rows, rows, []);
      while attempts < MAX_RECORD_ATTEMPTS
        invariant attempts <= MAX_RECORD_ATTEMPTS
        invariant Appended(old(rows), rows, RivalsBefore(w, attempts))
        invariant ChainInv(h, rows)
        invariant forall i :: 0 <= i < attempts ==> !Calm(w, i)
      {
        ghost var before := rows;
        var stamped := Stamped(f, w, attempts);
        row := Attempt(h, stamped, w.rivals(attempts), w.locked(attempts));
        ghost var added := if row.Some? then [stamped] else w.rivals(attempts);
        AppendedThenAppended(old(rows), before, rows, RivalsBefore(w, attempts), added);
        if row.Some? {
          return;
        }
        attempts := attempts + 1;
      }
      row := None;
      assert RivalsBefore(w, attempts) + [] == RivalsBefore(w, attempts);
    }

    // Loop of verify_chain, carrying the hash the next row must link to.
    method VerifyChain(h: Hasher) returns (v: Verification)
      ensures v == VerifyList(h, OrderedChain(rows))
    {
      var chain := OrderedChain(rows);
      if |chain| == 0 {
        return Verification(Empty, 0, 0, None, None);
      }
      var expected := Some(GENESIS_HASH);
      for index := 0 to |chain|
        invariant expected == ExpectedPrevious(chain, index)
        invariant forall j :: 0 <= j < index ==> RowChecks(h, chain, j)
      {
        var row := chain[index];
        if row.core.previousHash != expected {
          VerdictMeaning(h, chain, index);
          return Verification(Failed, index, |chain|, row.core.seqNo, Some(BrokenLink));
        }
        if Some(h(row.core)) != row.eventHash {
          VerdictMeaning(h, chain, index);
          return Verification(Failed, index, |chain|, row.core.seqNo, Some(HashMismatch));
        }
        expected := row.eventHash;
      }
      VerdictMeaning(h, chain, |chain|);
      return Verification(Verified, |chain|, |chain|, None, None);
    }

    method VerifyTenantEvents(h: Hasher, tenant: string) returns (v: Verification)
      ensures v == VerifyTenantList(h, TenantChain(rows, tenant))
    {
      var mine := TenantChain(rows, tenant);
      if |mine| == 0 {
        return Verification(Empty, 0, 0, None, None);
      }
      for index := 0 to |mine|
        invariant forall j :: 0 <= j < index ==> SelfHashed(h, mine[j])
      {
        if Some(h(mine[index].core)) != mine[index].eventHash {
          return Verification(Failed, index, |mine|, mine[index].core.seqNo, Some(HashMismatch));
        }
      }
      return Verification(Verified, |mine|, |mine|, None, None);
    }
  }
}
