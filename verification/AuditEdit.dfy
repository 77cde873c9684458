// What verify_chain reports after one hashed row of the table was edited in place, any set of
// rows was deleted, or a row was inserted behind the service's back. The check reads the rows
// ordered by seq, so an edited seq moves its row.
module AuditEdit {
  import opened Prelude
  import opened EventHash
  import opened AuditLog
  import opened AuditTamper

  // verify_chain on a table.
  function VerifyTable(h: Hasher, rows: seq<Row>): Verification {
    VerifyList(h, OrderedChain(rows))
  }

  // The position of table row p in the chain.
  function ChainIndex(rows: seq<Row>, p: nat): nat
    requires p < |rows|
  {
    |Chained(rows[..p])|
  }

  // The unique column accepts the edited row: no other row of the table has its seq.
  ghost predicate SeqIsFree(rows: seq<Row>, p: nat, edited: Row)
    requires p < |rows|
  {
    !SeqTaken(rows[..p] + rows[p + 1..], edited.core.seqNo)
  }

  // Where row k of n goes with a seq that is its own or nobody's: a row without a number and one
  // numbered below 1 sort first, one numbered past the end last.
  function Place(n: nat, k: nat, seqNo: Option<int>): int {
    if seqNo.None? || seqNo.value <= 0 then 0 else if seqNo.value > n then n - 1 else k
  }

  function Moved(chain: seq<Row>, k: nat, m: nat, edited: Row): seq<Row>
    requires k < |chain| && m < |chain|
  {
    var rest := chain[..k] + chain[k + 1..];
    rest[..m] + [edited] + rest[m..]
  }

  // ---- The edited table in the order it is checked ----

  lemma ChainedSplit(rows: seq<Row>, p: nat, row: Row)
    requires p < |rows| && row.eventHash.Some?
    ensures Chained(rows[p := row]) == Chained(rows[..p]) + [row] + Chained(rows[p + 1..])
  {
    var keep := (r: Row) => r.eventHash.Some?;
    assert rows[p := row] == rows[..p] + [row] + rows[p + 1..];
    FilterAppend(keep, rows[..p] + [row], rows[p + 1..]);
    FilterAppend(keep, rows[..p], [row]);
    assert Filter(keep, [row]) == [row];
  }

  // Row p sits at its chain index, between the hashed rows in front of it and behind it.
  lemma ChainAround(rows: seq<Row>, p: nat)
    requires p < |rows| && rows[p].eventHash.Some?
    ensures var chain, k := Chained(rows), ChainIndex(rows, p);
            && k < |chain| && chain[k] == rows[p]
            && chain[..k] == Chained(rows[..p]) && chain[k + 1..] == Chained(rows[p + 1..])
  {
    ChainedSplit(rows, p, rows[p]);
    assert rows[p := rows[p]] == rows;
  }

  // Every other number within 1..n is taken by a row other than p.
  lemma OtherSeqIsTaken(h: Hasher, rows: seq<Row>, p: nat, i: nat)
    requires ChainInv(h, rows) && p < |rows| && rows[p].eventHash.Some?
    requires i < |Chained(rows)| && i != ChainIndex(rows, p)
    ensures SeqTaken(rows[..p] + rows[p + 1..], Some(i + 1))
  {
    ChainAround(rows, p);
    var chain, k, rest := Chained(rows), ChainIndex(rows, p), rows[..p] + rows[p + 1..];
    var keep := (r: Row) => r.eventHash.Some?;
    FilterSound(keep, rows[..p]);
    FilterSound(keep, rows[p + 1..]);
    if i < k {
      assert chain[i] == chain[..k][i] && chain[i] in rest;
    } else {
      assert chain[i] == chain[k + 1..][i - k - 1] && chain[i] in rest;
    }
    assert chain[i].core.seqNo == Some(i + 1);
  }

  // A number within 1..n that is free is the row's own.
  lemma FreeSeqIsOwn(h: Hasher, rows: seq<Row>, p: nat, edited: Row)
    requires ChainInv(h, rows) && p < |rows| && rows[p].eventHash.Some? && SeqIsFree(rows, p, edited)
    requires edited.core.seqNo.Some? && 1 <= edited.core.seqNo.value <= |Chained(rows)|
    ensures edited.core.seqNo.value == ChainIndex(rows, p) + 1
  {
    var i := edited.core.seqNo.value - 1;
    if i != ChainIndex(rows, p) {
      OtherSeqIsTaken(h, rows, p, i);
    }
  }

  ghost predicate Numbered(chain: seq<Row>) {
    forall i :: 0 <= i < |chain| ==> chain[i].core.seqNo == Some(i + 1)
  }

  lemma NumberedIsOrdered(chain: seq<Row>)
    requires Numbered(chain)
    ensures Ordered(SeqLe, chain) && OrderBy(SeqLe, chain) == chain
  {
    forall i | 0 <= i < |chain| - 1 ensures SeqLe(chain[i], chain[i + 1]) {
      assert chain[i].core.seqNo == Some(i + 1) && chain[i + 1].core.seqNo == Some(i + 1 + 1);
    }
    OrderByOrdered(SeqLe, chain);
  }

  lemma MovedInPlace(chain: seq<Row>, k: nat, edited: Row)
    requires k < |chain|
    ensures Moved(chain, k, k, edited) == chain[k := edited] == chain[..k] + [edited] + chain[k + 1..]
  {
    assert (chain[..k] + chain[k + 1..])[..k] == chain[..k];
    assert (chain[..k] + chain[k + 1..])[k..] == chain[k + 1..];
  }

  lemma SortsInPlace(chain: seq<Row>, k: nat, edited: Row)
    requires Numbered(chain) && k < |chain| && edited.core.seqNo == Some(k + 1)
    ensures OrderBy(SeqLe, chain[k := edited]) == Moved(chain, k, k, edited)
  {
    MovedInPlace(chain, k, edited);
    NumberedIsOrdered(chain[k := edited]);
  }

  lemma FirstIsOrdered(chain: seq<Row>, k: nat, edited: Row)
    requires Numbered(chain) && k < |chain| && (edited.core.seqNo.None? || edited.core.seqNo.value <= 0)
    ensures Ordered(SeqLe, [edited] + chain[..k] + chain[k + 1..])
  {
    var sorted := [edited] + chain[..k] + chain[k + 1..];
    forall i | 0 < i < |sorted| ensures sorted[i].core.seqNo == Some(if i <= k then i else i + 1) {
      assert sorted[i] == chain[if i <= k then i - 1 else i];
    }
    forall i | 0 <= i < |sorted| - 1 ensures SeqLe(sorted[i], sorted[i + 1]) {
    }
  }

  lemma FirstOfFront(front: seq<Row>, edited: Row)
    requires Numbered(front) && (edited.core.seqNo.None? || edited.core.seqNo.value <= 0)
    ensures OrderBy(SeqLe, front + [edited]) == [edited] + front
  {
    NumberedIsOrdered(front);
    forall i | 0 <= i < |front| ensures !SeqLe(front[i], edited) {
      assert front[i].core.seqNo == Some(i + 1);
    }
    InsertFront(SeqLe, edited, front);
    assert (front + [edited])[..|front|] == front;
  }

  // A row that sorts in front of all others.
  lemma SortsFirst(chain: seq<Row>, k: nat, edited: Row)
    requires Numbered(chain) && k < |chain| && (edited.core.seqNo.None? || edited.core.seqNo.value <= 0)
    ensures OrderBy(SeqLe, chain[k := edited]) == Moved(chain, k, 0, edited)
  {
    var front, back := chain[..k], chain[k + 1..];
    MovedInPlace(chain, k, edited);
    FirstOfFront(front, edited);
    FirstIsOrdered(chain, k, edited);
    OrderByThen(SeqLe, front + [edited], back);
    assert Moved(chain, k, 0, edited) == [edited] + front + back;
  }

  function Without(chain: seq<Row>, k: nat): seq<Row>
    requires k < |chain|
  {
    chain[..k] + chain[k + 1..]
  }

  lemma WithoutAscends(chain: seq<Row>, k: nat)
    requires Numbered(chain) && k < |chain|
    ensures Ordered(SeqLe, Without(chain, k))
  {
    var left := Without(chain, k);
    forall i | 0 <= i < |left| ensures left[i].core.seqNo == Some(if i < k then i + 1 else i + 2) {
      assert left[i] == chain[if i < k then i else i + 1];
    }
    forall i | 0 <= i < |left| - 1 ensures SeqLe(left[i], left[i + 1]) {
    }
  }

  lemma EndsFront(front: seq<Row>, edited: Row)
    requires Numbered(front) && edited.core.seqNo.Some? && edited.core.seqNo.value > |front|
    ensures OrderBy(SeqLe, front + [edited]) == front + [edited]
  {
    NumberedIsOrdered(front);
    assert (front + [edited])[..|front|] == front;
    assert front != [] ==> front[|front| - 1].core.seqNo == Some(|front| - 1 + 1);
  }

  // A row that sorts behind all others.
  lemma SortsLast(chain: seq<Row>, k: nat, edited: Row)
    requires Numbered(chain) && k < |chain| && edited.core.seqNo.Some? && edited.core.seqNo.value > |chain|
    ensures OrderBy(SeqLe, chain[k := edited]) == Moved(chain, k, |chain| - 1, edited)
  {
    var front, back := chain[..k], chain[k + 1..];
    EndsFront(front, edited);
    WithoutAscends(chain, k);
    forall i | 0 <= i < |back| ensures !SeqLe(edited, back[i]) {
      assert back[i] == chain[k + 1 + i] && chain[k + 1 + i].core.seqNo == Some(k + 1 + i + 1);
    }
    OrderByBefore(SeqLe, front + [edited], front, edited, back);
    MovedInPlace(chain, k, edited);
    MovedToEnd(chain, k, edited);
  }

  lemma MovedToEnd(chain: seq<Row>, k: nat, edited: Row)
    requires k < |chain|
    ensures Moved(chain, k, |chain| - 1, edited) == chain[..k] + chain[k + 1..] + [edited]
  {
  }

  // The edited table is checked as the old chain with the edited row at its new place.
  lemma EditedOrder(h: Hasher, rows: seq<Row>, p: nat, edited: Row)
    requires ChainInv(h, rows) && p < |rows| && rows[p].eventHash.Some?
    requires edited.eventHash.Some? && SeqIsFree(rows, p, edited)
    ensures var chain, k := Chained(rows), ChainIndex(rows, p);
            && k < |chain| && chain[k] == rows[p]
            && OrderedChain(rows[p := edited]) == Moved(chain, k, Place(|chain|, k, edited.core.seqNo), edited)
  {
    var chain, k := Chained(rows), ChainIndex(rows, p);
    ChainAround(rows, p);
    ChainedSplit(rows, p, edited);
    MovedInPlace(chain, k, edited);
    assert Chained(rows[p := edited]) == chain[k := edited];
    var s := edited.core.seqNo;
    if s.None? || s.value <= 0 {
      SortsFirst(chain, k, edited);
    } else if s.value > |chain| {
      SortsLast(chain, k, edited);
    } else {
      FreeSeqIsOwn(h, rows, p, edited);
      SortsInPlace(chain, k, edited);
    }
  }

  // ---- What the check reports ----

  function FailedAt(k: nat, n: nat, seqNo: Option<int>, reason: Reason): Verification {
    Verification(Failed, k, n, seqNo, Some(reason))
  }

  // The report on an edit that leaves row k of the chain hashed. A row moved to the front is
  // checked first, and if it passes for a first row then the old first row no longer does. A row
  // moved to the end leaves a gap where it was. A row that stays is checked there, and its
  // successor against its hash.
  function EditReport(h: Hasher, chain: seq<Row>, k: nat, edited: Row): Verification
    requires k < |chain|
  {
    var n, m := |chain|, Place(|chain|, k, edited.core.seqNo);
    if m < k then
      if edited.core.previousHash != Some(GENESIS_HASH) then FailedAt(0, n, edited.core.seqNo, BrokenLink)
      else if !SelfHashed(h, edited) then FailedAt(0, n, edited.core.seqNo, HashMismatch)
      else FailedAt(1, n, Some(1), BrokenLink)
    else if m > k then FailedAt(k, n, Some(k + 2), BrokenLink)
    else if edited.core.previousHash != chain[k].core.previousHash then FailedAt(k, n, edited.core.seqNo, BrokenLink)
    else if !SelfHashed(h, edited) then FailedAt(k, n, edited.core.seqNo, HashMismatch)
    else if edited.eventHash != chain[k].eventHash && k + 1 < n then FailedAt(k + 1, n, Some(k + 2), BrokenLink)
    else Verification(Verified, n, n, None, None)
  }

  lemma MovedFirstReport(sc: Scheme, chain: seq<Row>, k: nat, edited: Row)
    requires Checks(sc.h, chain) && Numbered(chain) && 0 < k < |chain|
    requires edited.eventHash.Some? && CollisionFree(sc, {edited})
    requires Place(|chain|, k, edited.core.seqNo) == 0
    ensures VerifyList(sc.h, Moved(chain, k, 0, edited)) == EditReport(sc.h, chain, k, edited)
  {
    var moved := Moved(chain, k, 0, edited);
    assert moved[0] == edited && moved[1] == chain[0];
    ChecksAt(sc.h, chain, 0);
    if RowChecks(sc.h, moved, 0) {
      assert !Linked(moved, 1);
      VerdictMeaning(sc.h, moved, 1);
    } else {
      VerdictMeaning(sc.h, moved, 0);
    }
  }

  lemma MovedLastReport(sc: Scheme, chain: seq<Row>, k: nat, edited: Row)
    requires Checks(sc.h, chain) && Numbered(chain) && k < |chain| - 1
    requires CollisionFree(sc, RowSet(chain)) && Positional(sc)
    requires Place(|chain|, k, edited.core.seqNo) == |chain| - 1
    ensures VerifyList(sc.h, Moved(chain, k, |chain| - 1, edited)) == EditReport(sc.h, chain, k, edited)
  {
    var moved := Moved(chain, k, |chain| - 1, edited);
    GapBreaksLink(sc, chain, k, k + 1);
    assert moved[..k + 1] == chain[..k] + [chain[k + 1]];
    GapIsFirstBreak(sc.h, chain, moved, k, k + 1);
  }

  lemma InPlaceReport(sc: Scheme, chain: seq<Row>, k: nat, edited: Row)
    requires Checks(sc.h, chain) && Numbered(chain) && k < |chain|
    requires Place(|chain|, k, edited.core.seqNo) == k
    ensures VerifyList(sc.h, Moved(chain, k, k, edited)) == EditReport(sc.h, chain, k, edited)
  {
    var moved := chain[k := edited];
    MovedInPlace(chain, k, edited);
    ReplacedChecks(sc.h, chain, k, edited, moved);
    ChecksAt(sc.h, chain, k);
    if !RowChecks(sc.h, moved, k) {
      VerdictMeaning(sc.h, moved, k);
    } else if edited.eventHash != chain[k].eventHash && k + 1 < |chain| {
      ChecksAt(sc.h, chain, k + 1);
      VerdictMeaning(sc.h, moved, k + 1);
    } else {
      VerdictMeaning(sc.h, moved, |chain|);
    }
  }

  // Replacing row k leaves every row but k and its successor checking, and the successor too if
  // the hash stays.
  lemma ReplacedChecks(h: Hasher, chain: seq<Row>, k: nat, row: Row, replaced: seq<Row>)
    requires Checks(h, chain) && k < |chain| && replaced == chain[k := row]
    ensures forall j :: 0 <= j < |chain| && j != k && (j != k + 1 || row.eventHash == chain[k].eventHash) ==>
              RowChecks(h, replaced, j)
  {
    forall j | 0 <= j < |chain| && j != k && (j != k + 1 || row.eventHash == chain[k].eventHash)
      ensures RowChecks(h, replaced, j)
    {
      ChecksAt(h, chain, j);
    }
  }

  // What the write path guarantees of the chain that is edited.
  lemma ChainChecks(h: Hasher, rows: seq<Row>)
    requires ChainInv(h, rows)
    ensures Numbered(Chained(rows)) && Checks(h, Chained(rows)) && OrderedChain(rows) == Chained(rows)
  {
    ChainIsOrdered(h, rows);
    VerdictMeaning(h, Chained(rows), |Chained(rows)|);
  }

  lemma FewerRowsCollideLess(sc: Scheme, rows: set<Row>, some: set<Row>)
    requires CollisionFree(sc, rows) && some <= rows
    ensures CollisionFree(sc, some)
  {
  }

  lemma MovedReport(sc: Scheme, chain: seq<Row>, k: nat, edited: Row)
    requires Checks(sc.h, chain) && Numbered(chain) && k < |chain| && edited.eventHash.Some?
    requires Positional(sc) && CollisionFree(sc, RowSet(chain) + {edited})
    ensures var m := Place(|chain|, k, edited.core.seqNo);
            VerifyList(sc.h, Moved(chain, k, m, edited)) == EditReport(sc.h, chain, k, edited)
  {
    var m := Place(|chain|, k, edited.core.seqNo);
    if m < k {
      FewerRowsCollideLess(sc, RowSet(chain) + {edited}, {edited});
      MovedFirstReport(sc, chain, k, edited);
    } else if m > k {
      FewerRowsCollideLess(sc, RowSet(chain) + {edited}, RowSet(chain));
      MovedLastReport(sc, chain, k, edited);
    } else {
      InPlaceReport(sc, chain, k, edited);
    }
  }

  // The exact report on any edit of one hashed row that leaves it a hash, its seq included, as
  // far as the unique column lets the seq be edited.
  lemma EditVerdict(sc: Scheme, rows: seq<Row>, p: nat, edited: Row)
    requires ChainInv(sc.h, rows) && p < |rows| && rows[p].eventHash.Some?
    requires edited.eventHash.Some? && SeqIsFree(rows, p, edited)
    requires Positional(sc) && CollisionFree(sc, RowSet(Chained(rows)) + {edited})
    ensures ChainIndex(rows, p) < |Chained(rows)|
    ensures VerifyTable(sc.h, rows[p := edited]) == EditReport(sc.h, Chained(rows), ChainIndex(rows, p), edited)
  {
    ChainChecks(sc.h, rows);
    EditedOrder(sc.h, rows, p, edited);
    MovedReport(sc, Chained(rows), ChainIndex(rows, p), edited);
  }

  // Such an edit goes unnoticed exactly when the row keeps its place and its link, hashes to
  // itself, and either keeps its hash or has no successor.
  lemma EditNoticedIff(sc: Scheme, rows: seq<Row>, p: nat, edited: Row)
    requires ChainInv(sc.h, rows) && p < |rows| && rows[p].eventHash.Some?
    requires edited.eventHash.Some? && SeqIsFree(rows, p, edited)
    requires Positional(sc) && CollisionFree(sc, RowSet(Chained(rows)) + {edited})
    ensures var n, k := |Chained(rows)|, ChainIndex(rows, p);
            VerifyTable(sc.h, rows[p := edited]).status != Failed <==>
            && Place(n, k, edited.core.seqNo) == k && edited.core.previousHash == rows[p].core.previousHash
            && SelfHashed(sc.h, edited) && (edited.eventHash == rows[p].eventHash || k + 1 == n)
  {
    ChainAround(rows, p);
    EditVerdict(sc, rows, p, edited);
  }

  // An edited payload, of whatever fields, with the stored hash left alone is always reported,
  // after as many verified rows as stand before the nearer of the row's old and new place; as a
  // broken link if the row links wrongly there or has left a gap, as a hash mismatch otherwise.
  lemma EditIsReported(sc: Scheme, rows: seq<Row>, p: nat, edited: Row)
    requires ChainInv(sc.h, rows) && p < |rows| && rows[p].eventHash.Some?
    requires edited.eventHash == rows[p].eventHash && SeqIsFree(rows, p, edited)
    requires sc.payload(edited.core) != sc.payload(rows[p].core)
    requires Positional(sc) && CollisionFree(sc, RowSet(Chained(rows)) + {edited})
    ensures var n, k := |Chained(rows)|, ChainIndex(rows, p);
            var m := Place(n, k, edited.core.seqNo);
            var expected := if m < k then Some(GENESIS_HASH) else rows[p].core.previousHash;
            VerifyTable(sc.h, rows[p := edited]) ==
            if m > k then FailedAt(k, n, Some(k + 2), BrokenLink)
            else FailedAt(if m < k then 0 else k, n, edited.core.seqNo,
                          if edited.core.previousHash != expected then BrokenLink else HashMismatch)
  {
    ChainAround(rows, p);
    ChainChecks(sc.h, rows);
    ChecksAt(sc.h, Chained(rows), ChainIndex(rows, p));
    EditVerdict(sc, rows, p, edited);
  }

  // A row forged together with its own hash is reported unless it is the last one and keeps its
  // place and its link: that forgery, and no other, goes unnoticed.
  lemma ForgeryIsReported(sc: Scheme, rows: seq<Row>, p: nat, forged: Row)
    requires ChainInv(sc.h, rows) && p < |rows| && rows[p].eventHash.Some?
    requires SelfHashed(sc.h, forged) && SeqIsFree(rows, p, forged)
    requires sc.payload(forged.core) != sc.payload(rows[p].core)
    requires Positional(sc) && CollisionFree(sc, RowSet(Chained(rows)) + {forged})
    ensures var n, k := |Chained(rows)|, ChainIndex(rows, p);
            var m := Place(n, k, forged.core.seqNo);
            VerifyTable(sc.h, rows[p := forged]) ==
            if m > k then FailedAt(k, n, Some(k + 2), BrokenLink)
            else if m < k then
              if forged.core.previousHash != Some(GENESIS_HASH) then FailedAt(0, n, forged.core.seqNo, BrokenLink)
              else FailedAt(1, n, Some(1), BrokenLink)
            else if forged.core.previousHash != rows[p].core.previousHash
            then FailedAt(k, n, forged.core.seqNo, BrokenLink)
            else if k + 1 < n then FailedAt(k + 1, n, Some(k + 2), BrokenLink)
            else Verification(Verified, n, n, None, None)
  {
    ChainAround(rows, p);
    ChainChecks(sc.h, rows);
    ChecksAt(sc.h, Chained(rows), ChainIndex(rows, p));
    EditVerdict(sc, rows, p, forged);
  }

  // ---- Deleting rows from the table ----

  // The chain positions of the rows a DELETE keeps none of.
  ghost function Deleted(keep: Row -> bool, chain: seq<Row>): set<nat> {
    set i: nat | i < |chain| && !keep(chain[i])
  }

  lemma {:induction false} SurvivorsAreKept(keep: Row -> bool, chain: seq<Row>, n: nat)
    requires n <= |chain|
    ensures Survivors(chain, Deleted(keep, chain), n) == Filter(keep, chain[..n])
  {
    if n > 0 {
      SurvivorsAreKept(keep, chain, n - 1);
      assert chain[..n][..n - 1] == chain[..n - 1];
    }
  }

  lemma {:induction false} FiltersCommute(keep: Row -> bool, also: Row -> bool, rows: seq<Row>)
    ensures Filter(keep, Filter(also, rows)) == Filter(also, Filter(keep, rows))
  {
    if rows != [] {
      var n := |rows| - 1;
      FiltersCommute(keep, also, rows[..n]);
      var last := [rows[n]];
      assert rows == rows[..n] + last;
      FilterAppend(keep, Filter(also, rows[..n]), if also(rows[n]) then last else []);
      FilterAppend(also, Filter(keep, rows[..n]), if keep(rows[n]) then last else []);
      assert Filter(keep, last) == (if keep(rows[n]) then last else []) &&
          Filter(also, last) == (if also(rows[n]) then last else []);
    }
  }

  // Rows that survive in table order still ascend.
  lemma {:induction false} SurvivorsAscend(chain: seq<Row>, dead: set<nat>, n: nat)
    requires Numbered(chain) && n <= |chain|
    ensures var s := Survivors(chain, dead, n);
            Ordered(SeqLe, s) && (s != [] ==> s[|s| - 1].core.seqNo.Some? && s[|s| - 1].core.seqNo.value <= n)
  {
    if n > 0 {
      SurvivorsAscend(chain, dead, n - 1);
      assert chain[n - 1].core.seqNo == Some(n - 1 + 1);
    }
  }

  // After a DELETE the check reads exactly the surviving part of the chain.
  lemma DeletionOrder(h: Hasher, rows: seq<Row>, keep: Row -> bool)
    requires ChainInv(h, rows)
    ensures var chain := Chained(rows);
            OrderedChain(Filter(keep, rows)) == Survivors(chain, Deleted(keep, chain), |chain|)
  {
    var chain := Chained(rows);
    ChainChecks(h, rows);
    FiltersCommute((r: Row) => r.eventHash.Some?, keep, rows);
    SurvivorsAreKept(keep, chain, |chain|);
    assert chain[..|chain|] == chain;
    SurvivorsAscend(chain, Deleted(keep, chain), |chain|);
    OrderByOrdered(SeqLe, Survivors(chain, Deleted(keep, chain), |chain|));
  }

  // Deleting any rows of the table is reported as a broken link at the first surviving row
  // behind a deleted one, with as many verified rows as stand before the gap.
  lemma TableDeletionIsReported(sc: Scheme, rows: seq<Row>, keep: Row -> bool, d: nat, f: nat)
    requires ChainInv(sc.h, rows) && Positional(sc) && CollisionFree(sc, RowSet(Chained(rows)))
    requires d < f < |Chained(rows)| && keep(Chained(rows)[f])
    requires forall x :: 0 <= x < d ==> keep(Chained(rows)[x])
    requires forall x :: d <= x < f ==> !keep(Chained(rows)[x])
    ensures VerifyTable(sc.h, Filter(keep, rows)) ==
            FailedAt(d, |Chained(Filter(keep, rows))|, Some(f + 1), BrokenLink)
  {
    var chain := Chained(rows);
    ChainChecks(sc.h, rows);
    DeletionOrder(sc.h, rows, keep);
    DeletionIsReported(sc, chain, Deleted(keep, chain), d, f);
    OrderByPermutes(SeqLe, Chained(Filter(keep, rows)));
    assert |multiset(OrderedChain(Filter(keep, rows)))| == |OrderedChain(Filter(keep, rows))|;
  }

  // ... and goes unnoticed exactly when no row behind a deleted one survives.
  lemma TableDeletionNoticedIff(sc: Scheme, rows: seq<Row>, keep: Row -> bool)
    requires ChainInv(sc.h, rows) && Positional(sc) && CollisionFree(sc, RowSet(Chained(rows)))
    ensures VerifyTable(sc.h, Filter(keep, rows)).status == Failed <==> LeavesGap(keep, Chained(rows))
  {
    ChainChecks(sc.h, rows);
    DeletionOrder(sc.h, rows, keep);
    DeletionNoticedIff(sc, Chained(rows), Deleted(keep, Chained(rows)));
    GapsAgree(keep, Chained(rows), Deleted(keep, Chained(rows)));
  }

  // Some surviving row follows a deleted one.
  ghost predicate LeavesGap(keep: Row -> bool, chain: seq<Row>) {
    exists i, j :: 0 <= i < j < |chain| && !keep(chain[i]) && keep(chain[j])
  }

  lemma GapsAgree(keep: Row -> bool, chain: seq<Row>, dead: set<nat>)
    requires dead == Deleted(keep, chain)
    ensures LeavesGap(keep, chain) <==> exists i, j :: 0 <= i < j < |chain| && i in dead && j !in dead
  {
    if i, j :| 0 <= i < j < |chain| && !keep(chain[i]) && keep(chain[j]) {
      assert i in dead && j !in dead;
    }
    if i, j :| 0 <= i < j < |chain| && i in dead && j !in dead {
      assert !keep(chain[i]) && keep(chain[j]);
    }
  }

  // ---- Erasing a hash ----

  lemma ErasedChain(rows: seq<Row>, p: nat, erased: Row)
    requires p < |rows| && rows[p].eventHash.Some? && erased.eventHash.None?
    ensures ChainIndex(rows, p) < |Chained(rows)|
    ensures Chained(rows[p := erased]) == Without(Chained(rows), ChainIndex(rows, p))
  {
    var keep := (r: Row) => r.eventHash.Some?;
    ChainAround(rows, p);
    assert rows[p := erased] == rows[..p] + [erased] + rows[p + 1..];
    FilterAppend(keep, rows[..p] + [erased], rows[p + 1..]);
    FilterAppend(keep, rows[..p], [erased]);
    assert Filter(keep, [erased]) == [];
  }

  lemma WithoutReport(sc: Scheme, chain: seq<Row>, k: nat)
    requires Checks(sc.h, chain) && Numbered(chain) && k < |chain|
    requires Positional(sc) && CollisionFree(sc, RowSet(chain))
    ensures var n := |chain|;
            VerifyList(sc.h, Without(chain, k)) ==
            if k + 1 < n then FailedAt(k, n - 1, Some(k + 2), BrokenLink)
            else if k == 0 then Verification(Empty, 0, 0, None, None)
            else Verification(Verified, k, k, None, None)
  {
    var left := Without(chain, k);
    if k + 1 < |chain| {
      GapBreaksLink(sc, chain, k, k + 1);
      assert left[..k + 1] == chain[..k] + [chain[k + 1]];
      GapIsFirstBreak(sc.h, chain, left, k, k + 1);
    } else {
      assert left == chain[..k];
      PrefixChecks(sc.h, chain, k);
    }
  }

  // Clearing a row's hash makes it a legacy row, which the check skips: the same as deleting it.
  lemma ErasedHashIsReported(sc: Scheme, rows: seq<Row>, p: nat, erased: Row)
    requires ChainInv(sc.h, rows) && p < |rows| && rows[p].eventHash.Some? && erased.eventHash.None?
    requires Positional(sc) && CollisionFree(sc, RowSet(Chained(rows)))
    ensures var n, k := |Chained(rows)|, ChainIndex(rows, p);
            VerifyTable(sc.h, rows[p := erased]) ==
            if k + 1 < n then FailedAt(k, n - 1, Some(k + 2), BrokenLink)
            else if k == 0 then Verification(Empty, 0, 0, None, None)
            else Verification(Verified, k, k, None, None)
  {
    ChainChecks(sc.h, rows);
    ErasedChain(rows, p, erased);
    WithoutAscends(Chained(rows), ChainIndex(rows, p));
    OrderByOrdered(SeqLe, Without(Chained(rows), ChainIndex(rows, p)));
    WithoutReport(sc, Chained(rows), ChainIndex(rows, p));
  }

  // ---- Inserting a row ----

  // The report on a row inserted under a number nobody has: in front of the chain, where the old
  // first row follows it, or at its end, where it is checked like a recorded one.
  function InsertReport(h: Hasher, chain: seq<Row>, added: Row): Verification {
    var n := |chain|;
    var first := added.core.seqNo.None? || added.core.seqNo.value <= 0;
    var at := if first then 0 else n;
    if added.core.previousHash != ExpectedPrevious(chain, at) then FailedAt(at, n + 1, added.core.seqNo, BrokenLink)
    else if !SelfHashed(h, added) then FailedAt(at, n + 1, added.core.seqNo, HashMismatch)
    else if first && n > 0 then FailedAt(1, n + 1, Some(1), BrokenLink)
    else Verification(Verified, n + 1, n + 1, None, None)
  }

  lemma InsertedFirstReport(sc: Scheme, chain: seq<Row>, added: Row)
    requires Checks(sc.h, chain) && Numbered(chain) && CollisionFree(sc, {added}) && added.eventHash.Some?
    requires added.core.seqNo.None? || added.core.seqNo.value <= 0
    ensures VerifyList(sc.h, [added] + chain) == InsertReport(sc.h, chain, added)
  {
    var longer := [added] + chain;
    if !RowChecks(sc.h, longer, 0) {
      VerdictMeaning(sc.h, longer, 0);
    } else if chain != [] {
      ChecksAt(sc.h, chain, 0);
      assert longer[1] == chain[0];
      VerdictMeaning(sc.h, longer, 1);
    }
  }

  lemma InsertedLastReport(h: Hasher, chain: seq<Row>, added: Row)
    requires Checks(h, chain) && added.core.seqNo.Some? && added.core.seqNo.value > 0
    ensures VerifyList(h, chain + [added]) == InsertReport(h, chain, added)
  {
    var longer, n := chain + [added], |chain|;
    forall j | 0 <= j < n ensures RowChecks(h, longer, j) {
      ChecksAt(h, chain, j);
    }
    VerdictMeaning(h, longer, if RowChecks(h, longer, n) then n + 1 else n);
  }

  // The exact report on any hashed row inserted past the service, as far as the unique column
  // lets it in: it goes unnoticed exactly at the end, linked and hashed like a recorded row.
  lemma InsertionVerdict(sc: Scheme, rows: seq<Row>, added: Row)
    requires ChainInv(sc.h, rows) && added.eventHash.Some? && !SeqTaken(rows, added.core.seqNo)
    requires CollisionFree(sc, {added})
    ensures VerifyTable(sc.h, rows + [added]) == InsertReport(sc.h, Chained(rows), added)
  {
    var chain, s := Chained(rows), added.core.seqNo;
    ChainChecks(sc.h, rows);
    assert (rows + [added])[..|rows|] == rows && (chain + [added])[..|chain|] == chain;
    if s.None? || s.value <= 0 {
      forall i | 0 <= i < |chain| ensures !SeqLe(chain[i], added) {
        assert chain[i].core.seqNo == Some(i + 1);
      }
      InsertFront(SeqLe, added, chain);
      InsertedFirstReport(sc, chain, added);
    } else {
      TakenIff(sc.h, rows, s.value);
      EndsFront(chain, added);
      InsertedLastReport(sc.h, chain, added);
    }
  }
}
