// What verify_chain proves about a log somebody may have edited. The only thing asked of
// SHA-256 is that it has no collision among the events at hand and maps none to GENESIS.
module AuditTamper {
  import opened Prelude
  import opened EventHash
  import opened AuditLog

  // A hash of event cores together with the payload text it is computed from.
  datatype Scheme = Scheme(h: Hasher, payload: Core -> string)

  function SchemeOf(lib: Lib): Scheme {
    Scheme(HasherOf(lib), (c: Core) => CanonicalPayload(lib, c))
  }

  // No two of these events with different payloads hash alike, and none hashes to GENESIS.
  ghost predicate CollisionFree(sc: Scheme, rows: set<Row>) {
    && (forall a, b :: a in rows && b in rows && sc.h(a.core) == sc.h(b.core) ==>
                       sc.payload(a.core) == sc.payload(b.core))
    && (forall a :: a in rows ==> sc.h(a.core) != GENESIS_HASH)
  }

  function RowSet(rows: seq<Row>): set<Row> {
    set r | r in rows
  }

  // The payload contains the position and the previous hash.
  ghost predicate Positional(sc: Scheme) {
    forall c, d :: sc.payload(c) == sc.payload(d) ==> c.seqNo == d.seqNo && c.previousHash == d.previousHash
  }

  lemma CanonicalIsPositional(lib: Lib)
    ensures Positional(SchemeOf(lib))
  {
    forall c, d | SchemeOf(lib).payload(c) == SchemeOf(lib).payload(d)
      ensures c.seqNo == d.seqNo && c.previousHash == d.previousHash
    {
      PayloadCommits(lib, c, d);
    }
  }

  ghost predicate Checks(h: Hasher, chain: seq<Row>) {
    VerifyList(h, chain).status != Failed
  }

  lemma ChecksAt(h: Hasher, chain: seq<Row>, j: nat)
    requires Checks(h, chain) && j < |chain|
    ensures RowChecks(h, chain, j)
  {
  }

  // ---- One head, one log ----

  // The limit the design admits: cutting off the tail goes unnoticed.
  lemma PrefixChecks(h: Hasher, chain: seq<Row>, n: nat)
    requires Checks(h, chain) && n <= |chain|
    ensures Checks(h, chain[..n])
  {
    forall j | 0 <= j < n ensures RowChecks(h, chain[..n], j) {
      assert RowChecks(h, chain, j);
    }
  }

  // A first row never carries the hash of a later row's predecessor.
  lemma RootIsFirst(sc: Scheme, all: set<Row>, chain: seq<Row>, j: nat)
    requires Checks(sc.h, chain) && CollisionFree(sc, all) && j < |chain|
    requires RowSet(chain) <= all
    ensures j == 0 <==> chain[j].core.previousHash == Some(GENESIS_HASH)
  {
    ChecksAt(sc.h, chain, j);
    if j > 0 {
      ChecksAt(sc.h, chain, j - 1);
    }
  }

  // Rows of two verified logs with the same hash have the same payload, are both first or
  // both not, and then their predecessors have the same hash.
  lemma SameHashStep(sc: Scheme, all: set<Row>, xs: seq<Row>, ys: seq<Row>, i: nat, j: nat)
    requires Checks(sc.h, xs) && Checks(sc.h, ys) && CollisionFree(sc, all) && Positional(sc)
    requires RowSet(xs) <= all && RowSet(ys) <= all
    requires i < |xs| && j < |ys| && xs[i].eventHash == ys[j].eventHash
    ensures sc.payload(xs[i].core) == sc.payload(ys[j].core)
    ensures i == 0 <==> j == 0
    ensures i > 0 && j > 0 ==> xs[i - 1].eventHash == ys[j - 1].eventHash
  {
    ChecksAt(sc.h, xs, i);
    ChecksAt(sc.h, ys, j);
    assert xs[i] in all && ys[j] in all;
    assert sc.payload(xs[i].core) == sc.payload(ys[j].core);
    RootIsFirst(sc, all, xs, i);
    RootIsFirst(sc, all, ys, j);
  }

  // From the common last hash backwards: k rows from the end the logs still agree.
  lemma {:induction false} SameFromEnd(sc: Scheme, all: set<Row>, xs: seq<Row>, ys: seq<Row>, k: nat)
    requires Checks(sc.h, xs) && Checks(sc.h, ys) && CollisionFree(sc, all) && Positional(sc)
    requires RowSet(xs) <= all && RowSet(ys) <= all
    requires k < |xs| && ys != [] && xs[|xs| - 1].eventHash == ys[|ys| - 1].eventHash
    ensures k < |ys| && xs[|xs| - 1 - k].eventHash == ys[|ys| - 1 - k].eventHash
  {
    if k > 0 {
      SameFromEnd(sc, all, xs, ys, k - 1);
      SameHashStep(sc, all, xs, ys, |xs| - k, |ys| - k);
    }
  }

  lemma SameLength(sc: Scheme, all: set<Row>, xs: seq<Row>, ys: seq<Row>)
    requires Checks(sc.h, xs) && Checks(sc.h, ys) && CollisionFree(sc, all) && Positional(sc)
    requires RowSet(xs) <= all && RowSet(ys) <= all
    requires xs != [] && ys != [] && xs[|xs| - 1].eventHash == ys[|ys| - 1].eventHash
    ensures |xs| == |ys|
  {
    SameFromEnd(sc, all, xs, ys, |xs| - 1);
    SameFromEnd(sc, all, ys, xs, |ys| - 1);
  }

  // Two logs that both verify and end in the same hash are the same log, payload by payload: no
  // edit, deletion, insertion or reordering anywhere leaves the head hash alone.
  lemma HeadHashFixesLog(sc: Scheme, xs: seq<Row>, ys: seq<Row>, i: nat)
    requires Checks(sc.h, xs) && Checks(sc.h, ys) && Positional(sc) && CollisionFree(sc, RowSet(xs) + RowSet(ys))
    requires xs != [] && ys != [] && xs[|xs| - 1].eventHash == ys[|ys| - 1].eventHash
    ensures |xs| == |ys|
    ensures i < |xs| ==> sc.payload(xs[i].core) == sc.payload(ys[i].core) && xs[i].eventHash == ys[i].eventHash
  {
    var all := RowSet(xs) + RowSet(ys);
    SameLength(sc, all, xs, ys);
    if i < |xs| {
      SameFromEnd(sc, all, xs, ys, |xs| - 1 - i);
      SameHashStep(sc, all, xs, ys, i, i);
    }
  }

  // For the canonical payload that is agreement on every hashed field of every row.
  lemma HeadHashFixesFields(lib: Lib, xs: seq<Row>, ys: seq<Row>)
    requires Checks(HasherOf(lib), xs) && Checks(HasherOf(lib), ys) &&
            CollisionFree(SchemeOf(lib), RowSet(xs) + RowSet(ys))
    requires xs != [] && ys != [] && xs[|xs| - 1].eventHash == ys[|ys| - 1].eventHash
    ensures |xs| == |ys|
    ensures forall i :: 0 <= i < |xs| ==> SameHashedFields(lib, xs[i].core, ys[i].core)
  {
    CanonicalIsPositional(lib);
    HeadHashFixesLog(SchemeOf(lib), xs, ys, 0);
    forall i | 0 <= i < |xs| ensures SameHashedFields(lib, xs[i].core, ys[i].core) {
      HeadHashFixesLog(SchemeOf(lib), xs, ys, i);
      assert SchemeOf(lib).payload(xs[i].core) == SchemeOf(lib).payload(ys[i].core);
      PayloadCommits(lib, xs[i].core, ys[i].core);
    }
  }

  // ---- Deleting rows ----

  // The rows of chain[..n] whose positions are not in `dead`.
  ghost function Survivors(chain: seq<Row>, dead: set<nat>, n: nat): seq<Row>
    requires n <= |chain|
  {
    if n == 0 then [] else Survivors(chain, dead, n - 1) + if n - 1 in dead then [] else [chain[n - 1]]
  }

  // Up to a run d..n of deleted rows, the first deletions of all, what survives is chain[..d].
  lemma {:induction false} SurvivorsUpTo(chain: seq<Row>, dead: set<nat>, d: nat, n: nat)
    requires d <= n <= |chain|
    requires forall x :: 0 <= x < d ==> x !in dead
    requires forall x :: d <= x < n ==> x in dead
    ensures Survivors(chain, dead, n) == chain[..d]
  {
    if n > 0 {
      SurvivorsUpTo(chain, dead, if d == n then d - 1 else d, n - 1);
    }
  }

  lemma {:induction false} SurvivorsGrow(chain: seq<Row>, dead: set<nat>, m: nat, n: nat)
    requires m <= n <= |chain|
    ensures Survivors(chain, dead, m) <= Survivors(chain, dead, n)
  {
    if m < n {
      SurvivorsGrow(chain, dead, m, n - 1);
    }
  }

  // In a numbered log no row past the first gap links to the row in front of the gap.
  lemma GapBreaksLink(sc: Scheme, chain: seq<Row>, d: nat, f: nat)
    requires Checks(sc.h, chain) && CollisionFree(sc, RowSet(chain)) && Positional(sc)
    requires forall i :: 0 <= i < |chain| ==> chain[i].core.seqNo == Some(i + 1)
    requires d < f < |chain|
    ensures chain[f].core.previousHash != ExpectedPrevious(chain, d)
  {
    ChecksAt(sc.h, chain, f);
    ChecksAt(sc.h, chain, f - 1);
    if d > 0 {
      ChecksAt(sc.h, chain, d - 1);
      assert chain[f - 1].core.seqNo != chain[d - 1].core.seqNo;
      assert sc.payload(chain[f - 1].core) != sc.payload(chain[d - 1].core);
    }
  }

  // Rows d..f deleted, everything before d kept, row f kept: the check fails at row f with a
  // broken link, having verified the d rows in front, whatever was deleted after f.
  lemma DeletionIsReported(sc: Scheme, chain: seq<Row>, dead: set<nat>, d: nat, f: nat)
    requires Checks(sc.h, chain) && CollisionFree(sc, RowSet(chain)) && Positional(sc)
    requires forall i :: 0 <= i < |chain| ==> chain[i].core.seqNo == Some(i + 1)
    requires d < f < |chain| && f !in dead
    requires forall x :: 0 <= x < d ==> x !in dead
    requires forall x :: d <= x < f ==> x in dead
    ensures var s := Survivors(chain, dead, |chain|);
            VerifyList(sc.h, s) == Verification(Failed, d, |s|, Some(f + 1), Some(BrokenLink))
  {
    var s := Survivors(chain, dead, |chain|);
    SurvivorsUpTo(chain, dead, d, f);
    SurvivorsGrow(chain, dead, f + 1, |chain|);
    assert s[..d + 1] == chain[..d] + [chain[f]];
    GapBreaksLink(sc, chain, d, f);
    GapIsFirstBreak(sc.h, chain, s, d, f);
  }

  lemma GapIsFirstBreak(h: Hasher, chain: seq<Row>, s: seq<Row>, d: nat, f: nat)
    requires Checks(h, chain) && d < f < |chain| && d < |s|
    requires s[..d + 1] == chain[..d] + [chain[f]]
    requires chain[f].core.previousHash != ExpectedPrevious(chain, d)
    ensures VerifyList(h, s) == Verification(Failed, d, |s|, chain[f].core.seqNo, Some(BrokenLink))
  {
    forall j | 0 <= j <= d ensures s[j] == chain[if j < d then j else f] {
      assert s[j] == s[..d + 1][j] == (chain[..d] + [chain[f]])[j];
    }
    forall j | 0 <= j < d ensures RowChecks(h, s, j) {
      ChecksAt(h, chain, j);
      assert j > 0 ==> s[j - 1] == chain[j - 1];
    }
    assert !Linked(s, d);
    VerdictMeaning(h, s, d);
  }

  // Deleting any set of rows from a verified log is noticed exactly when some surviving row
  // follows a deleted one.
  lemma DeletionNoticedIff(sc: Scheme, chain: seq<Row>, dead: set<nat>)
    requires Checks(sc.h, chain) && CollisionFree(sc, RowSet(chain)) && Positional(sc)
    requires forall i :: 0 <= i < |chain| ==> chain[i].core.seqNo == Some(i + 1)
    ensures Checks(sc.h, Survivors(chain, dead, |chain|)) <==>
            !exists i, j :: 0 <= i < j < |chain| && i in dead && j !in dead
  {
    var d := FirstIn(dead, true, 0, |chain|);
    var f := FirstIn(dead, false, d, |chain|);
    if f < |chain| {
      DeletionIsReported(sc, chain, dead, d, f);
    } else {
      SurvivorsUpTo(chain, dead, d, |chain|);
      PrefixChecks(sc.h, chain, d);
    }
  }

  lemma FirstIn(dead: set<nat>, inside: bool, i: nat, n: nat) returns (k: nat)
    requires i <= n
    ensures i <= k <= n && (k < n ==> (k in dead <==> inside))
    ensures forall x :: i <= x < k ==> (x in dead <==> !inside)
  {
    k := i;
    while k < n && (k in dead) != inside
      invariant i <= k <= n
      invariant forall x :: i <= x < k ==> (x in dead <==> !inside)
    {
      k := k + 1;
    }
  }
}
