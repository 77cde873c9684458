// `record` called by any number of writers at once. Only the head read and the commit touch
// the shared table, so those are the steps that interleave; a commit either succeeds or is
// refused by UNIQUE(seq), and the database may be locked instead.
module AuditRace {
  import opened Prelude
  import opened EventHash
  import opened AuditLog

  // Where one writer is in its current or last call. `since` counts the commits made by anyone
  // before the call began, `seen` those made before the head it last read, `locks` the lock
  // errors the call has met.
  datatype Writer =
    | Idle
    | Reading(f: Fields, attempt: nat, since: nat, locks: nat)
    | Ready(f: Fields, row: Row, seen: nat, attempt: nat, since: nat, locks: nat)
    | Done(row: Row, since: nat)
    | GaveUp(since: nat, until: nat, locks: nat)

  // The table, the writer of each row appended since the start, and every writer's position.
  datatype State = State(rows: seq<Row>, commits: seq<nat>, writers: nat -> Writer)

  datatype Event =
    | Call(w: nat, f: Fields)
    | ReadHead(w: nat, now: Timestamp)
    | Commit(w: nat)
    | LockError(w: nat)

  function Put(writers: nat -> Writer, w: nat, p: Writer): nat -> Writer {
    (v: nat) => if v == w then p else writers(v)
  }

  function Retry(p: Writer, now: nat, locked: bool): Writer
    requires p.Ready?
  {
    var locks := p.locks + if locked then 1 else 0;
    if p.attempt + 1 < MAX_RECORD_ATTEMPTS then Reading(p.f, p.attempt + 1, p.since, locks)
    else GaveUp(p.since, now, locks)
  }

  // One step of one writer; an event that does not fit the writer's position changes nothing.
  ghost function Step(h: Hasher, s: State, e: Event): State {
    var p := s.writers(e.w);
    match e
    case Call(w, f) =>
      if p.Reading? || p.Ready? then s
      else s.(writers := Put(s.writers, w, Reading(f, 0, |s.commits|, 0)))
    case ReadHead(w, now) =>
      if !p.Reading? then s
      else
        var row := NextRow(h, ChainHead(s.rows), p.f.(createdAt := Some(now)));
        s.(writers := Put(s.writers, w, Ready(p.f, row, |s.commits|, p.attempt, p.since, p.locks)))
    case Commit(w) =>
      if !p.Ready? then s
      else if SeqTaken(s.rows, p.row.core.seqNo) then
        s.(writers := Put(s.writers, w, Retry(p, |s.commits|, false)))
      else
        State(s.rows + [p.row], s.commits + [w], Put(s.writers, w, Done(p.row, p.since)))
    case LockError(w) =>
      if !p.Ready? then s
      else s.(writers := Put(s.writers, w, Retry(p, |s.commits|, true)))
  }

  ghost function Run(h: Hasher, s: State, es: seq<Event>): State {
    if es == [] then s else Step(h, Run(h, s, es[..|es| - 1]), es[|es| - 1])
  }

  // ---- The interleaving invariant ----

  // No row appended in positions from..to belongs to w.
  ghost predicate Foreign(commits: seq<nat>, w: nat, from: nat, to: nat) {
    from <= to <= |commits| && forall k :: from <= k < to ==> commits[k] != w
  }

  // Every failed attempt is paid for by a foreign commit made during the call or by a lock.
  ghost predicate WriterOk(h: Hasher, n0: nat, s: State, w: nat) {
    var n := |s.commits|;
    match s.writers(w)
    case Idle => true
    case Reading(f, attempt, since, locks) =>
      Foreign(s.commits, w, since, n) && attempt <= n - since + locks
    case Ready(f, row, seen, attempt, since, locks) =>
      && Foreign(s.commits, w, since, n)
      && since <= seen <= n
      && attempt <= seen - since + locks
      && SelfHashed(h, row)
      && row.core.seqNo == Some(n0 + seen + 1)
      && (seen == n ==> row.core.previousHash == ExpectedPrevious(Chained(s.rows), |Chained(s.rows)|))
    case Done(row, since) =>
      exists k :: since <= k < n && OwnRow(n0, s, w, since, k, row)
    case GaveUp(since, until, locks) =>
      Foreign(s.commits, w, since, until) && MAX_RECORD_ATTEMPTS <= until - since + locks
  }

  // Since the commit count was `since`, writer w has appended exactly one row: number k.
  ghost predicate OwnRow(n0: nat, s: State, w: nat, since: nat, k: nat, row: Row) {
    && k < |s.commits|
    && Foreign(s.commits, w, since, k)
    && s.commits[k] == w
    && Foreign(s.commits, w, k + 1, |s.commits|)
    && n0 + k < |Chained(s.rows)| && Chained(s.rows)[n0 + k] == row
  }

  ghost predicate Inv(h: Hasher, n0: nat, s: State) {
    && ChainInv(h, s.rows)
    && |Chained(s.rows)| == n0 + |s.commits|
    && forall w: nat :: WriterOk(h, n0, s, w)
  }

  // A commit is accepted only from a writer whose head is still the head.
  lemma AcceptedCommit(h: Hasher, n0: nat, s: State, w: nat)
    requires Inv(h, n0, s) && s.writers(w).Ready?
    ensures var p := s.writers(w);
            && (SeqTaken(s.rows, p.row.core.seqNo) <==> p.seen < |s.commits|)
            && (p.seen == |s.commits| ==> ChainInv(h, s.rows + [p.row]))
            && (p.seen == |s.commits| ==> Chained(s.rows + [p.row]) == Chained(s.rows) + [p.row])
  {
    var p := s.writers(w);
    assert WriterOk(h, n0, s, w);
    TakenIff(h, s.rows, n0 + p.seen + 1);
    if p.seen == |s.commits| {
      ChainGrows(h, s.rows, p.row);
    }
  }

  lemma StepKeepsInv(h: Hasher, n0: nat, s: State, e: Event)
    requires Inv(h, n0, s)
    ensures Inv(h, n0, Step(h, s, e)) && s.rows <= Step(h, s, e).rows
  {
    var t := Step(h, s, e);
    var p := s.writers(e.w);
    assert WriterOk(h, n0, s, e.w);
    if e.Commit? && p.Ready? {
      AcceptedCommit(h, n0, s, e.w);
      assert t.commits == s.commits || (t.rows == s.rows + [p.row] && p.seen == |s.commits|);
    }
    forall w: nat ensures WriterOk(h, n0, t, w) {
      if t.commits != s.commits {
        CommitKeepsWriter(h, n0, s, t, e.w, w);
      } else if w == e.w {
        OwnStepKeepsWriter(h, n0, s, e);
      } else {
        assert WriterOk(h, n0, s, w);
        StaysOwn(n0, s, t, w);
      }
    }
  }

  lemma OwnStepKeepsWriter(h: Hasher, n0: nat, s: State, e: Event)
    requires Inv(h, n0, s) && Step(h, s, e).commits == s.commits
    ensures WriterOk(h, n0, Step(h, s, e), e.w)
  {
    var p := s.writers(e.w);
    assert WriterOk(h, n0, s, e.w);
    StaysOwn(n0, s, Step(h, s, e), e.w);
    if e.ReadHead? && p.Reading? {
      NextAfterHead(h, s.rows, p.f.(createdAt := Some(e.now)));
    }
    if e.Commit? && p.Ready? {
      AcceptedCommit(h, n0, s, e.w);
    }
  }

  lemma StaysOwn(n0: nat, s: State, t: State, w: nat)
    requires s.commits <= t.commits && Chained(s.rows) <= Chained(t.rows)
    requires Foreign(t.commits, w, |s.commits|, |t.commits|)
    ensures forall since, k, row :: OwnRow(n0, s, w, since, k, row) ==> OwnRow(n0, t, w, since, k, row)
  {
  }

  lemma CommitKeepsWriter(h: Hasher, n0: nat, s: State, t: State, c: nat, w: nat)
    requires Inv(h, n0, s) && s.writers(c).Ready?
    requires t == Step(h, s, Commit(c)) && t.commits == s.commits + [c]
    requires Chained(t.rows) == Chained(s.rows) + [s.writers(c).row]
    ensures WriterOk(h, n0, t, w)
  {
    assert WriterOk(h, n0, s, w) && WriterOk(h, n0, s, c);
    var n := |s.commits|;
    if w == c {
      assert OwnRow(n0, t, w, s.writers(c).since, n, s.writers(c).row);
    } else {
      StaysOwn(n0, s, t, w);
      assert t.writers(w) == s.writers(w);
    }
  }

  lemma {:induction false} RunKeepsInv(h: Hasher, n0: nat, s: State, es: seq<Event>)
    requires Inv(h, n0, s)
    ensures Inv(h, n0, Run(h, s, es)) && s.rows <= Run(h, s, es).rows
  {
    if es != [] {
      RunKeepsInv(h, n0, s, es[..|es| - 1]);
      StepKeepsInv(h, n0, Run(h, s, es[..|es| - 1]), es[|es| - 1]);
    }
  }

  // ---- What every interleaving guarantees ----

  // Any table that satisfies the chain invariant, with nobody in a call.
  function Start(rows: seq<Row>): State {
    State(rows, [], (w: nat) => Idle)
  }

  // The chain never forks or gaps: every reachable table only appends to the first one, its
  // hashed rows are numbered 1..n, linked and self-hashed, and the full check passes.
  lemma ChainNeverForks(h: Hasher, rows: seq<Row>, es: seq<Event>)
    requires ChainInv(h, rows)
    ensures var t := Run(h, Start(rows), es);
            && rows <= t.rows
            && ChainInv(h, t.rows)
            && |Chained(t.rows)| == |Chained(rows)| + |t.commits|
            && VerifyList(h, OrderedChain(t.rows)).status != Failed
  {
    RunKeepsInv(h, |Chained(rows)|, Start(rows), es);
    InvariantVerifies(h, Run(h, Start(rows), es).rows, "");
  }

  // Progress: a call that raises has been charged fifty times, each time for a distinct commit
  // by another writer during the call or for a lock error, and has appended nothing.
  lemma FailureIsPaidFor(h: Hasher, rows: seq<Row>, es: seq<Event>, w: nat)
    requires ChainInv(h, rows)
    requires Run(h, Start(rows), es).writers(w).GaveUp?
    ensures var t := Run(h, Start(rows), es); var p := t.writers(w);
            && Foreign(t.commits, w, p.since, p.until)
            && p.until - p.since + p.locks >= MAX_RECORD_ATTEMPTS
  {
    RunKeepsInv(h, |Chained(rows)|, Start(rows), es);
    assert WriterOk(h, |Chained(rows)|, Run(h, Start(rows), es), w);
  }

  // A call that returns has appended exactly its own row and no other.
  lemma SuccessIsOneRow(h: Hasher, rows: seq<Row>, es: seq<Event>, w: nat)
    requires ChainInv(h, rows)
    requires Run(h, Start(rows), es).writers(w).Done?
    ensures var t := Run(h, Start(rows), es); var p := t.writers(w);
            exists k :: p.since <= k < |t.commits| && OwnRow(|Chained(rows)|, t, w, p.since, k, p.row)
  {
    RunKeepsInv(h, |Chained(rows)|, Start(rows), es);
    assert WriterOk(h, |Chained(rows)|, Run(h, Start(rows), es), w);
  }
}
