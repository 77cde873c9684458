// workers/runner.py when nobody else interferes: one poll handles one job to the end.
module SendDrain {
  import opened Prelude
  import opened PolicyText
  import opened SendModel
  import opened SendSafety

  // Commits left until the worker is idle again.
  function CommitsLeft(w: Worker): nat {
    match w
    case Idle => 0
    case Claimed(_) => 6
    case Started(_) => 5
    case Gated(_, _) => 4
    case Merged(_, _, _) => 3
    case Accepted(_, _, _) => 3
    case Recorded(_, _, _) => 2
    case Finishing(_) => 1
    case Failing(_, _, _) => 1
  }

  predicate Usable(o: Outcome) {
    o.ProviderOk? ==> o.id != ""
  }

  predicate Terminal(status: JobStatus) {
    status == Succeeded || status == Failed
  }

  // The worker is at job j, which is not waiting for a retry.
  ghost predicate Busy(s: State, j: JobId) {
    && !s.worker.Idle? && s.worker.job == j && j < |s.jobs|
    && (s.worker.Failing? ==> s.jobs[j].status == Failed)
  }

  ghost predicate OnlyJob(s: State, t: State, j: JobId) {
    && |t.jobs| == |s.jobs|
    && forall i :: 0 <= i < |s.jobs| && i != j ==> t.jobs[i] == s.jobs[i]
  }

  lemma StartIsLocal(tx: TextLib, s: State, o: Outcome, j: JobId)
    requires Inv(s) && Busy(s, j) && s.worker.Started?
    ensures var t := Work(tx, s, o);
            && CommitsLeft(t.worker) < CommitsLeft(s.worker) && OnlyJob(s, t, j)
            && (if t.worker.Idle? then Terminal(t.jobs[j].status) else Busy(t, j))
  {
    if s.jobs[j].jobType == EmailSendApproved {
      SendChecksPass(s);
    }
  }

  lemma WorkIsLocal(tx: TextLib, s: State, o: Outcome, j: JobId)
    requires WorkerOk(s) && Busy(s, j) && !s.worker.Started?
    ensures var t := Work(tx, s, o);
            && CommitsLeft(t.worker) < CommitsLeft(s.worker) && OnlyJob(s, t, j)
            && (if t.worker.Idle? then Terminal(t.jobs[j].status) else Busy(t, j))
  {
  }

  lemma WorkDescends(tx: TextLib, s: State, o: Outcome, j: JobId)
    requires Inv(s) && Busy(s, j) && Usable(o)
    ensures var t := Work(tx, s, o);
            && Inv(t) && CommitsLeft(t.worker) < CommitsLeft(s.worker) && OnlyJob(s, t, j)
            && (if t.worker.Idle? then Terminal(t.jobs[j].status) else Busy(t, j))
  {
    WorkKeepsInv(tx, s, o);
    if s.worker.Started? {
      StartIsLocal(tx, s, o, j);
    } else {
      WorkIsLocal(tx, s, o, j);
    }
  }

  // The worker runs until it is idle, the provider answering o.
  ghost function Finish(tx: TextLib, s: State, o: Outcome): State
    requires Inv(s) && Usable(o) && (s.worker.Idle? || Busy(s, s.worker.job))
    decreases CommitsLeft(s.worker)
  {
    if s.worker.Idle? then s
    else
      WorkDescends(tx, s, o, s.worker.job);
      Finish(tx, Work(tx, s, o), o)
  }

  lemma FinishStep(tx: TextLib, s: State, o: Outcome)
    requires Inv(s) && Usable(o) && !s.worker.Idle? && Busy(s, s.worker.job)
    ensures var t := Work(tx, s, o);
            Inv(t) && (t.worker.Idle? || Busy(t, t.worker.job)) && Finish(tx, s, o) == Finish(tx, t, o)
  {
    WorkDescends(tx, s, o, s.worker.job);
  }

  lemma FinishAccepted(tx: TextLib, s: State, o: Outcome)
    requires Inv(s) && Usable(o) && s.worker.Accepted?
    ensures Finish(tx, s, o) == Work(tx, Work(tx, Work(tx, s, o), o), o)
  {
    var recorded := Work(tx, s, o);
    FinishStep(tx, s, o);
    FinishStep(tx, recorded, o);
    FinishStep(tx, Work(tx, recorded, o), o);
  }

  lemma {:induction false} FinishHandlesOneJob(tx: TextLib, s: State, o: Outcome, j: JobId)
    requires Inv(s) && Usable(o) && Busy(s, j)
    ensures var t := Finish(tx, s, o);
            Inv(t) && t.worker.Idle? && OnlyJob(s, t, j) && Terminal(t.jobs[j].status)
    decreases CommitsLeft(s.worker)
  {
    WorkDescends(tx, s, o, j);
    var next := Work(tx, s, o);
    if !next.worker.Idle? {
      FinishHandlesOneJob(tx, next, o, j);
    }
  }

  // The eligible jobs in creation order.
  function EligibleJobs(jobs: seq<Job>, now: int, from: nat): seq<JobId>
    requires from <= |jobs|
    decreases |jobs| - from
  {
    if from == |jobs| then []
    else (if Eligible(jobs[from], now) then [from] else []) + EligibleJobs(jobs, now, from + 1)
  }

  lemma {:induction false} OldestIsFirst(jobs: seq<Job>, now: int, from: nat)
    requires from <= |jobs|
    ensures var es := EligibleJobs(jobs, now, from); var j := OldestEligible(jobs, now, from);
            if es == [] then j == |jobs| else j == es[0]
    decreases |jobs| - from
  {
    if from < |jobs| {
      OldestIsFirst(jobs, now, from + 1);
    }
  }

  // Handling the oldest eligible job takes it off the front of the list and changes nothing else.
  lemma {:induction false} HandlingTakesFirst(was: seq<Job>, jobs: seq<Job>, now: int, from: nat)
    requires from <= |was| == |jobs| && EligibleJobs(was, now, from) != []
    requires forall i :: from <= i < |was| && i != EligibleJobs(was, now, from)[0] ==> jobs[i] == was[i]
    requires EligibleJobs(was, now, from)[0] < |jobs| && !Eligible(jobs[EligibleJobs(was, now, from)[0]], now)
    ensures EligibleJobs(jobs, now, from) == EligibleJobs(was, now, from)[1..]
    decreases |was| - from
  {
    if Eligible(was[from], now) {
      SameEligible(was, jobs, now, from + 1);
    } else {
      HandlingTakesFirst(was, jobs, now, from + 1);
      EligibleInRange(was, now, from + 1);
    }
  }

  lemma {:induction false} EligibleInRange(jobs: seq<Job>, now: int, from: nat)
    requires from <= |jobs|
    ensures forall k :: 0 <= k < |EligibleJobs(jobs, now, from)| ==> from <= EligibleJobs(jobs, now, from)[k] < |jobs|
    decreases |jobs| - from
  {
    if from < |jobs| {
      EligibleInRange(jobs, now, from + 1);
    }
  }

  lemma {:induction false} SameEligible(was: seq<Job>, jobs: seq<Job>, now: int, from: nat)
    requires from <= |was| == |jobs| && forall i :: from <= i < |was| ==> jobs[i] == was[i]
    ensures EligibleJobs(jobs, now, from) == EligibleJobs(was, now, from)
    decreases |was| - from
  {
    if from < |was| {
      SameEligible(was, jobs, now, from + 1);
    }
  }

  // poll_once: claim and handle; no work when nothing is eligible.
  ghost function Poll(tx: TextLib, s: State, now: int, o: Outcome): State
    requires Inv(s) && s.worker.Idle? && Usable(o)
  {
    ClaimKeepsInv(s, now);
    Finish(tx, Claim(s, now), o)
  }

  // A poll that finds work takes the oldest eligible job, leaves it succeeded or failed, leaves
  // every other job exactly as it was, and shortens the list of eligible jobs by that one.
  lemma PollHandlesOldest(tx: TextLib, s: State, now: int, o: Outcome)
    requires Inv(s) && s.worker.Idle? && Usable(o)
    ensures var t := Poll(tx, s, now, o); var es := EligibleJobs(s.jobs, now, 0);
            && Inv(t) && t.worker.Idle? && |t.jobs| == |s.jobs|
            && (es == [] ==> t == s)
            && (es != [] ==> es[0] < |s.jobs| && OnlyJob(s, t, es[0]) && Terminal(t.jobs[es[0]].status))
            && (es != [] ==> EligibleJobs(t.jobs, now, 0) == es[1..])
  {
    OldestIsFirst(s.jobs, now, 0);
    EligibleInRange(s.jobs, now, 0);
    ClaimKeepsInv(s, now);
    var es := EligibleJobs(s.jobs, now, 0);
    if es != [] {
      FinishHandlesOneJob(tx, Claim(s, now), o, es[0]);
      HandlingTakesFirst(s.jobs, Poll(tx, s, now, o).jobs, now, 0);
    }
  }

  // The jobs in `done` were handled to the end; every other job is as it was.
  ghost predicate Drained(was: seq<Job>, jobs: seq<Job>, done: seq<JobId>) {
    && |jobs| == |was|
    && forall i: nat :: i < |jobs| ==> if i in done then Terminal(jobs[i].status) else jobs[i] == was[i]
  }

  lemma PollDrainsOne(tx: TextLib, was: seq<Job>, s: State, now: int, o: Outcome, done: seq<JobId>)
    requires Inv(s) && s.worker.Idle? && Usable(o) && Drained(was, s.jobs, done)
    ensures var t := Poll(tx, s, now, o); var es := EligibleJobs(s.jobs, now, 0);
            && Inv(t) && t.worker.Idle?
            && (es == [] ==> t == s)
            && (es != [] ==> EligibleJobs(t.jobs, now, 0) == es[1..] && Drained(was, t.jobs, done + [es[0]]))
  {
    PollHandlesOldest(tx, s, now, o);
  }

  // The first n of todo are handled and the rest are the eligible jobs, in order.
  ghost predicate Draining(was: seq<Job>, s: State, now: int, todo: seq<JobId>, n: nat) {
    && Inv(s) && s.worker.Idle? && n <= |todo|
    && EligibleJobs(s.jobs, now, 0) == todo[n..]
    && Drained(was, s.jobs, todo[..n])
  }

  lemma PollAdvances(tx: TextLib, was: seq<Job>, s: State, now: int, o: Outcome, todo: seq<JobId>, n: nat)
    requires Draining(was, s, now, todo, n) && Usable(o)
    ensures Draining(was, Poll(tx, s, now, o), now, todo, if n == |todo| then n else n + 1)
  {
    PollDrainsOne(tx, was, s, now, o, todo[..n]);
    if n < |todo| {
      assert todo[..n + 1] == todo[..n] + [todo[n]];
      assert todo[n..][1..] == todo[n + 1..];
    }
  }
}
