// Where the three tables of a send can disagree: exactly when the approval's delivery row was
// never written, which a worker death between two commits brings about.
module SendEdge {
  import opened Prelude
  import opened PolicyText
  import opened SendModel
  import opened SendSafety
  import opened SendScope

  // The job is done, its approval carries the provider's id, and its delivery row is sent with it.
  ghost predicate ThreeTablesAgree(s: State, a: ApprovalId) {
    && a < |s.approvals| && s.approvals[a].messageId.Some?
    && a in s.deliveries && s.deliveries[a].status == Sent && s.deliveries[a].messageId == s.approvals[a].messageId
  }

  // The approval's chat job is past the two commits that draft and record its delivery.
  ghost predicate PastDrafting(s: State, a: ApprovalId) {
    a < |s.approvals| && (s.worker.Gated? || s.worker.Merged? ==> s.worker.approval != a)
  }

  // From the moment the chat job of an approval is over, whether it ended or its worker died,
  // one look at the deliveries tells the outcome of any later send: after every further run in
  // which a send job of the approval succeeds, the three tables agree exactly when the delivery
  // row was there at that moment.
  lemma ThreeTablesAgreeIff(tx: TextLib, s: State, es: seq<Event>, t: State, a: ApprovalId, j: JobId)
    requires Reachable(tx, s) && PastDrafting(s, a)
    requires ToleratedRun(tx, s, es) && t == Run(tx, s, es)
    requires j < |t.jobs| && t.jobs[j].jobType == EmailSendApproved && t.jobs[j].status == Succeeded
    requires t.jobs[j].sendKey == Some(a)
    ensures ThreeTablesAgree(t, a) <==> a in s.deliveries
  {
    ReachableInv(tx, s);
    RunKeepsInv(tx, s, es);
    RunUndoesNothing(tx, s, es);
    assert JobOk(t, j);
    if a !in s.deliveries {
      LostDeliveryStaysLost(tx, s, es, a);
    }
  }

  // ---- The run that loses a delivery ----

  // The stages of a chat job up to the merge of its draft, where the worker dies.
  function Chat(message: string, status: JobStatus, attempts: nat): Job {
    Job(ChatOrchestrate, None, status, None, ChatPayload(Some("s"), Some(message), Some(1)), attempts, None, None)
  }

  function Gate(status: ApprovalStatus, draft: Option<string>, messageId: Option<string>): Approval {
    Approval(None, GATE_KIND, status, JobRef(0), draft,
             if draft.Some? then Some(OUTBOUND_WORKFLOW) else None, messageId,
             if messageId.Some? then Some("sent") else None,
             if status == AwaitingDecision then None else Some(Decision(status, "operator", None)))
  }

  function Stage(message: string, n: nat): State
    requires n <= 6
  {
    var chat := Chat(message, if n == 1 then Pending else Running, if n <= 2 then 0 else 1);
    if n == 0 then EMPTY
    else if n == 1 then State([chat], [], map[], Idle, [])
    else if n == 2 then State([chat], [], map[], Claimed(0), [])
    else if n == 3 then State([chat], [], map[], Started(0), [])
    else if n == 4 then State([chat], [Gate(AwaitingDecision, None, None)], map[], Gated(0, 0), [])
    else State([chat], [Gate(AwaitingDecision, Some("d"), None)], map[], if n == 5 then Merged(0, 0, "d") else Idle, [])
  }

  function StageEvent(message: string, n: nat): Event {
    if n == 0 then PostChat(None, "s", message, 1)
    else if n == 1 then ClaimNext(0)
    else if n <= 4 then WorkOn(ProviderOk("d"))
    else WorkerDies
  }

  lemma StageStep(tx: TextLib, message: string, n: nat)
    requires tx.strip("s") != "" && tx.strip(message) != "" && DraftsOutbound(tx, tx.strip(message)) && n < 6
    ensures Step(tx, Stage(message, n), StageEvent(message, n)) == Stage(message, n + 1)
    ensures Tolerated(Stage(message, n), StageEvent(message, n))
  {
    if n == 1 {
      assert OldestEligible(Stage(message, 1).jobs, 0, 0) == 0;
    } else if n == 3 {
      assert ChatMessage(tx, Chat(message, Running, 1).payload) == tx.strip(message);
    }
  }

  lemma {:induction false} StageReachable(tx: TextLib, message: string, n: nat)
    requires tx.strip("s") != "" && tx.strip(message) != "" && DraftsOutbound(tx, tx.strip(message)) && n <= 6
    ensures Reachable(tx, Stage(message, n))
  {
    if n == 0 {
      EmptyIsReachable(tx);
    } else {
      StageReachable(tx, message, n - 1);
      StageStep(tx, message, n - 1);
      ReachableStep(tx, Stage(message, n - 1), StageEvent(message, n - 1));
    }
  }

  // Then the approval is granted and its send job carried out.
  function Later(message: string, n: nat): State
    requires n <= 8
  {
    var chat := Chat(message, Running, 1);
    var gate := Gate(if n == 0 then AwaitingDecision else Approved, Some("d"), if n <= 5 then None else Some("m"));
    var send := Job(EmailSendApproved, None, if n <= 2 then Pending else if n == 8 then Succeeded else Running,
                    Some(0), SendPayload(Some(0)), if n <= 3 then 0 else 1, None, None);
    State(if n <= 1 then [chat] else [chat, send], [gate], map[],
          if n == 3 then Claimed(1) else if n == 4 then Started(1) else if n == 5 then Accepted(1, 0, "m")
          else if n == 6 then Recorded(1, 0, "m") else if n == 7 then Finishing(1) else Idle,
          if n <= 4 then [] else [Send(0, 1, "d", "m")])
  }

  function LaterEvent(n: nat): Event {
    if n == 0 then ApproveCall(0, None, "operator", None)
    else if n == 1 then EnqueueCall(0)
    else if n == 2 then ClaimNext(0)
    else WorkOn(ProviderOk("m"))
  }

  lemma LaterStep(tx: TextLib, message: string, n: nat)
    requires n < 8
    ensures Step(tx, Later(message, n), LaterEvent(n)) == Later(message, n + 1)
    ensures Tolerated(Later(message, n), LaterEvent(n))
  {
    if n == 1 {
      assert SendJobOf(Later(message, 1).jobs, 0, 0) == 1;
    } else if n == 2 {
      assert OldestEligible(Later(message, 2).jobs, 0, 0) == 1;
    }
  }

  lemma {:induction false} LaterReachable(tx: TextLib, message: string, n: nat)
    requires tx.strip("s") != "" && tx.strip(message) != "" && DraftsOutbound(tx, tx.strip(message)) && n <= 8
    ensures Reachable(tx, Later(message, n))
  {
    if n == 0 {
      StageReachable(tx, message, 6);
    } else {
      LaterReachable(tx, message, n - 1);
      LaterStep(tx, message, n - 1);
      ReachableStep(tx, Later(message, n - 1), LaterEvent(n - 1));
    }
  }

  // A worker that dies between the draft merge and the delivery insert leaves an approval that
  // can still be granted and sent: the send job succeeds and no delivery row exists.
  lemma DeadWorkerLosesDelivery(tx: TextLib, message: string)
    requires tx.strip("s") != "" && tx.strip(message) != "" && DraftsOutbound(tx, tx.strip(message))
    ensures var s := Later(message, 8);
            && Reachable(tx, s) && |s.jobs| == 2
            && s.jobs[1].jobType == EmailSendApproved && s.jobs[1].status == Succeeded && s.jobs[1].sendKey == Some(0)
            && !ThreeTablesAgree(s, 0)
  {
    LaterReachable(tx, message, 8);
  }
}
