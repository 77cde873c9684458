// What every run of the governed send keeps, whatever the interleaving of API calls, worker
// commits, provider failures, retries and worker deaths.
module SendSafety {
  import opened Prelude
  import opened PolicyText
  import opened SendModel

  // ---- The invariant ----

  ghost predicate Sendable(s: State, a: ApprovalId) {
    a < |s.approvals| && EligibilityError(s, s.approvals[a]).None?
  }

  // The id is on the approval, and on the delivery row if there is one, which is then sent.
  ghost predicate Settled(s: State, a: ApprovalId) {
    && a < |s.approvals| && s.approvals[a].messageId.Some?
    && (a in s.deliveries ==> s.deliveries[a].status == Sent && s.deliveries[a].messageId == s.approvals[a].messageId)
  }

  // A send job is bound to one approved gate of its own tenant by payload and unique key.
  ghost predicate JobOk(s: State, j: JobId)
    requires j < |s.jobs|
  {
    var job := s.jobs[j];
    if job.jobType == EmailSendApproved then
      && job.sendKey.Some?
      && job.payload == SendPayload(job.sendKey)
      && Sendable(s, job.sendKey.value)
      && job.tenant == s.approvals[job.sendKey.value].tenant
      && (job.status == Succeeded ==> Settled(s, job.sendKey.value))
    else
      job.sendKey.None? && job.payload.ChatPayload?
  }

  ghost predicate KeysUnique(s: State) {
    forall i, j :: 0 <= i < j < |s.jobs| && s.jobs[i].sendKey.Some? ==> s.jobs[i].sendKey != s.jobs[j].sendKey
  }

  // The recorded decision is the row's status, and only a gate opened by a chat job has a draft.
  ghost predicate ApprovalOk(s: State, a: ApprovalId)
    requires a < |s.approvals|
  {
    var row := s.approvals[a];
    && (row.decision.None? <==> row.status == AwaitingDecision)
    && (row.decision.Some? ==> row.decision.value.status == row.status)
    && (row.kind == GATE_KIND ==> row.source.JobRef? && row.source.id < |s.jobs|)
    && (row.draft.Some? ==> row.kind == GATE_KIND && row.draft.value != "" && row.workflow == Some(OUTBOUND_WORKFLOW))
    && (row.messageId.Some? ==> row.messageId.value != "" && WasSent(s, a, row.messageId.value))
  }

  ghost predicate WasSent(s: State, a: ApprovalId, m: string) {
    exists k :: 0 <= k < |s.sends| && s.sends[k].approval == a && s.sends[k].messageId == m
  }

  ghost predicate Unsent(s: State, a: ApprovalId) {
    forall k :: 0 <= k < |s.sends| ==> s.sends[k].approval != a
  }

  // The worker is at job j and may still call the provider for it.
  ghost predicate MayCall(s: State, j: JobId) {
    (s.worker.Claimed? || s.worker.Started?) && s.worker.job == j
  }

  // A message the provider accepted was for an approved gate with that draft; its id is on the
  // approval, or else its job hangs in `running`, where nothing will claim it again.
  ghost predicate SendOk(s: State, k: nat)
    requires k < |s.sends|
  {
    var x := s.sends[k];
    && x.job < |s.jobs| && s.jobs[x.job].sendKey == Some(x.approval)
    && Sendable(s, x.approval)
    && s.approvals[x.approval].draft == Some(x.draft)
    && x.messageId != ""
    && (s.approvals[x.approval].messageId == Some(x.messageId) ||
        (s.approvals[x.approval].messageId.None? && s.jobs[x.job].status == Running && !MayCall(s, x.job)))
  }

  ghost predicate SendsUnique(s: State) {
    forall i, k :: 0 <= i < k < |s.sends| ==> s.sends[i].approval != s.sends[k].approval
  }

  ghost predicate DeliveryOk(s: State, a: ApprovalId)
    requires a in s.deliveries
  {
    var d := s.deliveries[a];
    && a < |s.approvals| && d.tenant == s.approvals[a].tenant
    && (d.status == Sent <==> d.messageId.Some?)
    && (d.messageId.Some? ==> d.messageId == s.approvals[a].messageId)
  }

  // The worker is at a send job of approval a.
  ghost predicate AtSend(s: State, j: JobId, a: ApprovalId) {
    && j < |s.jobs| && s.jobs[j].jobType == EmailSendApproved && s.jobs[j].sendKey == Some(a)
    && a < |s.approvals|
  }

  ghost predicate WorkerOk(s: State) {
    match s.worker
    case Idle => true
    case Claimed(j) => j < |s.jobs| && s.jobs[j].status == Running
    case Started(j) => j < |s.jobs| && s.jobs[j].status == Running && !s.jobs[j].jobType.UnknownType?
    case Gated(j, a) =>
      && j < |s.jobs| && s.jobs[j].status == Running && s.jobs[j].jobType == ChatOrchestrate
      && a < |s.approvals| && a !in s.deliveries && Unsent(s, a)
      && s.approvals[a].tenant == s.jobs[j].tenant
      && s.approvals[a].kind == GATE_KIND && s.approvals[a].draft.None? && s.approvals[a].messageId.None?
    case Merged(j, a, draft) =>
      && j < |s.jobs| && s.jobs[j].status == Running && s.jobs[j].jobType == ChatOrchestrate
      && a < |s.approvals| && a !in s.deliveries && Unsent(s, a)
      && s.approvals[a].tenant == s.jobs[j].tenant
      && s.approvals[a].messageId.None?
    case Accepted(j, a, m) =>
      && AtSend(s, j, a) && s.jobs[j].status == Running && m != ""
      && s.approvals[a].messageId.None? && WasSent(s, a, m)
    case Recorded(j, a, m) =>
      AtSend(s, j, a) && s.jobs[j].status == Running && s.approvals[a].messageId == Some(m)
    case Finishing(j) =>
      && j < |s.jobs| && s.jobs[j].status == Running
      && (s.jobs[j].jobType == EmailSendApproved ==>
            s.jobs[j].sendKey.Some? && Settled(s, s.jobs[j].sendKey.value))
    case Failing(j, linked, error) =>
      && linked.Some? && AtSend(s, j, linked.value)
      && (s.jobs[j].status == Failed || s.jobs[j].status == Pending)
      && s.approvals[linked.value].messageId.None?
  }

  ghost predicate Inv(s: State) {
    && (forall j :: 0 <= j < |s.jobs| ==> JobOk(s, j))
    && KeysUnique(s)
    && (forall a :: 0 <= a < |s.approvals| ==> ApprovalOk(s, a))
    && (forall k :: 0 <= k < |s.sends| ==> SendOk(s, k))
    && SendsUnique(s)
    && (forall a :: a in s.deliveries ==> DeliveryOk(s, a))
    && WorkerOk(s)
  }

  // ---- Steps that only touch jobs, append rows or move the worker ----

  ghost predicate KeepsRows(s: State, t: State) {
    && |s.jobs| <= |t.jobs|
    && (forall j :: 0 <= j < |s.jobs| ==>
          && t.jobs[j].jobType == s.jobs[j].jobType && t.jobs[j].tenant == s.jobs[j].tenant
          && t.jobs[j].sendKey == s.jobs[j].sendKey && t.jobs[j].payload == s.jobs[j].payload)
    && s.approvals <= t.approvals
    && t.deliveries == s.deliveries
    && t.sends == s.sends
  }

  // An accepted message whose id never reached the approval: its job stays `running`.
  ghost predicate Hangs(s: State, k: nat) {
    && k < |s.sends| && s.sends[k].approval < |s.approvals| && s.sends[k].job < |s.jobs|
    && s.approvals[s.sends[k].approval].messageId.None?
    && s.jobs[s.sends[k].job].status == Running
    && !MayCall(s, s.sends[k].job)
  }

  ghost predicate Landed(s: State, x: Send) {
    x.approval < |s.approvals| && s.approvals[x.approval].messageId == Some(x.messageId)
  }

  ghost predicate SucceededSettled(s: State, t: State, j: JobId)
    requires j < |s.jobs| && j < |t.jobs|
  {
    t.jobs[j].status == Succeeded && s.jobs[j].status != Succeeded ==>
      s.jobs[j].sendKey.None? || Settled(s, s.jobs[j].sendKey.value)
  }

  lemma KeepingRowsKeepsInv(s: State, t: State)
    requires Inv(s) && KeepsRows(s, t)
    requires forall j :: |s.jobs| <= j < |t.jobs| ==> JobOk(t, j)
    requires KeysUnique(t)
    requires forall j :: 0 <= j < |s.jobs| ==> SucceededSettled(s, t, j)
    requires forall a :: |s.approvals| <= a < |t.approvals| ==> ApprovalOk(t, a)
    requires forall k: nat :: Hangs(s, k) ==> Hangs(t, k)
    requires WorkerOk(t)
    ensures Inv(t)
  {
    forall j | 0 <= j < |t.jobs| ensures JobOk(t, j) {
      if j < |s.jobs| {
        assert JobOk(s, j) && SucceededSettled(s, t, j);
      }
    }
    forall a | 0 <= a < |t.approvals| ensures ApprovalOk(t, a) {
      if a < |s.approvals| {
        assert ApprovalOk(s, a);
      }
    }
    forall k | 0 <= k < |t.sends| ensures SendOk(t, k) {
      assert SendOk(s, k);
      assert Hangs(s, k) ==> Hangs(t, k);
    }
    forall a | a in t.deliveries ensures DeliveryOk(t, a) {
      assert DeliveryOk(s, a);
    }
  }

  lemma PostKeepsInv(tx: TextLib, s: State, e: Event)
    requires Inv(s) && (e.PostChat? || e.RequestReview?)
    ensures Inv(Step(tx, s, e))
  {
    KeepingRowsKeepsInv(s, Step(tx, s, e));
  }

  lemma EnqueueKeepsInv(s: State, a: ApprovalId)
    requires Inv(s)
    ensures Inv(EnqueueAfterApproval(s, a))
  {
    var t := EnqueueAfterApproval(s, a);
    if |t.jobs| > |s.jobs| {
      assert Sendable(s, a) && ApprovalOk(s, a);
      assert JobOk(t, |s.jobs|);
      KeepingRowsKeepsInv(s, t);
    }
  }

  lemma RetryKeepsInv(s: State, j: JobId, scope: Option<string>)
    requires Inv(s)
    ensures Inv(RetryFailedJob(s, j, scope).0)
  {
    var t := RetryFailedJob(s, j, scope).0;
    if t != s {
      KeepingRowsKeepsInv(s, t);
    }
  }

  lemma ClaimKeepsInv(s: State, now: int)
    requires Inv(s)
    ensures Inv(Claim(s, now))
  {
    if Claim(s, now) != s {
      KeepingRowsKeepsInv(s, Claim(s, now));
    }
  }

  // ---- Steps that change one approval ----

  lemma ChangingApprovalKeepsInv(s: State, t: State, a: ApprovalId, row: Approval)
    requires Inv(s) && a < |s.approvals|
    requires t == s.(approvals := s.approvals[a := row], worker := t.worker)
    requires row.tenant == s.approvals[a].tenant
    requires Sendable(s, a) ==> Sendable(t, a) && row.draft == s.approvals[a].draft
    requires s.approvals[a].messageId.Some? ==> row.messageId == s.approvals[a].messageId
    requires ApprovalOk(t, a)
    requires forall k: nat :: Hangs(s, k) ==> Hangs(t, k) || Landed(t, s.sends[k])
    requires WorkerOk(t)
    ensures Inv(t)
  {
    forall j | 0 <= j < |t.jobs| ensures JobOk(t, j) {
      assert JobOk(s, j);
    }
    forall b | 0 <= b < |t.approvals| ensures ApprovalOk(t, b) {
      assert ApprovalOk(s, b);
    }
    forall k | 0 <= k < |t.sends| ensures SendOk(t, k) {
      assert SendOk(s, k);
      assert Hangs(s, k) ==> Hangs(t, k) || Landed(t, s.sends[k]);
    }
    forall b | b in t.deliveries ensures DeliveryOk(t, b) {
      assert DeliveryOk(s, b);
    }
  }

  lemma DecideKeepsInv(s: State, a: ApprovalId, d: Decision)
    requires Inv(s) && a < |s.approvals| && s.approvals[a].status == AwaitingDecision
    requires d.status != AwaitingDecision
    ensures Inv(Decide(s, a, d))
  {
    assert ApprovalOk(s, a);
    ChangingApprovalKeepsInv(s, Decide(s, a, d), a, Decide(s, a, d).approvals[a]);
  }

  // ---- Steps that change one delivery row ----

  lemma ChangingDeliveryKeepsInv(s: State, t: State, a: ApprovalId, d: Delivery)
    requires Inv(s)
    requires t == s.(deliveries := s.deliveries[a := d], worker := t.worker)
    requires DeliveryOk(t, a)
    requires Settled(s, a) ==> Settled(t, a)
    requires forall k: nat :: Hangs(s, k) ==> Hangs(t, k)
    requires WorkerOk(t)
    ensures Inv(t)
  {
    forall j | 0 <= j < |t.jobs| ensures JobOk(t, j) {
      assert JobOk(s, j);
    }
    forall b | 0 <= b < |t.approvals| ensures ApprovalOk(t, b) {
      assert ApprovalOk(s, b);
    }
    forall k | 0 <= k < |t.sends| ensures SendOk(t, k) {
      assert SendOk(s, k);
      assert Hangs(s, k) ==> Hangs(t, k);
    }
    forall b | b in t.deliveries ensures DeliveryOk(t, b) {
      if b != a {
        assert DeliveryOk(s, b);
      }
    }
  }

  // ---- The worker's steps ----

  // The worker sets the status of the job it is at and moves on.
  lemma SettingJobKeepsInv(s: State, j: JobId, status: JobStatus, error: Option<string>, w: Worker)
    requires Inv(s) && !s.worker.Idle? && s.worker.job == j && j < |s.jobs|
    requires status == Succeeded ==> s.jobs[j].sendKey.None? || Settled(s, s.jobs[j].sendKey.value)
    requires forall k: nat :: Hangs(s, k) ==> s.sends[k].job != j
    requires WorkerOk(SetJob(s, j, status, error).(worker := w))
    requires w.Idle? || w.Failing?
    ensures Inv(SetJob(s, j, status, error).(worker := w))
  {
    KeepingRowsKeepsInv(s, SetJob(s, j, status, error).(worker := w));
  }

  // No message hangs at the job the worker is at, except the one it is about to record.
  lemma NothingHangsHere(s: State)
    requires Inv(s) && !s.worker.Idle? && !s.worker.Accepted?
    ensures forall k: nat :: Hangs(s, k) ==> s.sends[k].job != s.worker.job
  {
    forall k: nat | Hangs(s, k) ensures s.sends[k].job != s.worker.job {
      assert SendOk(s, k) && JobOk(s, s.sends[k].job);
    }
  }

  lemma MovingOnKeepsInv(s: State, w: Worker)
    requires Inv(s) && WorkerOk(s.(worker := w)) && !w.Claimed? && !w.Started?
    ensures Inv(s.(worker := w))
  {
    KeepingRowsKeepsInv(s, s.(worker := w));
  }

  lemma StartingKeepsInv(tx: TextLib, s: State, o: Outcome)
    requires Inv(s) && s.worker.Claimed?
    ensures Inv(Work(tx, s, o))
  {
    NothingHangsHere(s);
    KeepingRowsKeepsInv(s, Work(tx, s, o));
  }

  lemma OpeningGateKeepsInv(s: State, j: JobId)
    requires Inv(s) && s.worker == Started(j) && s.jobs[j].jobType == ChatOrchestrate
    ensures Inv(CreateRequest(s, GATE_KIND, s.jobs[j].tenant, JobRef(j), None).(worker := Gated(j, |s.approvals|)))
  {
    FreshApproval(s, |s.approvals|);
    KeepingRowsKeepsInv(
      s, CreateRequest(s, GATE_KIND, s.jobs[j].tenant, JobRef(j), None).(worker := Gated(j, |s.approvals|)));
  }

  lemma FreshApproval(s: State, a: ApprovalId)
    requires Inv(s) && a >= |s.approvals|
    ensures a !in s.deliveries && Unsent(s, a)
  {
    assert a in s.deliveries ==> DeliveryOk(s, a);
    forall k | 0 <= k < |s.sends| ensures s.sends[k].approval != a {
      assert SendOk(s, k);
    }
  }

  lemma StartChatKeepsInv(tx: TextLib, s: State, o: Outcome)
    requires Inv(s) && s.worker.Started? && s.jobs[s.worker.job].jobType == ChatOrchestrate
    ensures Inv(Work(tx, s, o))
  {
    var j := s.worker.job;
    var t := Work(tx, s, o);
    assert t == StartChat(tx, s, j, o);
    assert JobOk(s, j);
    if t.worker.Gated? {
      OpeningGateKeepsInv(s, j);
    } else if t.worker.Finishing? {
      MovingOnKeepsInv(s, Finishing(j));
    } else {
      NothingHangsHere(s);
      SettingJobKeepsInv(s, j, Failed, t.jobs[j].lastError, Idle);
    }
  }

  // At a send job every check of run_send_approved_job passes: the job can only fail because
  // the provider does.
  lemma SendChecksPass(s: State)
    requires Inv(s) && s.worker.Started? && s.jobs[s.worker.job].jobType == EmailSendApproved
    ensures s.jobs[s.worker.job].sendKey.Some?
    ensures SendTarget(s, s.worker.job) == Ok(s.jobs[s.worker.job].sendKey.value)
  {
    assert JobOk(s, s.worker.job);
  }

  // Nothing has been sent for the approval of a send job that is about to call the provider.
  lemma NotSentYet(s: State)
    requires Inv(s) && s.worker.Started? && SendTarget(s, s.worker.job).Ok?
    requires s.approvals[SendTarget(s, s.worker.job).value].messageId.None?
    ensures Unsent(s, SendTarget(s, s.worker.job).value)
  {
    var j := s.worker.job;
    assert JobOk(s, j);
    forall k | 0 <= k < |s.sends| ensures s.sends[k].approval != SendTarget(s, j).value {
      assert SendOk(s, k);
      assert s.sends[k].job < j ==> s.jobs[s.sends[k].job].sendKey != s.jobs[j].sendKey;
      assert j < s.sends[k].job ==> s.jobs[j].sendKey != s.jobs[s.sends[k].job].sendKey;
    }
  }

  lemma AcceptingKeepsInv(s: State, j: JobId, a: ApprovalId, m: string)
    requires Inv(s) && s.worker == Started(j) && SendTarget(s, j) == Ok(a)
    requires s.approvals[a].messageId.None? && m != ""
    ensures Inv(s.(worker := Accepted(j, a, m), sends := s.sends + [Send(a, j, s.approvals[a].draft.value, m)]))
  {
    var t := s.(worker := Accepted(j, a, m), sends := s.sends + [Send(a, j, s.approvals[a].draft.value, m)]);
    assert JobOk(s, j);
    NotSentYet(s);
    assert t.sends[|s.sends|] == Send(a, j, s.approvals[a].draft.value, m);
    forall i | 0 <= i < |t.jobs| ensures JobOk(t, i) {
      assert JobOk(s, i);
    }
    forall b | 0 <= b < |t.approvals| ensures ApprovalOk(t, b) {
      assert ApprovalOk(s, b);
      SentStays(s, t, b);
    }
    forall k | 0 <= k < |t.sends| ensures SendOk(t, k) {
      assert k < |s.sends| ==> SendOk(s, k) && t.sends[k] == s.sends[k];
    }
    forall b | b in t.deliveries ensures DeliveryOk(t, b) {
      assert DeliveryOk(s, b);
    }
  }

  lemma SentStays(s: State, t: State, a: ApprovalId)
    requires s.sends <= t.sends
    ensures forall m :: WasSent(s, a, m) ==> WasSent(t, a, m)
  {
    forall m | WasSent(s, a, m) ensures WasSent(t, a, m) {
      var k :| 0 <= k < |s.sends| && s.sends[k].approval == a && s.sends[k].messageId == m;
      assert t.sends[k] == s.sends[k];
    }
  }

  lemma StartSendKeepsInv(tx: TextLib, s: State, o: Outcome)
    requires Inv(s) && s.worker.Started? && s.jobs[s.worker.job].jobType == EmailSendApproved
    requires o.ProviderOk? ==> o.id != ""
    ensures Inv(Work(tx, s, o))
  {
    var j := s.worker.job;
    SendChecksPass(s);
    assert JobOk(s, j);
    var a := SendTarget(s, j).value;
    assert ApprovalOk(s, a);
    if s.approvals[a].messageId.Some? {
      SentDeliveryKeepsInv(s, j, a);
    } else if o.ProviderError? {
      NothingHangsHere(s);
      SettingJobKeepsInv(s, j, Failed, Some(o.message), Failing(j, Some(a), o.message));
    } else {
      AcceptingKeepsInv(s, j, a, o.id);
    }
  }

  // mark_delivery_sent with the id the approval already carries.
  lemma SentDeliveryKeepsInv(s: State, j: JobId, a: ApprovalId)
    requires Inv(s) && !s.worker.Idle? && s.worker.job == j && AtSend(s, j, a) && s.jobs[j].status == Running
    requires s.approvals[a].messageId.Some?
    ensures Inv(MarkDeliverySent(s, a, j, s.approvals[a].messageId.value).(worker := Finishing(j)))
  {
    var t := MarkDeliverySent(s, a, j, s.approvals[a].messageId.value).(worker := Finishing(j));
    if a in s.deliveries {
      ChangingDeliveryKeepsInv(s, t, a, t.deliveries[a]);
    } else {
      MovingOnKeepsInv(s, Finishing(j));
    }
  }

  lemma GatedKeepsInv(tx: TextLib, s: State, o: Outcome)
    requires Inv(s) && s.worker.Gated?
    requires o.ProviderOk? ==> o.id != ""
    ensures Inv(Work(tx, s, o))
  {
    var j, a := s.worker.job, s.worker.approval;
    var t := Work(tx, s, o);
    assert JobOk(s, j) && ApprovalOk(s, a);
    if t.worker.Merged? {
      ChangingApprovalKeepsInv(s, t, a, t.approvals[a]);
    } else if t.worker.Finishing? {
      MovingOnKeepsInv(s, Finishing(j));
    } else {
      NothingHangsHere(s);
      SettingJobKeepsInv(s, j, Failed, t.jobs[j].lastError, Idle);
    }
  }

  lemma MergedKeepsInv(tx: TextLib, s: State, o: Outcome)
    requires Inv(s) && s.worker.Merged?
    ensures Inv(Work(tx, s, o))
  {
    var t := Work(tx, s, o);
    ChangingDeliveryKeepsInv(s, t, s.worker.approval, t.deliveries[s.worker.approval]);
  }

  lemma RecordingKeepsInv(tx: TextLib, s: State, o: Outcome)
    requires Inv(s) && s.worker.Accepted?
    ensures Inv(Work(tx, s, o))
  {
    var j, a, m := s.worker.job, s.worker.approval, s.worker.messageId;
    var t := Work(tx, s, o);
    assert JobOk(s, j) && ApprovalOk(s, a);
    forall k: nat | Hangs(s, k)
      ensures Hangs(t, k) || Landed(t, s.sends[k])
    {
      assert SendOk(s, k);
      if s.sends[k].approval == a {
        var i :| 0 <= i < |s.sends| && s.sends[i].approval == a && s.sends[i].messageId == m;
      }
    }
    ChangingApprovalKeepsInv(s, t, a, t.approvals[a]);
  }

  lemma FinishingKeepsInv(tx: TextLib, s: State, o: Outcome)
    requires Inv(s) && s.worker.Finishing?
    ensures Inv(Work(tx, s, o))
  {
    var j := s.worker.job;
    assert JobOk(s, j);
    NothingHangsHere(s);
    SettingJobKeepsInv(s, j, Succeeded, s.jobs[j].lastError, Idle);
  }

  lemma FailingKeepsInv(tx: TextLib, s: State, o: Outcome)
    requires Inv(s) && s.worker.Failing?
    ensures Inv(Work(tx, s, o))
  {
    var a := s.worker.linked.value;
    var t := Work(tx, s, o);
    if a in s.deliveries {
      assert DeliveryOk(s, a);
      ChangingDeliveryKeepsInv(s, t, a, t.deliveries[a]);
    } else {
      MovingOnKeepsInv(s, Idle);
    }
  }

  lemma WorkKeepsInv(tx: TextLib, s: State, o: Outcome)
    requires Inv(s) && (o.ProviderOk? ==> o.id != "")
    ensures Inv(Work(tx, s, o))
  {
    match s.worker
    case Idle =>
    case Claimed(j) => StartingKeepsInv(tx, s, o);
    case Started(j) =>
      if s.jobs[j].jobType == ChatOrchestrate {
        StartChatKeepsInv(tx, s, o);
      } else {
        StartSendKeepsInv(tx, s, o);
      }
    case Gated(j, a) => GatedKeepsInv(tx, s, o);
    case Merged(j, a, draft) => MergedKeepsInv(tx, s, o);
    case Accepted(j, a, m) => RecordingKeepsInv(tx, s, o);
    case Recorded(j, a, m) => SentDeliveryKeepsInv(s, j, a);
    case Finishing(j) => FinishingKeepsInv(tx, s, o);
    case Failing(j, linked, error) => FailingKeepsInv(tx, s, o);
  }

  lemma RaisingKeepsInv(s: State, error: string)
    requires Inv(s) && !s.worker.Accepted?
    ensures Inv(HandlerRaised(s, error))
  {
    if HandlerRaised(s, error) != s {
      NothingHangsHere(s);
      assert JobOk(s, s.worker.job);
      SettingJobKeepsInv(s, s.worker.job, Failed, Some(error), Idle);
    }
  }

  lemma StepKeepsInv(tx: TextLib, s: State, e: Event)
    requires Inv(s) && Tolerated(s, e)
    ensures Inv(Step(tx, s, e))
  {
    match e
    case PostChat(_, _, _, _) => PostKeepsInv(tx, s, e);
    case RequestReview(_, _) => PostKeepsInv(tx, s, e);
    case ApproveCall(a, scope, actor, note) =>
      if Step(tx, s, e) != s {
        DecideKeepsInv(s, a, Decision(Approved, actor, note));
      }
    case RejectCall(a, scope, actor, reason) =>
      if Step(tx, s, e) != s {
        DecideKeepsInv(s, a, Decision(Rejected, actor, Some(reason)));
      }
    case EnqueueCall(a) => EnqueueKeepsInv(s, a);
    case RetryCall(j, scope) => RetryKeepsInv(s, j, scope);
    case ClaimNext(now) => ClaimKeepsInv(s, now);
    case WorkOn(o) => WorkKeepsInv(tx, s, o);
    case WorkerDies => MovingOnKeepsInv(s, Idle);
    case HandlerRaises(error) => RaisingKeepsInv(s, error);
  }

  lemma {:induction false} RunKeepsInv(tx: TextLib, s: State, es: seq<Event>)
    requires Inv(s) && ToleratedRun(tx, s, es)
    ensures Inv(Run(tx, s, es))
  {
    if es != [] {
      RunKeepsInv(tx, s, es[..|es| - 1]);
      StepKeepsInv(tx, Run(tx, s, es[..|es| - 1]), es[|es| - 1]);
    }
  }

  // ---- What every run guarantees ----

  ghost predicate Follows(tx: TextLib, s: State, e: Event, t: State) {
    Tolerated(s, e) && t == Step(tx, s, e)
  }

  // The states passed through from the empty database, within the fault model.
  ghost predicate IsTrace(tx: TextLib, es: seq<Event>, trace: seq<State>) {
    && |trace| == |es| + 1 && trace[0] == EMPTY
    && forall k {:trigger es[k]} :: 0 <= k < |es| ==> Follows(tx, trace[k], es[k], trace[k + 1])
  }

  // Some run from the empty database, within the fault model, ends here.
  ghost predicate Reachable(tx: TextLib, s: State) {
    exists es, trace :: IsTrace(tx, es, trace) && s == trace[|es|]
  }

  lemma {:induction false} TraceInv(tx: TextLib, es: seq<Event>, trace: seq<State>, k: nat)
    requires IsTrace(tx, es, trace) && k <= |es|
    ensures Inv(trace[k])
  {
    if k > 0 {
      TraceInv(tx, es, trace, k - 1);
      assert Follows(tx, trace[k - 1], es[k - 1], trace[k]);
      StepKeepsInv(tx, trace[k - 1], es[k - 1]);
    }
  }

  lemma ReachableInv(tx: TextLib, s: State)
    requires Reachable(tx, s)
    ensures Inv(s)
  {
    var es, trace :| IsTrace(tx, es, trace) && s == trace[|es|];
    TraceInv(tx, es, trace, |es|);
  }

  lemma EmptyIsReachable(tx: TextLib)
    ensures Reachable(tx, EMPTY)
  {
    assert IsTrace(tx, [], [EMPTY]);
  }

  lemma ReachableStep(tx: TextLib, s: State, e: Event)
    requires Reachable(tx, s) && Tolerated(s, e)
    ensures Reachable(tx, Step(tx, s, e))
  {
    var es, trace :| IsTrace(tx, es, trace) && s == trace[|es|];
    TraceGrows(tx, es, trace, e, Step(tx, s, e));
  }

  lemma TraceGrows(tx: TextLib, es: seq<Event>, trace: seq<State>, e: Event, t: State)
    requires IsTrace(tx, es, trace) && Follows(tx, trace[|es|], e, t)
    ensures IsTrace(tx, es + [e], trace + [t])
    ensures Reachable(tx, t)
  {
    var more, longer := es + [e], trace + [t];
    forall k | 0 <= k < |more| ensures Follows(tx, longer[k], more[k], longer[k + 1]) {
      assert longer[k] == trace[k];
      if k < |es| {
        assert more[k] == es[k] && longer[k + 1] == trace[k + 1];
        assert Follows(tx, trace[k], es[k], trace[k + 1]);
      }
    }
    assert IsTrace(tx, more, longer) && longer[|more|] == t;
  }

  // Every run within the fault model ends in a reachable state.
  lemma {:induction false} RunIsReachable(tx: TextLib, es: seq<Event>)
    requires ToleratedRun(tx, EMPTY, es)
    ensures Reachable(tx, Run(tx, EMPTY, es))
  {
    if es == [] {
      EmptyIsReachable(tx);
    } else {
      RunIsReachable(tx, es[..|es| - 1]);
      ReachableStep(tx, Run(tx, EMPTY, es[..|es| - 1]), es[|es| - 1]);
    }
  }

  // Whatever the run, the provider accepts at most one message per approval.
  lemma AtMostOneSend(tx: TextLib, s: State)
    requires Reachable(tx, s)
    ensures forall i, k :: 0 <= i < k < |s.sends| ==> s.sends[i].approval != s.sends[k].approval
  {
    ReachableInv(tx, s);
  }

  // What stands behind a call to the provider for approval a by job j.
  ghost predicate Consent(s: State, j: JobId, a: ApprovalId, draft: string) {
    && j < |s.jobs| && a < |s.approvals|
    && var job, row := s.jobs[j], s.approvals[a];
    && (job.jobType, job.payload, job.sendKey, job.tenant) ==
        (EmailSendApproved, SendPayload(Some(a)), Some(a), row.tenant)
    && (row.status, row.kind, row.draft) == (Approved, GATE_KIND, Some(draft)) && draft != ""
    && row.decision.Some? && row.decision.value.status == Approved
    && row.source.JobRef? && row.source.id < |s.jobs|
  }

  // No send without consent: every message the provider accepted was for an approved job.gate
  // approval with exactly that draft and an existing source job, sent by its own tenant's job.
  lemma EverySendHasConsent(tx: TextLib, s: State, k: nat)
    requires Reachable(tx, s) && k < |s.sends|
    ensures Consent(s, s.sends[k].job, s.sends[k].approval, s.sends[k].draft)
  {
    ReachableInv(tx, s);
    assert SendOk(s, k) && JobOk(s, s.sends[k].job) && ApprovalOk(s, s.sends[k].approval);
  }

  // ... and it already had that consent in the state in which the provider was called, even if
  // the provider then refused.
  ghost predicate CallHasConsent(s: State, j: JobId)
    requires j < |s.jobs|
  {
    && SendTarget(s, j).Ok?
    && var a := SendTarget(s, j).value;
       a < |s.approvals| && s.approvals[a].draft.Some? && Consent(s, j, a, s.approvals[a].draft.value)
  }

  lemma EveryCallHasConsent(tx: TextLib, s: State, j: JobId)
    requires Reachable(tx, s) && s.worker == Started(j)
    requires j < |s.jobs| && s.jobs[j].jobType == EmailSendApproved
    ensures CallHasConsent(s, j)
  {
    ReachableInv(tx, s);
    SendChecksPass(s);
    assert JobOk(s, j) && ApprovalOk(s, SendTarget(s, j).value);
  }

  // The three tables agree: a sent delivery carries its approval's message id.
  lemma SentDeliveryMatchesApproval(tx: TextLib, s: State, a: ApprovalId)
    requires Reachable(tx, s) && a in s.deliveries && s.deliveries[a].status == Sent
    ensures a < |s.approvals| && s.approvals[a].messageId.Some?
    ensures s.deliveries[a].messageId == s.approvals[a].messageId && WasSent(s, a, s.approvals[a].messageId.value)
  {
    ReachableInv(tx, s);
    assert DeliveryOk(s, a) && ApprovalOk(s, a);
  }

  // A succeeded send job implies the provider's id on its approval and, wherever the approval
  // has a delivery row, a sent one with the same id.
  lemma SucceededSendIsRecorded(tx: TextLib, s: State, j: JobId)
    requires Reachable(tx, s) && j < |s.jobs|
    requires s.jobs[j].jobType == EmailSendApproved && s.jobs[j].status == Succeeded
    ensures s.jobs[j].sendKey.Some? && Settled(s, s.jobs[j].sendKey.value)
    ensures WasSent(s, s.jobs[j].sendKey.value, s.approvals[s.jobs[j].sendKey.value].messageId.value)
  {
    ReachableInv(tx, s);
    assert JobOk(s, j) && ApprovalOk(s, s.jobs[j].sendKey.value);
  }

  // The decision inside the payload is the status of the row, through every later merge.
  lemma DecisionMatchesStatus(tx: TextLib, s: State, a: ApprovalId)
    requires Reachable(tx, s) && a < |s.approvals|
    ensures s.approvals[a].status == AwaitingDecision <==> s.approvals[a].decision.None?
    ensures s.approvals[a].decision.Some? ==> s.approvals[a].decision.value.status == s.approvals[a].status
  {
    ReachableInv(tx, s);
    assert ApprovalOk(s, a);
  }

  // ---- What no step undoes ----

  ghost predicate JobsStand(s: State, t: State) {
    && |s.jobs| <= |t.jobs|
    && forall j :: 0 <= j < |s.jobs| ==>
         t.jobs[j].tenant == s.jobs[j].tenant && t.jobs[j].sendKey == s.jobs[j].sendKey
  }

  // Approved and rejected are terminal, decisions and message ids are never overwritten, and a
  // draft never goes missing.
  ghost predicate ApprovalStands(r: Approval, q: Approval) {
    && q.kind == r.kind && q.tenant == r.tenant && q.source == r.source
    && (r.status != AwaitingDecision ==> q.status == r.status && q.decision == r.decision)
    && (r.messageId.Some? ==> q.messageId == r.messageId)
    && (r.draft.Some? ==> q.draft.Some?)
  }

  ghost predicate ApprovalsStand(s: State, t: State) {
    && |s.approvals| <= |t.approvals|
    && forall a :: 0 <= a < |s.approvals| ==> ApprovalStands(s.approvals[a], t.approvals[a])
  }

  // A sent delivery stays sent, although mark_delivery_failed itself has no guard.
  ghost predicate DeliveryStands(d: Delivery, e: Delivery) {
    e.tenant == d.tenant && (d.status == Sent ==> e.status == Sent && e.messageId == d.messageId)
  }

  ghost predicate DeliveriesStand(s: State, t: State) {
    forall a :: a in s.deliveries ==> a in t.deliveries && DeliveryStands(s.deliveries[a], t.deliveries[a])
  }

  ghost predicate NothingUndone(s: State, t: State) {
    JobsStand(s, t) && ApprovalsStand(s, t) && DeliveriesStand(s, t) && s.sends <= t.sends
  }

  lemma StartSendKeepsDeliveries(s: State, j: JobId, o: Outcome)
    requires Inv(s) && j < |s.jobs|
    ensures DeliveriesStand(s, StartSend(s, j, o))
  {
    if SendTarget(s, j).Ok? {
      var a := SendTarget(s, j).value;
      assert a in s.deliveries ==> DeliveryOk(s, a);
    }
  }

  lemma StartingKeepsDeliveries(tx: TextLib, s: State, o: Outcome)
    requires Inv(s) && s.worker.Started?
    ensures DeliveriesStand(s, Work(tx, s, o))
  {
    var j := s.worker.job;
    if s.jobs[j].jobType == ChatOrchestrate {
      assert StartChat(tx, s, j, o).deliveries == s.deliveries;
    } else {
      StartSendKeepsDeliveries(s, j, o);
    }
  }

  // Of the stages after the start only three touch a delivery row.
  lemma WorkLeavesDeliveries(tx: TextLib, s: State, o: Outcome)
    requires !s.worker.Started? && !s.worker.Merged? && !s.worker.Recorded? && !s.worker.Failing?
    ensures Work(tx, s, o).deliveries == s.deliveries
  {
  }

  lemma MergedKeepsDeliveries(tx: TextLib, s: State, o: Outcome)
    requires Inv(s) && s.worker.Merged?
    ensures DeliveriesStand(s, Work(tx, s, o))
  {
  }

  lemma RecordedKeepsDeliveries(tx: TextLib, s: State, o: Outcome)
    requires Inv(s) && s.worker.Recorded?
    ensures DeliveriesStand(s, Work(tx, s, o))
  {
    var a := s.worker.approval;
    assert a in s.deliveries ==> DeliveryOk(s, a);
  }

  lemma FailingKeepsDeliveries(tx: TextLib, s: State, o: Outcome)
    requires Inv(s) && s.worker.Failing?
    ensures DeliveriesStand(s, Work(tx, s, o))
  {
    if s.worker.linked.Some? {
      var a := s.worker.linked.value;
      assert a in s.deliveries ==> DeliveryOk(s, a);
    }
  }

  lemma WorkKeepsDeliveries(tx: TextLib, s: State, o: Outcome)
    requires Inv(s) && !s.worker.Started?
    ensures DeliveriesStand(s, Work(tx, s, o))
  {
    if s.worker.Merged? {
      MergedKeepsDeliveries(tx, s, o);
    } else if s.worker.Recorded? {
      RecordedKeepsDeliveries(tx, s, o);
    } else if s.worker.Failing? {
      FailingKeepsDeliveries(tx, s, o);
    } else {
      WorkLeavesDeliveries(tx, s, o);
    }
  }

  lemma StartingKeepsApprovals(tx: TextLib, s: State, o: Outcome)
    requires s.worker.Started?
    ensures ApprovalsStand(s, Work(tx, s, o)) && s.sends <= Work(tx, s, o).sends
  {
  }

  lemma WorkKeepsApprovals(tx: TextLib, s: State, o: Outcome)
    requires WorkerOk(s) && !s.worker.Started?
    ensures ApprovalsStand(s, Work(tx, s, o)) && s.sends <= Work(tx, s, o).sends
  {
  }

  lemma StartingKeepsJobs(tx: TextLib, s: State, o: Outcome)
    requires s.worker.Started?
    ensures JobsStand(s, Work(tx, s, o))
  {
  }

  lemma DecisionsUndoNothing(tx: TextLib, s: State, e: Event)
    requires e.ApproveCall? || e.RejectCall?
    ensures NothingUndone(s, Step(tx, s, e))
  {
  }

  lemma CallsUndoNothing(tx: TextLib, s: State, e: Event)
    requires !e.WorkOn? && !e.ApproveCall? && !e.RejectCall?
    ensures NothingUndone(s, Step(tx, s, e))
  {
    var t := Step(tx, s, e);
    assert t.deliveries == s.deliveries && t.sends == s.sends;
    assert s.approvals <= t.approvals;
  }

  lemma WorkUndoesNothing(tx: TextLib, s: State, o: Outcome)
    requires Inv(s)
    ensures NothingUndone(s, Work(tx, s, o))
  {
    if s.worker.Started? {
      StartingKeepsDeliveries(tx, s, o);
      StartingKeepsApprovals(tx, s, o);
      StartingKeepsJobs(tx, s, o);
    } else {
      WorkKeepsDeliveries(tx, s, o);
      WorkKeepsApprovals(tx, s, o);
    }
  }

  lemma StepUndoesNothing(tx: TextLib, s: State, e: Event)
    requires Inv(s)
    ensures NothingUndone(s, Step(tx, s, e))
  {
    if e.WorkOn? {
      WorkUndoesNothing(tx, s, e.outcome);
    } else if e.ApproveCall? || e.RejectCall? {
      DecisionsUndoNothing(tx, s, e);
    } else {
      CallsUndoNothing(tx, s, e);
    }
  }

  // Over any further run from a reachable state nothing of this is undone.
  lemma {:induction false} RunUndoesNothing(tx: TextLib, s: State, es: seq<Event>)
    requires Inv(s) && ToleratedRun(tx, s, es)
    ensures NothingUndone(s, Run(tx, s, es))
  {
    if es != [] {
      var mid := Run(tx, s, es[..|es| - 1]);
      RunUndoesNothing(tx, s, es[..|es| - 1]);
      RunKeepsInv(tx, s, es[..|es| - 1]);
      StepUndoesNothing(tx, mid, es[|es| - 1]);
    }
  }
}
