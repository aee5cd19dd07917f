/** What every interleaving of the relay queue keeps. */
module RelayQueueSafety {
  import opened RelayQueueModel

  // ---- The invariant ----

  /** A live copy agrees with the job's history: its message is the accepted
      one, its attempt count is the number of Sends made, and its retry time is
      one backoff after the last of them. */
  ghost predicate JobOk(s: State, j: Job) {
    && j.id < |s.log|
    && s.log[j.id].msg == j.msg
    && |s.log[j.id].sends| == j.attempts < s.cfg.maxRetries
    && (if j.attempts == 0 then j.nextRetry == 0
        else j.nextRetry == s.log[j.id].sends[j.attempts - 1].ended + RetryDelay(s.cfg, j.attempts))
  }

  ghost predicate AllFailed(sends: seq<Send>) {
    forall k :: 0 <= k < |sends| ==> !sends[k].ok
  }

  /** The Sends of one job carry its message, and each starts at least the
      backoff after the end of the one before. */
  ghost predicate SendsOk(cfg: Config, r: Record) {
    && (forall k :: 0 <= k < |r.sends| ==> r.sends[k].msg == r.msg && r.sends[k].started <= r.sends[k].ended)
    && (forall k :: 1 <= k < |r.sends| ==>
          r.sends[k].started >= r.sends[k - 1].ended + RetryDelay(cfg, k))
  }

  /** What each place means in terms of the Sends that were made. */
  ghost predicate PlaceMeaning(s: State, r: Record) {
    match r.place
    case Buffered => AllFailed(r.sends) && |r.sends| < s.cfg.maxRetries
    case With(_) => AllFailed(r.sends) && |r.sends| < s.cfg.maxRetries
    case Delivered =>
      1 <= |r.sends| <= s.cfg.maxRetries && r.sends[|r.sends| - 1].ok && AllFailed(r.sends[..|r.sends| - 1])
    case Exhausted => |r.sends| == s.cfg.maxRetries && AllFailed(r.sends)
    case DroppedFull(depth, stopSeen) =>
      1 <= |r.sends| < s.cfg.maxRetries && AllFailed(r.sends) && depth == Capacity(s.cfg) && !stopSeen
    case DroppedOnStop => 1 <= |r.sends| < s.cfg.maxRetries && AllFailed(r.sends) && s.stopped
    case Abandoned => 1 <= |r.sends| < s.cfg.maxRetries && AllFailed(r.sends) && s.cancelled
  }

  ghost predicate BufferOk(s: State) {
    && |s.jobs| <= Capacity(s.cfg)
    && (forall k :: 0 <= k < |s.jobs| ==> JobOk(s, s.jobs[k]) && s.log[s.jobs[k].id].place == Buffered)
    && (forall k, l :: 0 <= k < l < |s.jobs| ==> s.jobs[k].id != s.jobs[l].id)
  }

  ghost predicate WorkerOk(s: State, w: nat)
    requires w < |s.workers|
  {
    var x := s.workers[w];
    && (x.HasJob() ==> JobOk(s, x.job) && s.log[x.job.id].place == With(w) && (x.draining ==> s.stopped))
    && (x.Draining? || x.Exited? ==> s.stopped)
    && (x.Waiting? || x.Requeueing? ==> x.job.attempts >= 1)
    && (x.Sending? ==> x.job.nextRetry <= x.started <= s.now)
  }

  ghost predicate WorkersOk(s: State) {
    && |s.workers| == s.cfg.workers
    && (forall w :: 0 <= w < |s.workers| ==> WorkerOk(s, w))
  }

  ghost predicate InBuffer(s: State, id: nat) {
    exists k :: 0 <= k < |s.jobs| && s.jobs[k].id == id
  }

  ghost predicate RecordOk(s: State, id: nat)
    requires id < |s.log|
  {
    var r := s.log[id];
    && SendsOk(s.cfg, r)
    && PlaceMeaning(s, r)
    && (r.place.Buffered? ==> InBuffer(s, id))
    && (r.place.With? ==>
          r.place.worker < |s.workers| && s.workers[r.place.worker].HasJob() && s.workers[r.place.worker].job.id == id)
    && (r.orphan ==> r.place.Buffered? && r.sends == [] && AllExited(s))
    && (AllExited(s) && r.place.Buffered? ==> r.orphan)
  }

  ghost predicate LogOk(s: State) {
    forall id :: 0 <= id < |s.log| ==> RecordOk(s, id)
  }

  ghost predicate Inv(s: State) {
    && ValidConfig(s.cfg)
    && BufferOk(s)
    && WorkersOk(s)
    && LogOk(s)
    && (s.cancelled ==> s.stopped)
  }

  // ---- Preservation, one event at a time ----

  lemma InitialInv(cfg: Config)
    requires ValidConfig(cfg)
    ensures Inv(Initial(cfg))
  {
  }

  lemma AcceptKeepsInv(s: State, msg: Message)
    requires Inv(s) && Room(s)
    ensures Inv(AcceptJob(s, msg))
  {
    var s' := AcceptJob(s, msg);
    assert WorkersOk(s') by {
      forall w | 0 <= w < |s'.workers|
        ensures WorkerOk(s', w)
      {
        assert WorkerOk(s, w);
      }
    }
    assert BufferOk(s') by {
      forall k | 0 <= k < |s'.jobs|
        ensures JobOk(s', s'.jobs[k]) && s'.log[s'.jobs[k].id].place == Buffered
      {
        if k < |s.jobs| { assert JobOk(s, s.jobs[k]); }
      }
    }
    AcceptKeepsLog(s, msg);
  }

  lemma AcceptKeepsLog(s: State, msg: Message)
    requires LogOk(s) && ValidConfig(s.cfg)
    ensures LogOk(AcceptJob(s, msg))
  {
    var s' := AcceptJob(s, msg);
    forall id | 0 <= id < |s'.log|
      ensures RecordOk(s', id)
    {
      if id < |s.log| {
        assert RecordOk(s, id);
        AppendKeepsBuffered(s, s', id);
      } else {
        assert s'.jobs[|s.jobs|].id == id;
      }
    }
  }

  /** A worker that holds a job is its only holder. */
  lemma SoleHolder(s: State, w: nat)
    requires Inv(s) && w < |s.workers| && s.workers[w].HasJob()
    ensures s.workers[w].job.id < |s.log|
    ensures forall k :: 0 <= k < |s.jobs| ==> s.jobs[k].id != s.workers[w].job.id
    ensures Elsewhere(s, w, s.workers[w].job.id)
  {
    assert WorkerOk(s, w);
    forall v | 0 <= v < |s.workers| && v != w && s.workers[v].HasJob()
      ensures s.workers[v].job.id != s.workers[w].job.id
    {
      assert WorkerOk(s, v);
    }
  }

  /** No worker but w holds job id. */
  ghost predicate Elsewhere(s: State, w: nat, id: nat) {
    forall v :: 0 <= v < |s.workers| && v != w && s.workers[v].HasJob() ==> s.workers[v].job.id != id
  }

  /** s' differs from s only in worker w, the record of job id and the buffer,
      and w has not exited. */
  ghost predicate Touches(s: State, s': State, w: nat, id: nat) {
    && s' == s.(jobs := s'.jobs, workers := s'.workers, log := s'.log)
    && |s'.log| == |s.log| && |s'.workers| == |s.workers| && w < |s.workers| && id < |s.log|
    && (forall i :: 0 <= i < |s.log| && i != id ==> s'.log[i] == s.log[i])
    && (forall v :: 0 <= v < |s.workers| && v != w ==> s'.workers[v] == s.workers[v])
    && !s.workers[w].Exited? && !s'.workers[w].Exited?
  }

  lemma TouchKeepsWorkers(s: State, s': State, w: nat, id: nat)
    requires Inv(s) && Touches(s, s', w, id) && Elsewhere(s, w, id)
    requires WorkerOk(s', w)
    ensures WorkersOk(s')
  {
    forall v | 0 <= v < |s'.workers|
      ensures WorkerOk(s', v)
    {
      assert WorkerOk(s, v);
    }
  }

  lemma TouchKeepsLog(s: State, s': State, w: nat, id: nat)
    requires Inv(s) && Touches(s, s', w, id)
    requires s.workers[w].HasJob() ==> s.workers[w].job.id == id
    requires forall i :: 0 <= i < |s.log| && i != id && InBuffer(s, i) ==> InBuffer(s', i)
    requires RecordOk(s', id)
    ensures LogOk(s')
  {
    assert !AllExited(s) && !AllExited(s');
    forall i | 0 <= i < |s'.log|
      ensures RecordOk(s', i)
    {
      assert RecordOk(s, i);
    }
  }

  lemma TailKeepsBuffered(s: State, s': State, i: nat)
    requires s.jobs != [] && s'.jobs == s.jobs[1..] && i != s.jobs[0].id
    ensures InBuffer(s, i) ==> InBuffer(s', i)
  {
    if InBuffer(s, i) {
      var k :| 0 <= k < |s.jobs| && s.jobs[k].id == i;
      assert s'.jobs[k - 1].id == i;
    }
  }

  lemma AppendKeepsBuffered(s: State, s': State, i: nat)
    requires s.jobs <= s'.jobs
    ensures InBuffer(s, i) ==> InBuffer(s', i)
  {
    if InBuffer(s, i) {
      var k :| 0 <= k < |s.jobs| && s.jobs[k].id == i;
      assert s'.jobs[k].id == i;
    }
  }

  lemma HeadIsUnheld(s: State, w: nat)
    requires Inv(s) && s.jobs != []
    ensures Elsewhere(s, w, s.jobs[0].id)
  {
    forall v | 0 <= v < |s.workers| && s.workers[v].HasJob()
      ensures s.workers[v].job.id != s.jobs[0].id
    {
      assert WorkerOk(s, v);
    }
  }

  lemma ReceiveKeepsInv(s: State, w: nat)
    requires Inv(s) && Enabled(s, Receive(w))
    ensures Inv(AfterReceive(s, w))
  {
    var s' := AfterReceive(s, w);
    var job := s.jobs[0];
    assert JobOk(s, job) && WorkerOk(s, w) && RecordOk(s, job.id);
    HeadIsUnheld(s, w);
    assert Touches(s, s', w, job.id);
    TouchKeepsWorkers(s, s', w, job.id);
    forall i | 0 <= i < |s.log| && i != job.id
      ensures InBuffer(s, i) ==> InBuffer(s', i)
    {
      TailKeepsBuffered(s, s', i);
    }
    assert RecordOk(s', job.id);
    TouchKeepsLog(s, s', w, job.id);
    ReceiveKeepsBuffer(s, w);
  }

  lemma ReceiveKeepsBuffer(s: State, w: nat)
    requires BufferOk(s) && Enabled(s, Receive(w))
    ensures BufferOk(AfterReceive(s, w))
  {
    var s' := AfterReceive(s, w);
    forall k | 0 <= k < |s'.jobs|
      ensures JobOk(s', s'.jobs[k]) && s'.log[s'.jobs[k].id].place == Buffered
    {
      assert s'.jobs[k] == s.jobs[k + 1];
      assert JobOk(s, s.jobs[k + 1]);
    }
  }

  /** The holder of a job makes a step that leaves the buffer alone. */
  lemma HolderStepKeepsInv(s: State, s': State, w: nat, id: nat)
    requires Inv(s) && w < |s.workers| && s.workers[w].HasJob() && s.workers[w].job.id == id
    requires Touches(s, s', w, id) && s'.jobs == s.jobs
    requires WorkerOk(s', w) && RecordOk(s', id)
    ensures Inv(s')
  {
    SoleHolder(s, w);
    TouchKeepsWorkers(s, s', w, id);
    forall i | 0 <= i < |s.log|
      ensures InBuffer(s, i) ==> InBuffer(s', i)
    {
      AppendKeepsBuffered(s, s', i);
    }
    TouchKeepsLog(s, s', w, id);
    assert BufferOk(s') by {
      forall k | 0 <= k < |s'.jobs|
        ensures JobOk(s', s'.jobs[k]) && s'.log[s'.jobs[k].id].place == Buffered
      {
        assert JobOk(s, s.jobs[k]);
      }
    }
  }

  lemma LeaveKeepsInv(s: State, w: nat, place: Place)
    requires Inv(s) && w < |s.workers| && s.workers[w].HasJob()
    requires !place.Live()
    requires s.workers[w].job.id < |s.log| && PlaceMeaning(s, s.log[s.workers[w].job.id].(place := place))
    ensures Inv(Leave(s, w, place))
  {
    var id, s' := s.workers[w].job.id, Leave(s, w, place);
    assert WorkerOk(s, w) && RecordOk(s, id);
    assert PlaceMeaning(s', s'.log[id]);
    assert !AllExited(s) by { assert !s.workers[w].Exited?; }
    HolderStepKeepsInv(s, s', w, id);
  }

  lemma SendExtends(cfg: Config, r: Record, send: Send, place: Place)
    requires SendsOk(cfg, r) && send.msg == r.msg && send.started <= send.ended
    requires |r.sends| > 0 ==> send.started >= r.sends[|r.sends| - 1].ended + RetryDelay(cfg, |r.sends|)
    ensures SendsOk(cfg, r.(sends := r.sends + [send], place := place))
  {
  }

  lemma SendKeepsInv(s: State, w: nat, ok: bool)
    requires Inv(s) && Enabled(s, SendReturns(w, ok))
    ensures Inv(AfterSend(s, w, ok))
  {
    var x, id := s.workers[w], s.workers[w].job.id;
    assert WorkerOk(s, w) && RecordOk(s, id);
    var send := Send(x.job.msg, x.started, s.now, ok);
    var r := s.log[id];
    if ok {
      assert (r.sends + [send])[..|r.sends|] == r.sends;
      SettleKeepsInv(s, w, send, x.Loop(), Delivered);
    } else if x.job.attempts + 1 >= s.cfg.maxRetries {
      SettleKeepsInv(s, w, send, x.Loop(), Exhausted);
    } else {
      SettleKeepsInv(s, w, send, Requeueing(Retry(s, x.job), x.draining), With(w));
    }
  }

  lemma SettleKeepsInv(s: State, w: nat, send: Send, x: Worker, place: Place)
    requires Inv(s) && w < |s.workers| && s.workers[w].Sending? && s.workers[w].job.id < |s.log|
    requires send == Send(s.workers[w].job.msg, s.workers[w].started, s.now, send.ok)
    requires PlaceMeaning(s, Settle(s, w, send, x, place).log[s.workers[w].job.id])
    requires !place.Buffered?
    requires if place.With?
             then place == With(w) && x == Requeueing(Retry(s, s.workers[w].job), s.workers[w].draining)
             else x == s.workers[w].Loop()
    ensures Inv(Settle(s, w, send, x, place))
  {
    var id, s' := s.workers[w].job.id, Settle(s, w, send, x, place);
    assert WorkerOk(s, w) && RecordOk(s, id);
    SettledRecordOk(s, s', w, send, place);
    assert WorkerOk(s', w);
    assert Touches(s, s', w, id);
    HolderStepKeepsInv(s, s', w, id);
  }

  lemma SettledRecordOk(s: State, s': State, w: nat, send: Send, place: Place)
    requires w < |s.workers| && s.workers[w].Sending? && s.workers[w].job.id < |s.log|
    requires send == Send(s.workers[w].job.msg, s.workers[w].started, s.now, send.ok)
    requires WorkerOk(s, w) && RecordOk(s, s.workers[w].job.id)
    requires s' == s.(workers := s'.workers, log := s'.log) && |s'.workers| == |s.workers| && |s'.log| == |s.log|
    requires s'.log[s.workers[w].job.id]
          == s.log[s.workers[w].job.id].(sends := s.log[s.workers[w].job.id].sends + [send], place := place)
    requires PlaceMeaning(s, s'.log[s.workers[w].job.id]) && !place.Buffered?
    requires !s'.workers[w].Exited?
    requires place.With? ==> place == With(w) && s'.workers[w].HasJob() && s'.workers[w].job.id == s.workers[w].job.id
    ensures RecordOk(s', s.workers[w].job.id)
  {
    var id := s.workers[w].job.id;
    assert !s.workers[w].Exited? && !AllExited(s);
    SendExtends(s.cfg, s.log[id], send, place);
    assert PlaceMeaning(s', s'.log[id]);
  }

  lemma RequeueIntoBufferKeepsInv(s: State, w: nat)
    requires Inv(s) && Enabled(s, Requeue(w, false)) && Room(s)
    ensures Inv(AfterRequeue(s, w, false))
  {
    var s', job := AfterRequeue(s, w, false), s.workers[w].job;
    SoleHolder(s, w);
    assert WorkerOk(s, w) && RecordOk(s, job.id);
    assert Touches(s, s', w, job.id);
    TouchKeepsWorkers(s, s', w, job.id);
    forall i | 0 <= i < |s.log|
      ensures InBuffer(s, i) ==> InBuffer(s', i)
    {
      AppendKeepsBuffered(s, s', i);
    }
    assert RecordOk(s', job.id) by {
      assert !s.workers[w].Exited? && !s'.workers[w].Exited?;
      assert s'.jobs[|s.jobs|].id == job.id;
    }
    TouchKeepsLog(s, s', w, job.id);
    assert BufferOk(s') by {
      forall k | 0 <= k < |s'.jobs|
        ensures JobOk(s', s'.jobs[k]) && s'.log[s'.jobs[k].id].place == Buffered
      {
        if k < |s.jobs| { assert JobOk(s, s.jobs[k]); }
      }
    }
  }

  lemma ExitKeepsInv(s: State, w: nat)
    requires Inv(s) && Enabled(s, Exit(w))
    ensures Inv(Next(s, Exit(w)))
  {
    var s' := Next(s, Exit(w));
    assert WorkerOk(s, w);
    assert !AllExited(s) by { assert !s.workers[w].Exited?; }
    forall v | 0 <= v < |s'.workers|
      ensures WorkerOk(s', v)
    {
      assert WorkerOk(s, v);
    }
    forall id | 0 <= id < |s'.log|
      ensures RecordOk(s', id)
    {
      assert RecordOk(s, id);
    }
  }

  /** Events that only move the clock, a signal or an idle program point. */
  lemma QuietStepKeepsInv(s: State, e: Event)
    requires Inv(s) && Enabled(s, e)
    requires e.Tick? || e.Stop? || e.DeadlineExpires? || e.SeeStop? || e.TimerFires?
    ensures Inv(Next(s, e))
  {
    var s' := Next(s, e);
    forall v | 0 <= v < |s'.workers|
      ensures WorkerOk(s', v)
    {
      assert WorkerOk(s, v);
    }
    assert AllExited(s') ==> AllExited(s) by {
      if e.SeeStop? || e.TimerFires? {
        assert !s'.workers[e.w].Exited?;
      }
    }
    assert AllExited(s) ==> AllExited(s');
    forall id | 0 <= id < |s'.log|
      ensures RecordOk(s', id)
    {
      assert RecordOk(s, id);
      assert InBuffer(s, id) == InBuffer(s', id);
    }
  }

  lemma StepKeepsInv(s: State, e: Event)
    requires Inv(s) && Enabled(s, e)
    ensures Inv(Next(s, e))
  {
    match e
    case Enqueue(msg, ctxDone, takeDone) =>
      if EnqueueOutcome(s, ctxDone, takeDone).Accepted? {
        AcceptKeepsInv(s, msg);
      }
    case Receive(w) => ReceiveKeepsInv(s, w);
    case Exit(w) => ExitKeepsInv(s, w);
    case GiveUpWaiting(w) =>
      assert WorkerOk(s, w) && RecordOk(s, s.workers[w].job.id);
      LeaveKeepsInv(s, w, Abandoned);
    case SendReturns(w, ok) => SendKeepsInv(s, w, ok);
    case Requeue(w, onStop) =>
      if !onStop && Room(s) {
        RequeueIntoBufferKeepsInv(s, w);
      } else {
        assert WorkerOk(s, w) && RecordOk(s, s.workers[w].job.id);
        LeaveKeepsInv(s, w, if onStop then DroppedOnStop else DroppedFull(|s.jobs|, s.stopped));
      }
    case _ => QuietStepKeepsInv(s, e);
  }

  /** Safety over whole runs: every state of every interleaving is in order. */
  lemma {:induction false} RunKeepsInv(s: State, es: seq<Event>)
    requires Inv(s) && Legal(s, es)
    ensures Inv(Run(s, es))
    decreases |es|
  {
    if es == [] {
    } else {
      StepKeepsInv(s, es[0]);
      RunKeepsInv(Next(s, es[0]), es[1..]);
    }
  }
}
