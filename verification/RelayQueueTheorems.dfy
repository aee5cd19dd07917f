/** What the relay queue promises, over every interleaving from start-up. */
module RelayQueueTheorems {
  import opened Common
  import opened Backoff
  import opened RelayQueueModel
  import opened RelayQueueSafety

  ghost predicate Reachable(cfg: Config, es: seq<Event>) {
    ValidConfig(cfg) && Legal(Initial(cfg), es)
  }

  ghost function At(cfg: Config, es: seq<Event>): State
    requires Reachable(cfg, es)
  {
    Run(Initial(cfg), es)
  }

  lemma ReachableInv(cfg: Config, es: seq<Event>)
    requires Reachable(cfg, es)
    ensures Inv(At(cfg, es))
  {
    InitialInv(cfg);
    RunKeepsInv(Initial(cfg), es);
  }

  // ---- Where a job is ----

  ghost function BufferSlots(s: State, id: nat): set<int> {
    set k | 0 <= k < |s.jobs| && s.jobs[k].id == id
  }

  ghost function Holders(s: State, id: nat): set<int> {
    set w | 0 <= w < |s.workers| && s.workers[w].HasJob() && s.workers[w].job.id == id
  }

  /** Every accepted job is in exactly one place: one buffer slot, one worker or
      one final fate. */
  lemma EveryJobInOnePlace(cfg: Config, es: seq<Event>, id: nat)
    requires Reachable(cfg, es) && id < |At(cfg, es).log|
    ensures var s := At(cfg, es);
      |BufferSlots(s, id)| + |Holders(s, id)| + (if s.log[id].place.Live() then 0 else 1) == 1
  {
    ReachableInv(cfg, es);
    var s := At(cfg, es);
    assert RecordOk(s, id);
    if s.log[id].place.Buffered? {
      var k :| 0 <= k < |s.jobs| && s.jobs[k].id == id;
      assert BufferSlots(s, id) == {k};
    } else {
      assert BufferSlots(s, id) == {};
    }
    forall w | w in Holders(s, id)
      ensures s.log[id].place == With(w)
    {
      assert WorkerOk(s, w);
    }
    if s.log[id].place.With? {
      assert Holders(s, id) == {s.log[id].place.worker};
    } else {
      assert Holders(s, id) == {};
    }
  }

  /** Every job in the channel or with a worker was accepted, still carries the
      accepted message, and counts its failed Sends exactly. */
  lemma LiveCopiesAreFaithful(cfg: Config, es: seq<Event>, j: Job)
    requires Reachable(cfg, es)
    requires var s := At(cfg, es);
      j in s.jobs || exists w :: 0 <= w < |s.workers| && s.workers[w].HasJob() && s.workers[w].job == j
    ensures var s := At(cfg, es);
      && j.id < |s.log| && s.log[j.id].place.Live() && s.log[j.id].msg == j.msg
      && j.attempts == |s.log[j.id].sends| < cfg.maxRetries && AllFailed(s.log[j.id].sends)
  {
    ReachableInv(cfg, es);
    RunKeepsConfig(Initial(cfg), es);
    var s := At(cfg, es);
    if j in s.jobs {
      var k :| 0 <= k < |s.jobs| && s.jobs[k] == j;
      assert JobOk(s, s.jobs[k]);
    } else {
      var w :| 0 <= w < |s.workers| && s.workers[w].HasJob() && s.workers[w].job == j;
      assert WorkerOk(s, w);
    }
    assert RecordOk(s, j.id);
  }

  /** A copy of job j waits in the channel or with a worker. */
  ghost predicate IsLive(s: State, j: Job) {
    j in s.jobs || exists w :: 0 <= w < |s.workers| && s.workers[w].HasJob() && s.workers[w].job == j
  }

  /** When a job may be sent next, to the nanosecond: a job that was never sent at
      once, every other one wrapped and capped backoff after the end of its last
      Send. */
  lemma RetryTimesAreExact(cfg: Config, es: seq<Event>, j: Job)
    requires Reachable(cfg, es) && IsLive(At(cfg, es), j)
    ensures var s := At(cfg, es);
      j.id < |s.log|
      && var sends := s.log[j.id].sends;
         j.nextRetry == if sends == [] then 0
                        else sends[|sends| - 1].ended + Delay(cfg.baseDelay, cfg.maxDelay, |sends|)
  {
    LiveCopiesAreFaithful(cfg, es, j);
    ReachableInv(cfg, es);
    RunKeepsConfig(Initial(cfg), es);
    var s := At(cfg, es);
    if j in s.jobs {
      var k :| 0 <= k < |s.jobs| && s.jobs[k] == j;
      assert JobOk(s, s.jobs[k]);
    } else {
      var w :| 0 <= w < |s.workers| && s.workers[w].HasJob() && s.workers[w].job == j;
      assert WorkerOk(s, w);
    }
  }

  /** With the default delays that is min(5 s * 2^(n-1), 4 h) after the n-th Send. */
  lemma DefaultRetryTimesAreExact(c: Config, es: seq<Event>, j: Job)
    requires c.baseDelay <= 0 && c.maxDelay <= 0
    requires Reachable(Normalize(c), es) && IsLive(At(Normalize(c), es), j)
    ensures var s := At(Normalize(c), es);
      j.id < |s.log|
      && var sends := s.log[j.id].sends;
         sends != [] ==>
           j.nextRetry == sends[|sends| - 1].ended
                          + Min(5_000_000_000 * Pow2(|sends| - 1), 4 * 3600 * 1_000_000_000)
  {
    RetryTimesAreExact(Normalize(c), es, j);
    var sends := At(Normalize(c), es).log[j.id].sends;
    if sends != [] {
      DefaultDelaySaturates(|sends|);
    }
  }

  /** A waiting worker can send from exactly that instant on. */
  lemma TimerIsExact(cfg: Config, es: seq<Event>, w: nat, t: nat)
    requires Reachable(cfg, es) && w < |At(cfg, es).workers| && At(cfg, es).workers[w].Waiting?
    ensures var s := At(cfg, es);
      var id := s.workers[w].job.id;
      id < |s.log| && s.log[id].sends != []
      && var sends := s.log[id].sends;
         Enabled(s.(now := t), TimerFires(w))
         <==> t >= sends[|sends| - 1].ended + Delay(cfg.baseDelay, cfg.maxDelay, |sends|)
  {
    ReachableInv(cfg, es);
    var s := At(cfg, es);
    assert WorkerOk(s, w);
    RetryTimesAreExact(cfg, es, s.workers[w].job);
  }

  /** The final fates, read off the Sends: delivered exactly when some Send
      succeeded, exhausted exactly when MaxRetries Sends all failed; a job is
      dropped only from a full buffer before stop, or after stop, and abandoned
      only after Stop's deadline. Whatever happened to it, also under
      cancellation, the job got at least one Send, and never more than
      MaxRetries. */
  lemma FatesAreEarned(cfg: Config, es: seq<Event>, id: nat)
    requires Reachable(cfg, es) && id < |At(cfg, es).log|
    ensures var s := At(cfg, es);
      var r := s.log[id];
      && |r.sends| <= cfg.maxRetries
      && (r.place.Delivered? <==> exists k :: 0 <= k < |r.sends| && r.sends[k].ok)
      && (r.place.Exhausted? <==> AllFailed(r.sends) && |r.sends| == cfg.maxRetries)
      && (!r.place.Live() ==> |r.sends| >= 1)
      && (r.place.DroppedFull? ==> r.place.depth == Max(cfg.workers * 8, 64) && !r.place.stopSeen)
      && (r.place.DroppedOnStop? ==> s.stopped)
      && (r.place.Abandoned? ==> s.stopped && s.cancelled)
  {
    ReachableInv(cfg, es);
    RunKeepsConfig(Initial(cfg), es);
    var s := At(cfg, es);
    var r := s.log[id];
    assert RecordOk(s, id);
    if r.place.Delivered? {
      assert r.sends[|r.sends| - 1].ok;
    }
  }

  lemma {:induction false} RunKeepsConfig(s: State, es: seq<Event>)
    requires Legal(s, es)
    ensures Run(s, es).cfg == s.cfg
    decreases |es|
  {
    if es == [] {
    } else {
      RunKeepsConfig(Next(s, es[0]), es[1..]);
    }
  }

  /** Any two Sends of one job are at least the earlier one's backoff apart. */
  lemma SendsAreSpaced(cfg: Config, es: seq<Event>, id: nat, i: nat, j: nat)
    requires Reachable(cfg, es) && id < |At(cfg, es).log|
    requires i < j < |At(cfg, es).log[id].sends|
    ensures var sends := At(cfg, es).log[id].sends;
      sends[j].started >= sends[i].ended + RetryDelay(cfg, i + 1)
  {
    ReachableInv(cfg, es);
    RunKeepsConfig(Initial(cfg), es);
    assert RecordOk(At(cfg, es), id);
    SpacedPairs(cfg, At(cfg, es).log[id], i, j);
  }

  lemma {:induction false} SpacedPairs(cfg: Config, r: Record, i: nat, j: nat)
    requires ValidConfig(cfg) && SendsOk(cfg, r) && i < j < |r.sends|
    ensures r.sends[j].started >= r.sends[i].ended + RetryDelay(cfg, i + 1)
  {
    if i + 1 < j {
      SpacedPairs(cfg, r, i, j - 1);
      assert r.sends[j].started >= r.sends[j - 1].ended + RetryDelay(cfg, j);
    }
  }

  /** A queue whose delays were left to NewRelayQueue spaces its Sends by
      min(5 s * 2^i, 4 h), past overflow too. */
  lemma DefaultSendsAreSpaced(c: Config, es: seq<Event>, id: nat, i: nat, j: nat)
    requires c.baseDelay <= 0 && c.maxDelay <= 0
    requires Reachable(Normalize(c), es) && id < |At(Normalize(c), es).log|
    requires i < j < |At(Normalize(c), es).log[id].sends|
    ensures var sends := At(Normalize(c), es).log[id].sends;
      sends[j].started >= sends[i].ended + Min(5_000_000_000 * Pow2(i), 4 * 3600 * 1_000_000_000)
  {
    SendsAreSpaced(Normalize(c), es, id, i, j);
    DefaultDelaySaturates(i + 1);
  }

  /** What a select may do: any ready case, and its default when none is. */
  lemma SelectChoices(s: State, w: nat)
    requires w < |s.workers|
    ensures var x := s.workers[w];
      var room := |s.jobs| < Max(s.cfg.workers * 8, 64);
      && (Enabled(s, Receive(w)) <==> s.jobs != [] && (x.Selecting? || x.Draining?))
      && (Enabled(s, SeeStop(w)) <==> x.Selecting? && s.stopped)
      && (Enabled(s, Exit(w)) <==> x.Draining? && s.jobs == [])
      && (Enabled(s, TimerFires(w)) <==> x.Waiting? && s.now >= x.job.nextRetry)
      && (Enabled(s, GiveUpWaiting(w)) <==> x.Waiting? && s.cancelled)
      && (Enabled(s, Requeue(w, true)) <==> x.Requeueing? && s.stopped)
      && (Enabled(s, Requeue(w, false)) <==> x.Requeueing? && (room || !s.stopped))
  {
  }

  // ---- History only grows ----

  /** Nothing recorded about a job is ever taken back, and a final fate stays. */
  ghost predicate Extends(before: Record, after: Record) {
    && after.msg == before.msg
    && before.sends <= after.sends
    && (!before.place.Live() ==> after == before)
  }

  /** A step that only rewrites the record of one live job. */
  lemma OneRecordExtends(s: State, s': State, changed: nat, r: Record, id: nat)
    requires changed < |s.log| && id < |s.log| && s'.log == s.log[changed := r]
    requires s.log[changed].place.Live() && Extends(s.log[changed], r)
    ensures |s.log| <= |s'.log| && Extends(s.log[id], s'.log[id])
  {
  }

  lemma ReceiveExtends(s: State, w: nat, id: nat)
    requires Inv(s) && Enabled(s, Receive(w)) && id < |s.log|
    ensures |s.log| <= |AfterReceive(s, w).log| && Extends(s.log[id], AfterReceive(s, w).log[id])
  {
    var first := s.jobs[0].id;
    assert JobOk(s, s.jobs[0]) && s.log[first].place == Buffered;
    OneRecordExtends(s, AfterReceive(s, w), first, AfterReceive(s, w).log[first], id);
  }

  lemma SendReturnExtends(s: State, w: nat, ok: bool, id: nat)
    requires Inv(s) && Enabled(s, SendReturns(w, ok)) && id < |s.log|
    ensures |s.log| <= |AfterSend(s, w, ok).log| && Extends(s.log[id], AfterSend(s, w, ok).log[id])
  {
    assert WorkerOk(s, w);
    var mine := s.workers[w].job.id;
    OneRecordExtends(s, AfterSend(s, w, ok), mine, AfterSend(s, w, ok).log[mine], id);
  }

  lemma RequeueExtends(s: State, w: nat, onStop: bool, id: nat)
    requires Inv(s) && Enabled(s, Requeue(w, onStop)) && id < |s.log|
    ensures |s.log| <= |AfterRequeue(s, w, onStop).log| && Extends(s.log[id], AfterRequeue(s, w, onStop).log[id])
  {
    assert WorkerOk(s, w);
    var mine := s.workers[w].job.id;
    OneRecordExtends(s, AfterRequeue(s, w, onStop), mine, AfterRequeue(s, w, onStop).log[mine], id);
  }

  lemma GiveUpExtends(s: State, w: nat, id: nat)
    requires Inv(s) && Enabled(s, GiveUpWaiting(w)) && id < |s.log|
    ensures |s.log| <= |Next(s, GiveUpWaiting(w)).log| && Extends(s.log[id], Next(s, GiveUpWaiting(w)).log[id])
  {
    assert WorkerOk(s, w);
    var s', mine := Next(s, GiveUpWaiting(w)), s.workers[w].job.id;
    OneRecordExtends(s, s', mine, s'.log[mine], id);
  }

  lemma StepExtends(s: State, e: Event, id: nat)
    requires Inv(s) && Enabled(s, e) && id < |s.log|
    ensures |s.log| <= |Next(s, e).log| && Extends(s.log[id], Next(s, e).log[id])
  {
    if e.Receive? {
      ReceiveExtends(s, e.w, id);
    } else if e.GiveUpWaiting? {
      GiveUpExtends(s, e.w, id);
    } else if e.SendReturns? {
      SendReturnExtends(s, e.w, e.ok, id);
    } else if e.Requeue? {
      RequeueExtends(s, e.w, e.onStop, id);
    }
  }

  lemma {:induction false} RunExtends(s: State, es: seq<Event>, id: nat)
    requires Inv(s) && Legal(s, es) && id < |s.log|
    ensures |s.log| <= |Run(s, es).log| && Extends(s.log[id], Run(s, es).log[id])
    decreases |es|
  {
    if es == [] {
    } else {
      StepKeepsInv(s, es[0]);
      StepExtends(s, es[0], id);
      RunExtends(Next(s, es[0]), es[1..], id);
    }
  }

  // ---- Draining ----

  /** Once every worker has returned, the buffer holds exactly the jobs accepted
      after that point, none of which was ever sent; every other job has its final
      fate and had a Send. */
  lemma DrainLeavesOnlyOrphans(cfg: Config, es: seq<Event>)
    requires Reachable(cfg, es) && AllExited(At(cfg, es))
    ensures var s := At(cfg, es);
      && (forall id :: 0 <= id < |s.log| ==> (InBuffer(s, id) <==> s.log[id].orphan))
      && (forall id :: 0 <= id < |s.log| && !s.log[id].orphan ==>
            !s.log[id].place.Live() && |s.log[id].sends| >= 1)
      && (forall id :: 0 <= id < |s.log| && s.log[id].orphan ==> s.log[id].sends == [])
      && (s.jobs == [] <==> forall id :: 0 <= id < |s.log| ==> !s.log[id].orphan)
  {
    ReachableInv(cfg, es);
    var s := At(cfg, es);
    forall id | 0 <= id < |s.log|
      ensures InBuffer(s, id) <==> s.log[id].orphan
      ensures !s.log[id].orphan ==> !s.log[id].place.Live() && |s.log[id].sends| >= 1
      ensures s.log[id].orphan ==> s.log[id].sends == []
    {
      assert RecordOk(s, id);
      if InBuffer(s, id) {
        var k :| 0 <= k < |s.jobs| && s.jobs[k].id == id;
        assert s.log[s.jobs[k].id].place == Buffered;
      }
    }
    if s.jobs != [] {
      assert JobOk(s, s.jobs[0]) && InBuffer(s, s.jobs[0].id);
    }
  }

  /** No Enqueue is called once stop has been signalled. */
  ghost predicate NoLateEnqueue(s: State, es: seq<Event>)
    requires Legal(s, es)
    decreases |es|
  {
    es == [] || ((es[0].Enqueue? ==> !s.stopped) && NoLateEnqueue(Next(s, es[0]), es[1..]))
  }

  lemma {:induction false} NoOrphans(s: State, es: seq<Event>)
    requires Inv(s) && Legal(s, es) && NoLateEnqueue(s, es)
    requires forall id :: 0 <= id < |s.log| ==> !s.log[id].orphan
    ensures forall id :: 0 <= id < |Run(s, es).log| ==> !Run(s, es).log[id].orphan
    decreases |es|
  {
    if es == [] {
    } else {
      StepKeepsInv(s, es[0]);
      if es[0].Enqueue? {
        assert !AllExited(s) by { assert WorkerOk(s, 0); }
      }
      NoOrphans(Next(s, es[0]), es[1..]);
    }
  }

  /** The shutdown promise: with no Enqueue after Stop, when all workers have
      returned the buffer is empty and every accepted job had a Send. */
  lemma DrainIsComplete(cfg: Config, es: seq<Event>)
    requires Reachable(cfg, es) && NoLateEnqueue(Initial(cfg), es) && AllExited(At(cfg, es))
    ensures At(cfg, es).jobs == []
    ensures forall id :: 0 <= id < |At(cfg, es).log| ==>
              !At(cfg, es).log[id].place.Live() && |At(cfg, es).log[id].sends| >= 1
  {
    InitialInv(cfg);
    NoOrphans(Initial(cfg), es);
    DrainLeavesOnlyOrphans(cfg, es);
  }

  /** The hypothesis is needed: Enqueue does not look at the stop signal, so a
      late caller is told "accepted" about a job nobody will ever send. */
  lemma LateEnqueueIsLost(msg: Message) returns (cfg: Config, es: seq<Event>)
    ensures Reachable(cfg, es) && AllExited(At(cfg, es))
    ensures At(cfg, es).log == [Record(msg, [], Buffered, true)] && |At(cfg, es).jobs| == 1
  {
    cfg := Config(1, 7, DEFAULT_BASE, DEFAULT_MAX);
    var s0 := Initial(cfg);
    var s1 := Next(s0, Stop);
    var s2 := Next(s1, SeeStop(0));
    var s3 := Next(s2, Exit(0));
    assert AllExited(s3);
    es := [Stop, SeeStop(0), Exit(0), Enqueue(msg, false, false)];
    RunSteps(s0, s1, s2, s3, es);
  }

  lemma RunSteps(s0: State, s1: State, s2: State, s3: State, es: seq<Event>)
    requires |es| == 4
    requires Enabled(s0, es[0]) && s1 == Next(s0, es[0])
    requires Enabled(s1, es[1]) && s2 == Next(s1, es[1])
    requires Enabled(s2, es[2]) && s3 == Next(s2, es[2])
    requires Enabled(s3, es[3])
    ensures Legal(s0, es) && Run(s0, es) == Next(s3, es[3])
  {
    var t1, t2, t3 := es[1..], es[1..][1..], es[1..][1..][1..];
    assert t3 == [es[3]] && t3[1..] == [];
    assert Legal(s3, t3) && Run(s3, t3) == Next(s3, es[3]);
    assert Legal(s2, t2) && Run(s2, t2) == Run(s3, t3);
    assert Legal(s1, t1) && Run(s1, t1) == Run(s2, t2);
  }
}
