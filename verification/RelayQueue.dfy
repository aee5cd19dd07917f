/** The relay queue object (internal/relay/queue.go). Each method is one atomic
    action of the source's goroutines, written on the object's own fields and
    proved to make exactly the corresponding transition of RelayQueueModel. */
module RelayQueue {
  import opened Common
  import opened Backoff
  import opened RelayQueueModel
  import opened RelayQueueSafety
  import opened RelayQueueTermination
  import opened RelayQueueTheorems

  class Queue {
    const cfg: Config
    var clock: nat
    var jobs: seq<Job>
    var stopClosed: bool
    var ctxCancelled: bool
    var workers: seq<Worker>
    var accepted: nat
    ghost var log: seq<Record>

    ghost function View(): State
      reads this
    {
      State(cfg, clock, jobs, workers, stopClosed, ctxCancelled, log)
    }

    ghost predicate Valid()
      reads this
    {
      Inv(View()) && accepted == |log|
    }

    /** NewRelayQueue: fills in the defaults and starts the workers. */
    constructor (c: Config)
      ensures cfg == Normalize(c)
      ensures View() == Initial(Normalize(c))
      ensures Valid()
    {
      var n := Normalize(c);
      cfg := n;
      clock, jobs, stopClosed, ctxCancelled, accepted, log := 0, [], false, false, 0, [];
      var started: seq<Worker> := [];
      var i := 0;
      while i < n.workers
        invariant 0 <= i <= n.workers
        invariant started == seq(i, _ => Selecting)
      {
        started := started + [Selecting];
        i := i + 1;
      }
      workers := started;
      InitialInv(n);
    }

    /** Non-blocking: a slot, a cancelled context, or ErrQueueFull. */
    method Enqueue(msg: Message, ctxDone: bool, takeDone: bool) returns (r: EnqueueResult)
      requires Valid()
      modifies this
      ensures Valid()
      ensures r == EnqueueOutcome(old(View()), ctxDone, takeDone)
      ensures View() == Next(old(View()), RelayQueueModel.Enqueue(msg, ctxDone, takeDone))
      ensures var room := |old(jobs)| < Max(cfg.workers * 8, 64);
        && (r.Accepted? <==> room && !(ctxDone && takeDone))
        && (r.ContextError? <==> ctxDone && !(room && !takeDone))
        && (r.QueueFull? <==> !ctxDone && !room)
      ensures r.Accepted? ==> jobs == old(jobs) + [Job(|old(log)|, msg, 0, 0)]
                              && log == old(log) + [Record(msg, [], Buffered, AllExited(old(View())))]
      ensures !r.Accepted? ==> View() == old(View())
    {
      StepKeepsInv(View(), RelayQueueModel.Enqueue(msg, ctxDone, takeDone));
      var slotReady := |jobs| < Capacity(cfg);
      if slotReady && (!ctxDone || !takeDone) {
        log := log + [Record(msg, [], Buffered, AllExited(View()))];
        jobs := jobs + [Job(accepted, msg, 0, 0)];
        accepted := accepted + 1;
        r := Accepted;
      } else if ctxDone {
        r := ContextError;
      } else {
        r := QueueFull;
      }
    }

    method Advance(elapsed: nat)
      requires Valid()
      modifies this`clock
      ensures Valid() && View() == Next(old(View()), Tick(elapsed)) && clock == old(clock) + elapsed
    {
      StepKeepsInv(View(), Tick(elapsed));
      clock := clock + elapsed;
    }

    /** The first action of Stop. Closing the channel twice would panic. */
    method CloseStop()
      requires Valid() && !stopClosed
      modifies this`stopClosed
      ensures Valid() && View() == Next(old(View()), RelayQueueModel.Stop) && stopClosed
    {
      StepKeepsInv(View(), RelayQueueModel.Stop);
      stopClosed := true;
    }

    /** Stop's context expires before the workers are done. */
    method CancelContext()
      requires Valid() && Enabled(View(), DeadlineExpires)
      modifies this`ctxCancelled
      ensures Valid() && View() == Next(old(View()), DeadlineExpires) && ctxCancelled
    {
      StepKeepsInv(View(), DeadlineExpires);
      ctxCancelled := true;
    }

    /** Either loop of `worker` receives a job and enters `process`. */
    method ReceiveJob(w: nat)
      requires Valid() && Enabled(View(), Receive(w))
      modifies this`jobs, this`workers, this`log
      ensures Valid() && View() == Next(old(View()), Receive(w))
      ensures jobs == old(jobs)[1..]
      ensures var job, draining := old(jobs)[0], old(workers[w]).Draining?;
        workers == old(workers)[w := if job.nextRetry > clock then Waiting(job, draining)
                                     else Sending(job, draining, clock)]
    {
      StepKeepsInv(View(), Receive(w));
      var draining := workers[w].Draining?;
      var job := jobs[0];
      jobs := jobs[1..];
      assert job.id < |log| by { assert JobOk(old(View()), old(jobs)[0]); }
      log := log[job.id := log[job.id].(place := With(w))];
      if job.nextRetry - clock > 0 {
        workers := workers[w := Waiting(job, draining)];
      } else {
        workers := workers[w := Sending(job, draining, clock)];
      }
    }

    /** The main select of `worker` takes the stop case. */
    method ObserveStop(w: nat)
      requires Valid() && Enabled(View(), SeeStop(w))
      modifies this`workers
      ensures Valid() && View() == Next(old(View()), SeeStop(w))
      ensures stopClosed && workers == old(workers)[w := Draining]
    {
      StepKeepsInv(View(), SeeStop(w));
      workers := workers[w := Draining];
    }

    /** The drain select finds nothing buffered: the worker returns. */
    method ReturnFromDrain(w: nat)
      requires Valid() && Enabled(View(), Exit(w))
      modifies this`workers
      ensures Valid() && View() == Next(old(View()), Exit(w))
      ensures jobs == [] && workers == old(workers)[w := Exited]
    {
      StepKeepsInv(View(), Exit(w));
      workers := workers[w := Exited];
    }

    /** The retry timer in `process` fires, or the cancelled context ends the
        wait and the job. */
    method EndWait(w: nat, timer: bool)
      requires Valid() && Enabled(View(), if timer then TimerFires(w) else GiveUpWaiting(w))
      modifies this`workers, this`log
      ensures Valid()
      ensures View() == Next(old(View()), if timer then TimerFires(w) else GiveUpWaiting(w))
      ensures var job, draining := old(workers[w]).job, old(workers[w]).draining;
        if timer then clock >= job.nextRetry && log == old(log)
                      && workers == old(workers)[w := Sending(job, draining, clock)]
        else ctxCancelled && workers == old(workers)[w := if draining then Draining else Selecting]
             && job.id < |old(log)| && log == old(log)[job.id := old(log)[job.id].(place := Abandoned)]
    {
      StepKeepsInv(View(), if timer then TimerFires(w) else GiveUpWaiting(w));
      var x := workers[w];
      if timer {
        workers := workers[w := Sending(x.job, x.draining, clock)];
      } else {
        assert WorkerOk(View(), w);
        log := log[x.job.id := log[x.job.id].(place := Abandoned)];
        workers := workers[w := x.Loop()];
      }
    }

    /** backend.Send returns; on failure the job is counted and, below the
        limit, scheduled for a retry. */
    method FinishSend(w: nat, ok: bool)
      requires Valid() && Enabled(View(), SendReturns(w, ok))
      modifies this`workers, this`log
      ensures Valid() && View() == Next(old(View()), SendReturns(w, ok))
      ensures var job, draining := old(workers[w]).job, old(workers[w]).draining;
        var n := job.attempts + 1;
        var again := !ok && n < cfg.maxRetries;
        && job.id < |old(log)|
        && workers == old(workers)[w :=
             if again
             then Requeueing(job.(attempts := n, nextRetry := clock + Delay(cfg.baseDelay, cfg.maxDelay, n)), draining)
             else if draining then Draining else Selecting]
        && log == old(log)[job.id := old(log)[job.id].(
             sends := old(log)[job.id].sends + [Send(job.msg, old(workers[w]).started, clock, ok)],
             place := if ok then Delivered else if again then With(w) else Exhausted)]
    {
      StepKeepsInv(View(), SendReturns(w, ok));
      assert WorkerOk(View(), w);
      var x := workers[w];
      var job := x.job;
      ghost var sends := log[job.id].sends + [Send(job.msg, x.started, clock, ok)];
      if ok {
        log := log[job.id := log[job.id].(sends := sends, place := Delivered)];
        workers := workers[w := x.Loop()];
        return;
      }
      job := job.(attempts := job.attempts + 1);
      if job.attempts >= cfg.maxRetries {
        log := log[job.id := log[job.id].(sends := sends, place := Exhausted)];
        workers := workers[w := x.Loop()];
        return;
      }
      var backoff := ShiftLeft(cfg.baseDelay, job.attempts - 1);
      if backoff > cfg.maxDelay || backoff <= 0 {
        backoff := cfg.maxDelay;
      }
      job := job.(nextRetry := clock + backoff);
      log := log[job.id := log[job.id].(sends := sends, place := With(w))];
      workers := workers[w := Requeueing(job, x.draining)];
    }

    /** The re-enqueue select at the end of `process`. */
    method PutBack(w: nat, onStop: bool)
      requires Valid() && Enabled(View(), Requeue(w, onStop))
      modifies this`jobs, this`workers, this`log
      ensures Valid() && View() == Next(old(View()), Requeue(w, onStop))
      ensures var job, draining := old(workers[w]).job, old(workers[w]).draining;
        var room := |old(jobs)| < Max(cfg.workers * 8, 64);
        && job.id < |old(log)|
        && workers == old(workers)[w := if draining then Draining else Selecting]
        && jobs == (if !onStop && room then old(jobs) + [job] else old(jobs))
        && log == old(log)[job.id := old(log)[job.id].(
             place := if onStop then DroppedOnStop
                      else if room then Buffered
                      else DroppedFull(|old(jobs)|, stopClosed))]
    {
      StepKeepsInv(View(), Requeue(w, onStop));
      assert WorkerOk(View(), w);
      var job := workers[w].job;
      ghost var place := DroppedOnStop;
      if !onStop {
        if |jobs| < Capacity(cfg) {
          jobs := jobs + [job];
          place := Buffered;
        } else {
          place := DroppedFull(|jobs|, stopClosed);
        }
      }
      log := log[job.id := log[job.id].(place := place)];
      workers := workers[w := workers[w].Loop()];
    }

    method Perform(e: Event)
      requires Valid() && Enabled(View(), e)
      modifies this
      ensures Valid() && View() == Next(old(View()), e)
    {
      match e
      case Tick(elapsed) => Advance(elapsed);
      case Enqueue(msg, ctxDone, takeDone) => var _ := Enqueue(msg, ctxDone, takeDone);
      case Stop => CloseStop();
      case DeadlineExpires => CancelContext();
      case Receive(w) => ReceiveJob(w);
      case SeeStop(w) => ObserveStop(w);
      case Exit(w) => ReturnFromDrain(w);
      case TimerFires(w) => EndWait(w, true);
      case GiveUpWaiting(w) => EndWait(w, false);
      case SendReturns(w, ok) => FinishSend(w, ok);
      case Requeue(w, onStop) => PutBack(w, onStop);
    }

    /** Stop, with the goroutine scheduler and the environment given as a
        function that names, in every stopped state with a worker left, a wait
        and an event that is enabled after it. Whatever that function picks, the
        loop ends, and then nothing is left behind: the buffer is empty and every
        job accepted before the call has a final fate and had a Send. */
    method Shutdown(pick: State -> (nat, Event))
      requires Valid() && !stopClosed
      requires forall s: State :: s.stopped && !AllExited(s) ==>
                 var (wait, e) := pick(s);
                 Enabled(s.(now := s.now + wait), e) && !e.Tick? && !e.Enqueue?
      modifies this
      ensures Valid() && stopClosed && AllExited(View()) && jobs == []
      ensures |log| == |old(log)|
      ensures forall id :: 0 <= id < |log| ==> !log[id].place.Live() && |log[id].sends| >= 1
      ensures forall id :: 0 <= id < |log| ==> Extends(old(log)[id], log[id])
    {
      RunningHasNoOrphans(View());
      CloseStop();
      MeasureNonNegative(View());
      while exists w :: 0 <= w < |workers| && !workers[w].Exited?
        invariant Valid() && stopClosed && Grown(old(log), log)
        invariant Measure(View()) >= 0
        decreases Measure(View())
      {
        var s := State(cfg, clock, jobs, workers, stopClosed, ctxCancelled, []);
        var (wait, e) := pick(s);
        assert Enabled(s.(now := s.now + wait), e);
        ghost var before := log;
        ScheduleOne(wait, e);
        GrownTransitive(old(log), before, log);
      }
      ExitedMeansDone(View());
    }

    /** Lets time pass and then performs one scheduled action. */
    method ScheduleOne(wait: nat, e: Event)
      requires Valid() && stopClosed && Enabled(View().(now := clock + wait), e) && !e.Tick? && !e.Enqueue?
      modifies this
      ensures Valid() && stopClosed && Grown(old(log), log)
      ensures 0 <= Measure(View()) < old(Measure(View()))
    {
      StepDecreases(View(), Tick(wait));
      Advance(wait);
      ghost var v := View();
      StepDecreases(v, e);
      OrphansStay(v, e);
      forall id | 0 <= id < |log|
        ensures Extends(v.log[id], Next(v, e).log[id])
      {
        StepExtends(v, e, id);
      }
      Perform(e);
      MeasureNonNegative(View());
    }
  }

  /** The same jobs, with every history extended and none newly orphaned. */
  ghost predicate Grown(a: seq<Record>, b: seq<Record>) {
    |a| == |b| && forall id :: 0 <= id < |a| ==> b[id].orphan == a[id].orphan && Extends(a[id], b[id])
  }

  lemma GrownTransitive(a: seq<Record>, b: seq<Record>, c: seq<Record>)
    requires Grown(a, b) && Grown(b, c)
    ensures Grown(a, c)
  {
    forall id | 0 <= id < |a|
      ensures c[id].orphan == a[id].orphan && Extends(a[id], c[id])
    {
      assert Extends(a[id], b[id]) && Extends(b[id], c[id]);
    }
  }

  lemma RunningHasNoOrphans(s: State)
    requires Inv(s) && !s.stopped
    ensures forall id :: 0 <= id < |s.log| ==> !s.log[id].orphan
  {
    assert !AllExited(s) by { assert WorkerOk(s, 0); }
    forall id | 0 <= id < |s.log|
      ensures !s.log[id].orphan
    {
      assert RecordOk(s, id);
    }
  }

  lemma HeadIsBuffered(s: State)
    requires Inv(s)
    ensures s.jobs != [] ==> s.jobs[0].id < |s.log| && s.log[s.jobs[0].id].place == Buffered
  {
    assert s.jobs != [] ==> JobOk(s, s.jobs[0]);
  }

  lemma ExitedMeansDone(s: State)
    requires Inv(s) && AllExited(s)
    requires forall id :: 0 <= id < |s.log| ==> !s.log[id].orphan
    ensures s.jobs == []
    ensures forall id :: 0 <= id < |s.log| ==> !s.log[id].place.Live() && |s.log[id].sends| >= 1
  {
    forall id | 0 <= id < |s.log|
      ensures !s.log[id].place.Live() && |s.log[id].sends| >= 1
    {
      assert RecordOk(s, id);
    }
    HeadIsBuffered(s);
  }

  lemma OrphansStay(s: State, e: Event)
    requires Enabled(s, e) && !e.Enqueue?
    ensures |Next(s, e).log| == |s.log|
    ensures forall id :: 0 <= id < |s.log| ==> Next(s, e).log[id].orphan == s.log[id].orphan
  {
  }
}
