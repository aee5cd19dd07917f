/** How long the relay queue can run: a measure that every event but a clock
    tick and an accepted Enqueue decreases. */
module RelayQueueTermination {
  import opened Common
  import opened RelayQueueModel
  import opened RelayQueueSafety

  /** Four units for every Send a job may still get, and a few for the way
      through the buffer to the next one. */
  ghost function JobWeight(m: int, attempts: nat, stage: nat): int {
    4 * (m - attempts) + stage
  }

  ghost function LoopWeight(draining: bool): int {
    if draining then 1 else 2
  }

  ghost function WorkerWeight(m: int, x: Worker): int {
    match x
    case Selecting => LoopWeight(false)
    case Draining => LoopWeight(true)
    case Waiting(job, d) => LoopWeight(d) + JobWeight(m, job.attempts, 2)
    case Sending(job, d, _) => LoopWeight(d) + JobWeight(m, job.attempts, 1)
    case Requeueing(job, d) => LoopWeight(d) + JobWeight(m, job.attempts, 4)
    case Exited => 0
  }

  ghost function BufferWeight(m: int, jobs: seq<Job>): int {
    if jobs == [] then 0 else JobWeight(m, jobs[0].attempts, 3) + BufferWeight(m, jobs[1..])
  }

  ghost function CrewWeight(m: int, workers: seq<Worker>): int {
    if workers == [] then 0 else WorkerWeight(m, workers[0]) + CrewWeight(m, workers[1..])
  }

  ghost function Measure(s: State): int {
    BufferWeight(s.cfg.maxRetries, s.jobs) + CrewWeight(s.cfg.maxRetries, s.workers)
    + (if s.stopped then 0 else 1) + (if s.cancelled then 0 else 1)
  }

  lemma {:induction false} BufferAppend(m: int, jobs: seq<Job>, j: Job)
    ensures BufferWeight(m, jobs + [j]) == BufferWeight(m, jobs) + JobWeight(m, j.attempts, 3)
  {
    if jobs == [] {
      assert [j][1..] == [];
    } else {
      assert (jobs + [j])[1..] == jobs[1..] + [j];
      BufferAppend(m, jobs[1..], j);
    }
  }

  lemma {:induction false} CrewUpdate(m: int, workers: seq<Worker>, w: nat, x: Worker)
    requires w < |workers|
    ensures CrewWeight(m, workers[w := x])
         == CrewWeight(m, workers) - WorkerWeight(m, workers[w]) + WorkerWeight(m, x)
  {
    var workers' := workers[w := x];
    if w == 0 {
      assert workers'[1..] == workers[1..];
    } else {
      assert workers'[1..] == workers[1..][w - 1 := x];
      CrewUpdate(m, workers[1..], w - 1, x);
    }
  }

  lemma {:induction false} BufferWeightNonNegative(m: int, jobs: seq<Job>)
    requires forall k :: 0 <= k < |jobs| ==> jobs[k].attempts < m
    ensures BufferWeight(m, jobs) >= 0
  {
    if jobs == [] {
    } else {
      BufferWeightNonNegative(m, jobs[1..]);
    }
  }

  lemma {:induction false} CrewWeightNonNegative(m: int, workers: seq<Worker>)
    requires forall w :: 0 <= w < |workers| && workers[w].HasJob() ==> workers[w].job.attempts < m
    ensures CrewWeight(m, workers) >= 0
  {
    if workers == [] {
    } else {
      CrewWeightNonNegative(m, workers[1..]);
    }
  }

  lemma MeasureNonNegative(s: State)
    requires Inv(s)
    ensures Measure(s) >= 0
  {
    forall k | 0 <= k < |s.jobs|
      ensures s.jobs[k].attempts < s.cfg.maxRetries
    {
      assert JobOk(s, s.jobs[k]);
    }
    forall w | 0 <= w < |s.workers| && s.workers[w].HasJob()
      ensures s.workers[w].job.attempts < s.cfg.maxRetries
    {
      assert WorkerOk(s, w);
    }
    BufferWeightNonNegative(s.cfg.maxRetries, s.jobs);
    CrewWeightNonNegative(s.cfg.maxRetries, s.workers);
  }

  /** What one accepted job adds to the work ahead. */
  ghost function Fresh(cfg: Config): int {
    4 * cfg.maxRetries + 3
  }

  lemma EnqueueAdds(s: State, e: Event)
    requires e.Enqueue?
    ensures |s.log| <= |Next(s, e).log| <= |s.log| + 1
    ensures Measure(Next(s, e)) == Measure(s) + (if |Next(s, e).log| > |s.log| then Fresh(s.cfg) else 0)
  {
    BufferAppend(s.cfg.maxRetries, s.jobs, Job(|s.log|, e.msg, 0, 0));
  }

  lemma SendDecreases(s: State, w: nat, ok: bool)
    requires Enabled(s, SendReturns(w, ok)) && s.workers[w].job.attempts < s.cfg.maxRetries
    ensures Measure(Next(s, SendReturns(w, ok))) < Measure(s)
  {
    CrewUpdate(s.cfg.maxRetries, s.workers, w, Next(s, SendReturns(w, ok)).workers[w]);
  }

  lemma RequeueDecreases(s: State, w: nat, onStop: bool)
    requires Enabled(s, Requeue(w, onStop)) && s.workers[w].job.attempts < s.cfg.maxRetries
    ensures Measure(Next(s, Requeue(w, onStop))) < Measure(s)
  {
    CrewUpdate(s.cfg.maxRetries, s.workers, w, s.workers[w].Loop());
    BufferAppend(s.cfg.maxRetries, s.jobs, s.workers[w].job);
  }

  lemma ReceiveDecreases(s: State, w: nat)
    requires Enabled(s, Receive(w))
    ensures Measure(Next(s, Receive(w))) < Measure(s)
  {
    CrewUpdate(s.cfg.maxRetries, s.workers, w, Next(s, Receive(w)).workers[w]);
  }

  lemma LoopStepDecreases(s: State, e: Event)
    requires Enabled(s, e)
    requires e.SeeStop? || e.Exit? || e.TimerFires? || e.GiveUpWaiting?
    requires e.GiveUpWaiting? ==> s.workers[e.w].job.attempts < s.cfg.maxRetries
    ensures Measure(Next(s, e)) < Measure(s)
  {
    CrewUpdate(s.cfg.maxRetries, s.workers, e.w, Next(s, e).workers[e.w]);
  }

  lemma StepDecreases(s: State, e: Event)
    requires Inv(s) && Enabled(s, e) && !e.Enqueue?
    ensures e.Tick? ==> Measure(Next(s, e)) == Measure(s)
    ensures !e.Tick? ==> Measure(Next(s, e)) < Measure(s)
    ensures |Next(s, e).log| == |s.log|
  {
    match e
    case Receive(w) => ReceiveDecreases(s, w);
    case SendReturns(w, ok) =>
      assert WorkerOk(s, w);
      SendDecreases(s, w, ok);
    case Requeue(w, onStop) =>
      assert WorkerOk(s, w);
      RequeueDecreases(s, w, onStop);
    case GiveUpWaiting(w) =>
      assert WorkerOk(s, w);
      LoopStepDecreases(s, e);
    case Tick(_) =>
    case Stop =>
    case DeadlineExpires =>
    case _ => LoopStepDecreases(s, e);
  }

  /** Events other than clock ticks and Enqueue calls. */
  ghost function Steps(es: seq<Event>): nat {
    if es == [] then 0 else (if es[0].Tick? || es[0].Enqueue? then 0 else 1) + Steps(es[1..])
  }

  /** What the Enqueues of a run add to the measure. */
  ghost function Added(s: State, es: seq<Event>): int
    requires Legal(s, es)
    decreases |es|
  {
    if es == [] then 0
    else (if |Next(s, es[0]).log| > |s.log| then Fresh(s.cfg) else 0) + Added(Next(s, es[0]), es[1..])
  }

  lemma {:induction false} StepsWithinBudget(s: State, es: seq<Event>)
    requires Inv(s) && Legal(s, es)
    ensures Steps(es) <= Measure(s) + Added(s, es)
    decreases |es|
  {
    MeasureNonNegative(s);
    if es == [] {
    } else {
      StepKeepsInv(s, es[0]);
      if es[0].Enqueue? {
        EnqueueAdds(s, es[0]);
      } else {
        StepDecreases(s, es[0]);
      }
      StepsWithinBudget(Next(s, es[0]), es[1..]);
    }
  }

  lemma LogStep(s: State, e: Event)
    requires Enabled(s, e)
    ensures |s.log| <= |Next(s, e).log| <= |s.log| + 1 && Next(s, e).cfg == s.cfg
  {
  }

  lemma OneMore(n: int, a: int, b: int, c: int)
    requires a <= b <= a + 1
    ensures n * (c - a) == (if b > a then n else 0) + n * (c - b)
  {
    if b == a + 1 {
      assert n * (c - a) == n * (c - b) + n;
    }
  }

  lemma {:induction false} AddedPerJob(s: State, es: seq<Event>)
    requires Legal(s, es)
    ensures |s.log| <= |Run(s, es).log|
    ensures Added(s, es) == Fresh(s.cfg) * (|Run(s, es).log| - |s.log|)
    decreases |es|
  {
    if es == [] {
    } else {
      LogStep(s, es[0]);
      AddedPerJob(Next(s, es[0]), es[1..]);
      OneMore(Fresh(s.cfg), |s.log|, |Next(s, es[0]).log|, |Run(s, es).log|);
    }
  }

  /** Every schedule is finite: from any reachable state, however the workers
      interleave and re-enqueue, the steps still to come are bounded by the work
      at hand plus a constant for every job accepted on the way. */
  lemma SchedulesAreFinite(s: State, es: seq<Event>)
    requires Inv(s) && Legal(s, es)
    ensures |s.log| <= |Run(s, es).log|
    ensures Steps(es) <= Measure(s) + Fresh(s.cfg) * (|Run(s, es).log| - |s.log|)
  {
    StepsWithinBudget(s, es);
    AddedPerJob(s, es);
  }

  /** After Stop, without further Enqueues, a schedule has at most Measure(s)
      steps. */
  lemma {:induction false} DrainIsFinite(s: State, es: seq<Event>)
    requires Inv(s) && Legal(s, es)
    requires forall k :: 0 <= k < |es| ==> !es[k].Enqueue?
    ensures Steps(es) <= Measure(s) - Measure(Run(s, es)) <= Measure(s)
    decreases |es|
  {
    MeasureNonNegative(s);
    if es == [] {
    } else {
      StepKeepsInv(s, es[0]);
      StepDecreases(s, es[0]);
      assert forall k :: 0 <= k < |es[1..]| ==> !es[1..][k].Enqueue?;
      DrainIsFinite(Next(s, es[0]), es[1..]);
    }
  }

  /** No worker is ever stuck after Stop: some event of it is enabled, at the
      latest when its retry timer is due. */
  lemma NeverStuck(s: State, w: nat) returns (wait: nat, e: Event)
    requires s.stopped && w < |s.workers| && !s.workers[w].Exited?
    ensures Enabled(s, Tick(wait)) && Enabled(Next(s, Tick(wait)), e)
    ensures !e.Tick? && !e.Enqueue?
  {
    wait := 0;
    match s.workers[w]
    case Selecting => e := SeeStop(w);
    case Draining => e := if s.jobs == [] then Exit(w) else Receive(w);
    case Waiting(job, _) =>
      wait := Max(job.nextRetry - s.now, 0);
      e := TimerFires(w);
    case Sending(_, _, _) => e := SendReturns(w, false);
    case Requeueing(_, _) => e := Requeue(w, true);
  }

  /** So every stopped queue can finish: with no further Enqueue all workers
      return. */
  lemma {:induction false} DrainCompletes(s: State) returns (es: seq<Event>)
    requires Inv(s) && s.stopped
    ensures Legal(s, es) && AllExited(Run(s, es))
    ensures forall k :: 0 <= k < |es| ==> !es[k].Enqueue?
    decreases Measure(s)
  {
    if AllExited(s) {
      es := [];
    } else {
      var w :| 0 <= w < |s.workers| && !s.workers[w].Exited?;
      var wait, e := NeverStuck(s, w);
      var s1 := Next(s, Tick(wait));
      var s2 := Next(s1, e);
      StepKeepsInv(s, Tick(wait));
      StepDecreases(s, Tick(wait));
      StepKeepsInv(s1, e);
      StepDecreases(s1, e);
      MeasureNonNegative(s);
      MeasureNonNegative(s2);
      var rest := DrainCompletes(s2);
      var tail := [e] + rest;
      assert tail[1..] == rest && Legal(s1, tail) && Run(s1, tail) == Run(s2, rest);
      es := [Tick(wait)] + tail;
      assert es[1..] == tail;
    }
  }
}
