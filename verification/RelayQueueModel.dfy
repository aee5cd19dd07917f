/** The outbound relay queue as a transition system (internal/relay/queue.go).

    A state holds the channel buffer, the program point of every worker
    goroutine, the stop and cancel signals and the clock. Every accepted job
    also has a history record: what was accepted, every backend Send made for
    it, and where the job is now. An event is one atomic action of one
    goroutine together with the outcome of whatever it could not decide itself
    (a select with several ready cases, a backend result, time passing), so a
    sequence of events is one interleaving. */
module RelayQueueModel {
  import opened Common
  import opened Backoff

  datatype Config = Config(workers: int, maxRetries: int, baseDelay: int, maxDelay: int)

  /** The configuration after NewRelayQueue has filled in its defaults. */
  function Normalize(c: Config): (r: Config)
    ensures r.workers > 0 && r.maxRetries > 0 && r.baseDelay > 0 && r.maxDelay > 0
    ensures c.workers > 0 && c.maxRetries > 0 && c.baseDelay > 0 && c.maxDelay > 0 ==> r == c
    ensures c.workers <= 0 ==> r == Normalize(c.(workers := 4))
    ensures c.maxRetries <= 0 ==> r == Normalize(c.(maxRetries := 7))
    ensures c.baseDelay <= 0 ==> r == Normalize(c.(baseDelay := 5_000_000_000))
    ensures c.maxDelay <= 0 ==> r == Normalize(c.(maxDelay := 4 * 3600 * 1_000_000_000))
    decreases (if c.workers <= 0 then 1 else 0) + (if c.maxRetries <= 0 then 1 else 0)
            + (if c.baseDelay <= 0 then 1 else 0) + (if c.maxDelay <= 0 then 1 else 0)
  {
    Config(
      if c.workers <= 0 then 4 else c.workers,
      if c.maxRetries <= 0 then 7 else c.maxRetries,
      if c.baseDelay <= 0 then DEFAULT_BASE else c.baseDelay,
      if c.maxDelay <= 0 then DEFAULT_MAX else c.maxDelay)
  }

  predicate ValidConfig(c: Config) {
    c.workers > 0 && c.maxRetries > 0 && c.baseDelay > 0 && c.maxDelay > 0
  }

  function Capacity(c: Config): int {
    Max(c.workers * 8, 64)
  }

  function RetryDelay(c: Config, attempts: nat): int
    requires attempts >= 1
  {
    Delay(c.baseDelay, c.maxDelay, attempts)
  }

  datatype Message = Message(from: string, to: seq<string>, subject: string, body: string,
                             headers: map<string, string>)

  /** `id` numbers the jobs in the order of acceptance. The zero nextRetry lies
      before every clock reading. */
  datatype Job = Job(id: nat, msg: Message, attempts: nat, nextRetry: int)

  /** The program point of a worker goroutine. `draining` tells which of the two
      loops of `worker` called `process`. */
  datatype Worker =
    | Selecting
    | Draining
    | Waiting(job: Job, draining: bool)
    | Sending(job: Job, draining: bool, started: int)
    | Requeueing(job: Job, draining: bool)
    | Exited
  {
    predicate HasJob() {
      Waiting? || Sending? || Requeueing?
    }

    function Loop(): Worker
      requires HasJob()
    {
      if draining then Draining else Selecting
    }
  }

  datatype Send = Send(msg: Message, started: int, ended: int, ok: bool)

  datatype Place =
    | Buffered
    | With(worker: nat)
    | Delivered
    | Exhausted
    | DroppedFull(depth: nat, stopSeen: bool)
    | DroppedOnStop
    | Abandoned
  {
    predicate Live() {
      Buffered? || With?
    }
  }

  /** `orphan`: accepted when every worker had already exited. */
  datatype Record = Record(msg: Message, sends: seq<Send>, place: Place, orphan: bool)

  datatype State = State(
    cfg: Config,
    now: nat,
    jobs: seq<Job>,
    workers: seq<Worker>,
    stopped: bool,
    cancelled: bool,
    log: seq<Record>)

  function Initial(cfg: Config): State {
    State(cfg, 0, [], seq(Max(cfg.workers, 0), _ => Selecting), false, false, [])
  }

  predicate AllExited(s: State) {
    forall w :: 0 <= w < |s.workers| ==> s.workers[w].Exited?
  }

  predicate Room(s: State) {
    |s.jobs| < Capacity(s.cfg)
  }

  // ---- Enqueue ----

  datatype EnqueueResult = Accepted | ContextError | QueueFull

  /** `takeDone` decides the select when both a slot and ctx.Done are ready. */
  function EnqueueOutcome(s: State, ctxDone: bool, takeDone: bool): EnqueueResult {
    if Room(s) && !(ctxDone && takeDone) then Accepted
    else if ctxDone then ContextError
    else QueueFull
  }

  function AcceptJob(s: State, msg: Message): State {
    s.(jobs := s.jobs + [Job(|s.log|, msg, 0, 0)],
       log := s.log + [Record(msg, [], Buffered, AllExited(s))])
  }

  // ---- Events ----

  datatype Event =
    | Tick(elapsed: nat)
    | Enqueue(msg: Message, ctxDone: bool, takeDone: bool)
    | Stop
    | DeadlineExpires
    | Receive(w: nat)
    | SeeStop(w: nat)
    | Exit(w: nat)
    | TimerFires(w: nat)
    | GiveUpWaiting(w: nat)
    | SendReturns(w: nat, ok: bool)
    | Requeue(w: nat, onStop: bool)

  predicate Enabled(s: State, e: Event) {
    match e
    case Tick(_) => true
    case Enqueue(_, _, _) => true
    case Stop => !s.stopped
    case DeadlineExpires => s.stopped && !s.cancelled
    case Receive(w) => w < |s.workers| && (s.workers[w].Selecting? || s.workers[w].Draining?) && s.jobs != []
    case SeeStop(w) => w < |s.workers| && s.workers[w].Selecting? && s.stopped
    case Exit(w) => w < |s.workers| && s.workers[w].Draining? && s.jobs == []
    case TimerFires(w) => w < |s.workers| && s.workers[w].Waiting? && s.now >= s.workers[w].job.nextRetry
    case GiveUpWaiting(w) => w < |s.workers| && s.workers[w].Waiting? && s.cancelled
    case SendReturns(w, _) => w < |s.workers| && s.workers[w].Sending?
    case Requeue(w, onStop) =>
      w < |s.workers| && s.workers[w].Requeueing? && (if onStop then s.stopped else Room(s) || !s.stopped)
  }

  /** The start of `process`: wait for the retry time, or send at once. */
  function Process(s: State, job: Job, draining: bool): Worker {
    if job.nextRetry > s.now then Waiting(job, draining) else Sending(job, draining, s.now)
  }

  /** Moves the job with this id and returns the worker to its loop. */
  function Leave(s: State, w: nat, place: Place): State
    requires w < |s.workers| && s.workers[w].HasJob()
  {
    var id := s.workers[w].job.id;
    s.(workers := s.workers[w := s.workers[w].Loop()],
       log := if id < |s.log| then s.log[id := s.log[id].(place := place)] else s.log)
  }

  /** Worker w's Send has returned: it is logged, the job goes to `place` and
      the worker continues at program point x. */
  function Settle(s: State, w: nat, send: Send, x: Worker, place: Place): State
    requires w < |s.workers| && s.workers[w].Sending?
  {
    var id := s.workers[w].job.id;
    s.(workers := s.workers[w := x],
       log := if id < |s.log|
              then s.log[id := s.log[id].(sends := s.log[id].sends + [send], place := place)]
              else s.log)
  }

  function Retry(s: State, job: Job): Job {
    job.(attempts := job.attempts + 1, nextRetry := s.now + RetryDelay(s.cfg, job.attempts + 1))
  }

  function AfterSend(s: State, w: nat, ok: bool): State
    requires w < |s.workers| && s.workers[w].Sending?
  {
    var Sending(job, draining, started) := s.workers[w];
    var send := Send(job.msg, started, s.now, ok);
    if ok then Settle(s, w, send, s.workers[w].Loop(), Delivered)
    else if job.attempts + 1 >= s.cfg.maxRetries then Settle(s, w, send, s.workers[w].Loop(), Exhausted)
    else Settle(s, w, send, Requeueing(Retry(s, job), draining), With(w))
  }

  function AfterRequeue(s: State, w: nat, onStop: bool): State
    requires w < |s.workers| && s.workers[w].Requeueing?
  {
    if onStop then Leave(s, w, DroppedOnStop)
    else if Room(s) then Leave(s, w, Buffered).(jobs := s.jobs + [s.workers[w].job])
    else Leave(s, w, DroppedFull(|s.jobs|, s.stopped))
  }

  function AfterReceive(s: State, w: nat): State
    requires w < |s.workers| && s.jobs != []
  {
    var job := s.jobs[0];
    s.(jobs := s.jobs[1..],
       workers := s.workers[w := Process(s, job, s.workers[w].Draining?)],
       log := if job.id < |s.log| then s.log[job.id := s.log[job.id].(place := With(w))] else s.log)
  }

  function Next(s: State, e: Event): State
    requires Enabled(s, e)
  {
    match e
    case Tick(elapsed) => s.(now := s.now + elapsed)
    case Enqueue(msg, ctxDone, takeDone) =>
      if EnqueueOutcome(s, ctxDone, takeDone).Accepted? then AcceptJob(s, msg) else s
    case Stop => s.(stopped := true)
    case DeadlineExpires => s.(cancelled := true)
    case Receive(w) => AfterReceive(s, w)
    case SeeStop(w) => s.(workers := s.workers[w := Draining])
    case Exit(w) => s.(workers := s.workers[w := Exited])
    case TimerFires(w) =>
      s.(workers := s.workers[w := Sending(s.workers[w].job, s.workers[w].draining, s.now)])
    case GiveUpWaiting(w) => Leave(s, w, Abandoned)
    case SendReturns(w, ok) => AfterSend(s, w, ok)
    case Requeue(w, onStop) => AfterRequeue(s, w, onStop)
  }

  // ---- Runs ----

  predicate Legal(s: State, es: seq<Event>)
    decreases |es|
  {
    es == [] || (Enabled(s, es[0]) && Legal(Next(s, es[0]), es[1..]))
  }

  function Run(s: State, es: seq<Event>): State
    requires Legal(s, es)
    decreases |es|
  {
    if es == [] then s else Run(Next(s, es[0]), es[1..])
  }
}
