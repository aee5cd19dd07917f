/** The webhook dispatcher as a transition system (internal/webhook/dispatcher.go
    over internal/store/memstore/memstore.go).

    Every goroutine works on by-value copies of delivery records: an event
    handler between save and enqueue, the channel, the sweeper's local list and
    the workers. Copies may be stale and there may be several of one key. The
    only shared truth is the store's map; `calls` and `lastPost` are the history of
    HTTP POSTs really made, which no goroutine can see. A crash wipes everything but the
    store. */
module WebhookModel {
  import opened Common
  import opened MemStore
  import opened WebhookRetry

  datatype Config = Config(workers: nat, maxAttempts: int)

  datatype Outcome = NetworkError(text: string) | Response(status: int)
  {
    predicate Success() {
      Response? && 200 <= status < 300
    }

    predicate Permanent() {
      Response? && IsPermanentFailure(status)
    }
  }

  /** A worker waiting on its select, holding a copy it is about to post, or
      holding the outcome it is about to write. */
  datatype Worker =
    | Idle
    | Attempting(job: DeliveryJob)
    | Updating(job: DeliveryJob, called: bool)
    | Gone
  {
    predicate HasJob() {
      Attempting? || Updating?
    }
  }

  datatype State = State(
    cfg: Config,
    now: int,
    records: Jobs,
    handlers: seq<DeliveryJob>,
    queue: seq<DeliveryJob>,
    sweep: seq<DeliveryJob>,
    workers: seq<Worker>,
    stopped: bool,
    calls: map<Key, seq<Outcome>>,
    lastPost: map<Key, int>)

  function Calls(s: State, k: Key): seq<Outcome> {
    if k in s.calls then s.calls[k] else []
  }

  function Initial(cfg: Config, now: int): State {
    State(cfg, now, map[], [], [], [], seq(cfg.workers, _ => Idle), false, map[], map[])
  }

  // ---- What an attempt writes ----

  /** The job a MessageReceived event creates. */
  function NewJob(cfg: Config, now: int, key: Key, endpoint: string): DeliveryJob {
    DeliveryJob(key.0, key.1, endpoint, Pending, 0, cfg.maxAttempts, NoError, now, None, now, 0)
  }

  /** `fail`: dead when permanent or out of attempts, otherwise scheduled. `u` is
      the jitter draw. */
  function Fail(job: DeliveryJob, err: ErrorText, permanent: bool, now: int, u: real): DeliveryJob
    requires job.attempts >= 0
  {
    var j := job.(lastError := err);
    if permanent || j.attempts >= j.maxAttempts then j.(status := Dead)
    else j.(status := Failed, nextRetryAt := NextRetryAt(now, j.attempts, u))
  }

  /** The copy after a POST with this outcome. */
  function AfterPost(job: DeliveryJob, o: Outcome, now: int, u: real): DeliveryJob
    requires job.attempts >= 0
  {
    var j := job.(attempts := job.attempts + 1);
    match o
    case NetworkError(text) => Fail(j, Other(text), false, now, u)
    case Response(status) =>
      if o.Success() then j.(status := Delivered, deliveredAt := Some(now), lastError := NoError)
      else Fail(j, HttpStatus(status), IsPermanentFailure(status), now, u)
  }

  // ---- Events ----

  datatype Event =
    | Tick(elapsed: nat)
    | Arrive(key: Key, endpoint: string)
    | HandlerSend(i: nat)
    | SweepList(due: seq<DeliveryJob>)
    | SweepSend
    | Take(w: nat)
    | FetchFails(w: nat)
    | BuildFails(w: nat, text: string, u: real)
    | Post(w: nat, outcome: Outcome, u: real)
    | Commit(w: nat)
    | Stop
    | Leave(w: nat)
    | Crash

  function Capacity(cfg: Config): nat {
    cfg.workers * 10
  }

  predicate Holding(s: State, w: nat) {
    w < |s.workers| && s.workers[w].Attempting? && s.workers[w].job.attempts >= 0
  }

  ghost predicate Enabled(s: State, e: Event) {
    match e
    case Tick(_) => true
    case Arrive(_, endpoint) => endpoint != ""
    case HandlerSend(i) => i < |s.handlers|
    case SweepList(due) => s.sweep == [] && IsDueList(s.records, s.now, s.cfg.workers * 10, due)
    case SweepSend => s.sweep != []
    case Take(w) => w < |s.workers| && s.workers[w].Idle? && s.queue != []
    case FetchFails(w) => Holding(s, w)
    case BuildFails(w, _, u) => Holding(s, w) && Draw(u)
    case Post(w, _, u) => Holding(s, w) && Draw(u)
    case Commit(w) => w < |s.workers| && s.workers[w].Updating?
    case Stop => !s.stopped
    case Leave(w) => w < |s.workers| && s.workers[w].Idle? && s.stopped
    case Crash => true
  }

  /** A non-blocking send: the channel takes the copy if it has room. */
  function Offer(cfg: Config, queue: seq<DeliveryJob>, j: DeliveryJob): seq<DeliveryJob> {
    if |queue| < Capacity(cfg) then queue + [j] else queue
  }

  function Next(s: State, e: Event): State
    requires Enabled(s, e)
  {
    match e
    case Tick(elapsed) => s.(now := s.now + elapsed)
    case Arrive(key, endpoint) =>
      var job := NewJob(s.cfg, s.now, key, endpoint);
      s.(records := Saved(s.records, job, s.now), handlers := s.handlers + [job])
    case HandlerSend(i) =>
      s.(handlers := s.handlers[..i] + s.handlers[i + 1..], queue := Offer(s.cfg, s.queue, s.handlers[i]))
    case SweepList(due) => s.(sweep := due)
    case SweepSend => s.(sweep := s.sweep[1..], queue := Offer(s.cfg, s.queue, s.sweep[0]))
    case Take(w) => s.(queue := s.queue[1..], workers := s.workers[w := Attempting(s.queue[0])])
    case FetchFails(w) => s.(workers := s.workers[w := Idle])
    case BuildFails(w, text, u) =>
      s.(workers := s.workers[w := Updating(Fail(s.workers[w].job, Other(text), false, s.now, u), false)])
    case Post(w, outcome, u) =>
      var job := s.workers[w].job;
      s.(workers := s.workers[w := Updating(AfterPost(job, outcome, s.now, u), true)],
         calls := s.calls[KeyOf(job) := Calls(s, KeyOf(job)) + [outcome]],
         lastPost := s.lastPost[KeyOf(job) := s.now])
    case Commit(w) =>
      s.(workers := s.workers[w := Idle], records := Updated(s.records, s.workers[w].job, s.now))
    case Stop => s.(stopped := true)
    case Leave(w) => s.(workers := s.workers[w := Gone])
    case Crash =>
      s.(handlers := [], queue := [], sweep := [], workers := seq(s.cfg.workers, _ => Idle), stopped := false)
  }

  // ---- Runs ----

  ghost predicate Legal(s: State, es: seq<Event>)
    decreases |es|
  {
    es == [] || (Enabled(s, es[0]) && Legal(Next(s, es[0]), es[1..]))
  }

  ghost function Run(s: State, es: seq<Event>): State
    requires Legal(s, es)
    decreases |es|
  {
    if es == [] then s else Run(Next(s, es[0]), es[1..])
  }
}
