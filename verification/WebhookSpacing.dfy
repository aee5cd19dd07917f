/** In disciplined runs the POSTs of one job honour the retry schedule. */
module WebhookSpacing {
  import opened MemStore
  import opened WebhookRetry
  import opened WebhookModel
  import opened WebhookSafety
  import opened WebhookTheorems
  import opened WebhookSingleCopy

  /** The shortest delay the schedule allows after n attempts, in whole
      nanoseconds. */
  function Least(n: nat): int {
    (0.8 * Nominal(n)).Floor
  }

  lemma RetryAtLeast(now: int, n: nat, u: real)
    requires Draw(u)
    ensures NextRetryAt(now, n, u) >= now + Least(n)
  {
    JitterStaysWithinBand(n, u);
  }

  /** A failed record or copy is scheduled at least the shortest delay after the
      last POST of its key. */
  ghost predicate Scheduled(s: State, k: Key, j: DeliveryJob) {
    j.status.Failed? && j.attempts >= 0 && k in s.lastPost ==> j.nextRetryAt >= s.lastPost[k] + Least(j.attempts)
  }

  ghost predicate Spaced(s: State) {
    && (forall k :: k in s.lastPost ==> s.lastPost[k] <= s.now)
    && (forall k :: k in s.records && !InFlight(s, k) ==> Scheduled(s, k, s.records[k]))
    && (forall w :: 0 <= w < |s.workers| && s.workers[w].Updating? ==>
          Scheduled(s, KeyOf(s.workers[w].job), s.workers[w].job))
  }

  lemma FailIsScheduled(s: State, j: DeliveryJob, err: ErrorText, permanent: bool, u: real)
    requires Draw(u) && j.attempts >= 0
    requires KeyOf(j) in s.lastPost ==> s.lastPost[KeyOf(j)] <= s.now
    ensures Scheduled(s, KeyOf(j), Fail(j, err, permanent, s.now, u))
  {
    RetryAtLeast(s.now, j.attempts, u);
  }

  /** No POST and no write: only worker w may have changed, to a scheduled copy. */
  lemma QuietSpaced(s: State, s': State, w: int)
    requires Spaced(s) && s'.records == s.records && s'.lastPost == s.lastPost && s'.now >= s.now
    requires |s'.workers| == |s.workers|
    requires forall v :: 0 <= v < |s.workers| && v != w ==> s'.workers[v] == s.workers[v]
    requires 0 <= w < |s.workers| ==>
               && !(s.workers[w].Updating? && s.workers[w].called)
               && !(s'.workers[w].Updating? && s'.workers[w].called)
               && (s'.workers[w].Updating? ==> Scheduled(s, KeyOf(s'.workers[w].job), s'.workers[w].job))
    ensures Spaced(s')
  {
    forall k | k in s'.records && !InFlight(s', k)
      ensures Scheduled(s', k, s'.records[k])
    {
      SameFlights(s, s', w, k);
    }
  }

  lemma AfterPostIsScheduled(s: State, job: DeliveryJob, o: Outcome, u: real)
    requires Draw(u) && job.attempts >= 0
    requires KeyOf(job) in s.lastPost ==> s.lastPost[KeyOf(job)] <= s.now
    ensures Scheduled(s, KeyOf(job), AfterPost(job, o, s.now, u))
    ensures KeyOf(AfterPost(job, o, s.now, u)) == KeyOf(job)
  {
    var j := job.(attempts := job.attempts + 1);
    match o
    case NetworkError(text) => FailIsScheduled(s, j, Other(text), false, u);
    case Response(status) => FailIsScheduled(s, j, HttpStatus(status), IsPermanentFailure(status), u);
  }

  lemma PostSpaced(s: State, w: nat, o: Outcome, u: real)
    requires Unique(s) && Spaced(s) && Enabled(s, Post(w, o, u))
    ensures Spaced(Next(s, Post(w, o, u)))
  {
    var s', k := Next(s, Post(w, o, u)), KeyOf(s.workers[w].job);
    OnlyCopy(s, w);
    AfterPostIsScheduled(s', s.workers[w].job, o, u);
    assert Posted(s'.workers[w], k);
    forall l | l in s'.records && !InFlight(s', l)
      ensures Scheduled(s', l, s'.records[l])
    {
      SameFlights(s, s', w, l);
    }
    forall v | 0 <= v < |s'.workers| && s'.workers[v].Updating?
      ensures Scheduled(s', KeyOf(s'.workers[v].job), s'.workers[v].job)
    {
      assert v != w ==> !Holds(s.workers[v], k);
    }
  }

  lemma CommitSpaced(s: State, w: nat)
    requires Unique(s) && Spaced(s) && Enabled(s, Commit(w))
    ensures Spaced(Next(s, Commit(w)))
  {
    var s', k := Next(s, Commit(w)), KeyOf(s.workers[w].job);
    OnlyCopy(s, w);
    forall l | l in s'.records && !InFlight(s', l)
      ensures Scheduled(s', l, s'.records[l])
    {
      if l != k {
        SameFlights(s, s', w, l);
      }
    }
  }

  lemma ArriveSpaced(s: State, key: Key, endpoint: string)
    requires Spaced(s) && endpoint != ""
    ensures Spaced(Next(s, Arrive(key, endpoint)))
  {
    var s' := Next(s, Arrive(key, endpoint));
    forall l | l in s'.records && !InFlight(s', l)
      ensures Scheduled(s', l, s'.records[l])
    {
      SameFlights(s, s', -1, l);
    }
  }

  lemma WorkerStepSpaced(s: State, e: Event)
    requires Spaced(s) && Enabled(s, e)
    requires e.Take? || e.FetchFails? || e.BuildFails? || e.Leave?
    ensures Spaced(Next(s, e))
  {
    if e.BuildFails? {
      FailIsScheduled(s, s.workers[e.w].job, Other(e.text), false, e.u);
    }
    QuietSpaced(s, Next(s, e), e.w);
  }

  lemma CopyStepSpaced(s: State, e: Event)
    requires Spaced(s) && Enabled(s, e)
    requires e.Tick? || e.HandlerSend? || e.SweepList? || e.SweepSend? || e.Stop?
    ensures Spaced(Next(s, e))
  {
    QuietSpaced(s, Next(s, e), -1);
  }

  lemma StepSpaced(s: State, e: Event)
    requires Unique(s) && Spaced(s) && Enabled(s, e) && !e.Crash?
    ensures Spaced(Next(s, e))
  {
    match e
    case Arrive(key, endpoint) => ArriveSpaced(s, key, endpoint);
    case Post(w, o, u) => PostSpaced(s, w, o, u);
    case Commit(w) => CommitSpaced(s, w);
    case BuildFails(_, _, _) => WorkerStepSpaced(s, e);
    case Take(_) => WorkerStepSpaced(s, e);
    case FetchFails(_) => WorkerStepSpaced(s, e);
    case Leave(_) => WorkerStepSpaced(s, e);
    case _ => CopyStepSpaced(s, e);
  }

  lemma {:induction false} DisciplinedRunIsSpaced(s: State, es: seq<Event>)
    requires Inv(s) && Exact(s) && Unique(s) && Spaced(s) && Legal(s, es) && DisciplinedRun(s, es)
    ensures Spaced(Run(s, es))
    decreases |es|
  {
    if es == [] {
    } else {
      StepKeepsInv(s, es[0]);
      StepExact(s, es[0]);
      StepSpaced(s, es[0]);
      DisciplinedRunIsSpaced(Next(s, es[0]), es[1..]);
    }
  }

  /** The POST that follows n earlier ones comes at least 80 % of
      min(10 s * 2^n, 1 h) after the last of them. */
  lemma PostsAreSpaced(cfg: Config, start: int, es: seq<Event>, w: nat, o: Outcome, u: real)
    requires Reachable(cfg, start, es) && DisciplinedRun(Initial(cfg, start), es)
    requires Enabled(At(cfg, start, es), Post(w, o, u))
    ensures var s := At(cfg, start, es);
      var k := KeyOf(s.workers[w].job);
      var n := |Calls(s, k)|;
      n >= 1 ==> k in s.lastPost && s.now >= s.lastPost[k] + Least(n)
  {
    var s0 := Initial(cfg, start);
    InitialInv(cfg, start);
    InitialExact(cfg, start);
    DisciplinedRunIsExact(s0, es);
    DisciplinedRunIsSpaced(s0, es);
    var s := At(cfg, start, es);
    var j := s.workers[w].job;
    PostedHasTime(s0, es, KeyOf(j));
    assert WorkerOk(s, s.workers[w]) && HolderUpToDate(s, s.workers[w]);
    assert CountExact(s, KeyOf(j)) && !InFlight(s, KeyOf(j));
  }

  /** Every key that was posted has a last POST. */
  lemma {:induction false} PostedHasTime(s: State, es: seq<Event>, k: Key)
    requires Legal(s, es) && (Calls(s, k) != [] ==> k in s.lastPost)
    ensures Calls(Run(s, es), k) != [] ==> k in Run(s, es).lastPost
    decreases |es|
  {
    if es == [] {
    } else {
      PostedHasTime(Next(s, es[0]), es[1..], k);
    }
  }
}
