/** Crash-free runs with one event per key and never two live copies of a key:
    there the copies are never stale, and counts and final states are exact. */
module WebhookSingleCopy {
  import opened Common
  import opened MemStore
  import opened WebhookModel
  import opened WebhookSafety
  import opened WebhookTheorems

  // ---- Counting the live copies of a key ----

  ghost function CopiesIn(js: seq<DeliveryJob>, k: Key): nat {
    if js == [] then 0 else (if KeyOf(js[0]) == k then 1 else 0) + CopiesIn(js[1..], k)
  }

  ghost predicate Holds(x: Worker, k: Key) {
    x.HasJob() && KeyOf(x.job) == k
  }

  ghost function CopiesHeld(ws: seq<Worker>, k: Key): nat {
    if ws == [] then 0 else (if Holds(ws[0], k) then 1 else 0) + CopiesHeld(ws[1..], k)
  }

  ghost function Copies(s: State, k: Key): nat {
    CopiesIn(s.handlers, k) + CopiesIn(s.queue, k) + CopiesIn(s.sweep, k) + CopiesHeld(s.workers, k)
  }

  ghost predicate Unique(s: State) {
    forall k :: Copies(s, k) <= 1
  }

  lemma {:induction false} CountsOne(js: seq<DeliveryJob>, i: nat)
    requires i < |js|
    ensures CopiesIn(js, KeyOf(js[i])) >= 1
  {
    if i == 0 {
    } else {
      CountsOne(js[1..], i - 1);
    }
  }

  lemma {:induction false} CountsHolder(ws: seq<Worker>, w: nat, k: Key)
    requires w < |ws| && Holds(ws[w], k)
    ensures CopiesHeld(ws, k) >= 1
  {
    if w == 0 {
    } else {
      CountsHolder(ws[1..], w - 1, k);
    }
  }

  lemma {:induction false} CountsTwoHolders(ws: seq<Worker>, v: nat, w: nat, k: Key)
    requires v < w < |ws| && Holds(ws[v], k) && Holds(ws[w], k)
    ensures CopiesHeld(ws, k) >= 2
  {
    if v == 0 {
      CountsHolder(ws[1..], w - 1, k);
    } else {
      CountsTwoHolders(ws[1..], v - 1, w - 1, k);
    }
  }

  ghost predicate NoOtherHolder(s: State, w: int, k: Key) {
    forall v :: 0 <= v < |s.workers| && v != w ==> !Holds(s.workers[v], k)
  }

  lemma NoneCounted(js: seq<DeliveryJob>, k: Key)
    requires CopiesIn(js, k) == 0
    ensures NoCopyIn(js, k)
  {
    forall i | 0 <= i < |js|
      ensures KeyOf(js[i]) != k
    {
      CountsOne(js, i);
    }
  }

  /** A worker's copy is the only one. */
  lemma OnlyCopy(s: State, w: nat)
    requires Unique(s) && w < |s.workers| && s.workers[w].HasJob()
    ensures var k := KeyOf(s.workers[w].job);
      NoCopyIn(s.handlers, k) && NoCopyIn(s.queue, k) && NoCopyIn(s.sweep, k) && NoOtherHolder(s, w, k)
  {
    var k := KeyOf(s.workers[w].job);
    CountsHolder(s.workers, w, k);
    assert Copies(s, k) <= 1;
    NoneCounted(s.handlers, k);
    NoneCounted(s.queue, k);
    NoneCounted(s.sweep, k);
    forall v | 0 <= v < |s.workers| && v != w
      ensures !Holds(s.workers[v], k)
    {
      if Holds(s.workers[v], k) {
        CountsTwoHolders(s.workers, Min(v, w), Max(v, w), k);
      }
    }
  }

  lemma SweptIsUnheld(s: State, i: nat)
    requires Unique(s) && i < |s.sweep|
    ensures NoOtherHolder(s, -1, KeyOf(s.sweep[i]))
  {
    var k := KeyOf(s.sweep[i]);
    CountsOne(s.sweep, i);
    assert Copies(s, k) <= 1;
    forall v | 0 <= v < |s.workers|
      ensures !Holds(s.workers[v], k)
    {
      if Holds(s.workers[v], k) { CountsHolder(s.workers, v, k); }
    }
  }

  // ---- Up-to-date copies ----

  ghost predicate SameProgress(a: DeliveryJob, b: DeliveryJob) {
    && a.status == b.status && a.attempts == b.attempts && a.lastError == b.lastError
    && a.nextRetryAt == b.nextRetryAt && a.deliveredAt == b.deliveredAt
  }

  /** The copy says what the store says, and that is what happened. */
  ghost predicate UpToDate(s: State, j: DeliveryJob) {
    && KeyOf(j) in s.records && SameProgress(j, s.records[KeyOf(j)])
    && j.attempts == |Calls(s, KeyOf(j))|
  }

  ghost predicate AllUpToDate(s: State, js: seq<DeliveryJob>) {
    forall i :: 0 <= i < |js| ==> UpToDate(s, js[i])
  }

  ghost predicate HolderUpToDate(s: State, x: Worker) {
    && (x.Attempting? ==> UpToDate(s, x.job))
    && (x.Updating? ==>
          && KeyOf(x.job) in s.records && s.records[KeyOf(x.job)].status.Open()
          && x.job.attempts == |Calls(s, KeyOf(x.job))|
          && x.job.attempts == s.records[KeyOf(x.job)].attempts + (if x.called then 1 else 0))
  }

  ghost predicate Posted(x: Worker, k: Key) {
    x.Updating? && x.called && KeyOf(x.job) == k
  }

  /** Some worker is between its POST for k and the write of the outcome. */
  ghost predicate InFlight(s: State, k: Key) {
    exists w :: 0 <= w < |s.workers| && Posted(s.workers[w], k)
  }

  ghost predicate CountExact(s: State, k: Key)
    requires k in s.records
  {
    |Calls(s, k)| == s.records[k].attempts + (if InFlight(s, k) then 1 else 0)
  }

  ghost predicate Exact(s: State) {
    && AllUpToDate(s, s.handlers) && AllUpToDate(s, s.queue) && AllUpToDate(s, s.sweep)
    && (forall w :: 0 <= w < |s.workers| ==> HolderUpToDate(s, s.workers[w]))
    && (forall k :: k in s.records ==> CountExact(s, k))
  }

  /** The hypotheses on one step. */
  ghost predicate Disciplined(s: State, e: Event)
    requires Enabled(s, e)
  {
    !e.Crash? && (e.Arrive? ==> e.key !in s.records) && Unique(Next(s, e))
  }

  lemma InitialExact(cfg: Config, now: int)
    requires cfg.maxAttempts >= 1 && now > 0
    ensures Exact(Initial(cfg, now)) && Unique(Initial(cfg, now))
  {
    var s := Initial(cfg, now);
    forall k
      ensures Copies(s, k) <= 1
    {
      IdleHoldNothing(s.workers, k);
    }
  }

  lemma {:induction false} IdleHoldNothing(ws: seq<Worker>, k: Key)
    requires forall w :: 0 <= w < |ws| ==> ws[w].Idle?
    ensures CopiesHeld(ws, k) == 0
  {
    if ws == [] {
    } else {
      IdleHoldNothing(ws[1..], k);
    }
  }

  // ---- Preservation ----

  lemma SameFlights(s: State, s': State, w: int, k: Key)
    requires |s.workers| == |s'.workers|
    requires forall v :: 0 <= v < |s.workers| && v != w ==> s'.workers[v] == s.workers[v]
    requires 0 <= w < |s.workers| ==> Posted(s.workers[w], k) == Posted(s'.workers[w], k)
    ensures InFlight(s, k) == InFlight(s', k)
  {
    if InFlight(s, k) {
      var v :| 0 <= v < |s.workers| && Posted(s.workers[v], k);
      assert Posted(s'.workers[v], k);
    }
    if InFlight(s', k) {
      var v :| 0 <= v < |s'.workers| && Posted(s'.workers[v], k);
      assert Posted(s.workers[v], k);
    }
  }

  /** Nothing is written or posted; copies move, and worker w (if any) changes. */
  lemma UnwrittenExact(s: State, s': State, w: int)
    requires Exact(s) && s'.records == s.records && s'.calls == s.calls && |s.workers| == |s'.workers|
    requires AllUpToDate(s, s'.handlers) && AllUpToDate(s, s'.queue) && AllUpToDate(s, s'.sweep)
    requires forall v :: 0 <= v < |s.workers| && v != w ==> s'.workers[v] == s.workers[v]
    requires 0 <= w < |s.workers| ==>
               && HolderUpToDate(s, s'.workers[w])
               && !(s.workers[w].Updating? && s.workers[w].called)
               && !(s'.workers[w].Updating? && s'.workers[w].called)
    ensures Exact(s')
  {
    forall k | k in s'.records
      ensures CountExact(s', k)
    {
      assert CountExact(s, k);
      SameFlights(s, s', w, k);
    }
    forall v | 0 <= v < |s'.workers|
      ensures HolderUpToDate(s', s'.workers[v])
    {
      assert v != w ==> HolderUpToDate(s, s.workers[v]);
    }
  }

  lemma QuietWorkerStepExact(s: State, e: Event)
    requires Inv(s) && Exact(s) && Enabled(s, e)
    requires e.Take? || e.FetchFails? || e.BuildFails? || e.Leave?
    ensures Exact(Next(s, e))
  {
    assert WorkerOk(s, s.workers[e.w]) && HolderUpToDate(s, s.workers[e.w]);
    UnwrittenExact(s, Next(s, e), e.w);
  }

  lemma CopyStepExact(s: State, e: Event)
    requires Exact(s) && Enabled(s, e)
    requires e.HandlerSend? || e.SweepSend? || e.Tick? || e.Stop?
    ensures Exact(Next(s, e))
  {
    UnwrittenExact(s, Next(s, e), -1);
  }

  lemma SweepListExact(s: State, due: seq<DeliveryJob>)
    requires Inv(s) && Exact(s) && Enabled(s, SweepList(due)) && Unique(Next(s, SweepList(due)))
    ensures Exact(Next(s, SweepList(due)))
  {
    var s' := Next(s, SweepList(due));
    forall i | 0 <= i < |due|
      ensures UpToDate(s, due[i])
    {
      var k := KeyOf(due[i]);
      SweptIsUnheld(s', i);
      assert CountExact(s, k) && !InFlight(s, k);
    }
    UnwrittenExact(s, s', -1);
  }

  /** The first event of a key: the new copy matches the new record, and no
      other copy or call knows the key. */
  lemma ArriveExact(s: State, key: Key, endpoint: string)
    requires Inv(s) && Exact(s) && endpoint != "" && key !in s.records
    ensures Exact(Next(s, Arrive(key, endpoint)))
  {
    var s' := Next(s, Arrive(key, endpoint));
    var job := NewJob(s.cfg, s.now, key, endpoint);
    assert KeyOf(job) == key && Calls(s, key) == [];
    assert UpToDate(s', job);
    StoredElsewhere(s, s', key, s.handlers);
    StoredElsewhere(s, s', key, s.queue);
    StoredElsewhere(s, s', key, s.sweep);
    forall w | 0 <= w < |s.workers|
      ensures HolderUpToDate(s', s'.workers[w]) && !Posted(s.workers[w], key)
    {
      assert HolderUpToDate(s, s.workers[w]);
    }
    forall k | k in s'.records
      ensures CountExact(s', k)
    {
      SameFlights(s, s', -1, k);
    }
  }

  lemma StoredElsewhere(s: State, s': State, key: Key, js: seq<DeliveryJob>)
    requires AllUpToDate(s, js) && key !in s.records
    requires forall k :: k in s.records ==> k in s'.records && s'.records[k] == s.records[k]
    requires s'.calls == s.calls
    ensures AllUpToDate(s', js)
  {
    forall i | 0 <= i < |js|
      ensures UpToDate(s', js[i])
    {
      assert UpToDate(s, js[i]);
    }
  }

  /** Copies of other keys do not notice what happens to k. */
  lemma OthersUpToDate(s: State, s': State, k: Key, js: seq<DeliveryJob>)
    requires AllUpToDate(s, js) && NoCopyIn(js, k)
    requires s'.records.Keys == s.records.Keys
    requires forall l :: l != k && l in s.records ==> s'.records[l] == s.records[l]
    requires forall l :: l != k ==> Calls(s', l) == Calls(s, l)
    ensures AllUpToDate(s', js)
  {
    forall i | 0 <= i < |js|
      ensures UpToDate(s', js[i])
    {
      assert UpToDate(s, js[i]);
    }
  }

  /** Worker w, sole holder of k, posts or writes. */
  lemma SoleStepExact(s: State, s': State, w: nat, k: Key)
    requires Inv(s) && Exact(s) && Unique(s) && w < |s.workers| && Holds(s.workers[w], k)
    requires |s'.workers| == |s.workers|
    requires s' == s.(workers := s.workers[w := s'.workers[w]], records := s'.records, calls := s'.calls,
                     lastPost := s'.lastPost)
    requires s'.records.Keys == s.records.Keys
    requires forall l :: l != k && l in s.records ==> s'.records[l] == s.records[l]
    requires forall l :: l != k ==> Calls(s', l) == Calls(s, l)
    requires k in s.records && HolderUpToDate(s', s'.workers[w])
    requires s'.workers[w].Idle? || Holds(s'.workers[w], k)
    requires |Calls(s', k)| == s'.records[k].attempts + (if Posted(s'.workers[w], k) then 1 else 0)
    ensures Exact(s')
  {
    OnlyCopy(s, w);
    OthersUpToDate(s, s', k, s.handlers);
    OthersUpToDate(s, s', k, s.queue);
    OthersUpToDate(s, s', k, s.sweep);
    forall v | 0 <= v < |s'.workers|
      ensures HolderUpToDate(s', s'.workers[v])
    {
      if v != w {
        assert HolderUpToDate(s, s.workers[v]) && !Holds(s.workers[v], k);
      }
    }
    forall l | l in s'.records
      ensures CountExact(s', l)
    {
      if l == k {
        assert InFlight(s', k) == Posted(s'.workers[w], k);
      } else {
        assert CountExact(s, l);
        SameFlights(s, s', w, l);
      }
    }
  }

  lemma PostExact(s: State, w: nat, o: Outcome, u: real)
    requires Inv(s) && Exact(s) && Unique(s) && Enabled(s, Post(w, o, u))
    ensures Exact(Next(s, Post(w, o, u)))
  {
    var s', k := Next(s, Post(w, o, u)), KeyOf(s.workers[w].job);
    assert WorkerOk(s, s.workers[w]) && HolderUpToDate(s, s.workers[w]);
    assert KeyOf(s'.workers[w].job) == k;
    SoleStepExact(s, s', w, k);
  }

  lemma CommitExact(s: State, w: nat)
    requires Inv(s) && Exact(s) && Unique(s) && Enabled(s, Commit(w))
    ensures Exact(Next(s, Commit(w)))
  {
    var s', k := Next(s, Commit(w)), KeyOf(s.workers[w].job);
    assert WorkerOk(s, s.workers[w]) && HolderUpToDate(s, s.workers[w]);
    SoleStepExact(s, s', w, k);
  }

  lemma StepExact(s: State, e: Event)
    requires Inv(s) && Exact(s) && Unique(s) && Enabled(s, e) && Disciplined(s, e)
    ensures Exact(Next(s, e))
  {
    match e
    case Arrive(key, endpoint) => ArriveExact(s, key, endpoint);
    case SweepList(due) => SweepListExact(s, due);
    case Post(w, o, u) => PostExact(s, w, o, u);
    case Commit(w) => CommitExact(s, w);
    case Take(_) => QuietWorkerStepExact(s, e);
    case FetchFails(_) => QuietWorkerStepExact(s, e);
    case BuildFails(_, _, _) => QuietWorkerStepExact(s, e);
    case Leave(_) => QuietWorkerStepExact(s, e);
    case _ => CopyStepExact(s, e);
  }

  // ---- Whole runs ----

  ghost predicate DisciplinedRun(s: State, es: seq<Event>)
    requires Legal(s, es)
    decreases |es|
  {
    es == [] || (Disciplined(s, es[0]) && DisciplinedRun(Next(s, es[0]), es[1..]))
  }

  /** A disciplined step never lowers an attempt count nor leaves a terminal
      state. */
  lemma StepProgresses(s: State, e: Event, k: Key)
    requires Inv(s) && Exact(s) && Enabled(s, e) && k in s.records
    ensures k in Next(s, e).records && Next(s, e).records[k].attempts >= s.records[k].attempts
    ensures !s.records[k].status.Open() ==> Next(s, e).records[k] == s.records[k]
  {
    OnlyCommitWrites(s, e, k);
    if e.Commit? {
      assert HolderUpToDate(s, s.workers[e.w]);
    }
  }

  /** In such a run the copies stay up to date, attempts only grow, and delivered
      and dead are absorbing. */
  lemma {:induction false} DisciplinedRunIsExact(s: State, es: seq<Event>)
    requires Inv(s) && Exact(s) && Unique(s) && Legal(s, es) && DisciplinedRun(s, es)
    ensures Inv(Run(s, es)) && Exact(Run(s, es)) && Unique(Run(s, es))
    ensures forall k :: k in s.records ==> k in Run(s, es).records
    ensures forall k :: k in s.records ==> Run(s, es).records[k].attempts >= s.records[k].attempts
    ensures forall k :: k in s.records && !s.records[k].status.Open() ==> Run(s, es).records[k] == s.records[k]
    decreases |es|
  {
    if es == [] {
    } else {
      var s1 := Next(s, es[0]);
      StepKeepsInv(s, es[0]);
      StepExact(s, es[0]);
      DisciplinedRunIsExact(s1, es[1..]);
      forall k | k in s.records
        ensures k in s1.records && s1.records[k].attempts >= s.records[k].attempts
        ensures !s.records[k].status.Open() ==> s1.records[k] == s.records[k]
      {
        StepProgresses(s, es[0], k);
      }
    }
  }

  /** POSTs and attempts from start-up: equal, except for the one POST whose
      outcome is not yet written; never more than MaxAttempts. */
  lemma PostsMatchAttempts(cfg: Config, start: int, es: seq<Event>, k: Key)
    requires Reachable(cfg, start, es) && DisciplinedRun(Initial(cfg, start), es)
    requires k in At(cfg, start, es).records
    ensures var s := At(cfg, start, es);
      && |Calls(s, k)| == s.records[k].attempts + (if InFlight(s, k) then 1 else 0)
      && |Calls(s, k)| <= cfg.maxAttempts
  {
    InitialInv(cfg, start);
    InitialExact(cfg, start);
    DisciplinedRunIsExact(Initial(cfg, start), es);
    RunKeepsConfig(Initial(cfg, start), es);
    var s := At(cfg, start, es);
    assert CountExact(s, k);
    if InFlight(s, k) {
      var w :| 0 <= w < |s.workers| && Posted(s.workers[w], k);
      assert HolderUpToDate(s, s.workers[w]) && WorkerOk(s, s.workers[w]);
    }
  }

}
