/** What every run of the dispatcher keeps, with any number of stale or
    duplicate copies, repeated events and crashes. */
module WebhookSafety {
  import opened MemStore
  import opened WebhookRetry
  import opened WebhookModel

  ghost predicate SawSuccess(calls: seq<Outcome>) {
    exists i :: 0 <= i < |calls| && calls[i].Success()
  }

  ghost predicate SawPermanent(calls: seq<Outcome>) {
    exists i :: 0 <= i < |calls| && calls[i].Permanent()
  }

  /** A record or copy never claims more than really happened to its key. */
  ghost predicate Honest(s: State, j: DeliveryJob) {
    var calls := Calls(s, KeyOf(j));
    && j.maxAttempts == s.cfg.maxAttempts
    && 0 <= j.attempts <= j.maxAttempts
    && j.attempts <= |calls|
    && (j.status.Open() ==> j.attempts < j.maxAttempts)
    && (j.status.Pending? ==> j.attempts == 0)
    && (j.status.Delivered? <==> j.deliveredAt.Some?)
    && (j.status.Delivered? ==> j.lastError == NoError && SawSuccess(calls))
    && (j.status.Dead? ==> SawPermanent(calls) || |calls| >= s.cfg.maxAttempts)
  }

  /** A copy on its way to an attempt: its key is stored, it is open and it is
      due. */
  ghost predicate CopyOk(s: State, j: DeliveryJob) {
    KeyOf(j) in s.records && Honest(s, j) && Due(j, s.now)
  }

  ghost predicate CopiesOk(s: State, js: seq<DeliveryJob>) {
    forall i :: 0 <= i < |js| ==> CopyOk(s, js[i])
  }

  ghost predicate WorkerOk(s: State, x: Worker) {
    && (x.Attempting? ==> CopyOk(s, x.job))
    && (x.Updating? ==> KeyOf(x.job) in s.records && Honest(s, x.job))
  }

  ghost predicate RecordsOk(s: State) {
    forall k :: k in s.records ==> KeyOf(s.records[k]) == k && Honest(s, s.records[k])
  }

  ghost predicate Inv(s: State) {
    && s.cfg.maxAttempts >= 1
    && s.now > 0
    && RecordsOk(s)
    && CopiesOk(s, s.handlers)
    && CopiesOk(s, s.queue)
    && CopiesOk(s, s.sweep)
    && (forall w :: 0 <= w < |s.workers| ==> WorkerOk(s, s.workers[w]))
    && s.calls.Keys <= s.records.Keys
  }

  lemma InitialInv(cfg: Config, now: int)
    requires cfg.maxAttempts >= 1 && now > 0
    ensures Inv(Initial(cfg, now))
  {
  }

  /** The only facts of a state a copy depends on can grow. */
  ghost predicate Grows(s: State, s': State) {
    && s'.cfg == s.cfg && s'.now >= s.now
    && s.records.Keys <= s'.records.Keys
    && (forall k :: Calls(s, k) <= Calls(s', k))
  }

  lemma HonestStays(s: State, s': State, j: DeliveryJob)
    requires Grows(s, s') && Honest(s, j)
    ensures Honest(s', j)
  {
    var calls, calls' := Calls(s, KeyOf(j)), Calls(s', KeyOf(j));
    if SawSuccess(calls) {
      var i :| 0 <= i < |calls| && calls[i].Success();
      assert calls'[i].Success();
    }
    if SawPermanent(calls) {
      var i :| 0 <= i < |calls| && calls[i].Permanent();
      assert calls'[i].Permanent();
    }
  }

  lemma CopiesStay(s: State, s': State, js: seq<DeliveryJob>)
    requires Grows(s, s') && CopiesOk(s, js)
    ensures CopiesOk(s', js)
  {
    forall i | 0 <= i < |js|
      ensures CopyOk(s', js[i])
    {
      HonestStays(s, s', js[i]);
    }
  }

  /** Everything but records and worker w is carried over by a growing step. */
  lemma RestStays(s: State, s': State, w: int)
    requires Inv(s) && Grows(s, s') && |s'.workers| == |s.workers|
    requires forall v :: 0 <= v < |s.workers| && v != w ==> s'.workers[v] == s.workers[v]
    requires 0 <= w < |s.workers| ==> WorkerOk(s', s'.workers[w])
    requires RecordsOk(s') && s'.calls.Keys <= s'.records.Keys
    requires CopiesOk(s, s'.handlers) && CopiesOk(s, s'.queue) && CopiesOk(s, s'.sweep)
    ensures Inv(s')
  {
    CopiesStay(s, s', s'.handlers);
    CopiesStay(s, s', s'.queue);
    CopiesStay(s, s', s'.sweep);
    forall v | 0 <= v < |s'.workers|
      ensures WorkerOk(s', s'.workers[v])
    {
      if v != w && s.workers[v].HasJob() {
        assert WorkerOk(s, s.workers[v]);
        HonestStays(s, s', s.workers[v].job);
      }
    }
  }

  lemma RecordsStay(s: State, s': State)
    requires RecordsOk(s) && Grows(s, s') && s'.records == s.records
    ensures RecordsOk(s')
  {
    forall k | k in s'.records
      ensures Honest(s', s'.records[k])
    {
      HonestStays(s, s', s.records[k]);
    }
  }

  lemma FailIsHonest(s: State, j: DeliveryJob, err: ErrorText, permanent: bool, u: real)
    requires j.maxAttempts == s.cfg.maxAttempts >= 1 && 0 <= j.attempts <= j.maxAttempts
    requires j.attempts <= |Calls(s, KeyOf(j))| && j.deliveredAt.None?
    requires permanent ==> SawPermanent(Calls(s, KeyOf(j)))
    ensures Honest(s, Fail(j, err, permanent, s.now, u)) && KeyOf(Fail(j, err, permanent, s.now, u)) == KeyOf(j)
  {
  }

  /** What a worker holds after a POST is borne out by the calls, the new one
      included. */
  lemma AfterPostIsHonest(s: State, job: DeliveryJob, before: seq<Outcome>, o: Outcome, u: real)
    requires job.maxAttempts == s.cfg.maxAttempts >= 1 && 0 <= job.attempts < job.maxAttempts
    requires job.deliveredAt.None? && job.attempts <= |before|
    requires Calls(s, KeyOf(job)) == before + [o]
    ensures Honest(s, AfterPost(job, o, s.now, u)) && KeyOf(AfterPost(job, o, s.now, u)) == KeyOf(job)
  {
    var calls := Calls(s, KeyOf(job));
    assert calls[|before|] == o;
    var j := job.(attempts := job.attempts + 1);
    match o
    case NetworkError(text) => FailIsHonest(s, j, Other(text), false, u);
    case Response(status) =>
      if o.Success() {
        assert SawSuccess(calls);
      } else {
        assert IsPermanentFailure(status) ==> SawPermanent(calls);
        FailIsHonest(s, j, HttpStatus(status), IsPermanentFailure(status), u);
      }
  }

  /** Saving a new job: an existing record stays, a fresh one is honest. */
  lemma SaveKeepsInv(s: State, key: Key, endpoint: string)
    requires Inv(s) && endpoint != ""
    ensures var job := NewJob(s.cfg, s.now, key, endpoint);
      var s1 := s.(records := Saved(s.records, job, s.now));
      KeyOf(job) == key && Inv(s1) && CopyOk(s1, job)
  {
    var job := NewJob(s.cfg, s.now, key, endpoint);
    var s1 := s.(records := Saved(s.records, job, s.now));
    forall k | k in s1.records
      ensures KeyOf(s1.records[k]) == k && Honest(s1, s1.records[k])
    {
      if k in s.records { HonestStays(s, s1, s.records[k]); }
    }
    RestStays(s, s1, -1);
  }

  lemma HandKeepsInv(s: State, job: DeliveryJob)
    requires Inv(s) && CopyOk(s, job)
    ensures Inv(s.(handlers := s.handlers + [job]))
  {
    var s' := s.(handlers := s.handlers + [job]);
    RecordsStay(s, s');
    RestStays(s, s', -1);
  }

  lemma ArriveKeepsInv(s: State, key: Key, endpoint: string)
    requires Inv(s) && endpoint != ""
    ensures Inv(Next(s, Arrive(key, endpoint)))
  {
    var job := NewJob(s.cfg, s.now, key, endpoint);
    SaveKeepsInv(s, key, endpoint);
    HandKeepsInv(s.(records := Saved(s.records, job, s.now)), job);
  }

  lemma CommitKeepsInv(s: State, w: nat)
    requires Inv(s) && Enabled(s, Commit(w))
    ensures Inv(Next(s, Commit(w)))
  {
    var s', j := Next(s, Commit(w)), s.workers[w].job;
    assert WorkerOk(s, s.workers[w]);
    forall k | k in s'.records
      ensures KeyOf(s'.records[k]) == k && Honest(s', s'.records[k])
    {
      HonestStays(s, s', s.records[k]);
      if k == KeyOf(j) {
        HonestStays(s, s', j);
        assert s'.records[k] == Merged(s.records[k], j, s.now);
      }
    }
    RestStays(s, s', w);
  }

  lemma PostKeepsInv(s: State, w: nat, o: Outcome, u: real)
    requires Inv(s) && Enabled(s, Post(w, o, u))
    ensures Inv(Next(s, Post(w, o, u)))
  {
    var s', job := Next(s, Post(w, o, u)), s.workers[w].job;
    assert WorkerOk(s, s.workers[w]);
    AfterPostIsHonest(s', job, Calls(s, KeyOf(job)), o, u);
    RecordsStay(s, s');
    RestStays(s, s', w);
  }

  lemma BuildFailsKeepsInv(s: State, w: nat, text: string, u: real)
    requires Inv(s) && Enabled(s, BuildFails(w, text, u))
    ensures Inv(Next(s, BuildFails(w, text, u)))
  {
    var s' := Next(s, BuildFails(w, text, u));
    assert WorkerOk(s, s.workers[w]);
    FailIsHonest(s', s.workers[w].job, Other(text), false, u);
    RecordsStay(s, s');
    RestStays(s, s', w);
  }

  lemma WorkerStepKeepsInv(s: State, e: Event)
    requires Inv(s) && Enabled(s, e)
    requires e.Take? || e.FetchFails? || e.Leave?
    ensures Inv(Next(s, e))
  {
    var s' := Next(s, e);
    if e.Take? {
      assert CopyOk(s, s.queue[0]);
      HonestStays(s, s', s.queue[0]);
    }
    RecordsStay(s, s');
    RestStays(s, s', e.w);
  }

  lemma CopyStepKeepsInv(s: State, e: Event)
    requires Inv(s) && Enabled(s, e)
    requires e.HandlerSend? || e.SweepList? || e.SweepSend? || e.Tick? || e.Stop?
    ensures Inv(Next(s, e))
  {
    var s' := Next(s, e);
    RecordsStay(s, s');
    if e.SweepList? {
      assert CopiesOk(s, e.due);
    }
    RestStays(s, s', -1);
  }

  lemma StepKeepsInv(s: State, e: Event)
    requires Inv(s) && Enabled(s, e)
    ensures Inv(Next(s, e))
  {
    match e
    case Arrive(key, endpoint) => ArriveKeepsInv(s, key, endpoint);
    case Commit(w) => CommitKeepsInv(s, w);
    case Post(w, o, u) => PostKeepsInv(s, w, o, u);
    case BuildFails(w, text, u) => BuildFailsKeepsInv(s, w, text, u);
    case Crash =>
      var s' := Next(s, e);
      RecordsStay(s, s');
    case HandlerSend(_) => CopyStepKeepsInv(s, e);
    case SweepList(_) => CopyStepKeepsInv(s, e);
    case SweepSend => CopyStepKeepsInv(s, e);
    case Tick(_) => CopyStepKeepsInv(s, e);
    case Stop => CopyStepKeepsInv(s, e);
    case _ => WorkerStepKeepsInv(s, e);
  }

  lemma {:induction false} RunKeepsInv(s: State, es: seq<Event>)
    requires Inv(s) && Legal(s, es)
    ensures Inv(Run(s, es))
    decreases |es|
  {
    if es == [] {
    } else {
      StepKeepsInv(s, es[0]);
      RunKeepsInv(Next(s, es[0]), es[1..]);
    }
  }
}
