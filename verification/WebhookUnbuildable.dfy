/** Attempts whose request cannot be built are not counted, so a job with such an
    endpoint is retried for ever. */
module WebhookUnbuildable {
  import opened MemStore
  import opened WebhookModel
  import opened WebhookSafety
  import opened WebhookTheorems
  import opened WebhookFinality

  ghost predicate NeverPosts(s: State, es: seq<Event>, k: Key)
    requires Legal(s, es)
    decreases |es|
  {
    es == [] || ((es[0].Post? ==> KeyOf(s.workers[es[0].w].job) != k) && NeverPosts(Next(s, es[0]), es[1..], k))
  }

  /** The record is open, and so is every outcome that waits to be written to it. */
  ghost predicate StaysOpen(s: State, k: Key) {
    && k in s.records && s.records[k].status.Open()
    && (forall w :: 0 <= w < |s.workers| && s.workers[w].Updating? && KeyOf(s.workers[w].job) == k ==>
          s.workers[w].job.status.Open())
  }

  /** Only worker w and the records of other keys change. */
  lemma OpenElsewhere(s: State, s': State, w: int, k: Key)
    requires StaysOpen(s, k) && |s'.workers| == |s.workers|
    requires forall v :: 0 <= v < |s.workers| && v != w ==> s'.workers[v] == s.workers[v]
    requires 0 <= w < |s.workers| && s'.workers[w].Updating? && KeyOf(s'.workers[w].job) == k ==>
               s'.workers[w].job.status.Open()
    requires k in s'.records && s'.records[k].status.Open()
    ensures StaysOpen(s', k)
  {
  }

  lemma OpenCommit(s: State, w: nat, k: Key)
    requires Enabled(s, Commit(w)) && StaysOpen(s, k)
    ensures StaysOpen(Next(s, Commit(w)), k) && Calls(Next(s, Commit(w)), k) == Calls(s, k)
  {
    var s' := Next(s, Commit(w));
    assert s'.records[k] == if KeyOf(s.workers[w].job) == k then Merged(s.records[k], s.workers[w].job, s.now)
                            else s.records[k];
    OpenElsewhere(s, s', w, k);
  }

  lemma OpenBuild(s: State, w: nat, text: string, u: real, k: Key)
    requires Inv(s) && Enabled(s, BuildFails(w, text, u)) && StaysOpen(s, k)
    ensures StaysOpen(Next(s, BuildFails(w, text, u)), k)
    ensures Calls(Next(s, BuildFails(w, text, u)), k) == Calls(s, k)
  {
    var s' := Next(s, BuildFails(w, text, u));
    assert WorkerOk(s, s.workers[w]);
    assert s'.workers[w].job.status.Failed?;
    OpenElsewhere(s, s', w, k);
  }

  lemma OpenPost(s: State, w: nat, o: Outcome, u: real, k: Key)
    requires Enabled(s, Post(w, o, u)) && StaysOpen(s, k) && KeyOf(s.workers[w].job) != k
    ensures StaysOpen(Next(s, Post(w, o, u)), k) && Calls(Next(s, Post(w, o, u)), k) == Calls(s, k)
  {
    var s' := Next(s, Post(w, o, u));
    assert KeyOf(s'.workers[w].job) == KeyOf(s.workers[w].job);
    OpenElsewhere(s, s', w, k);
  }

  lemma OpenQuiet(s: State, e: Event, k: Key)
    requires Enabled(s, e) && StaysOpen(s, k)
    requires e.Take? || e.FetchFails? || e.Leave? || e.Crash?
    ensures StaysOpen(Next(s, e), k) && Calls(Next(s, e), k) == Calls(s, k)
  {
    var s' := Next(s, e);
    if e.Crash? {
      assert forall w :: 0 <= w < |s'.workers| ==> s'.workers[w].Idle?;
    } else {
      OpenElsewhere(s, s', e.w, k);
    }
  }

  lemma OpenMove(s: State, e: Event, k: Key)
    requires Enabled(s, e) && StaysOpen(s, k)
    requires e.Tick? || e.Arrive? || e.HandlerSend? || e.SweepList? || e.SweepSend? || e.Stop?
    ensures StaysOpen(Next(s, e), k) && Calls(Next(s, e), k) == Calls(s, k)
  {
    OpenElsewhere(s, Next(s, e), -1, k);
  }

  lemma OpenStep(s: State, e: Event, k: Key)
    requires Inv(s) && Enabled(s, e) && StaysOpen(s, k) && (e.Post? ==> KeyOf(s.workers[e.w].job) != k)
    ensures StaysOpen(Next(s, e), k) && Calls(Next(s, e), k) == Calls(s, k)
  {
    if e.Commit? {
      OpenCommit(s, e.w, k);
    } else if e.BuildFails? {
      OpenBuild(s, e.w, e.text, e.u, k);
    } else if e.Post? {
      OpenPost(s, e.w, e.outcome, e.u, k);
    } else if e.Take? || e.FetchFails? || e.Leave? || e.Crash? {
      OpenQuiet(s, e, k);
    } else {
      OpenMove(s, e, k);
    }
  }

  /** Without a POST no job dies, in runs of any length, with copies and crashes as
      they may be. */
  lemma {:induction false} UnpostedNeverDies(s: State, es: seq<Event>, k: Key)
    requires Inv(s) && Legal(s, es) && StaysOpen(s, k) && NeverPosts(s, es, k)
    ensures StaysOpen(Run(s, es), k) && Calls(Run(s, es), k) == Calls(s, k)
    decreases |es|
  {
    if es == [] {
    } else {
      StepKeepsInv(s, es[0]);
      OpenStep(s, es[0], k);
      UnpostedNeverDies(Next(s, es[0]), es[1..], k);
    }
  }

  // ---- And it is retried for ever ----

  /** k is the only job, and nothing is under way. */
  ghost predicate Resting(s: State, k: Key) {
    && Inv(s) && s.cfg.workers > 0 && |s.workers| == s.cfg.workers
    && s.records.Keys == {k} && s.records[k].status.Open()
    && s.handlers == [] && s.queue == [] && s.sweep == []
    && (forall w :: 0 <= w < |s.workers| ==> s.workers[w].Idle?)
  }

  /** The failed builds of a run in which nothing is posted, no event arrives and
      nothing crashes. */
  ghost function Builds(es: seq<Event>): nat {
    if es == [] then 0 else (if es[0].BuildFails? then 1 else 0) + Builds(es[1..])
  }

  ghost predicate Postless(es: seq<Event>) {
    Calm(es) && forall i :: 0 <= i < |es| ==> !es[i].Post?
  }

  lemma {:induction false} BuildsAppend(a: seq<Event>, b: seq<Event>)
    ensures Builds(a + b) == Builds(a) + Builds(b)
  {
    if a == [] {
      assert a + b == b;
    } else {
      BuildsAppend(a[1..], b);
      assert (a + b)[1..] == a[1..] + b;
    }
  }

  lemma BuildsOfTwo(e: Event, f: Event)
    ensures Builds([e, f]) == (if e.BuildFails? then 1 else 0) + (if f.BuildFails? then 1 else 0)
  {
    assert [e, f][1..] == [f] && [f][1..] == [];
    assert Builds([f]) == if f.BuildFails? then 1 else 0;
  }

  lemma OnlyOneDue(m: Jobs, k: Key, now: int, limit: int)
    requires Keyed(m) && m.Keys == {k} && Due(m[k], now) && limit > 0
    ensures IsDueList(m, now, limit, [m[k]])
  {
    assert DueKeys(m, now) == {k};
    assert KeyOf([m[k]][0]) == k && Listed([m[k]], k);
  }

  /** When the job is due, the sweeper lists it ... */
  lemma SweepLists(s: State, k: Key) returns (wait: nat)
    requires Resting(s, k)
    ensures var s1 := s.(now := s.now + wait);
      Legal(s, [Tick(wait), SweepList([s.records[k]])])
      && Run(s, [Tick(wait), SweepList([s.records[k]])]) == s1.(sweep := [s.records[k]])
  {
    var j := s.records[k];
    wait := if j.nextRetryAt > s.now then j.nextRetryAt - s.now else 0;
    var s1 := s.(now := s.now + wait);
    OnlyOneDue(s.records, k, s1.now, s.cfg.workers * 10);
    TwoSteps(s, Tick(wait), SweepList([j]));
  }

  /** ... queues it, and worker 0 takes it ... */
  lemma QueueAndTake(s: State, j: DeliveryJob)
    requires s.cfg.workers > 0 && |s.workers| > 0 && s.workers[0].Idle? && s.queue == [] && s.sweep == [j]
    ensures Legal(s, [SweepSend, Take(0)])
    ensures Run(s, [SweepSend, Take(0)]) == s.(sweep := [], workers := s.workers[0 := Attempting(j)])
  {
    var s1 := Next(s, SweepSend);
    assert s1.queue == [j] && s1.sweep == [];
    assert Next(s1, Take(0)).queue == [];
    TwoSteps(s, SweepSend, Take(0));
  }

  /** ... and cannot build the request, which is written back. */
  lemma BuildFailsAgain(s: State, k: Key)
    requires Inv(s) && |s.workers| > 0 && k in s.records && s.workers[0] == Attempting(s.records[k])
    ensures var es := [BuildFails(0, "", 0.0), Commit(0)];
      && Legal(s, es) && k in Run(s, es).records
      && Run(s, es) == s.(workers := s.workers[0 := Idle], records := s.records[k := Run(s, es).records[k]])
      && Run(s, es).records[k].status.Failed? && Run(s, es).records[k].attempts == s.records[k].attempts
  {
    assert WorkerOk(s, s.workers[0]) && KeyOf(s.records[k]) == k;
    var s1 := Next(s, BuildFails(0, "", 0.0));
    var s2 := Next(s1, Commit(0));
    assert s2.workers == s.workers[0 := Idle];
    TwoSteps(s, BuildFails(0, "", 0.0), Commit(0));
  }

  /** Worker 0 gets the job when it is due. */
  lemma JobIsTaken(s: State, k: Key) returns (es: seq<Event>, s': State)
    requires Resting(s, k)
    ensures Legal(s, es) && Run(s, es) == s' && Postless(es) && Builds(es) == 0 && Inv(s')
    ensures s' == s.(now := s'.now, workers := s.workers[0 := Attempting(s.records[k])])
  {
    var wait := SweepLists(s, k);
    var a, b := [Tick(wait), SweepList([s.records[k]])], [SweepSend, Take(0)];
    QueueAndTake(Run(s, a), s.records[k]);
    RunAppend(s, a, b);
    RunKeepsInv(s, a + b);
    BuildsOfTwo(a[0], a[1]);
    BuildsOfTwo(b[0], b[1]);
    BuildsAppend(a, b);
    es, s' := a + b, Run(s, a + b);
  }

  lemma RestsAgain(s: State, s1: State, s': State, k: Key)
    requires Resting(s, k) && Inv(s') && k in s'.records && s'.records[k].status.Open()
    requires s1 == s.(now := s1.now, workers := s.workers[0 := Attempting(s.records[k])])
    requires s' == s1.(workers := s1.workers[0 := Idle], records := s1.records[k := s'.records[k]])
    ensures Resting(s', k)
  {
  }

  /** One round of the retry. */
  lemma Round(s: State, k: Key) returns (es: seq<Event>)
    requires Resting(s, k)
    ensures Legal(s, es) && Postless(es) && Builds(es) == 1 && Resting(Run(s, es), k)
    ensures Run(s, es).records[k].attempts == s.records[k].attempts
  {
    var first, s1 := JobIsTaken(s, k);
    var second := [BuildFails(0, "", 0.0), Commit(0)];
    BuildFailsAgain(s1, k);
    RunKeepsInv(s1, second);
    RestsAgain(s, s1, Run(s1, second), k);
    RunAppend(s, first, second);
    BuildsOfTwo(second[0], second[1]);
    BuildsAppend(first, second);
    es := first + second;
  }

  /** Such a state is reached from start-up, with one event for one key. */
  lemma RestingIsReached(cfg: Config, start: int, k: Key, endpoint: string) returns (es: seq<Event>)
    requires cfg.workers > 0 && cfg.maxAttempts >= 1 && start > 0 && endpoint != ""
    ensures Reachable(cfg, start, es) && Resting(At(cfg, start, es), k)
  {
    var s0 := Initial(cfg, start);
    var job := NewJob(cfg, start, k, endpoint);
    var s1 := Next(s0, Arrive(k, endpoint));
    assert s1.handlers == [job];
    var s2 := Next(s1, HandlerSend(0));
    assert s2.queue == [job] && s2.handlers == [];
    var s3 := Next(s2, Take(0));
    var s4 := Next(s3, FetchFails(0));
    assert s4.queue == [] && s4.workers == s0.workers;
    var a, b := [Arrive(k, endpoint), HandlerSend(0)], [Take(0), FetchFails(0)];
    TwoSteps(s0, a[0], a[1]);
    TwoSteps(s2, b[0], b[1]);
    RunAppend(s0, a, b);
    es := a + b;
    ReachableInv(cfg, start, es);
  }

  /** Any number of attempts is made and none is counted: the job is still open
      after n failed builds, for every n. */
  lemma {:induction false} RetriedForEver(s: State, k: Key, n: nat) returns (es: seq<Event>)
    requires Resting(s, k)
    ensures Legal(s, es) && Postless(es) && Builds(es) == n && Resting(Run(s, es), k)
    ensures Run(s, es).records[k].attempts == s.records[k].attempts
    decreases n
  {
    if n == 0 {
      es := [];
    } else {
      var first := Round(s, k);
      var rest := RetriedForEver(Run(s, first), k, n - 1);
      RunAppend(s, first, rest);
      BuildsAppend(first, rest);
      es := first + rest;
    }
  }
}
