/** Runs that can be brought about: with one worker and no crash, any open job that
    is not crowded out can be swept, posted and written. */
module WebhookSteering {
  import opened Common
  import opened MemStore
  import opened WebhookModel
  import opened WebhookSafety
  import opened WebhookTheorems
  import opened WebhookFinality
  import opened WebhookStarvation

  // ---- Steered runs ----

  ghost predicate Harmless(e: Event) {
    e.Tick? || e.SweepList? || e.SweepSend? || e.Take? || e.FetchFails?
  }

  ghost predicate AllHarmless(es: seq<Event>) {
    forall i :: 0 <= i < |es| ==> Harmless(es[i])
  }

  /** Nothing arrives, nothing crashes, and no job of `stuck` is posted. */
  ghost predicate Steered(s: State, es: seq<Event>, stuck: set<Key>)
    requires Legal(s, es)
    decreases |es|
  {
    es == []
    || (&& (Harmless(es[0]) || es[0].Commit? || (es[0].Post? && KeyOf(s.workers[es[0].w].job) !in stuck))
        && Steered(Next(s, es[0]), es[1..], stuck))
  }

  lemma {:induction false} HarmlessIsSteered(s: State, es: seq<Event>, stuck: set<Key>)
    requires Legal(s, es) && AllHarmless(es)
    ensures Steered(s, es, stuck)
    decreases |es|
  {
    if es == [] {
    } else {
      HarmlessIsSteered(Next(s, es[0]), es[1..], stuck);
    }
  }

  lemma {:induction false} SteeredAppend(s: State, a: seq<Event>, b: seq<Event>, stuck: set<Key>)
    requires Legal(s, a) && Steered(s, a, stuck) && Legal(Run(s, a), b) && Steered(Run(s, a), b, stuck)
    ensures Legal(s, a + b) && Run(s, a + b) == Run(Run(s, a), b) && Steered(s, a + b, stuck)
    decreases |a|
  {
    RunAppend(s, a, b);
    if a == [] {
      assert a + b == b;
    } else {
      assert (a + b)[1..] == a[1..] + b;
      SteeredAppend(Next(s, a[0]), a[1..], b, stuck);
    }
  }

  lemma {:induction false} SteeredIsCalm(s: State, es: seq<Event>, stuck: set<Key>, k: Key)
    requires Legal(s, es) && Steered(s, es, stuck)
    ensures Calm(es) && Unfetchable(s, es, stuck, k)
    decreases |es|
  {
    if es == [] {
    } else {
      SteeredIsCalm(Next(s, es[0]), es[1..], stuck, k);
      assert forall i :: 0 < i < |es| ==> es[i] == es[1..][i - 1];
    }
  }

  // ---- Bringing a listed copy to a worker ----

  ghost predicate Ready(s: State, w: nat) {
    Free(s, w) && s.queue == [] && s.sweep == [] && s.cfg.workers > 0
  }

  /** The worker drops everything that waits. */
  lemma {:induction false} Flush(s: State, w: nat) returns (es: seq<Event>)
    requires Free(s, w) && s.cfg.workers > 0
    ensures Legal(s, es) && AllHarmless(es)
    ensures Run(s, es) == s.(queue := [], sweep := []) && Ready(s.(queue := [], sweep := []), w)
    decreases |s.sweep|
  {
    var first := Drain(s, w);
    var s1 := s.(queue := []);
    if s.sweep == [] {
      es := first;
    } else {
      var s2 := Next(s1, SweepSend);
      StepKeepsInv(s1, SweepSend);
      var rest := Flush(s2, w);
      OneStep(s1, SweepSend);
      RunAppend(s1, [SweepSend], rest);
      RunAppend(s, first, [SweepSend] + rest);
      es := first + ([SweepSend] + rest);
    }
  }

  /** The first listed copy goes through the channel and is dropped ... */
  lemma SkipListed(s: State, w: nat)
    requires Free(s, w) && s.cfg.workers > 0 && s.queue == [] && s.sweep != []
    ensures var es := [SweepSend] + [Take(w), FetchFails(w)];
      Legal(s, es) && Run(s, es) == s.(sweep := s.sweep[1..])
    ensures Free(s.(sweep := s.sweep[1..]), w)
  {
    var s1 := Next(s, SweepSend);
    StepKeepsInv(s, SweepSend);
    OneStep(s, SweepSend);
    assert s1.queue == [s.sweep[0]] && s1.queue[1..] == [];
    SkipHead(s1, w);
    assert s1.(queue := []) == s.(sweep := s.sweep[1..]);
    RunAppend(s, [SweepSend], [Take(w), FetchFails(w)]);
  }

  /** ... or is taken. */
  lemma TakeListed(s: State, w: nat)
    requires Free(s, w) && s.cfg.workers > 0 && s.queue == [] && s.sweep != []
    ensures Legal(s, [SweepSend, Take(w)])
    ensures Run(s, [SweepSend, Take(w)])
         == s.(sweep := s.sweep[1..], workers := s.workers[w := Attempting(s.sweep[0])])
  {
    var s1 := Next(s, SweepSend);
    assert s1.queue == [s.sweep[0]];
    assert Next(s1, Take(w)).queue == [];
    TwoSteps(s, SweepSend, Take(w));
  }

  /** The copies in front of the i-th are dropped, and the worker takes that one. */
  lemma {:induction false} Bring(s: State, w: nat, i: nat) returns (es: seq<Event>)
    requires Free(s, w) && s.cfg.workers > 0 && s.queue == [] && i < |s.sweep|
    ensures Legal(s, es) && AllHarmless(es)
    ensures Run(s, es) == s.(sweep := s.sweep[i + 1..], workers := s.workers[w := Attempting(s.sweep[i])])
    decreases i
  {
    if i == 0 {
      TakeListed(s, w);
      es := [SweepSend, Take(w)];
    } else {
      SkipListed(s, w);
      var s1 := s.(sweep := s.sweep[1..]);
      var rest := Bring(s1, w, i - 1);
      assert s1.sweep[i..] == s.sweep[i + 1..] && s1.sweep[i - 1] == s.sweep[i];
      var skip := [SweepSend] + [Take(w), FetchFails(w)];
      RunAppend(s, skip, rest);
      es := skip + rest;
    }
  }

  // ---- Picking up a job ----

  /** The open jobs that come strictly before k, due or not. */
  ghost function OpenBefore(m: Jobs, k: Key): set<Key>
    requires k in m
  {
    set l | l in m && m[l].status.Open() && m[l].nextRetryAt < m[k].nextRetryAt
  }

  ghost predicate Uncrowded(s: State, k: Key) {
    && k in s.records && s.records[k].status.Open()
    && |OpenBefore(s.records, k)| < Capacity(s.cfg)
  }

  /** When the job is due, some sweep lists it. */
  lemma CanBeSwept(s: State, k: Key) returns (due: seq<DeliveryJob>, i: nat)
    requires Inv(s) && Uncrowded(s, k) && s.records[k].nextRetryAt <= s.now && s.sweep == []
    ensures Enabled(s, SweepList(due)) && i < |due| && due[i] == s.records[k]
  {
    SubsetCount(Earlier(s.records, s.now, k), OpenBefore(s.records, k));
    due := RoomIsListed(s.records, s.now, Capacity(s.cfg), k);
    i :| 0 <= i < |due| && KeyOf(due[i]) == k;
  }

  /** The worker holds the job as it is stored, and its time has come. */
  ghost predicate PickedUp(s: State, s': State, w: nat, k: Key) {
    && k in s.records && w < |s.workers| && Inv(s')
    && s'.now >= s.now && s'.now >= s.records[k].nextRetryAt
    && s' == s.(now := s'.now, sweep := s'.sweep, workers := s.workers[w := Attempting(s.records[k])])
  }

  lemma PickUp(s: State, w: nat, k: Key) returns (es: seq<Event>)
    requires Ready(s, w) && Uncrowded(s, k)
    ensures Legal(s, es) && AllHarmless(es) && PickedUp(s, Run(s, es), w, k)
  {
    var wait: nat := if s.records[k].nextRetryAt > s.now then s.records[k].nextRetryAt - s.now else 0;
    var s1 := Next(s, Tick(wait));
    StepKeepsInv(s, Tick(wait));
    var due, i := CanBeSwept(s1, k);
    var s2 := Next(s1, SweepList(due));
    StepKeepsInv(s1, SweepList(due));
    var rest := Bring(s2, w, i);
    TwoSteps(s, Tick(wait), SweepList(due));
    RunAppend(s, [Tick(wait), SweepList(due)], rest);
    es := [Tick(wait), SweepList(due)] + rest;
    RunKeepsInv(s, es);
  }

  // ---- Posting and writing ----

  /** What the write of a POST's outcome makes of a record. */
  ghost predicate Progressed(r: DeliveryJob, j: DeliveryJob, o: Outcome) {
    && r.attempts == j.attempts + 1
    && (o.Success() ==> r.status.Delivered?)
    && (!o.Success() && !o.Permanent() && j.attempts + 1 < j.maxAttempts ==> r.status.Failed?)
  }

  lemma OutcomeProgresses(r: DeliveryJob, j: DeliveryJob, o: Outcome, now: int)
    requires j.attempts >= 0
    ensures Progressed(Merged(r, AfterPost(j, o, now, 0.0), now), j, o)
    ensures KeyOf(AfterPost(j, o, now, 0.0)) == KeyOf(j)
  {
  }

  /** A worker posted copy j of key k with outcome o and wrote the result. */
  ghost predicate Attempted(s: State, s': State, w: nat, k: Key, j: DeliveryJob, o: Outcome) {
    && w < |s.workers| && k in s.records && k in s'.records && Inv(s')
    && s' == s.(workers := s.workers[w := Idle], records := s.records[k := s'.records[k]],
                calls := s.calls[k := Calls(s, k) + [o]], lastPost := s.lastPost[k := s.now])
    && Progressed(s'.records[k], j, o)
  }

  lemma PostThenCommit(s: State, w: nat, o: Outcome)
    requires Holding(s, w) && KeyOf(s.workers[w].job) in s.records
    ensures var j := s.workers[w].job;
      var k := KeyOf(j);
      var s1 := Next(s, Post(w, o, 0.0));
      && Enabled(s1, Commit(w))
      && Next(s1, Commit(w))
         == s.(workers := s.workers[w := Idle],
               records := s.records[k := Merged(s.records[k], AfterPost(j, o, s.now, 0.0), s.now)],
               calls := s.calls[k := Calls(s, k) + [o]], lastPost := s.lastPost[k := s.now])
  {
    var j := s.workers[w].job;
    OutcomeProgresses(j, j, o, s.now);
    var s1 := Next(s, Post(w, o, 0.0));
    assert s1.workers[w] == Updating(AfterPost(j, o, s.now, 0.0), true);
    assert s1.workers[w := Idle] == s.workers[w := Idle];
  }

  lemma PostAndWrite(s: State, w: nat, o: Outcome)
    requires Inv(s) && w < |s.workers| && s.workers[w].Attempting?
    ensures var es := [Post(w, o, 0.0), Commit(w)];
      var j := s.workers[w].job;
      Legal(s, es) && Attempted(s, Run(s, es), w, KeyOf(j), j, o)
  {
    var j, es := s.workers[w].job, [Post(w, o, 0.0), Commit(w)];
    assert WorkerOk(s, s.workers[w]);
    PostThenCommit(s, w, o);
    TwoSteps(s, es[0], es[1]);
    RunKeepsInv(s, es);
    OutcomeProgresses(s.records[KeyOf(j)], j, o, s.now);
  }

  lemma PostIsSteered(s: State, w: nat, o: Outcome, stuck: set<Key>)
    requires Inv(s) && w < |s.workers| && s.workers[w].Attempting? && KeyOf(s.workers[w].job) !in stuck
    requires Legal(s, [Post(w, o, 0.0), Commit(w)])
    ensures Steered(s, [Post(w, o, 0.0), Commit(w)], stuck)
  {
    var es := [Post(w, o, 0.0), Commit(w)];
    assert es[1..] == [Commit(w)] && es[1..][1..] == [];
    assert Steered(Next(s, es[0]), es[1..], stuck);
  }

  // ---- One whole attempt ----

  /** One attempt at k later: the record has made progress, everything else is as
      it was. */
  ghost predicate Tried(s: State, s': State, k: Key, j: DeliveryJob, o: Outcome) {
    && k in s.records && k in s'.records && s'.now >= s.now
    && s' == s.(now := s'.now, records := s.records[k := s'.records[k]],
                calls := s.calls[k := Calls(s, k) + [o]], lastPost := s'.lastPost)
    && Progressed(s'.records[k], j, o)
  }

  lemma PickedUpAndAttempted(s: State, s1: State, s2: State, w: nat, k: Key, o: Outcome)
    requires Ready(s, w) && PickedUp(s, s1, w, k) && Attempted(s1, s2, w, k, s.records[k], o)
    ensures Free(s2, w) && s2.cfg == s.cfg && Tried(s, s2.(queue := [], sweep := []), k, s.records[k], o)
  {
    assert s1.workers[w := Idle] == s.workers;
  }

  lemma Try(s: State, w: nat, k: Key, o: Outcome, stuck: set<Key>) returns (es: seq<Event>, s': State)
    requires Ready(s, w) && Uncrowded(s, k) && k !in stuck
    ensures Legal(s, es) && Steered(s, es, stuck) && Run(s, es) == s' && Ready(s', w)
    ensures Tried(s, s', k, s.records[k], o)
  {
    assert KeyOf(s.records[k]) == k;
    var a := PickUp(s, w, k);
    var b := [Post(w, o, 0.0), Commit(w)];
    var s1 := Run(s, a);
    PostAndWrite(s1, w, o);
    PostIsSteered(s1, w, o, stuck);
    var s2 := Run(s1, b);
    PickedUpAndAttempted(s, s1, s2, w, k, o);
    var c := Flush(s2, w);
    HarmlessIsSteered(s, a, stuck);
    HarmlessIsSteered(s2, c, stuck);
    SteeredAppend(s1, b, c, stuck);
    SteeredAppend(s, a, b + c, stuck);
    es, s' := a + (b + c), s2.(queue := [], sweep := []);
  }

  // ---- Clearing the way ----

  lemma {:induction false} Earliest(m: Jobs, ks: set<Key>) returns (x: Key)
    requires ks <= m.Keys && ks != {}
    ensures x in ks && forall l :: l in ks ==> m[x].nextRetryAt <= m[l].nextRetryAt
    decreases |ks|
  {
    x :| x in ks;
    if ks - {x} == {} {
      assert ks == {x};
    } else {
      var y := Earliest(m, ks - {x});
      x := if m[y].nextRetryAt <= m[x].nextRetryAt then y else x;
    }
  }

  /** The earliest job in the way that is not stuck is itself not crowded out. */
  lemma NextInTheWay(m: Jobs, stuck: set<Key>, k: Key) returns (j: Key)
    requires k in m && OpenBefore(m, k) - stuck != {}
    ensures j in OpenBefore(m, k) - stuck && OpenBefore(m, j) <= OpenBefore(m, k) * stuck
  {
    j := Earliest(m, OpenBefore(m, k) - stuck);
  }

  /** What is still open before k when job j is done. */
  lemma OneLess(m: Jobs, j: Key, r: DeliveryJob, k: Key)
    requires k in m && j in m && j != k && !r.status.Open()
    ensures OpenBefore(m[j := r], k) == OpenBefore(m, k) - {j}
  {
  }

  lemma OneLessInTheWay(ahead: set<Key>, stuck: set<Key>, j: Key)
    requires j in ahead - stuck
    ensures (ahead - {j}) * stuck == ahead * stuck && |(ahead - {j}) - stuck| < |ahead - stuck|
  {
    assert (ahead - {j}) - stuck == (ahead - stuck) - {j};
  }

  lemma NothingInTheWay(ahead: set<Key>, stuck: set<Key>)
    requires ahead - stuck == {}
    ensures ahead * stuck == ahead
  {
    assert forall l :: l in ahead ==> l in stuck || l in ahead - stuck;
  }

  /** All jobs before k that are not stuck are delivered, one after the other. */
  lemma {:induction false} ClearTheWay(s: State, w: nat, stuck: set<Key>, k: Key) returns (es: seq<Event>, s': State)
    requires Ready(s, w) && k in s.records && s.records[k].status.Open()
    requires |OpenBefore(s.records, k) * stuck| < Capacity(s.cfg)
    ensures Legal(s, es) && Steered(s, es, stuck) && Run(s, es) == s' && Ready(s', w) && Uncrowded(s', k)
    ensures s'.records[k] == s.records[k] && Calls(s', k) == Calls(s, k) && s'.cfg == s.cfg && s'.now >= s.now
    decreases |OpenBefore(s.records, k) - stuck|
  {
    var ahead := OpenBefore(s.records, k);
    if ahead - stuck == {} {
      es, s' := [], s;
      NothingInTheWay(ahead, stuck);
    } else {
      var j := NextInTheWay(s.records, stuck, k);
      SubsetCount(OpenBefore(s.records, j), ahead * stuck);
      var first, s1 := Try(s, w, j, Response(200), stuck);
      OneLess(s.records, j, s1.records[j], k);
      OneLessInTheWay(ahead, stuck, j);
      var rest;
      rest, s' := ClearTheWay(s1, w, stuck, k);
      SteeredAppend(s, first, rest, stuck);
      es := first + rest;
    }
  }

  // ---- Starvation, exactly ----

  /** A crash leaves nothing but the records. */
  lemma CrashIsReady(s: State)
    requires Inv(s) && s.cfg.workers > 0
    ensures Ready(Next(s, Crash), 0) && Next(s, Crash).records == s.records && Next(s, Crash).cfg == s.cfg
    ensures forall k :: Calls(Next(s, Crash), k) == Calls(s, k)
  {
    StepKeepsInv(s, Crash);
  }

  lemma FreshRunPosts(s: State, stuck: set<Key>, k: Key) returns (es: seq<Event>)
    requires Ready(s, 0) && k in s.records && s.records[k].status.Open() && k !in stuck
    requires |OpenBefore(s.records, k) * stuck| < Capacity(s.cfg)
    ensures Legal(s, es) && Steered(s, es, stuck) && |Calls(Run(s, es), k)| > |Calls(s, k)|
  {
    var first, s1 := ClearTheWay(s, 0, stuck, k);
    var rest, s2 := Try(s1, 0, k, NetworkError(""), stuck);
    SteeredAppend(s, first, rest, stuck);
    es := first + rest;
  }

  /** Some run in which the messages of `stuck` cannot be fetched, and in which no
      event for k repeats, posts k. */
  ghost predicate CanBePosted(s: State, stuck: set<Key>, k: Key) {
    exists es :: Legal(s, es) && Unfetchable(s, es, stuck, k) && |Calls(Run(s, es), k)| > |Calls(s, k)|
  }

  lemma RoomIsPosted(s: State, stuck: set<Key>, k: Key)
    requires Inv(s) && s.cfg.workers > 0 && k in s.records && s.records[k].status.Open() && k !in stuck
    requires |OpenBefore(s.records, k) * stuck| < Capacity(s.cfg)
    ensures CanBePosted(s, stuck, k)
  {
    CrashIsReady(s);
    var s1 := Next(s, Crash);
    var rest := FreshRunPosts(s1, stuck, k);
    SteeredIsCalm(s1, rest, stuck, k);
    var es := [Crash] + rest;
    assert es[1..] == rest;
    assert Legal(s, es) && Run(s, es) == Run(s1, rest);
    assert Unfetchable(s, es, stuck, k);
  }

  lemma {:induction false} FewerStuck(s: State, es: seq<Event>, stuck: set<Key>, fewer: set<Key>, k: Key)
    requires Legal(s, es) && Unfetchable(s, es, stuck, k) && fewer <= stuck
    ensures Unfetchable(s, es, fewer, k)
    decreases |es|
  {
    if es == [] {
    } else {
      FewerStuck(Next(s, es[0]), es[1..], stuck, fewer, k);
    }
  }

  /** Exactly when an open job starves behind jobs whose messages cannot be fetched:
      when workers * 10 of them are open and come strictly before it. */
  lemma StarvesIff(s: State, stuck: set<Key>, k: Key)
    requires Inv(s) && s.cfg.workers > 0 && k in s.records && s.records[k].status.Open() && k !in stuck
    requires NoCopy(s, k)
    requires forall w :: 0 <= w < |s.workers| && s.workers[w].Updating? ==> KeyOf(s.workers[w].job) !in stuck
    ensures CanBePosted(s, stuck, k) <==> |OpenBefore(s.records, k) * stuck| < Capacity(s.cfg)
  {
    var front := OpenBefore(s.records, k) * stuck;
    if |front| < Capacity(s.cfg) {
      RoomIsPosted(s, stuck, k);
    } else {
      forall es | Legal(s, es) && Unfetchable(s, es, stuck, k)
        ensures |Calls(Run(s, es), k)| <= |Calls(s, k)|
      {
        FewerStuck(s, es, stuck, front, k);
        LaterJobStarves(s, es, front, k);
      }
    }
  }
}
