/** Exactly when a terminal record is final. */
module WebhookFinality {
  import opened MemStore
  import opened WebhookModel
  import opened WebhookSafety
  import opened WebhookTheorems

  /** No crash, and no repeated event for k. */
  ghost predicate Undisturbed(es: seq<Event>, k: Key) {
    forall i :: 0 <= i < |es| ==> !es[i].Crash? && !(es[i].Arrive? && es[i].key == k)
  }

  /** No undisturbed continuation changes the record or posts it. */
  ghost predicate Final(s: State, k: Key)
    requires k in s.records
  {
    forall es :: Legal(s, es) && Undisturbed(es, k) ==>
      && k in Run(s, es).records && Run(s, es).records[k] == s.records[k]
      && Calls(Run(s, es), k) == Calls(s, k)
  }

  // ---- Waking a copy ----

  ghost predicate Calm(es: seq<Event>) {
    forall i :: 0 <= i < |es| ==> !es[i].Crash? && !es[i].Arrive?
  }

  /** The continuation posts k once more. */
  ghost predicate Posts(s: State, es: seq<Event>, k: Key) {
    Legal(s, es) && Calm(es) && |Calls(Run(s, es), k)| > |Calls(s, k)|
  }

  lemma PostsAfter(s: State, a: seq<Event>, b: seq<Event>, k: Key)
    requires Legal(s, a) && Calm(a) && Calls(Run(s, a), k) == Calls(s, k) && Posts(Run(s, a), b, k)
    ensures Posts(s, a + b, k)
  {
    RunAppend(s, a, b);
  }

  lemma OneStep(s: State, e: Event)
    requires Enabled(s, e)
    ensures Legal(s, [e]) && Run(s, [e]) == Next(s, e)
  {
    assert [e][1..] == [];
    assert Legal(Next(s, e), []);
  }

  lemma TwoSteps(s: State, e: Event, f: Event)
    requires Enabled(s, e) && Enabled(Next(s, e), f)
    ensures Legal(s, [e, f]) && Run(s, [e, f]) == Next(Next(s, e), f)
  {
    OneStep(Next(s, e), f);
    assert [e, f][1..] == [f];
  }

  ghost predicate Free(s: State, w: nat) {
    Inv(s) && w < |s.workers| && s.workers[w].Idle?
  }

  /** A worker that holds k posts it. */
  lemma HolderPosts(s: State, w: nat, k: Key) returns (es: seq<Event>)
    requires Inv(s) && w < |s.workers| && s.workers[w].Attempting? && KeyOf(s.workers[w].job) == k
    ensures Posts(s, es, k)
  {
    assert WorkerOk(s, s.workers[w]);
    var e := Post(w, NetworkError(""), 0.0);
    OneStep(s, e);
    es := [e];
  }

  /** A free worker takes the head of the channel and drops it. */
  lemma SkipHead(s: State, w: nat)
    requires Free(s, w) && s.queue != []
    ensures Legal(s, [Take(w), FetchFails(w)]) && Run(s, [Take(w), FetchFails(w)]) == s.(queue := s.queue[1..])
    ensures Free(s.(queue := s.queue[1..]), w)
  {
    var s1 := Next(s, Take(w));
    assert CopyOk(s, s.queue[0]);
    var s2 := Next(s1, FetchFails(w));
    assert s2.workers == s.workers;
    assert s2 == s.(queue := s.queue[1..]);
    TwoSteps(s, Take(w), FetchFails(w));
    StepKeepsInv(s, Take(w));
    StepKeepsInv(s1, FetchFails(w));
  }

  lemma {:induction false} Drain(s: State, w: nat) returns (es: seq<Event>)
    requires Free(s, w)
    ensures Legal(s, es) && Calm(es) && Run(s, es) == s.(queue := []) && Free(s.(queue := []), w)
    ensures forall i :: 0 <= i < |es| ==> es[i].Take? || es[i].FetchFails?
    decreases |s.queue|
  {
    if s.queue == [] {
      es := [];
    } else {
      SkipHead(s, w);
      var rest := Drain(s.(queue := s.queue[1..]), w);
      es := [Take(w), FetchFails(w)] + rest;
      RunAppend(s, [Take(w), FetchFails(w)], rest);
    }
  }

  lemma {:induction false} QueuedPosts(s: State, w: nat, i: nat, k: Key) returns (es: seq<Event>)
    requires Free(s, w) && i < |s.queue| && KeyOf(s.queue[i]) == k
    ensures Posts(s, es, k)
    decreases i
  {
    if i == 0 {
      var s1 := Next(s, Take(w));
      StepKeepsInv(s, Take(w));
      var rest := HolderPosts(s1, w, k);
      OneStep(s, Take(w));
      PostsAfter(s, [Take(w)], rest, k);
      es := [Take(w)] + rest;
    } else {
      SkipHead(s, w);
      var rest := QueuedPosts(s.(queue := s.queue[1..]), w, i - 1, k);
      PostsAfter(s, [Take(w), FetchFails(w)], rest, k);
      es := [Take(w), FetchFails(w)] + rest;
    }
  }

  lemma HandledPosts(s: State, w: nat, i: nat, k: Key) returns (es: seq<Event>)
    requires Free(s, w) && s.cfg.workers > 0 && i < |s.handlers| && KeyOf(s.handlers[i]) == k
    ensures Posts(s, es, k)
  {
    var first := Drain(s, w);
    var s1 := s.(queue := []);
    StepKeepsInv(s1, HandlerSend(i));
    var s2 := Next(s1, HandlerSend(i));
    assert s2.queue[0] == s.handlers[i];
    var rest := QueuedPosts(s2, w, 0, k);
    OneStep(s1, HandlerSend(i));
    PostsAfter(s1, [HandlerSend(i)], rest, k);
    PostsAfter(s, first, [HandlerSend(i)] + rest, k);
    es := first + ([HandlerSend(i)] + rest);
  }

  lemma {:induction false} SweptPosts(s: State, w: nat, i: nat, k: Key) returns (es: seq<Event>)
    requires Free(s, w) && s.cfg.workers > 0 && i < |s.sweep| && KeyOf(s.sweep[i]) == k
    ensures Posts(s, es, k)
    decreases i
  {
    var first := Drain(s, w);
    var s1 := s.(queue := []);
    StepKeepsInv(s1, SweepSend);
    var s2 := Next(s1, SweepSend);
    var rest;
    if i == 0 {
      assert s2.queue[0] == s.sweep[0];
      rest := QueuedPosts(s2, w, 0, k);
    } else {
      rest := SweptPosts(s2, w, i - 1, k);
    }
    OneStep(s1, SweepSend);
    PostsAfter(s1, [SweepSend], rest, k);
    PostsAfter(s, first, [SweepSend] + rest, k);
    es := first + ([SweepSend] + rest);
  }

  ghost predicate Held(s: State, k: Key) {
    exists w :: 0 <= w < |s.workers| && s.workers[w].HasJob() && KeyOf(s.workers[w].job) == k
  }

  /** A waiting copy is posted by any free worker. */
  lemma WaitingPosts(s: State, w: nat, k: Key) returns (es: seq<Event>)
    requires Free(s, w) && s.cfg.workers > 0 && !NoCopy(s, k) && !Held(s, k)
    ensures Posts(s, es, k)
  {
    if !NoCopyIn(s.queue, k) {
      var i :| 0 <= i < |s.queue| && KeyOf(s.queue[i]) == k;
      es := QueuedPosts(s, w, i, k);
    } else if !NoCopyIn(s.handlers, k) {
      var i :| 0 <= i < |s.handlers| && KeyOf(s.handlers[i]) == k;
      es := HandledPosts(s, w, i, k);
    } else {
      var i :| 0 <= i < |s.sweep| && KeyOf(s.sweep[i]) == k;
      es := SweptPosts(s, w, i, k);
    }
  }

  /** Worker w is free, and nothing has changed for the waiting copies of k. */
  ghost predicate Freed(s: State, s': State, w: nat, k: Key) {
    && Free(s', w) && s'.cfg == s.cfg && Calls(s', k) == Calls(s, k) && !Held(s', k)
    && s'.handlers == s.handlers && s'.queue == s.queue && s'.sweep == s.sweep
  }

  lemma FetchFrees(s: State, w: nat, k: Key)
    requires Inv(s) && w < |s.workers| && s.workers[w].Attempting? && !Held(s, k)
    ensures Enabled(s, FetchFails(w)) && Freed(s, Next(s, FetchFails(w)), w, k)
  {
    assert WorkerOk(s, s.workers[w]);
    StepKeepsInv(s, FetchFails(w));
  }

  lemma CommitFrees(s: State, w: nat, k: Key)
    requires Inv(s) && w < |s.workers| && s.workers[w].Updating? && !Held(s, k)
    ensures Enabled(s, Commit(w)) && Freed(s, Next(s, Commit(w)), w, k)
  {
    StepKeepsInv(s, Commit(w));
  }

  /** A worker that has not left becomes free in at most one step. */
  lemma FreeOne(s: State, w: nat, k: Key) returns (es: seq<Event>)
    requires Inv(s) && w < |s.workers| && !s.workers[w].Gone? && !Held(s, k)
    ensures Legal(s, es) && Calm(es) && Freed(s, Run(s, es), w, k)
  {
    if s.workers[w].Idle? {
      es := [];
    } else if s.workers[w].Attempting? {
      FetchFrees(s, w, k);
      OneStep(s, FetchFails(w));
      es := [FetchFails(w)];
    } else {
      CommitFrees(s, w, k);
      OneStep(s, Commit(w));
      es := [Commit(w)];
    }
  }

  lemma CopyPosts(s: State, w: nat, k: Key) returns (es: seq<Event>)
    requires Inv(s) && s.cfg.workers > 0 && w < |s.workers| && !s.workers[w].Gone?
    requires !NoCopy(s, k) && !Held(s, k)
    ensures Posts(s, es, k)
  {
    var first := FreeOne(s, w, k);
    assert !NoCopy(Run(s, first), k);
    var rest := WaitingPosts(Run(s, first), w, k);
    PostsAfter(s, first, rest, k);
    es := first + rest;
  }

  /** The write of an attempt shows, at the latest when the clock has moved. */
  lemma WriteShows(s: State, w: nat, k: Key) returns (es: seq<Event>)
    requires Inv(s) && k in s.records && w < |s.workers| && s.workers[w].Updating? && KeyOf(s.workers[w].job) == k
    ensures Legal(s, es) && Calm(es) && k in Run(s, es).records && Run(s, es).records[k] != s.records[k]
  {
    var wait := if s.records[k].updatedAt == s.now then 1 else 0;
    TwoSteps(s, Tick(wait), Commit(w));
    es := [Tick(wait), Commit(w)];
    assert Run(s, es).records[k].updatedAt == s.now + wait;
  }

  // ---- When nobody is left ----

  ghost predicate AllGone(s: State) {
    forall w :: 0 <= w < |s.workers| ==> s.workers[w].Gone?
  }

  lemma {:induction false} GoneIsFinal(s: State, es: seq<Event>, k: Key)
    requires AllGone(s) && k in s.records && Legal(s, es) && Undisturbed(es, k)
    ensures k in Run(s, es).records && Run(s, es).records[k] == s.records[k] && Calls(Run(s, es), k) == Calls(s, k)
    decreases |es|
  {
    if es == [] {
    } else {
      OnlyCommitWrites(s, es[0], k);
      assert forall i :: 0 <= i < |es[1..]| ==> es[1..][i] == es[i + 1];
      GoneIsFinal(Next(s, es[0]), es[1..], k);
    }
  }

  lemma {:induction false} RunKeepsCrew(s: State, es: seq<Event>)
    requires Legal(s, es) && |s.workers| == s.cfg.workers
    ensures |Run(s, es).workers| == s.cfg.workers
    decreases |es|
  {
    if es == [] {
    } else {
      RunKeepsCrew(Next(s, es[0]), es[1..]);
    }
  }

  lemma NotFinal(s: State, es: seq<Event>, k: Key)
    requires k in s.records && Legal(s, es) && Calm(es)
    requires k in Run(s, es).records
    requires Run(s, es).records[k] != s.records[k] || Calls(Run(s, es), k) != Calls(s, k)
    ensures !Final(s, k)
  {
    assert Undisturbed(es, k);
  }

  lemma CopyIsNotFinal(s: State, k: Key)
    requires Inv(s) && |s.workers| == s.cfg.workers && k in s.records && !NoCopy(s, k) && !AllGone(s)
    ensures !Final(s, k)
  {
    var es;
    if Held(s, k) {
      var w :| 0 <= w < |s.workers| && s.workers[w].HasJob() && KeyOf(s.workers[w].job) == k;
      if s.workers[w].Updating? {
        es := WriteShows(s, w, k);
      } else {
        es := HolderPosts(s, w, k);
      }
    } else {
      var w :| 0 <= w < |s.workers| && !s.workers[w].Gone?;
      es := CopyPosts(s, w, k);
    }
    RecordsPersist(s, es, k);
    NotFinal(s, es, k);
  }

  /** Delivered and dead are absorbing exactly here: in a reachable state a terminal
      record is final if and only if no copy of it is left, or no worker. */
  lemma TerminalIsFinalIff(cfg: Config, start: int, es0: seq<Event>, k: Key)
    requires Reachable(cfg, start, es0)
    requires var s := At(cfg, start, es0); k in s.records && !s.records[k].status.Open()
    ensures var s := At(cfg, start, es0); Final(s, k) <==> NoCopy(s, k) || AllGone(s)
  {
    var s := At(cfg, start, es0);
    ReachableInv(cfg, start, es0);
    RunKeepsCrew(Initial(cfg, start), es0);
    if AllGone(s) {
      forall es | Legal(s, es) && Undisturbed(es, k)
        ensures k in Run(s, es).records && Run(s, es).records[k] == s.records[k]
        ensures Calls(Run(s, es), k) == Calls(s, k)
      {
        GoneIsFinal(s, es, k);
      }
    } else if NoCopy(s, k) {
      forall es | Legal(s, es) && Undisturbed(es, k)
        ensures k in Run(s, es).records && Run(s, es).records[k] == s.records[k]
        ensures Calls(Run(s, es), k) == Calls(s, k)
      {
        QuietTerminalIsFinal(s, es, k);
      }
    } else {
      CopyIsNotFinal(s, k);
    }
  }
}
