/** MaxAttempts does not bound the POSTs: a job that is listed twice is posted once
    more than it is counted. */
module WebhookExcess {
  import opened MemStore
  import opened WebhookModel
  import opened WebhookSafety
  import opened WebhookTheorems
  import opened WebhookFinality
  import opened WebhookSteering

  /** The rest of a listing goes to the channel, or is dropped. */
  lemma {:induction false} SendRest(s: State) returns (es: seq<Event>, s': State)
    requires Inv(s)
    ensures Legal(s, es) && AllHarmless(es) && Run(s, es) == s' && Inv(s')
    ensures s' == s.(sweep := [], queue := s'.queue)
    decreases |s.sweep|
  {
    if s.sweep == [] {
      es, s' := [], s;
    } else {
      StepKeepsInv(s, SweepSend);
      var rest;
      rest, s' := SendRest(Next(s, SweepSend));
      OneStep(s, SweepSend);
      RunAppend(s, [SweepSend], rest);
      es := [SweepSend] + rest;
    }
  }

  /** The worker holds one copy of the record, and the sweeper another at place i. */
  ghost predicate HeldAndListed(s: State, w: nat, k: Key, i: nat) {
    && Inv(s) && s.cfg.workers > 0 && w < |s.workers| && k in s.records && s.records[k].status.Open()
    && s.workers[w] == Attempting(s.records[k]) && i < |s.sweep| && s.sweep[i] == s.records[k]
  }

  /** The record is listed again while a worker holds it. */
  lemma ListAgain(s: State, w: nat, k: Key) returns (es: seq<Event>, s': State, i: nat)
    requires Ready(s, w) && Uncrowded(s, k)
    ensures Legal(s, es) && AllHarmless(es) && Run(s, es) == s' && HeldAndListed(s', w, k, i)
    ensures s' == s.(now := s'.now, queue := s'.queue, sweep := s'.sweep,
                     workers := s.workers[w := Attempting(s.records[k])])
  {
    var a := PickUp(s, w, k);
    var s1 := Run(s, a);
    var b, s2 := SendRest(s1);
    var due;
    due, i := CanBeSwept(s2, k);
    StepKeepsInv(s2, SweepList(due));
    OneStep(s2, SweepList(due));
    RunAppend(s, a, b);
    RunAppend(s, a + b, [SweepList(due)]);
    es, s' := a + b + [SweepList(due)], Next(s2, SweepList(due));
  }

  /** The first copy is posted and written; the worker then takes the second, which
      still has the old count. */
  lemma PostFirst(s: State, w: nat, k: Key, i: nat, o: Outcome) returns (es: seq<Event>, s': State)
    requires HeldAndListed(s, w, k, i)
    ensures Legal(s, es) && Steered(s, es, {}) && Run(s, es) == s' && Inv(s') && s'.cfg == s.cfg
    ensures w < |s'.workers| && s'.workers[w] == Attempting(s.records[k])
    ensures k in s'.records && Calls(s', k) == Calls(s, k) + [o]
  {
    var post := [Post(w, o, 0.0), Commit(w)];
    assert KeyOf(s.records[k]) == k;
    PostAndWrite(s, w, o);
    PostIsSteered(s, w, o, {});
    var s1 := Run(s, post);
    var a := Drain(s1, w);
    var b := Bring(s1.(queue := []), w, i);
    RunAppend(s1, a, b);
    RunKeepsInv(s1, a + b);
    HarmlessIsSteered(s1, a + b, {});
    SteeredAppend(s, post, a + b, {});
    es, s' := post + (a + b), Run(s1, a + b);
  }

  /** A held copy is posted and written, and the worker is ready again. */
  lemma PostLast(s: State, w: nat, o: Outcome) returns (es: seq<Event>, s': State)
    requires Inv(s) && s.cfg.workers > 0 && w < |s.workers| && s.workers[w].Attempting?
    ensures Legal(s, es) && Steered(s, es, {}) && Run(s, es) == s' && Ready(s', w) && s'.cfg == s.cfg
    ensures var j := s.workers[w].job;
      && KeyOf(j) in s'.records && Progressed(s'.records[KeyOf(j)], j, o)
      && Calls(s', KeyOf(j)) == Calls(s, KeyOf(j)) + [o]
  {
    var post := [Post(w, o, 0.0), Commit(w)];
    PostAndWrite(s, w, o);
    PostIsSteered(s, w, o, {});
    var s1 := Run(s, post);
    var c := Flush(s1, w);
    HarmlessIsSteered(s1, c, {});
    SteeredAppend(s, post, c, {});
    es, s' := post + c, Run(s1, c);
  }

  /** Both copies are posted, the second with the count of the first. */
  lemma PostBoth(s: State, w: nat, k: Key, i: nat, o: Outcome) returns (es: seq<Event>, s': State)
    requires HeldAndListed(s, w, k, i)
    ensures Legal(s, es) && Steered(s, es, {}) && Run(s, es) == s' && Ready(s', w)
    ensures k in s'.records && s'.cfg == s.cfg && |Calls(s', k)| == |Calls(s, k)| + 2
    ensures Progressed(s'.records[k], s.records[k], o)
  {
    assert KeyOf(s.records[k]) == k;
    var a, s1 := PostFirst(s, w, k, i, o);
    var b;
    b, s' := PostLast(s1, w, o);
    SteeredAppend(s, a, b, {});
    es := a + b;
  }

  /** From here on the job is tried until its attempts are used up. */
  lemma {:induction false} Exhaust(s: State, w: nat, k: Key) returns (es: seq<Event>)
    requires Ready(s, w) && k in s.records && s.records[k].status.Open()
    ensures Legal(s, es) && Steered(s, es, {})
    ensures |Calls(Run(s, es), k)| >= |Calls(s, k)| + s.cfg.maxAttempts - s.records[k].attempts
    decreases s.cfg.maxAttempts - s.records[k].attempts
  {
    assert OpenBefore(s.records, k) * {} == {};
    var first, s1 := ClearTheWay(s, w, {}, k);
    var second, s2 := Try(s1, w, k, NetworkError(""), {});
    SteeredAppend(s, first, second, {});
    if s2.records[k].status.Open() {
      var rest := Exhaust(s2, w, k);
      SteeredAppend(s, first + second, rest, {});
      es := first + second + rest;
    } else {
      es := first + second;
    }
  }

  lemma ReadyExceeds(s: State, w: nat, k: Key) returns (es: seq<Event>)
    requires Ready(s, w) && k in s.records && s.records[k].status.Open()
    ensures Legal(s, es) && Steered(s, es, {}) && |Calls(Run(s, es), k)| > s.cfg.maxAttempts
  {
    assert OpenBefore(s.records, k) * {} == {};
    var a, s1 := ClearTheWay(s, w, {}, k);
    var b, s2, i := ListAgain(s1, w, k);
    HarmlessIsSteered(s1, b, {});
    var c, s3 := PostBoth(s2, w, k, i, NetworkError(""));
    SteeredAppend(s, a, b, {});
    SteeredAppend(s, a + b, c, {});
    es := a + b + c;
    if s3.records[k].status.Open() {
      var d := Exhaust(s3, w, k);
      SteeredAppend(s, es, d, {});
      es := es + d;
    }
  }

  /** The worker is at work or free, and not about to close the record. */
  ghost predicate Usable(s: State, w: nat, k: Key) {
    && w < |s.workers| && !s.workers[w].Gone?
    && (s.workers[w].Updating? && KeyOf(s.workers[w].job) == k ==> s.workers[w].job.status.Open())
  }

  ghost predicate FreeAndOpen(s: State, s': State, w: nat, k: Key) {
    Free(s', w) && k in s'.records && s'.records[k].status.Open() && s'.cfg == s.cfg
  }

  lemma CommitKeepsOpen(s: State, w: nat, k: Key)
    requires Inv(s) && k in s.records && s.records[k].status.Open() && Usable(s, w, k) && s.workers[w].Updating?
    ensures Enabled(s, Commit(w)) && FreeAndOpen(s, Next(s, Commit(w)), w, k)
  {
    StepKeepsInv(s, Commit(w));
  }

  lemma FetchKeepsOpen(s: State, w: nat, k: Key)
    requires Inv(s) && k in s.records && s.records[k].status.Open() && w < |s.workers| && s.workers[w].Attempting?
    ensures Enabled(s, FetchFails(w)) && FreeAndOpen(s, Next(s, FetchFails(w)), w, k)
  {
    assert WorkerOk(s, s.workers[w]);
    StepKeepsInv(s, FetchFails(w));
  }

  /** It becomes free, and the record stays open. */
  lemma FreeUsable(s: State, w: nat, k: Key) returns (es: seq<Event>)
    requires Inv(s) && k in s.records && s.records[k].status.Open() && Usable(s, w, k)
    ensures Legal(s, es) && Calm(es) && FreeAndOpen(s, Run(s, es), w, k)
  {
    if s.workers[w].Idle? {
      es := [];
    } else if s.workers[w].Attempting? {
      FetchKeepsOpen(s, w, k);
      OneStep(s, FetchFails(w));
      es := [FetchFails(w)];
    } else {
      CommitKeepsOpen(s, w, k);
      OneStep(s, Commit(w));
      es := [Commit(w)];
    }
  }

  lemma FreeExceeds(s: State, w: nat, k: Key) returns (es: seq<Event>)
    requires Free(s, w) && s.cfg.workers > 0 && k in s.records && s.records[k].status.Open()
    ensures Legal(s, es) && Calm(es) && |Calls(Run(s, es), k)| > s.cfg.maxAttempts
  {
    var a := Flush(s, w);
    var s1 := s.(queue := [], sweep := []);
    var b := ReadyExceeds(s1, w, k);
    SteeredIsCalm(s1, b, {}, k);
    RunAppend(s, a, b);
    es := a + b;
  }

  /** MaxAttempts bounds the POSTs of no open job: from every reachable state with a
      usable worker, some run without a crash and without any further event posts it
      more often. */
  lemma MorePostsThanAllowed(cfg: Config, start: int, es0: seq<Event>, k: Key, w: nat) returns (es: seq<Event>)
    requires Reachable(cfg, start, es0)
    requires var s := At(cfg, start, es0); k in s.records && s.records[k].status.Open() && Usable(s, w, k)
    ensures Legal(At(cfg, start, es0), es) && Calm(es)
    ensures |Calls(Run(At(cfg, start, es0), es), k)| > cfg.maxAttempts
  {
    var s := At(cfg, start, es0);
    ReachableInv(cfg, start, es0);
    RunKeepsCrew(Initial(cfg, start), es0);
    var a := FreeUsable(s, w, k);
    var b := FreeExceeds(Run(s, a), w, k);
    RunAppend(s, a, b);
    es := a + b;
  }
}
