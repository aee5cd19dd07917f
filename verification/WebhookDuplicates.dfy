/** Why the single-copy hypothesis is needed: without a crash and with one event,
    the sweeper can list a job that is still queued, and then two workers post it. */
module WebhookDuplicates {
  import opened Common
  import opened MemStore
  import opened WebhookModel
  import opened WebhookTheorems
  import opened WebhookFinality

  const KEY: Key := ("m", "r")

  function Fresh(): DeliveryJob {
    DeliveryJob("m", "r", "url", Pending, 0, 1, NoError, 1, None, 1, 0)
  }

  function Stored(): DeliveryJob {
    Fresh().(updatedAt := 1)
  }

  /** Event and sweep: the channel holds two copies of one record. */
  function TwoQueued(): State {
    State(Config(2, 1), 1, map[KEY := Stored()], [], [Fresh(), Stored()], [], [Idle, Idle], false, map[], map[])
  }

  /** The first worker has posted and written its 200. */
  function FirstDelivered(): State {
    var j := Stored().(status := Delivered, attempts := 1, deliveredAt := Some(1));
    State(Config(2, 1), 1, map[KEY := j], [], [], [], [Idle, Attempting(Stored())], false,
          map[KEY := [Response(200)]], map[KEY := 1])
  }

  function OneQueued(): State {
    State(Config(2, 1), 1, map[KEY := Stored()], [], [Fresh()], [], [Idle, Idle], false, map[], map[])
  }

  lemma EventQueuesOne()
    ensures var s0 := Initial(Config(2, 1), 1);
      && Enabled(s0, Arrive(KEY, "url")) && Enabled(Next(s0, Arrive(KEY, "url")), HandlerSend(0))
      && Next(Next(s0, Arrive(KEY, "url")), HandlerSend(0)) == OneQueued()
  {
    var s0 := Initial(Config(2, 1), 1);
    assert s0.workers == [Idle, Idle];
    var s1 := Next(s0, Arrive(KEY, "url"));
    assert s1.handlers == [Fresh()];
    var s2 := Next(s1, HandlerSend(0));
    assert s2.queue == [Fresh()] && s2.handlers == [];
  }

  lemma SweepListsIt()
    ensures Enabled(OneQueued(), SweepList([Stored()]))
  {
    var m, due := OneQueued().records, [Stored()];
    assert DueKeys(m, 1) == {KEY};
    assert KeyOf(due[0]) == KEY && Listed(due, KEY);
  }

  lemma SweepQueuesTwo(s: State)
    requires s == OneQueued()
    ensures Enabled(s, SweepList([Stored()])) && Enabled(Next(s, SweepList([Stored()])), SweepSend)
    ensures Next(Next(s, SweepList([Stored()])), SweepSend) == TwoQueued()
  {
    SweepListsIt();
    var s1 := Next(s, SweepList([Stored()]));
    var s2 := Next(s1, SweepSend);
    assert s2.queue == [Fresh()] + [Stored()] == [Fresh(), Stored()] && s2.sweep == [];
  }

  lemma QueueTwo(s0: State, es: seq<Event>)
    requires s0 == Initial(Config(2, 1), 1)
    requires es == [Arrive(KEY, "url"), HandlerSend(0), SweepList([Stored()]), SweepSend]
    ensures Legal(s0, es) && Run(s0, es) == TwoQueued()
  {
    EventQueuesOne();
    SweepQueuesTwo(Next(Next(s0, es[0]), es[1]));
    Chain4(s0, es[0], es[1], es[2], es[3]);
    assert es == [es[0], es[1], es[2], es[3]];
  }

  lemma FirstWorkerDelivers() returns (es: seq<Event>)
    ensures Legal(TwoQueued(), es) && Run(TwoQueued(), es) == FirstDelivered()
    ensures forall i :: 0 <= i < |es| ==> !es[i].Crash? && !es[i].Arrive?
  {
    var s0 := TwoQueued();
    var e0, e1, e2, e3 := Take(0), Take(1), Post(0, Response(200), 0.5), Commit(0);
    var s1 := Next(s0, e0);
    assert s1.queue == [Stored()];
    var s2 := Next(s1, e1);
    assert s2.queue == [] && s2.workers == [Attempting(Fresh()), Attempting(Stored())];
    FirstPostAndWrite(s2);
    es := [e0, e1, e2, e3];
    Chain4(s0, e0, e1, e2, e3);
  }

  lemma FirstPostAndWrite(s: State)
    requires s == TwoQueued().(queue := [], workers := [Attempting(Fresh()), Attempting(Stored())])
    ensures Enabled(s, Post(0, Response(200), 0.5))
    ensures Enabled(Next(s, Post(0, Response(200), 0.5)), Commit(0))
    ensures Next(Next(s, Post(0, Response(200), 0.5)), Commit(0)) == FirstDelivered()
  {
    var s1 := Next(s, Post(0, Response(200), 0.5));
    assert Calls(s, KEY) + [Response(200)] == [Response(200)];
    var s2 := Next(s1, Commit(0));
    assert s2.workers == [Idle, Attempting(Stored())];
    assert s2.records[KEY] == FirstDelivered().records[KEY];
    assert s2.records == FirstDelivered().records && s2.calls == FirstDelivered().calls
        && s2.lastPost == FirstDelivered().lastPost;
  }

  /** The second worker has posted and written its 500. */
  function ThenDead(): State {
    var j := Stored().(status := Dead, attempts := 1, lastError := HttpStatus(500));
    State(Config(2, 1), 1, map[KEY := j], [], [], [], [Idle, Idle], false,
          map[KEY := [Response(200), Response(500)]], map[KEY := 1])
  }

  lemma SecondPostAndWrite(s: State)
    requires s == FirstDelivered()
    ensures Enabled(s, Post(1, Response(500), 0.5))
    ensures Enabled(Next(s, Post(1, Response(500), 0.5)), Commit(1))
    ensures Next(Next(s, Post(1, Response(500), 0.5)), Commit(1)) == ThenDead()
  {
    var s1 := Next(s, Post(1, Response(500), 0.5));
    assert Calls(s, KEY) + [Response(500)] == [Response(200), Response(500)];
    assert s1.workers[1].job == Stored().(status := Dead, attempts := 1, lastError := HttpStatus(500));
    var s2 := Next(s1, Commit(1));
    assert s2.workers == [Idle, Idle];
    assert s2.records[KEY] == ThenDead().records[KEY];
    assert s2.records == ThenDead().records && s2.calls == ThenDead().calls && s2.lastPost == ThenDead().lastPost;
  }

  /** One run from start-up, with one event and no crash: the record is delivered
      and later overwritten as dead, after two POSTs although MaxAttempts is one.
      Delivered is not absorbing, and MaxAttempts does not bound the POSTs. */
  lemma DuplicateOverwritesDelivered() returns (first: seq<Event>, second: seq<Event>)
    ensures Reachable(Config(2, 1), 1, first) && Reachable(Config(2, 1), 1, first + second)
    ensures first != [] && first[0] == Arrive(KEY, "url")
    ensures forall i :: 0 < i < |first + second| ==> !(first + second)[i].Crash? && !(first + second)[i].Arrive?
    ensures var s := At(Config(2, 1), 1, first); KEY in s.records && s.records[KEY].status == Delivered
    ensures var s := At(Config(2, 1), 1, first + second);
      KEY in s.records && s.records[KEY].status == Dead && |Calls(s, KEY)| == 2
  {
    var s0 := Initial(Config(2, 1), 1);
    var queue2 := [Arrive(KEY, "url"), HandlerSend(0), SweepList([Stored()]), SweepSend];
    QueueTwo(s0, queue2);
    var deliver := FirstWorkerDelivers();
    RunAppend(s0, queue2, deliver);
    first, second := queue2 + deliver, [Post(1, Response(500), 0.5), Commit(1)];
    SecondPostAndWrite(FirstDelivered());
    TwoSteps(FirstDelivered(), second[0], second[1]);
    assert second == [second[0], second[1]];
    RunAppend(s0, first, second);
    assert Run(s0, first + second) == ThenDead();
  }

  lemma Chain4(s0: State, e0: Event, e1: Event, e2: Event, e3: Event)
    requires Enabled(s0, e0) && Enabled(Next(s0, e0), e1) && Enabled(Next(Next(s0, e0), e1), e2)
    requires Enabled(Next(Next(Next(s0, e0), e1), e2), e3)
    ensures Legal(s0, [e0, e1, e2, e3])
    ensures Run(s0, [e0, e1, e2, e3]) == Next(Next(Next(Next(s0, e0), e1), e2), e3)
  {
    TwoSteps(s0, e0, e1);
    TwoSteps(Next(Next(s0, e0), e1), e2, e3);
    RunAppend(s0, [e0, e1], [e2, e3]);
    assert [e0, e1] + [e2, e3] == [e0, e1, e2, e3];
  }
}
