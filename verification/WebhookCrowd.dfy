/** Starvation is reached from start-up, with any number of workers. */
module WebhookCrowd {
  import opened MemStore
  import opened WebhookModel
  import opened WebhookTheorems
  import opened WebhookFinality
  import opened WebhookStarvation

  /** As many different keys as are wanted, and one more. */
  function KeyNo(i: nat): Key {
    (seq(i, _ => 'x'), "r")
  }

  const LATER: Key := ("", "later")

  ghost function Keys(n: nat): set<Key> {
    if n == 0 then {} else Keys(n - 1) + {KeyNo(n)}
  }

  lemma {:induction false} KeysAreDifferent(n: nat)
    ensures |Keys(n)| == n && forall k :: k in Keys(n) ==> 1 <= |k.0| <= n && k.1 == "r"
  {
    if n == 0 {
    } else {
      KeysAreDifferent(n - 1);
      assert |KeyNo(n).0| == n;
    }
  }

  ghost function Arrivals(n: nat): seq<Event> {
    if n == 0 then [] else Arrivals(n - 1) + [Arrive(KeyNo(n), "url")]
  }

  /** n jobs have arrived, all at once. */
  ghost predicate Crowd(s: State, cfg: Config, start: int, n: nat) {
    && s.cfg == cfg && s.now == start && s.records.Keys == Keys(n)
    && (forall k :: k in s.records ==> s.records[k].status.Pending? && s.records[k].nextRetryAt == start)
  }

  lemma ArriveOne(s: State, cfg: Config, start: int, n: nat)
    requires Crowd(s, cfg, start, n)
    ensures Crowd(Next(s, Arrive(KeyNo(n + 1), "url")), cfg, start, n + 1)
  {
    var job := NewJob(s.cfg, s.now, KeyNo(n + 1), "url");
    assert KeyOf(job) == KeyNo(n + 1);
  }

  lemma {:induction false} CrowdArrives(cfg: Config, start: int, n: nat)
    ensures Legal(Initial(cfg, start), Arrivals(n)) && Crowd(Run(Initial(cfg, start), Arrivals(n)), cfg, start, n)
  {
    if n == 0 {
    } else {
      CrowdArrives(cfg, start, n - 1);
      var s := Run(Initial(cfg, start), Arrivals(n - 1));
      ArriveOne(s, cfg, start, n - 1);
      OneStep(s, Arrive(KeyNo(n), "url"));
      RunAppend(Initial(cfg, start), Arrivals(n - 1), [Arrive(KeyNo(n), "url")]);
    }
  }

  /** One job later, and a crash. */
  lemma LaterJob(s: State, cfg: Config, start: int, n: nat)
    requires Crowd(s, cfg, start, n) && cfg.workers > 0 && n >= Capacity(cfg)
    ensures var s1 := Next(s, Tick(1));
      var s2 := Next(s1, Arrive(LATER, "url"));
      var s3 := Next(s2, Crash);
      Blocked(s3, Keys(n), LATER) && NoCopy(s3, LATER) && Due(s3.records[LATER], s3.now)
  {
    KeysAreDifferent(n);
    assert LATER !in s.records;
    var s2 := Next(Next(s, Tick(1)), Arrive(LATER, "url"));
    assert s2.records[LATER].nextRetryAt == start + 1;
    var s3 := Next(s2, Crash);
    assert forall w :: 0 <= w < |s3.workers| ==> s3.workers[w].Idle?;
  }

  /** For every configuration with workers: workers * 10 events, one more a
      nanosecond later and a crash lead to a state in which that last job is due and
      starves for as long as the messages of the others cannot be fetched. */
  lemma StarvationIsReached(cfg: Config, start: int) returns (es: seq<Event>, stuck: set<Key>)
    requires cfg.workers > 0 && cfg.maxAttempts >= 1 && start > 0
    ensures Reachable(cfg, start, es)
    ensures var s := At(cfg, start, es);
      Blocked(s, stuck, LATER) && NoCopy(s, LATER) && LATER !in stuck && Due(s.records[LATER], s.now)
  {
    var n := Capacity(cfg);
    var s0 := Initial(cfg, start);
    CrowdArrives(cfg, start, n);
    var s := Run(s0, Arrivals(n));
    LaterJob(s, cfg, start, n);
    KeysAreDifferent(n);
    var more := [Tick(1), Arrive(LATER, "url")];
    TwoSteps(s, more[0], more[1]);
    OneStep(Run(s, more), Crash);
    RunAppend(s, more, [Crash]);
    RunAppend(s0, Arrivals(n), more + [Crash]);
    es, stuck := Arrivals(n) + (more + [Crash]), Keys(n);
  }
}
