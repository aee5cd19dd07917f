/** What the webhook dispatcher promises about delivery records, over every run:
    duplicate and stale copies, repeated events and crashes included. */
module WebhookTheorems {
  import opened MemStore
  import opened WebhookModel
  import opened WebhookSafety

  ghost predicate Reachable(cfg: Config, start: int, es: seq<Event>) {
    cfg.maxAttempts >= 1 && start > 0 && Legal(Initial(cfg, start), es)
  }

  ghost function At(cfg: Config, start: int, es: seq<Event>): State
    requires Reachable(cfg, start, es)
  {
    Run(Initial(cfg, start), es)
  }

  lemma ReachableInv(cfg: Config, start: int, es: seq<Event>)
    requires Reachable(cfg, start, es)
    ensures Inv(At(cfg, start, es)) && At(cfg, start, es).cfg == cfg
  {
    InitialInv(cfg, start);
    RunKeepsInv(Initial(cfg, start), es);
    RunKeepsConfig(Initial(cfg, start), es);
  }

  lemma {:induction false} RunKeepsConfig(s: State, es: seq<Event>)
    requires Legal(s, es)
    ensures Run(s, es).cfg == s.cfg
    decreases |es|
  {
    if es == [] {
    } else {
      RunKeepsConfig(Next(s, es[0]), es[1..]);
    }
  }

  lemma {:induction false} RunAppend(s: State, a: seq<Event>, b: seq<Event>)
    requires Legal(s, a) && Legal(Run(s, a), b)
    ensures Legal(s, a + b) && Run(s, a + b) == Run(Run(s, a), b)
    decreases |a|
  {
    if a == [] {
      assert a + b == b;
    } else {
      RunAppend(Next(s, a[0]), a[1..], b);
      assert (a + b)[1..] == a[1..] + b;
    }
  }

  /** The dispatcher never gives up early and never claims a delivery it did not
      see: a dead record had a permanent response or at least MaxAttempts POSTs,
      a delivered one had a 2xx, and no record counts more attempts than POSTs. */
  lemma NeverGivesUpEarly(cfg: Config, start: int, es: seq<Event>, k: Key)
    requires Reachable(cfg, start, es) && k in At(cfg, start, es).records
    ensures var s := At(cfg, start, es);
      var j := s.records[k];
      && 0 <= j.attempts <= cfg.maxAttempts && j.attempts <= |Calls(s, k)|
      && (j.status.Dead? && !SawPermanent(Calls(s, k)) ==> |Calls(s, k)| >= cfg.maxAttempts)
      && (j.status.Delivered? ==> SawSuccess(Calls(s, k)))
      && (j.status.Delivered? <==> j.deliveredAt.Some?)
      && (j.status.Delivered? ==> j.lastError == NoError)
      && (j.status.Open() ==> j.attempts < cfg.maxAttempts)
  {
    ReachableInv(cfg, start, es);
  }

  /** The same of every copy about to be posted, wherever it waits; and a worker
      that writes back always finds its record. */
  lemma CopiesNeverOverclaim(cfg: Config, start: int, es: seq<Event>, j: DeliveryJob)
    requires Reachable(cfg, start, es)
    requires var s := At(cfg, start, es);
      || j in s.handlers || j in s.queue || j in s.sweep
      || exists w :: 0 <= w < |s.workers| && s.workers[w].HasJob() && s.workers[w].job == j
    ensures var s := At(cfg, start, es);
      && KeyOf(j) in s.records
      && j.maxAttempts == cfg.maxAttempts && 0 <= j.attempts <= cfg.maxAttempts
      && j.attempts <= |Calls(s, KeyOf(j))|
      && (j.status.Open() ==> j.attempts < cfg.maxAttempts)
      && (j.status.Delivered? <==> j.deliveredAt.Some?)
      && (j.status.Delivered? ==> j.lastError == NoError && SawSuccess(Calls(s, KeyOf(j))))
      && (j.status.Dead? && !SawPermanent(Calls(s, KeyOf(j))) ==> |Calls(s, KeyOf(j))| >= cfg.maxAttempts)
  {
    ReachableInv(cfg, start, es);
    var s := At(cfg, start, es);
    if j in s.handlers {
      var i :| 0 <= i < |s.handlers| && s.handlers[i] == j;
      assert CopyOk(s, s.handlers[i]);
    } else if j in s.queue {
      var i :| 0 <= i < |s.queue| && s.queue[i] == j;
      assert CopyOk(s, s.queue[i]);
    } else if j in s.sweep {
      var i :| 0 <= i < |s.sweep| && s.sweep[i] == j;
      assert CopyOk(s, s.sweep[i]);
    } else {
      var w :| 0 <= w < |s.workers| && s.workers[w].HasJob() && s.workers[w].job == j;
      assert WorkerOk(s, s.workers[w]);
    }
  }

  /** No POST is early: whatever copy a worker posts, its own retry time has
      come. */
  lemma PostsAreOnSchedule(cfg: Config, start: int, es: seq<Event>, w: nat, o: Outcome, u: real)
    requires Reachable(cfg, start, es) && Enabled(At(cfg, start, es), Post(w, o, u))
    ensures var s := At(cfg, start, es); s.workers[w].job.nextRetryAt <= s.now && s.workers[w].job.status.Open()
  {
    ReachableInv(cfg, start, es);
    assert WorkerOk(At(cfg, start, es), At(cfg, start, es).workers[w]);
  }

  // ---- Records persist ----

  /** What an update may not touch. */
  ghost predicate SameIdentity(a: DeliveryJob, b: DeliveryJob) {
    && a.messageId == b.messageId && a.recipientId == b.recipientId
    && a.endpoint == b.endpoint && a.maxAttempts == b.maxAttempts && a.createdAt == b.createdAt
  }

  /** An accepted key's record outlives crashes, and keeps its endpoint, limit
      and creation time for ever. */
  lemma {:induction false} RecordsPersist(s: State, es: seq<Event>, k: Key)
    requires Inv(s) && Legal(s, es) && k in s.records
    ensures k in Run(s, es).records && SameIdentity(s.records[k], Run(s, es).records[k])
    decreases |es|
  {
    if es == [] {
    } else {
      StepKeepsInv(s, es[0]);
      IdentityStays(s, es[0], k);
      RecordsPersist(Next(s, es[0]), es[1..], k);
    }
  }

  lemma IdentityStays(s: State, e: Event, k: Key)
    requires Enabled(s, e) && k in s.records
    ensures k in Next(s, e).records && SameIdentity(s.records[k], Next(s, e).records[k])
  {
  }

  lemma OnlyCommitWrites(s: State, e: Event, k: Key)
    requires Enabled(s, e) && k in s.records
    ensures k in Next(s, e).records
    ensures Next(s, e).records[k] == s.records[k] || (e.Commit? && KeyOf(s.workers[e.w].job) == k)
  {
  }

  /** A record leaves pending/failed only by the write of an attempt that had a
      reason: a 2xx, a permanent status, or MaxAttempts POSTs. */
  lemma OpenEndsWithEvidence(s: State, e: Event, k: Key)
    requires Inv(s) && Enabled(s, e) && k in s.records && s.records[k].status.Open()
    requires k in Next(s, e).records && !Next(s, e).records[k].status.Open()
    ensures e.Commit? && s.workers[e.w].Updating? && KeyOf(s.workers[e.w].job) == k
    ensures var j, calls := Next(s, e).records[k], Calls(s, k);
      if j.status.Delivered? then SawSuccess(calls)
      else SawPermanent(calls) || |calls| >= s.cfg.maxAttempts
  {
    OnlyCommitWrites(s, e, k);
    assert WorkerOk(s, s.workers[e.w]);
  }

  /** Nothing due is lost in a crash: when its time has come, the next sweep
      lists it, unless the sweep is already full of jobs due no later. */
  lemma SweeperRecoversAfterCrash(s: State, wait: nat, due: seq<DeliveryJob>, k: Key)
    requires Inv(s) && k in s.records && s.records[k].status.Open()
    requires s.now + wait >= s.records[k].nextRetryAt
    requires var s1 := Next(s, Crash); var s2 := Next(s1, Tick(wait)); Enabled(s2, SweepList(due))
    ensures Listed(due, k)
         || (|due| == Capacity(s.cfg)
             && forall i :: 0 <= i < |due| ==> due[i].nextRetryAt <= s.records[k].nextRetryAt)
  {
    DueIsListed(s.records, s.now + wait, s.cfg.workers * 10, due, k);
  }

  // ---- When terminal states are final ----

  ghost predicate NoCopyIn(js: seq<DeliveryJob>, k: Key) {
    forall i :: 0 <= i < |js| ==> KeyOf(js[i]) != k
  }

  ghost predicate NoCopy(s: State, k: Key) {
    && NoCopyIn(s.handlers, k) && NoCopyIn(s.queue, k) && NoCopyIn(s.sweep, k)
    && (forall w :: 0 <= w < |s.workers| && s.workers[w].HasJob() ==> KeyOf(s.workers[w].job) != k)
  }

  lemma QuietListing(s: State, due: seq<DeliveryJob>, k: Key)
    requires k in s.records && !s.records[k].status.Open() && Enabled(s, SweepList(due))
    ensures NoCopyIn(due, k)
  {
    forall i | 0 <= i < |due|
      ensures KeyOf(due[i]) != k
    {
      assert Due(s.records[KeyOf(due[i])], s.now);
    }
  }

  lemma QuietMove(s: State, e: Event, k: Key)
    requires Enabled(s, e) && NoCopy(s, k) && (e.HandlerSend? || e.SweepSend? || e.Take?)
    ensures NoCopy(Next(s, e), k) && Calls(Next(s, e), k) == Calls(s, k)
  {
    var s' := Next(s, e);
    assert NoCopyIn(s'.handlers, k) && NoCopyIn(s'.queue, k) && NoCopyIn(s'.sweep, k);
  }

  lemma QuietWork(s: State, e: Event, k: Key)
    requires Enabled(s, e) && NoCopy(s, k) && (e.FetchFails? || e.BuildFails? || e.Post? || e.Commit? || e.Leave?)
    ensures NoCopy(Next(s, e), k) && Calls(Next(s, e), k) == Calls(s, k)
  {
  }

  /** Without a copy, an event or a listing of k, no copy of it appears and nothing
      is posted. */
  lemma NoCopyAppears(s: State, e: Event, k: Key)
    requires Enabled(s, e) && NoCopy(s, k) && !(e.Arrive? && e.key == k) && (e.SweepList? ==> NoCopyIn(e.due, k))
    ensures NoCopy(Next(s, e), k) && Calls(Next(s, e), k) == Calls(s, k)
  {
    if e.HandlerSend? || e.SweepSend? || e.Take? {
      QuietMove(s, e, k);
    } else if e.FetchFails? || e.BuildFails? || e.Post? || e.Commit? || e.Leave? {
      QuietWork(s, e, k);
    }
  }

  lemma QuietStep(s: State, e: Event, k: Key)
    requires Enabled(s, e) && k in s.records && !s.records[k].status.Open() && NoCopy(s, k)
    requires !(e.Arrive? && e.key == k)
    ensures k in Next(s, e).records && Next(s, e).records[k] == s.records[k]
    ensures NoCopy(Next(s, e), k) && Calls(Next(s, e), k) == Calls(s, k)
  {
    OnlyCommitWrites(s, e, k);
    if e.SweepList? {
      QuietListing(s, e.due, k);
    }
    NoCopyAppears(s, e, k);
  }

  /** A terminal record with no copy left, and no repeated event for its key,
      never changes again and is never posted again. */
  lemma {:induction false} QuietTerminalIsFinal(s: State, es: seq<Event>, k: Key)
    requires Inv(s) && Legal(s, es) && k in s.records && !s.records[k].status.Open() && NoCopy(s, k)
    requires forall i :: 0 <= i < |es| ==> !(es[i].Arrive? && es[i].key == k)
    ensures k in Run(s, es).records && Run(s, es).records[k] == s.records[k]
    ensures Calls(Run(s, es), k) == Calls(s, k)
    decreases |es|
  {
    if es == [] {
    } else {
      StepKeepsInv(s, es[0]);
      QuietStep(s, es[0], k);
      assert forall i :: 0 <= i < |es[1..]| ==> es[1..][i] == es[i + 1];
      QuietTerminalIsFinal(Next(s, es[0]), es[1..], k);
    }
  }
}
