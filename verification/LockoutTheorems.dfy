/** What the lockout guarantees about real time, whatever the evictor does. */
module LockoutTheorems {
  import opened Lockout

  // ---- The lock holds in full ----

  lemma {:induction false} ChainCovers(ttl: int, f: seq<int>, n: nat)
    requires 1 <= n <= |f|
    requires forall i :: |f| - n < i < |f| ==> f[i] - f[i - 1] <= ttl
    ensures Chain(ttl, f) >= n
  {
    if n == 1 {
    } else {
      var f' := f[..|f| - 1];
      assert f[|f| - 1] - f[|f| - 2] <= ttl;
      assert forall i :: |f'| - (n - 1) < i < |f'| ==> f'[i] - f'[i - 1] == f[i] - f[i - 1];
      ChainCovers(ttl, f', n - 1);
    }
  }

  lemma TailStillLocks(cfg: Config, f: seq<int>, p: seq<int>, t: int)
    requires cfg.max >= 1 && EpochIsTail(cfg, f, p, t) && |f| < TWO31
    requires Chain(cfg.ttl, f) >= cfg.max && t < Last(f) + cfg.lockout
    ensures |p| >= cfg.max && Last(p) == Last(f)
  {
  }

  /** If each of the last `max` failures came within the idle time of the one
      before, the IP is locked for the whole lockout time: no eviction, before or
      after, can cut it short, although evictions see whole seconds only. */
  lemma LockHoldsInFull(cfg: Config, es: seq<Event>, ip: string, t: int)
    requires cfg.max >= 1 && Timed(es) && After(es, t) && |FailTimes(es, ip)| < TWO31
    requires var f := FailTimes(es, ip);
      && |f| >= cfg.max
      && (forall i :: |f| - cfg.max < i < |f| ==> f[i] - f[i - 1] <= cfg.ttl)
      && t < Last(f) + cfg.lockout
    ensures IsLocked(cfg, Run(cfg, es), ip, t)
  {
    var f, p := FailTimes(es, ip), Epoch(cfg, es, ip);
    ChainCovers(cfg.ttl, f, cfg.max);
    EpochsAreTails(cfg, es, ip, t);
    TailStillLocks(cfg, f, p, t);
    LockoutMeansHistory(cfg, es, ip, t);
  }

  /** While the IP itself does not fail again, evictions and the failures of others
      change no answer about it. */
  lemma {:induction false} OnlyOwnFailuresMatter(cfg: Config, es: seq<Event>, tail: seq<Event>, ip: string, t: int)
    requires Timed(es + tail) && After(es + tail, t)
    requires forall i :: 0 <= i < |tail| ==> !(tail[i].Failure? && tail[i].ip == ip)
    ensures IsLocked(cfg, Run(cfg, es + tail), ip, t) <==> IsLocked(cfg, Run(cfg, es), ip, t)
  {
    if tail == [] {
      assert es + tail == es;
    } else {
      var all := es + tail;
      var tail', e := tail[..|tail| - 1], tail[|tail| - 1];
      assert all[..|all| - 1] == es + tail' && all[|all| - 1] == e;
      TimedPrefix(all);
      OnlyOwnFailuresMatter(cfg, es, tail', ip, t);
      if e.Eviction? {
        EvictionIsInvisible(cfg, Run(cfg, es + tail'), e.at, ip, t);
      }
    }
  }

  // ---- What an eviction changes ----

  ghost predicate NoEviction(es: seq<Event>) {
    forall i :: 0 <= i < |es| ==> !es[i].Eviction?
  }

  lemma RunStep(cfg: Config, es: seq<Event>, e: Event, ip: string)
    ensures Epoch(cfg, es + [e], ip) == EpochStep(cfg, Epoch(cfg, es, ip), e, ip)
    ensures FailTimes(es + [e], ip) == FailStep(FailTimes(es, ip), e, ip)
  {
    assert (es + [e])[..|es|] == es;
  }

  lemma SplitTail(es: seq<Event>, tail: seq<Event>)
    requires tail != []
    ensures es + tail == (es + tail[..|tail| - 1]) + [tail[|tail| - 1]]
    ensures tail == tail[..|tail| - 1] + [tail[|tail| - 1]]
  {
  }

  /** Between evictions an epoch grows by the IP's failures. */
  lemma {:induction false} EpochGrowsByTail(cfg: Config, es: seq<Event>, tail: seq<Event>, ip: string)
    requires NoEviction(tail)
    ensures Epoch(cfg, es + tail, ip) == Epoch(cfg, es, ip) + FailTimes(tail, ip)
  {
    if tail == [] {
      assert es + tail == es;
    } else {
      var init, e := tail[..|tail| - 1], tail[|tail| - 1];
      SplitTail(es, tail);
      EpochGrowsByTail(cfg, es, init, ip);
      RunStep(cfg, es + init, e, ip);
      RunStep(cfg, init, e, ip);
    }
  }

  lemma TimedWithout(es: seq<Event>, e: Event, tail: seq<Event>, t: int)
    requires Timed(es + [e] + tail) && After(es + [e] + tail, t)
    ensures Timed(es + [e]) && After(es + [e], t) && e.at > 0 && After(es, e.at) && Timed(es)
    ensures Timed(es + tail) && After(es + tail, t) && forall i :: 0 <= i < |tail| ==> tail[i].at > 0
  {
    var all, less := es + [e] + tail, es + tail;
    assert all[|es|] == e;
    assert forall i :: 0 <= i < |es| ==> all[i] == es[i];
    assert forall i :: 0 <= i < |tail| ==> all[|es| + 1 + i] == tail[i];
    assert forall i :: 0 <= i < |less| ==> less[i] == all[if i < |es| then i else i + 1];
    forall i, j | 0 <= i < j < |less|
      ensures less[i].at <= less[j].at
    {
      var i', j' := if i < |es| then i else i + 1, if j < |es| then j else j + 1;
      assert all[i'].at <= all[j'].at;
    }
    forall i, j | 0 <= i < j < |es + [e]|
      ensures (es + [e])[i].at <= (es + [e])[j].at
    {
      assert all[i].at <= all[j].at;
    }
  }

  /** The two epochs of a history with and without an eviction, when no other
      follows. */
  lemma EpochsWithAndWithout(cfg: Config, es: seq<Event>, at: int, tail: seq<Event>, ip: string)
    requires NoEviction(tail)
    ensures var p, g := Epoch(cfg, es, ip), FailTimes(tail, ip);
      && Epoch(cfg, es + tail, ip) == p + g
      && Epoch(cfg, es + [Eviction(at)] + tail, ip) == (if Dropped(cfg, p, at) then [] else p) + g
  {
    EpochGrowsByTail(cfg, es, tail, ip);
    EpochGrowsByTail(cfg, es + [Eviction(at)], tail, ip);
    RunStep(cfg, es, Eviction(at), ip);
  }

  /** What the epochs p + g and g stand for, when the eviction dropped p. */
  lemma DroppedMatters(cfg: Config, p: seq<int>, g: seq<int>, at: int, t: int)
    requires cfg.max >= 1 && Dropped(cfg, p, at) && at <= t && |p| < TWO31
    ensures (|p + g| >= cfg.max && t < Last(p + g) + cfg.lockout) != (|g| >= cfg.max && t < Last(g) + cfg.lockout)
       <==> 1 <= |g| < cfg.max <= |p| + |g| && t < Last(g) + cfg.lockout
  {
    LockUntilUnwrapped(cfg, p);
    assert g == [] ==> p + g == p;
    assert g != [] ==> Last(p + g) == Last(g);
  }

  /** Exactly when it matters that the evictor ran: it dropped the entry, the IP
      failed again, and it needs the dropped failures to reach the maximum. Then the
      same failures lock without the eviction and do not with it. */
  lemma EvictionMattersIff(cfg: Config, es: seq<Event>, at: int, tail: seq<Event>, ip: string, t: int)
    requires cfg.max >= 1 && NoEviction(tail) && Timed(es + [Eviction(at)] + tail)
    requires After(es + [Eviction(at)] + tail, t) && |Epoch(cfg, es, ip)| + |FailTimes(tail, ip)| < TWO31
    ensures var p, g := Epoch(cfg, es, ip), FailTimes(tail, ip);
      IsLocked(cfg, Run(cfg, es + [Eviction(at)] + tail), ip, t) != IsLocked(cfg, Run(cfg, es + tail), ip, t)
      <==> Dropped(cfg, p, at) && 1 <= |g| < cfg.max <= |p| + |g| && t < Last(g) + cfg.lockout
  {
    var p, g := Epoch(cfg, es, ip), FailTimes(tail, ip);
    TimedWithout(es, Eviction(at), tail, t);
    EpochsWithAndWithout(cfg, es, at, tail, ip);
    LockoutMeansHistory(cfg, es + tail, ip, t);
    LockoutMeansHistory(cfg, es + [Eviction(at)] + tail, ip, t);
    if Dropped(cfg, p, at) {
      assert [] + g == g;
      assert at <= t by { assert (es + [Eviction(at)] + tail)[|es|] == Eviction(at); }
      DroppedMatters(cfg, p, g, at, t);
    }
  }

  /** The same for the answer to the next failure. */
  lemma EvictionChangesAnswerIff(cfg: Config, es: seq<Event>, at: int, tail: seq<Event>, ip: string, t: int)
    requires cfg.max >= 1 && NoEviction(tail) && |Epoch(cfg, es, ip)| + |FailTimes(tail, ip)| + 1 < TWO31
    ensures var p, g := Epoch(cfg, es, ip), FailTimes(tail, ip);
      Recorded(cfg, Run(cfg, es + [Eviction(at)] + tail), ip, t).1 != Recorded(cfg, Run(cfg, es + tail), ip, t).1
      <==> Dropped(cfg, p, at) && |g| + 1 < cfg.max <= |p| + |g| + 1
  {
    EpochsWithAndWithout(cfg, es, at, tail, ip);
    MapMatchesEpochs(cfg, es + tail, ip);
    MapMatchesEpochs(cfg, es + [Eviction(at)] + tail, ip);
  }

  /** One such input: two failures 20 s apart lock an IP, unless the evictor ran in
      between. */
  lemma EvictorDecides()
    ensures var cfg := Config(2, 5 * SECOND, 10 * SECOND);
      var a, e, b := Failure("ip", SECOND), Eviction(20 * SECOND), Failure("ip", 21 * SECOND);
      && IsLocked(cfg, Run(cfg, [a] + [b]), "ip", 22 * SECOND)
      && !IsLocked(cfg, Run(cfg, [a] + [e] + [b]), "ip", 22 * SECOND)
  {
    var cfg := Config(2, 5 * SECOND, 10 * SECOND);
    var a, b := Failure("ip", SECOND), Failure("ip", 21 * SECOND);
    OneFailure(cfg, "ip", SECOND);
    OneFailure(cfg, "ip", 21 * SECOND);
    EpochGrowsByTail(cfg, [a], [b], "ip");
    LockoutMeansHistory(cfg, [a] + [b], "ip", 22 * SECOND);
    EvictionMattersIff(cfg, [a], 20 * SECOND, [b], "ip", 22 * SECOND);
  }

  lemma OneFailure(cfg: Config, ip: string, at: int)
    ensures Epoch(cfg, [Failure(ip, at)], ip) == [at] == FailTimes([Failure(ip, at)], ip)
    ensures cfg.max >= 2 ==> LockUntil(cfg, [at]) == 0
  {
    var e := Failure(ip, at);
    RunStep(cfg, [], e, ip);
    assert [] + [e] == [e];
    if cfg.max >= 2 {
      LockUntilUnwrapped(cfg, [at]);
    }
  }

  ghost predicate IsSuffix(r: seq<int>, q: seq<int>) {
    |r| <= |q| && r == q[|q| - |r|..]
  }

  lemma SuffixStep(cfg: Config, r: seq<int>, q: seq<int>, e: Event, ip: string)
    requires cfg.max >= 1 && IsSuffix(r, q) && |q| < TWO31 && e.at > 0
    ensures IsSuffix(EpochStep(cfg, r, e, ip), EpochStep(cfg, q, e, ip))
  {
    match e
    case Failure(who, at) =>
      assert r + [at] == (q + [at])[|q| - |r|..];
    case Eviction(at) =>
      LockUntilUnwrapped(cfg, r);
      LockUntilUnwrapped(cfg, q);
      assert r != [] ==> Last(r) == Last(q);
  }

  lemma {:induction false} EpochStaysSuffix(cfg: Config, with: seq<Event>, without: seq<Event>, tail: seq<Event>,
                                            ip: string)
    requires cfg.max >= 1 && IsSuffix(Epoch(cfg, with, ip), Epoch(cfg, without, ip))
    requires |Epoch(cfg, without, ip)| + |FailTimes(tail, ip)| < TWO31
    requires forall i :: 0 <= i < |tail| ==> tail[i].at > 0
    ensures IsSuffix(Epoch(cfg, with + tail, ip), Epoch(cfg, without + tail, ip))
    ensures |Epoch(cfg, without + tail, ip)| <= |Epoch(cfg, without, ip)| + |FailTimes(tail, ip)|
  {
    if tail == [] {
      assert with + tail == with && without + tail == without;
    } else {
      var init, e := tail[..|tail| - 1], tail[|tail| - 1];
      SplitTail(with, tail);
      SplitTail(without, tail);
      RunStep(cfg, init, e, ip);
      EpochStaysSuffix(cfg, with, without, init, ip);
      RunStep(cfg, with + init, e, ip);
      RunStep(cfg, without + init, e, ip);
      SuffixStep(cfg, Epoch(cfg, with + init, ip), Epoch(cfg, without + init, ip), e, ip);
    }
  }

  lemma {:induction false} EpochBound(cfg: Config, es: seq<Event>, ip: string)
    ensures |Epoch(cfg, es, ip)| <= |FailTimes(es, ip)|
  {
    if es == [] {
    } else {
      EpochBound(cfg, es[..|es| - 1], ip);
    }
  }

  lemma SuffixUnlocks(cfg: Config, with: seq<Event>, without: seq<Event>, ip: string, t: int)
    requires cfg.max >= 1 && Timed(with) && After(with, t) && Timed(without) && After(without, t)
    requires IsSuffix(Epoch(cfg, with, ip), Epoch(cfg, without, ip)) && |Epoch(cfg, without, ip)| < TWO31
    ensures IsLocked(cfg, Run(cfg, with), ip, t) ==> IsLocked(cfg, Run(cfg, without), ip, t)
  {
    var r, q := Epoch(cfg, with, ip), Epoch(cfg, without, ip);
    LockoutMeansHistory(cfg, without, ip, t);
    LockoutMeansHistory(cfg, with, ip, t);
    assert r != [] ==> Last(r) == Last(q);
  }

  /** An eviction can only unlock: whatever follows, further evictions included, an
      IP that is locked with it is locked without it. */
  lemma EvictionOnlyUnlocks(cfg: Config, es: seq<Event>, at: int, tail: seq<Event>, ip: string, t: int)
    requires cfg.max >= 1 && Timed(es + [Eviction(at)] + tail) && After(es + [Eviction(at)] + tail, t)
    requires |FailTimes(es, ip)| + |FailTimes(tail, ip)| < TWO31
    ensures IsLocked(cfg, Run(cfg, es + [Eviction(at)] + tail), ip, t) ==> IsLocked(cfg, Run(cfg, es + tail), ip, t)
  {
    var with, without := es + [Eviction(at)] + tail, es + tail;
    TimedWithout(es, Eviction(at), tail, t);
    RunStep(cfg, es, Eviction(at), ip);
    EpochBound(cfg, es, ip);
    EpochStaysSuffix(cfg, es + [Eviction(at)], es, tail, ip);
    SuffixUnlocks(cfg, with, without, ip, t);
  }

  // ---- The 32-bit counter ----

  lemma WrapReaches(max: int, n: nat)
    requires max >= 1
    ensures Wrap32(n) >= max <==> max <= n % (2 * TWO31) < TWO31
  {
    var q := n / (2 * TWO31);
    var r := n % (2 * TWO31);
    assert n == q * (2 * TWO31) + r;
    if r < TWO31 {
      assert (n + TWO31) / (2 * TWO31) == q;
    } else {
      assert (n + TWO31) / (2 * TWO31) == q + 1;
    }
  }

  /** When a failure locks, for every history: not from the maximum on, but when
      the failures since the last eviction, this one included, reach the maximum
      modulo 2^32 without passing 2^31. */
  lemma FailureLocksIff(cfg: Config, es: seq<Event>, ip: string, t: int)
    requires cfg.max >= 1
    ensures Recorded(cfg, Run(cfg, es), ip, t).1
       <==> cfg.max <= (|Epoch(cfg, es, ip)| + 1) % (2 * TWO31) < TWO31
  {
    MapMatchesEpochs(cfg, es, ip);
    WrapReaches(cfg.max, |Epoch(cfg, es, ip)| + 1);
  }

  /** Every count is reached, so the wrap is: the failure after 2^31 - 1 others
      does not lock, whatever the maximum. */
  lemma {:induction false} EveryCountIsReached(cfg: Config, ip: string, n: nat) returns (es: seq<Event>)
    ensures Timed(es) && After(es, 1) && |Epoch(cfg, es, ip)| == n
    ensures cfg.max >= 1 && n == TWO31 - 1 ==> !Recorded(cfg, Run(cfg, es), ip, 1).1
  {
    if n == 0 {
      es := [];
    } else {
      var es' := EveryCountIsReached(cfg, ip, n - 1);
      es := es' + [Failure(ip, 1)];
      assert es[..|es| - 1] == es';
    }
    if cfg.max >= 1 {
      FailureLocksIff(cfg, es, ip, 1);
    }
  }
}
