/** How fast one IP can guess passwords against the Redis lockout store, when its
    attempts do not overlap. The counter starts again with every window, so two
    windows may meet in one short span. */
module RedisRateLimit {
  import opened Common
  import opened Lockout
  import opened RedisLockout

  /** How many failures the window of the i-th one holds, up to it. */
  ghost function InWindowAt(cfg: Config, f: seq<int>, i: int): nat
    requires 0 <= i < |f|
  {
    |Window(cfg.ttl, f[..i + 1])|
  }

  lemma FirstInWindow(cfg: Config, f: seq<int>, i: int, t: int)
    requires Ascending(f, t) && 0 <= i < |f|
    ensures var n := InWindowAt(cfg, f, i); 1 <= n <= i + 1 && Window(cfg.ttl, f[..i + 1])[0] == f[i + 1 - n]
  {
    var g := f[..i + 1];
    assert forall k :: 0 <= k < |g| ==> g[k] == f[k];
    WindowIsChained(cfg, g, t);
  }

  /** The next failure either goes on with the window or starts one, a window or more
      after the start of the one before. */
  lemma NextInWindow(cfg: Config, f: seq<int>, i: int, t: int)
    requires Ascending(f, t) && 0 <= i && i + 1 < |f|
    ensures var n := InWindowAt(cfg, f, i);
      && 1 <= n <= i + 1
      && InWindowAt(cfg, f, i + 1) == if f[i + 1] >= f[i + 1 - n] + cfg.ttl then 1 else n + 1
  {
    FirstInWindow(cfg, f, i, t);
    assert f[..i + 2] == f[..i + 1] + [f[i + 1]];
    HistoryStep(cfg, f[..i + 1], f[i + 1]);
  }

  /** Every failure comes when the lock of a full window before it is over. */
  ghost predicate Guarded(cfg: Config, f: seq<int>) {
    forall i, j :: 0 <= i < j < |f| && InWindowAt(cfg, f, i) >= cfg.max ==> f[j] >= f[i] + cfg.lockout
  }

  /** In a span shorter than lockout and window, only the last failure can fill its
      window, ... */
  lemma NotFullBefore(cfg: Config, f: seq<int>, a: int, b: int, i: int, t: int)
    requires Ascending(f, t) && Guarded(cfg, f) && 0 <= a <= i < b < |f|
    requires f[b] - f[a] < Min(cfg.lockout, cfg.ttl)
    ensures InWindowAt(cfg, f, i) < cfg.max
  {
    assert a < i ==> f[a] <= f[i];
  }

  /** ... a window that ends within the span has started before it, ... */
  lemma StartedBefore(cfg: Config, f: seq<int>, a: int, b: int, i: int, n: int, t: int)
    requires Ascending(f, t) && 0 <= a < i <= b < |f| && 1 <= n <= i
    requires f[b] - f[a] < cfg.ttl && f[i] >= f[i - n] + cfg.ttl
    ensures i - n < a
  {
    assert i < b ==> f[i] <= f[b];
  }

  /** The window counts of a span: one window (c == a), or one that starts at c, at
      most max - 2 failures in. */
  ghost predicate Counts(cfg: Config, f: seq<int>, a: int, c: int, i: int)
    requires 0 <= a <= c <= i < |f|
  {
    if c == a then InWindowAt(cfg, f, i) == InWindowAt(cfg, f, a) + (i - a)
    else c - a <= cfg.max - 2 && InWindowAt(cfg, f, i) == i - c + 1
  }

  lemma CountsStep(cfg: Config, f: seq<int>, a: int, b: int, c: int, i: int, t: int) returns (d: int)
    requires Ascending(f, t) && 0 <= a <= c < i <= b < |f| && Counts(cfg, f, a, c, i - 1)
    requires InWindowAt(cfg, f, i - 1) < cfg.max && f[b] - f[a] < cfg.ttl
    ensures a <= d <= i && Counts(cfg, f, a, d, i)
  {
    var n := InWindowAt(cfg, f, i - 1);
    NextInWindow(cfg, f, i - 1, t);
    if f[i] >= f[i - n] + cfg.ttl {
      StartedBefore(cfg, f, a, b, i, n, t);
      d := i;
    } else {
      d := c;
    }
  }

  /** ... and so the span meets at most two windows. */
  lemma {:induction false} OneOrTwoWindows(cfg: Config, f: seq<int>, a: int, b: int, i: int, t: int) returns (c: int)
    requires Ascending(f, t) && Guarded(cfg, f) && 0 <= a <= i <= b < |f| && a < b
    requires f[b] - f[a] < Min(cfg.lockout, cfg.ttl)
    ensures a <= c <= i && Counts(cfg, f, a, c, i)
    decreases i - a
  {
    if i == a {
      c := a;
    } else {
      c := OneOrTwoWindows(cfg, f, a, b, i - 1, t);
      NotFullBefore(cfg, f, a, b, i - 1, t);
      c := CountsStep(cfg, f, a, b, c, i, t);
    }
  }

  /** The rate limit of the Redis store: 2 * max - 1 failures of one IP, and two when
      max is 1, span at least the lockout time or the window, whichever is shorter. */
  lemma SpreadOverTwoWindows(cfg: Config, f: seq<int>, a: int, b: int, t: int)
    requires cfg.max >= 1 && Ascending(f, t) && Guarded(cfg, f)
    requires 0 <= a < b < |f| && b - a >= 2 * cfg.max - 2
    ensures f[b] - f[a] >= Min(cfg.lockout, cfg.ttl)
  {
    if f[b] - f[a] < Min(cfg.lockout, cfg.ttl) {
      var c := OneOrTwoWindows(cfg, f, a, b, b, t);
      NotFullBefore(cfg, f, a, b, b - 1, t);
      AtMostTwoWindows(cfg, f, a, b, c, t);
    }
  }

  lemma AtMostTwoWindows(cfg: Config, f: seq<int>, a: int, b: int, c: int, t: int)
    requires Ascending(f, t) && 0 <= a < b < |f| && a <= c <= b && Counts(cfg, f, a, c, b)
    requires InWindowAt(cfg, f, b - 1) < cfg.max
    ensures b - a < 2 * cfg.max - 2
  {
    NextInWindow(cfg, f, b - 1, t);
    FirstInWindow(cfg, f, a, t);
  }

  // ---- For the store, and attained ----

  /** Attempts that do not overlap: the IP is not locked when a failure of it is
      recorded. */
  ghost predicate Unlocked(cfg: Config, es: seq<Event>, ip: string) {
    es == []
    || (var before, e := es[..|es| - 1], es[|es| - 1];
        && Unlocked(cfg, before, ip)
        && (e.Failure? && e.ip == ip ==> !RedisLocked(RedisRun(cfg, before), ip, e.at)))
  }

  lemma GuardedGrows(cfg: Config, f: seq<int>, at: int)
    requires Guarded(cfg, f) && Ascending(f, at) && !FullWindowSince(cfg, f, at)
    ensures Guarded(cfg, f + [at])
  {
    var g := f + [at];
    forall i, j | 0 <= i < j < |g| && InWindowAt(cfg, g, i) >= cfg.max
      ensures g[j] >= g[i] + cfg.lockout
    {
      assert g[..i + 1] == f[..i + 1];
      assert InWindowAt(cfg, f, i) >= cfg.max;
      if j == |f| {
        assert FullAt(cfg, f, i, at) <==> at < f[i] + cfg.lockout;
      }
    }
  }

  lemma {:induction false} UnlockedIsGuarded(cfg: Config, es: seq<Event>, ip: string)
    requires Timed(es) && Unlocked(cfg, es, ip)
    ensures Guarded(cfg, FailTimes(es, ip))
  {
    if es == [] {
    } else {
      var es', e := es[..|es| - 1], es[|es| - 1];
      TimedPrefix(es);
      UnlockedIsGuarded(cfg, es', ip);
      if e.Failure? && e.ip == ip {
        FailTimesSorted(es', ip, e.at);
        RedisMeansHistory(cfg, es', ip, e.at);
        LockEndMeans(cfg, FailTimes(es', ip), e.at);
        GuardedGrows(cfg, FailTimes(es', ip), e.at);
      }
    }
  }

  /** The rate limit of the Redis store, for every history of attempts that do not
      overlap. */
  lemma RedisGuessingIsRateLimited(cfg: Config, es: seq<Event>, ip: string, t: int, a: int, b: int)
    requires cfg.max >= 1 && Timed(es) && After(es, t) && Unlocked(cfg, es, ip)
    requires 0 <= a < b < |FailTimes(es, ip)| && b - a >= 2 * cfg.max - 2
    ensures FailTimes(es, ip)[b] - FailTimes(es, ip)[a] >= Min(cfg.lockout, cfg.ttl)
  {
    UnlockedIsGuarded(cfg, es, ip);
    FailTimesSorted(es, ip, t);
    SpreadOverTwoWindows(cfg, FailTimes(es, ip), a, b, t);
  }

  /** A guesser at the edge of two windows: one failure opens a window, max - 2
      follow just before its end and `max` just after it. */
  ghost function EdgeTime(cfg: Config, i: int): int {
    if i == 0 then 1 else if i < cfg.max - 1 then cfg.ttl else cfg.ttl + 1
  }

  ghost function Edge(cfg: Config, ip: string, n: nat): seq<Event> {
    if n == 0 then [] else Edge(cfg, ip, n - 1) + [Failure(ip, EdgeTime(cfg, n - 1))]
  }

  ghost predicate AtEdge(cfg: Config, f: seq<int>, n: nat) {
    && |f| == n && (forall i :: 0 <= i < n ==> f[i] == EdgeTime(cfg, i))
    && (0 < n < cfg.max ==> |Window(cfg.ttl, f)| == n && Window(cfg.ttl, f)[0] == 1)
    && (n >= cfg.max ==> |Window(cfg.ttl, f)| == n - cfg.max + 1 && Window(cfg.ttl, f)[0] == cfg.ttl + 1)
    && (n < 2 * cfg.max - 1 ==> LockEnd(cfg, f) == None)
  }

  lemma EdgeStep(cfg: Config, f: seq<int>, n: nat)
    requires cfg.max >= 2 && cfg.ttl >= 1 && n < 2 * cfg.max - 1 && AtEdge(cfg, f, n)
    ensures AtEdge(cfg, f + [EdgeTime(cfg, n)], n + 1)
  {
    HistoryStep(cfg, f, EdgeTime(cfg, n));
  }

  lemma EdgeTimes(cfg: Config, ip: string, n: nat)
    requires n >= 1
    ensures FailTimes(Edge(cfg, ip, n), ip) == FailTimes(Edge(cfg, ip, n - 1), ip) + [EdgeTime(cfg, n - 1)]
  {
    var es := Edge(cfg, ip, n);
    assert es[..|es| - 1] == Edge(cfg, ip, n - 1);
  }

  lemma {:induction false} EdgeFills(cfg: Config, ip: string, n: nat)
    requires cfg.max >= 2 && cfg.ttl >= 1 && n <= 2 * cfg.max - 1
    ensures AtEdge(cfg, FailTimes(Edge(cfg, ip, n), ip), n)
  {
    if n == 0 {
    } else {
      EdgeFills(cfg, ip, n - 1);
      EdgeStep(cfg, FailTimes(Edge(cfg, ip, n - 1), ip), n - 1);
      EdgeTimes(cfg, ip, n);
    }
  }

  lemma EdgeNotLocked(cfg: Config, ip: string, n: nat, t: int)
    requires cfg.max >= 2 && cfg.ttl >= 1 && n < 2 * cfg.max - 1
    ensures !RedisLocked(RedisRun(cfg, Edge(cfg, ip, n)), ip, t)
  {
    var es := Edge(cfg, ip, n);
    EdgeFills(cfg, ip, n);
    assert LockEnd(cfg, FailTimes(es, ip)) == None;
    KeysAlwaysMatch(cfg, es, ip);
  }

  lemma UnlockedStep(cfg: Config, es: seq<Event>, e: Event, ip: string)
    requires Unlocked(cfg, es, ip) && !RedisLocked(RedisRun(cfg, es), ip, e.at)
    ensures Unlocked(cfg, es + [e], ip)
  {
    assert (es + [e])[..|es|] == es;
  }

  lemma EdgeUnlockedStep(cfg: Config, ip: string, n: nat)
    requires cfg.max >= 2 && cfg.ttl >= 1 && 0 < n <= 2 * cfg.max - 1 && Unlocked(cfg, Edge(cfg, ip, n - 1), ip)
    ensures Unlocked(cfg, Edge(cfg, ip, n - 1) + [Failure(ip, EdgeTime(cfg, n - 1))], ip)
  {
    EdgeNotLocked(cfg, ip, n - 1, EdgeTime(cfg, n - 1));
    UnlockedStep(cfg, Edge(cfg, ip, n - 1), Failure(ip, EdgeTime(cfg, n - 1)), ip);
  }

  lemma {:induction false} EdgeIsUnlocked(cfg: Config, ip: string, n: nat) returns (es: seq<Event>)
    requires cfg.max >= 2 && cfg.ttl >= 1 && n <= 2 * cfg.max - 1
    ensures es == Edge(cfg, ip, n) && Unlocked(cfg, es, ip)
  {
    if n == 0 {
      es := [];
    } else {
      es := EdgeIsUnlocked(cfg, ip, n - 1);
      EdgeUnlockedStep(cfg, ip, n);
      es := es + [Failure(ip, EdgeTime(cfg, n - 1))];
    }
  }

  lemma {:induction false} EdgeIsTimed(cfg: Config, ip: string, n: nat)
    requires cfg.max >= 2 && cfg.ttl >= 1
    ensures Timed(Edge(cfg, ip, n))
    ensures forall i :: 0 <= i < |Edge(cfg, ip, n)| ==> Edge(cfg, ip, n)[i].at <= EdgeTime(cfg, n)
  {
    if n == 0 {
    } else {
      EdgeIsTimed(cfg, ip, n - 1);
    }
  }

  lemma EdgeSpan(cfg: Config, f: seq<int>)
    requires cfg.max >= 2 && AtEdge(cfg, f, 2 * cfg.max - 1)
    ensures |f| == 2 * cfg.max - 1 && f[|f| - 1] - f[1] <= 1
  {
    assert f[|f| - 1] == EdgeTime(cfg, |f| - 1) && f[1] == EdgeTime(cfg, 1);
  }

  /** The bound is attained: for every maximum from 2 on, 2 * max - 2 failures fall
      into one nanosecond, no attempt overlapping another. */
  lemma TwoWindowsMeet(cfg: Config, ip: string)
    requires cfg.max >= 2 && cfg.ttl >= 1
    ensures var es := Edge(cfg, ip, 2 * cfg.max - 1);
      var f := FailTimes(es, ip);
      && Timed(es) && Unlocked(cfg, es, ip) && |f| == 2 * cfg.max - 1 && f[|f| - 1] - f[1] <= 1
  {
    var n := 2 * cfg.max - 1;
    var es := EdgeIsUnlocked(cfg, ip, n);
    EdgeIsTimed(cfg, ip, n);
    EdgeFills(cfg, ip, n);
    EdgeSpan(cfg, FailTimes(Edge(cfg, ip, n), ip));
  }
}
