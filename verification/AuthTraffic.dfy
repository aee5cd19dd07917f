/** How fast one IP can guess passwords (internal/smtp/server.go over
    internal/plugin/smtp_security.go). A connection asks for the lock when AUTH
    starts; the credentials are checked later, in the SASL exchange, and only then
    is a failure recorded. Attempts of different connections overlap. */
module AuthTraffic {
  import opened Common
  import opened Lockout

  datatype Traffic =
    | Check(conn: nat, ip: string, at: int)
    | Finish(conn: nat, at: int, ok: bool)
    | EvictorTick(at: int)

  /** An attempt past its lock check. `known` is how many failures of the IP had
      been recorded at the check. */
  datatype Pending = Pending(ip: string, at: int, known: nat)

  /** `seen` is what the lockout got to see. */
  datatype Auths = Auths(seen: seq<Event>, pending: map<nat, Pending>)

  /** A locked IP is turned away before its credentials are checked, and only
      failed checks are recorded. */
  ghost function Step(cfg: Config, s: Auths, x: Traffic): Auths {
    match x
    case Check(conn, ip, at) =>
      if IsLocked(cfg, Run(cfg, s.seen), ip, at) then s.(pending := s.pending - {conn})
      else s.(pending := s.pending[conn := Pending(ip, at, |FailTimes(s.seen, ip)|)])
    case Finish(conn, at, ok) =>
      if conn !in s.pending then s
      else Auths(if ok then s.seen else s.seen + [Failure(s.pending[conn].ip, at)], s.pending - {conn})
    case EvictorTick(at) => s.(seen := s.seen + [Eviction(at)])
  }

  ghost function At(cfg: Config, ts: seq<Traffic>): Auths {
    if ts == [] then Auths([], map[]) else Step(cfg, At(cfg, ts[..|ts| - 1]), ts[|ts| - 1])
  }

  /** The recorded failures of one IP. */
  ghost function Failures(cfg: Config, ts: seq<Traffic>, ip: string): seq<int> {
    FailTimes(At(cfg, ts).seen, ip)
  }

  ghost predicate Records(s: Auths, x: Traffic, ip: string) {
    x.Finish? && !x.ok && x.conn in s.pending && s.pending[x.conn].ip == ip
  }

  /** For each recorded failure of the IP, how many of its failures had been
      recorded when the lock was asked for. */
  ghost function Known(cfg: Config, ts: seq<Traffic>, ip: string): seq<nat> {
    if ts == [] then []
    else
      var s, x := At(cfg, ts[..|ts| - 1]), ts[|ts| - 1];
      var known := Known(cfg, ts[..|ts| - 1], ip);
      if Records(s, x, ip) then known + [s.pending[x.conn].known] else known
  }

  ghost predicate Clocked(ts: seq<Traffic>, t: int) {
    && t > 0
    && (forall i :: 0 <= i < |ts| ==> 0 < ts[i].at <= t)
    && (forall i, j :: 0 <= i < j < |ts| ==> ts[i].at <= ts[j].at)
  }

  lemma AtStep(cfg: Config, ts: seq<Traffic>, x: Traffic)
    ensures At(cfg, ts + [x]) == Step(cfg, At(cfg, ts), x)
  {
    assert (ts + [x])[..|ts|] == ts;
  }

  lemma ClockedPrefix(ts: seq<Traffic>, t: int)
    requires Clocked(ts, t) && ts != []
    ensures Clocked(ts[..|ts| - 1], ts[|ts| - 1].at) && ts[|ts| - 1].at <= t
  {
  }

  // ---- What a lock check that passed says ----

  /** Among the first n failures, those that the last `max` do not include lie at
      least the lockout or the idle time before `at`. */
  ghost predicate Clear(cfg: Config, f: seq<int>, n: nat, at: int) {
    n <= |f| && (n < TWO31 ==> forall a :: 0 <= a < n && a + cfg.max <= n ==> at - f[a] >= Min(cfg.lockout, cfg.ttl))
  }

  lemma TailIsClear(cfg: Config, f: seq<int>, p: seq<int>, at: int, a: nat)
    requires cfg.max >= 1 && EpochIsTail(cfg, f, p, at) && Ascending(f, at) && a + cfg.max <= |f|
    requires |p| >= cfg.max ==> at >= Last(p) + cfg.lockout
    ensures at - f[a] >= Min(cfg.lockout, cfg.ttl)
  {
    assert f[a] <= Last(f);
    if p == [] || |p| >= cfg.max {
    } else {
      assert f[a] <= f[|f| - |p| - 1];
      assert p[0] == f[|f| - |p|] <= at;
    }
  }

  lemma UnlockedIsClear(cfg: Config, es: seq<Event>, ip: string, at: int)
    requires cfg.max >= 1 && Timed(es) && After(es, at) && !IsLocked(cfg, Run(cfg, es), ip, at)
    ensures Clear(cfg, FailTimes(es, ip), |FailTimes(es, ip)|, at)
  {
    var f, p := FailTimes(es, ip), Epoch(cfg, es, ip);
    EpochsAreTails(cfg, es, ip, at);
    LockoutMeansHistory(cfg, es, ip, at);
    FailTimesSorted(es, ip, at);
    forall a | 0 <= a < |f| && a + cfg.max <= |f| && |f| < TWO31
      ensures at - f[a] >= Min(cfg.lockout, cfg.ttl)
    {
      TailIsClear(cfg, f, p, at, a);
    }
  }

  lemma ClearStays(cfg: Config, f: seq<int>, g: seq<int>, n: nat, at: int, later: int)
    requires cfg.max >= 1 && Clear(cfg, f, n, at) && f <= g && at <= later
    ensures Clear(cfg, g, n, later)
  {
  }

  // ---- The invariant of every run ----

  ghost predicate PendingClear(cfg: Config, s: Auths, ip: string, t: int) {
    forall conn :: conn in s.pending && s.pending[conn].ip == ip ==>
      s.pending[conn].at <= t && Clear(cfg, FailTimes(s.seen, ip), s.pending[conn].known, s.pending[conn].at)
  }

  ghost predicate FailuresClear(cfg: Config, f: seq<int>, known: seq<nat>) {
    && |known| == |f|
    && forall b :: 0 <= b < |f| ==> known[b] <= b && Clear(cfg, f, known[b], f[b])
  }

  lemma SeenStays(cfg: Config, s: Auths, x: Traffic, ip: string)
    requires Timed(s.seen) && After(s.seen, x.at)
    ensures Timed(Step(cfg, s, x).seen) && After(Step(cfg, s, x).seen, x.at)
    ensures FailTimes(Step(cfg, s, x).seen, ip)
         == if Records(s, x, ip) then FailTimes(s.seen, ip) + [x.at] else FailTimes(s.seen, ip)
  {
    var s' := Step(cfg, s, x);
    if s'.seen != s.seen {
      assert s'.seen[..|s'.seen| - 1] == s.seen;
    }
  }

  lemma PendingStep(cfg: Config, s: Auths, x: Traffic, ip: string, t: int)
    requires cfg.max >= 1 && Timed(s.seen) && After(s.seen, x.at) && x.at <= t
    requires PendingClear(cfg, s, ip, x.at)
    ensures PendingClear(cfg, Step(cfg, s, x), ip, t)
  {
    var s' := Step(cfg, s, x);
    SeenStays(cfg, s, x, ip);
    forall conn | conn in s'.pending && s'.pending[conn].ip == ip
      ensures s'.pending[conn].at <= t
      ensures Clear(cfg, FailTimes(s'.seen, ip), s'.pending[conn].known, s'.pending[conn].at)
    {
      var q := s'.pending[conn];
      if x.Check? && x.conn == conn {
        UnlockedIsClear(cfg, s.seen, ip, x.at);
      } else {
        ClearStays(cfg, FailTimes(s.seen, ip), FailTimes(s'.seen, ip), q.known, q.at, q.at);
      }
    }
  }

  lemma FailuresStep(cfg: Config, f: seq<int>, known: seq<nat>, q: Pending, at: int)
    requires cfg.max >= 1 && FailuresClear(cfg, f, known) && Clear(cfg, f, q.known, q.at) && q.at <= at
    ensures FailuresClear(cfg, f + [at], known + [q.known])
  {
    var f', known' := f + [at], known + [q.known];
    forall b | 0 <= b < |f'|
      ensures known'[b] <= b && Clear(cfg, f', known'[b], f'[b])
    {
      if b < |f| {
        ClearStays(cfg, f, f', known[b], f[b], f[b]);
      } else {
        ClearStays(cfg, f, f', q.known, q.at, at);
      }
    }
  }

  lemma {:induction false} RunIsClear(cfg: Config, ts: seq<Traffic>, ip: string, t: int)
    requires cfg.max >= 1 && Clocked(ts, t)
    ensures Timed(At(cfg, ts).seen) && After(At(cfg, ts).seen, t)
    ensures PendingClear(cfg, At(cfg, ts), ip, t)
    ensures FailuresClear(cfg, Failures(cfg, ts, ip), Known(cfg, ts, ip))
  {
    if ts == [] {
      assert At(cfg, ts) == Auths([], map[]) && Failures(cfg, ts, ip) == [];
    } else {
      var ts', x := ts[..|ts| - 1], ts[|ts| - 1];
      var s := At(cfg, ts');
      ClockedPrefix(ts, t);
      RunIsClear(cfg, ts', ip, x.at);
      SeenStays(cfg, s, x, ip);
      PendingStep(cfg, s, x, ip, t);
      if Records(s, x, ip) {
        FailuresStep(cfg, Failures(cfg, ts', ip), Known(cfg, ts', ip), s.pending[x.conn], x.at);
      }
    }
  }

  // ---- The rate limit ----

  /** The bound on any two failures of an IP, in all traffic: if `max` failures
      from the a-th on had been recorded when the lock was asked for before the
      b-th, the two lie at least the shorter of lockout and idle time apart. */
  lemma TrafficIsRateLimited(cfg: Config, ts: seq<Traffic>, ip: string, t: int, a: nat, b: nat)
    requires cfg.max >= 1 && Clocked(ts, t) && b < |Failures(cfg, ts, ip)|
    ensures |Known(cfg, ts, ip)| == |Failures(cfg, ts, ip)| && Known(cfg, ts, ip)[b] <= b
    ensures a + cfg.max <= Known(cfg, ts, ip)[b] < TWO31 ==>
              Failures(cfg, ts, ip)[b] - Failures(cfg, ts, ip)[a] >= Min(cfg.lockout, cfg.ttl)
  {
    RunIsClear(cfg, ts, ip, t);
    assert Clear(cfg, Failures(cfg, ts, ip), Known(cfg, ts, ip)[b], Failures(cfg, ts, ip)[b]);
  }

  /** max + 1 failures always span the lockout or the idle time. */
  ghost predicate Spread(cfg: Config, f: seq<int>) {
    forall a, b :: 0 <= a < b < |f| && b - a >= cfg.max ==> f[b] - f[a] >= Min(cfg.lockout, cfg.ttl)
  }

  /** Attempts that do not overlap, each asking for the lock after all earlier
      failures of the IP were recorded, are spread: max + 1 of them take at least
      the lockout time or the idle time, whichever is shorter. */
  lemma GuessingIsRateLimited(cfg: Config, ts: seq<Traffic>, ip: string, t: int)
    requires cfg.max >= 1 && Clocked(ts, t) && |Failures(cfg, ts, ip)| <= TWO31
    requires forall b :: 0 <= b < |Known(cfg, ts, ip)| ==> Known(cfg, ts, ip)[b] == b
    ensures Spread(cfg, Failures(cfg, ts, ip))
  {
    var f := Failures(cfg, ts, ip);
    forall a, b | 0 <= a < b < |f| && b - a >= cfg.max
      ensures f[b] - f[a] >= Min(cfg.lockout, cfg.ttl)
    {
      TrafficIsRateLimited(cfg, ts, ip, t, a, b);
    }
  }

  // ---- How much overlapping adds ----

  /** The pending attempts of the IP whose lock check saw fewer than m failures. */
  ghost function Early(s: Auths, ip: string, m: nat): set<nat> {
    set conn | conn in s.pending && s.pending[conn].ip == ip && s.pending[conn].known < m
  }

  /** How many failures from the m-th on come from such attempts. */
  ghost function Late(known: seq<nat>, m: nat): nat {
    if |known| <= m then 0
    else Late(known[..|known| - 1], m) + (if known[|known| - 1] < m then 1 else 0)
  }

  lemma EarlyStep(cfg: Config, s: Auths, x: Traffic, ip: string, m: nat)
    requires |FailTimes(s.seen, ip)| >= m
    ensures Early(Step(cfg, s, x), ip, m) <= Early(s, ip, m)
    ensures Records(s, x, ip) && s.pending[x.conn].known < m ==>
              |Early(Step(cfg, s, x), ip, m)| + 1 <= |Early(s, ip, m)|
    ensures |Early(Step(cfg, s, x), ip, m)| <= |Early(s, ip, m)|
  {
    var e, e' := Early(s, ip, m), Early(Step(cfg, s, x), ip, m);
    SubsetCount(e', e);
    if Records(s, x, ip) && s.pending[x.conn].known < m {
      assert x.conn in e && x.conn !in e';
      SubsetCount(e', e - {x.conn});
    }
  }

  lemma LateStep(known: seq<nat>, n: nat, m: nat)
    requires |known| >= m
    ensures Late(known + [n], m) == Late(known, m) + (if n < m then 1 else 0)
  {
    assert (known + [n])[..|known|] == known;
  }

  /** Once m failures are recorded, every failure of an attempt that had not seen
      them uses up one attempt that was pending then. */
  lemma {:induction false} LateUsesEarly(cfg: Config, ts: seq<Traffic>, k: nat, ip: string, t: int, m: nat)
    requires cfg.max >= 1 && Clocked(ts, t) && k <= |ts| && |Failures(cfg, ts[..k], ip)| == m
    ensures |Known(cfg, ts, ip)| == |Failures(cfg, ts, ip)| >= m
    ensures Late(Known(cfg, ts, ip), m) + |Early(At(cfg, ts), ip, m)| <= |Early(At(cfg, ts[..k]), ip, m)|
    decreases |ts|
  {
    if k == |ts| {
      assert ts[..k] == ts;
      RunIsClear(cfg, ts, ip, t);
    } else {
      var ts', x := ts[..|ts| - 1], ts[|ts| - 1];
      var s := At(cfg, ts');
      ClockedPrefix(ts, t);
      assert ts'[..k] == ts[..k];
      LateUsesEarly(cfg, ts', k, ip, x.at, m);
      RunIsClear(cfg, ts', ip, x.at);
      SeenStays(cfg, s, x, ip);
      EarlyStep(cfg, s, x, ip, m);
      if Records(s, x, ip) {
        LateStep(Known(cfg, ts', ip), s.pending[x.conn].known, m);
      }
    }
  }

  lemma {:induction false} LateCounts(known: seq<nat>, m: nat, b: nat)
    requires m <= b < |known| && forall c :: m <= c <= b ==> known[c] < m
    ensures Late(known, m) >= b + 1 - m
    decreases |known|
  {
    var known' := known[..|known| - 1];
    if b == |known| - 1 {
      if b == m {
      } else {
        LateCounts(known', m, b - 1);
      }
    } else {
      LateCounts(known', m, b);
    }
  }

  /** In a span that short, no attempt from the max-th on had seen `max` failures
      of the span at its lock check. */
  lemma BurstIsUnseen(cfg: Config, ts: seq<Traffic>, ip: string, t: int, a: nat, b: nat, c: nat)
    requires cfg.max >= 1 && Clocked(ts, t) && a + cfg.max <= c <= b < |Failures(cfg, ts, ip)| && b < TWO31
    requires Failures(cfg, ts, ip)[b] - Failures(cfg, ts, ip)[a] < Min(cfg.lockout, cfg.ttl)
    ensures c < |Known(cfg, ts, ip)| && Known(cfg, ts, ip)[c] < a + cfg.max
  {
    RunIsClear(cfg, ts, ip, t);
    FailTimesSorted(At(cfg, ts).seen, ip, t);
    TrafficIsRateLimited(cfg, ts, ip, t, a, c);
    assert Failures(cfg, ts, ip)[c] <= Failures(cfg, ts, ip)[b];
  }

  /** The limit on a burst: a span shorter than lockout and idle time holds at most
      `max` failures plus the attempts that were pending, with an older lock check,
      when the max-th of them was recorded. ts[..k] is the traffic up to there. */
  lemma BurstIsBounded(cfg: Config, ts: seq<Traffic>, ip: string, t: int, a: nat, b: nat, k: nat)
    requires cfg.max >= 1 && Clocked(ts, t) && a <= b < |Failures(cfg, ts, ip)| && b < TWO31
    requires Failures(cfg, ts, ip)[b] - Failures(cfg, ts, ip)[a] < Min(cfg.lockout, cfg.ttl)
    requires k <= |ts| && |Failures(cfg, ts[..k], ip)| == a + cfg.max
    ensures b - a + 1 <= cfg.max + |Early(At(cfg, ts[..k]), ip, a + cfg.max)|
  {
    var m := a + cfg.max;
    LateUsesEarly(cfg, ts, k, ip, t, m);
    if b >= m {
      BurstIsLate(cfg, ts, ip, t, a, b);
    }
  }

  lemma BurstIsLate(cfg: Config, ts: seq<Traffic>, ip: string, t: int, a: nat, b: nat)
    requires cfg.max >= 1 && Clocked(ts, t) && a + cfg.max <= b < |Failures(cfg, ts, ip)| && b < TWO31
    requires Failures(cfg, ts, ip)[b] - Failures(cfg, ts, ip)[a] < Min(cfg.lockout, cfg.ttl)
    ensures Late(Known(cfg, ts, ip), a + cfg.max) >= b + 1 - (a + cfg.max)
  {
    var known, m := Known(cfg, ts, ip), a + cfg.max;
    RunIsClear(cfg, ts, ip, t);
    forall c | m <= c <= b
      ensures known[c] < m
    {
      BurstIsUnseen(cfg, ts, ip, t, a, b, c);
    }
    LateCounts(known, m, b);
  }

  // ---- The bound is attained ----

  /** n connections ask for the lock before any of them has failed. */
  ghost function Checks(ip: string, n: nat): seq<Traffic> {
    if n == 0 then [] else Checks(ip, n - 1) + [Check(n - 1, ip, 1)]
  }

  /** Then j of them fail, at the same instant. */
  ghost function Burst(ip: string, n: nat, j: nat): seq<Traffic> {
    if j == 0 then Checks(ip, n) else Burst(ip, n, j - 1) + [Finish(j - 1, 1, false)]
  }

  /** Connections lo to hi - 1 wait with the lock check of the empty history. */
  ghost function Waiting(ip: string, lo: nat, hi: nat): map<nat, Pending> {
    if lo >= hi then map[] else Waiting(ip, lo, hi - 1)[hi - 1 := Pending(ip, 1, 0)]
  }

  lemma {:induction false} WaitingIs(ip: string, lo: nat, hi: nat)
    requires lo <= hi
    ensures forall c :: c in Waiting(ip, lo, hi) <==> lo <= c < hi
    ensures forall c :: c in Waiting(ip, lo, hi) ==> Waiting(ip, lo, hi)[c] == Pending(ip, 1, 0)
    ensures |Waiting(ip, lo, hi)| == hi - lo
    ensures lo < hi ==> Waiting(ip, lo, hi) - {lo} == Waiting(ip, lo + 1, hi)
  {
    if lo == hi {
    } else {
      WaitingIs(ip, lo, hi - 1);
    }
  }

  lemma ClockedStep(ts: seq<Traffic>, x: Traffic)
    requires Clocked(ts, 1) && x.at == 1
    ensures Clocked(ts + [x], 1)
  {
  }

  lemma {:induction false} BurstIsClocked(ip: string, n: nat, j: nat)
    ensures Clocked(Burst(ip, n, j), 1)
  {
    if j == 0 && n == 0 {
    } else if j == 0 {
      BurstIsClocked(ip, n - 1, 0);
      ClockedStep(Checks(ip, n - 1), Check(n - 1, ip, 1));
    } else {
      BurstIsClocked(ip, n, j - 1);
      ClockedStep(Burst(ip, n, j - 1), Finish(j - 1, 1, false));
    }
  }

  lemma {:induction false} AfterChecks(cfg: Config, ip: string, n: nat)
    ensures At(cfg, Checks(ip, n)) == Auths([], Waiting(ip, 0, n))
  {
    if n == 0 {
    } else {
      AfterChecks(cfg, ip, n - 1);
      AtStep(cfg, Checks(ip, n - 1), Check(n - 1, ip, 1));
      assert FailTimes([], ip) == [] && Run(cfg, []) == map[];
    }
  }

  /** j failures, all at instant 1. */
  ghost predicate AllAtOnce(f: seq<int>, j: nat) {
    |f| == j && forall i :: 0 <= i < j ==> f[i] == 1
  }

  /** j connections have failed, the others of n still wait. */
  ghost predicate Burnt(s: Auths, ip: string, n: nat, j: nat) {
    && s.pending == Waiting(ip, j, n)
    && AllAtOnce(FailTimes(s.seen, ip), j)
    && Timed(s.seen) && After(s.seen, 1)
  }

  lemma BurstStep(cfg: Config, s: Auths, ip: string, n: nat, j: nat)
    requires j < n && Burnt(s, ip, n, j)
    ensures Burnt(Step(cfg, s, Finish(j, 1, false)), ip, n, j + 1)
  {
    var x := Finish(j, 1, false);
    var f := FailTimes(s.seen, ip);
    WaitingIs(ip, j, n);
    assert Records(s, x, ip);
    SeenStays(cfg, s, x, ip);
    OneMore(f, j);
  }

  lemma OneMore(f: seq<int>, j: nat)
    requires AllAtOnce(f, j)
    ensures AllAtOnce(f + [1], j + 1)
  {
  }

  lemma {:induction false} AfterBurst(cfg: Config, ip: string, n: nat, j: nat)
    requires j <= n
    ensures Burnt(At(cfg, Burst(ip, n, j)), ip, n, j)
  {
    if j == 0 {
      AfterChecks(cfg, ip, n);
      assert FailTimes([], ip) == [];
    } else {
      AfterBurst(cfg, ip, n, j - 1);
      var ts := Burst(ip, n, j - 1);
      AtStep(cfg, ts, Finish(j - 1, 1, false));
      BurstStep(cfg, At(cfg, ts), ip, n, j - 1);
    }
  }

  /** Overlapping attempts are not limited by `max`: n connections that ask before
      the first failure is recorded all get their guess, at one instant. So the
      failures are spread only when there are at most `max` of them, and the bound
      on a burst is attained. */
  lemma OverlappingGuesses(cfg: Config, ip: string, n: nat)
    requires cfg.max >= 1 && cfg.lockout > 0 && cfg.ttl > 0
    ensures var ts := Burst(ip, n, n);
      && Clocked(ts, 1)
      && AllAtOnce(Failures(cfg, ts, ip), n)
      && (Spread(cfg, Failures(cfg, ts, ip)) <==> n <= cfg.max)
    ensures cfg.max <= n ==> n == cfg.max + |Early(At(cfg, Burst(ip, n, cfg.max)), ip, cfg.max)|
  {
    BurstIsClocked(ip, n, n);
    AfterBurst(cfg, ip, n, n);
    if n > cfg.max {
      var f := Failures(cfg, Burst(ip, n, n), ip);
      assert f[n - 1] - f[0] == 0;
    }
    if cfg.max <= n {
      AfterBurst(cfg, ip, n, cfg.max);
      WaitingIs(ip, cfg.max, n);
      assert Early(At(cfg, Burst(ip, n, cfg.max)), ip, cfg.max) == Waiting(ip, cfg.max, n).Keys;
      assert |Waiting(ip, cfg.max, n).Keys| == |Waiting(ip, cfg.max, n)|;
    }
  }
}
