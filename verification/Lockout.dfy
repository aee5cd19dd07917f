/** The per-IP AUTH lockout (internal/plugin/smtp_security.go): a failure counter
    with a timed lock and a background eviction that works on whole seconds.
    Instants are nanoseconds after the zero time, which is 0. */
module Lockout {
  const SECOND: int := 1_000_000_000
  const TWO31: int := 0x8000_0000

  /** max is MaxAuthFailuresPerIP; 0 switches the lockout off. */
  datatype Config = Config(max: int, lockout: int, ttl: int)

  datatype Entry = Entry(failures: int, lockedUntil: int, lastSeen: int)

  type IpMap = map<string, Entry>

  /** time.Unix: whole seconds, rounded down. */
  function Unix(t: int): (r: int)
    ensures r * 1_000_000_000 <= t < (r + 1) * 1_000_000_000
  {
    t / SECOND
  }

  /** The counter is an int32. */
  function Wrap32(x: int): (r: int)
    ensures -TWO31 <= r < TWO31
    ensures -TWO31 <= x < TWO31 ==> r == x
  {
    (x + TWO31) % (2 * TWO31) - TWO31
  }

  function Bumped(cfg: Config, e: Entry, now: int): Entry {
    var n := Wrap32(e.failures + 1);
    Entry(n, if n >= cfg.max then now + cfg.lockout else e.lockedUntil, Unix(now))
  }

  function EntryOf(m: IpMap, ip: string): Entry {
    if ip in m then m[ip] else Entry(0, 0, 0)
  }

  /** RecordAuthFailure: the new map, and whether the IP is now locked. */
  function Recorded(cfg: Config, m: IpMap, ip: string, now: int): (IpMap, bool) {
    if cfg.max == 0 then (m, false)
    else
      var e := Bumped(cfg, EntryOf(m, ip), now);
      (m[ip := e], e.failures >= cfg.max)
  }

  predicate IsLocked(cfg: Config, m: IpMap, ip: string, now: int) {
    cfg.max != 0 && ip in m && now < m[ip].lockedUntil
  }

  predicate Stale(cfg: Config, e: Entry, now: int) {
    e.lastSeen < Unix(now - cfg.ttl) && now > e.lockedUntil
  }

  function Evicted(cfg: Config, m: IpMap, now: int): IpMap {
    map ip | ip in m && !Stale(cfg, m[ip], now) :: m[ip]
  }

  /** An eviction changes no answer until the IP fails again: it only removes locks
      that are over. */
  lemma EvictionIsInvisible(cfg: Config, m: IpMap, evictedAt: int, ip: string, t: int)
    requires t >= evictedAt
    ensures IsLocked(cfg, Evicted(cfg, m, evictedAt), ip, t) == IsLocked(cfg, m, ip, t)
  {
  }

  // ---- Histories ----

  datatype Event = Failure(ip: string, at: int) | Eviction(at: int)

  /** The clock is monotone and past the zero time. */
  ghost predicate Timed(es: seq<Event>) {
    && (forall i :: 0 <= i < |es| ==> es[i].at > 0)
    && (forall i, j :: 0 <= i < j < |es| ==> es[i].at <= es[j].at)
  }

  /** t comes after everything that happened. */
  ghost predicate After(es: seq<Event>, t: int) {
    t > 0 && forall i :: 0 <= i < |es| ==> es[i].at <= t
  }

  function Run(cfg: Config, es: seq<Event>): IpMap {
    if es == [] then map[]
    else
      var n := |es| - 1;
      var m := Run(cfg, es[..n]);
      match es[n]
      case Failure(ip, at) => Recorded(cfg, m, ip, at).0
      case Eviction(at) => Evicted(cfg, m, at)
  }

  /** All failures of one IP, evictions or not. */
  ghost function FailTimes(es: seq<Event>, ip: string): seq<int> {
    if es == [] then [] else FailStep(FailTimes(es[..|es| - 1], ip), es[|es| - 1], ip)
  }

  ghost function FailStep(f: seq<int>, e: Event, ip: string): seq<int> {
    if e.Failure? && e.ip == ip then f + [e.at] else f
  }

  ghost function Last(f: seq<int>): int {
    if f == [] then 0 else f[|f| - 1]
  }

  /** t comes after all of the instants f, which are in order. */
  ghost predicate Ascending(f: seq<int>, t: int) {
    && (forall i, j :: 0 <= i < j < |f| ==> f[i] <= f[j])
    && (forall i :: 0 <= i < |f| ==> f[i] <= t)
  }

  lemma TimedPrefix(es: seq<Event>)
    requires Timed(es) && es != []
    ensures Timed(es[..|es| - 1]) && After(es[..|es| - 1], es[|es| - 1].at)
  {
  }

  lemma {:induction false} FailTimesSorted(es: seq<Event>, ip: string, t: int)
    requires Timed(es) && After(es, t)
    ensures Ascending(FailTimes(es, ip), t)
  {
    if es == [] {
      assert FailTimes(es, ip) == [];
    } else {
      var es', e := es[..|es| - 1], es[|es| - 1];
      TimedPrefix(es);
      FailTimesSorted(es', ip, e.at);
      assert FailTimes(es, ip) == FailStep(FailTimes(es', ip), e, ip);
      assert e.at <= t;
    }
  }

  // ---- The meaning of the map ----

  /** The i-th failure of an epoch, counted from 0, brings the counter to the
      maximum. The counter wraps, so this is not simply i + 1 >= max. */
  predicate Locks(cfg: Config, i: nat) {
    Wrap32(i + 1) >= cfg.max
  }

  /** The lock the failures p stand for: one of them locked, less than the
      lockout time ago. */
  ghost predicate LockedBy(cfg: Config, p: seq<int>, t: int) {
    cfg.max != 0 && exists i :: 0 <= i < |p| && Locks(cfg, i) && t < p[i] + cfg.lockout
  }

  /** The end of that lock, or the zero time. */
  ghost function LockUntil(cfg: Config, p: seq<int>): int {
    if p == [] then 0
    else if Locks(cfg, |p| - 1) then Last(p) + cfg.lockout
    else LockUntil(cfg, p[..|p| - 1])
  }

  lemma {:induction false} LockUntilMeans(cfg: Config, p: seq<int>, t: int)
    requires cfg.max != 0 && t > 0 && Ascending(p, t)
    ensures t < LockUntil(cfg, p) <==> LockedBy(cfg, p, t)
  {
    if p == [] {
    } else if Locks(cfg, |p| - 1) {
      assert t < Last(p) + cfg.lockout ==> t < p[|p| - 1] + cfg.lockout;
    } else {
      var q := p[..|p| - 1];
      assert forall i :: 0 <= i < |q| ==> q[i] == p[i];
      LockUntilMeans(cfg, q, t);
    }
  }

  /** Until the counter wraps, an epoch stands for a lock exactly when it reaches
      the maximum, and the lock runs from its last failure. */
  lemma {:induction false} LockUntilUnwrapped(cfg: Config, p: seq<int>)
    requires cfg.max >= 1 && |p| < TWO31
    ensures LockUntil(cfg, p) == if |p| >= cfg.max then Last(p) + cfg.lockout else 0
  {
    if p == [] || |p| >= cfg.max {
    } else {
      LockUntilUnwrapped(cfg, p[..|p| - 1]);
    }
  }

  /** The failures of one IP since its entry was last evicted. An eviction drops
      them when the last is more than the idle time ago, in whole seconds, and
      any lock is over. */
  ghost function Epoch(cfg: Config, es: seq<Event>, ip: string): seq<int> {
    if es == [] then [] else EpochStep(cfg, Epoch(cfg, es[..|es| - 1], ip), es[|es| - 1], ip)
  }

  ghost function EpochStep(cfg: Config, p: seq<int>, e: Event, ip: string): seq<int> {
    match e
    case Failure(who, at) => if who == ip then p + [at] else p
    case Eviction(at) => if Dropped(cfg, p, at) then [] else p
  }

  ghost predicate Dropped(cfg: Config, p: seq<int>, at: int) {
    Unix(Last(p)) < Unix(at - cfg.ttl) && at > LockUntil(cfg, p)
  }

  /** The entry an epoch stands for. */
  ghost function EntryFor(cfg: Config, p: seq<int>): Entry {
    Entry(Wrap32(|p|), LockUntil(cfg, p), Unix(Last(p)))
  }

  lemma WrapStep(n: nat)
    ensures Wrap32(Wrap32(n) + 1) == Wrap32(n + 1)
  {
    var q := (n + TWO31) / (2 * TWO31);
    assert Wrap32(n) == n - q * (2 * TWO31);
  }

  lemma EpochGrows(cfg: Config, p: seq<int>, at: int)
    ensures Bumped(cfg, if p == [] then Entry(0, 0, 0) else EntryFor(cfg, p), at) == EntryFor(cfg, p + [at])
  {
    var p' := p + [at];
    WrapStep(|p|);
    assert |p'| - 1 == |p| && p'[..|p|] == p && Last(p') == at;
    assert LockUntil(cfg, p') == if Locks(cfg, |p|) then at + cfg.lockout else LockUntil(cfg, p);
    assert Wrap32(0) == 0;
  }

  /** The map is the epochs, for every history, of any length: the stored count is
      the number of failures since the last eviction as an int32, and the next
      failure is answered with a lock exactly when that count, one higher, reaches
      the maximum. */
  lemma {:induction false} MapMatchesEpochs(cfg: Config, es: seq<Event>, ip: string)
    requires cfg.max != 0
    ensures ip in Run(cfg, es) <==> Epoch(cfg, es, ip) != []
    ensures ip in Run(cfg, es) ==> Run(cfg, es)[ip] == EntryFor(cfg, Epoch(cfg, es, ip))
    ensures forall t :: Recorded(cfg, Run(cfg, es), ip, t).1 <==> Wrap32(|Epoch(cfg, es, ip)| + 1) >= cfg.max
  {
    if es == [] {
    } else {
      var n := |es| - 1;
      var p := Epoch(cfg, es[..n], ip);
      MapMatchesEpochs(cfg, es[..n], ip);
      EpochGrows(cfg, p, es[n].at);
    }
    WrapStep(|Epoch(cfg, es, ip)|);
  }

  /** The lockout means what its history says: an IP is locked exactly when some
      failure since its last eviction locked it less than the lockout time ago;
      while fewer than 2^31 of them have been counted, exactly when they reach the
      maximum and the lockout time since the last has not passed. */
  lemma LockoutMeansHistory(cfg: Config, es: seq<Event>, ip: string, t: int)
    requires Timed(es) && After(es, t)
    ensures var p := Epoch(cfg, es, ip);
      && (IsLocked(cfg, Run(cfg, es), ip, t) <==> LockedBy(cfg, p, t))
      && (cfg.max >= 1 && |p| < TWO31 ==>
            (IsLocked(cfg, Run(cfg, es), ip, t) <==> |p| >= cfg.max && t < Last(p) + cfg.lockout))
  {
    if cfg.max != 0 {
      var p := Epoch(cfg, es, ip);
      MapMatchesEpochs(cfg, es, ip);
      EpochsAreTails(cfg, es, ip, t);
      FailTimesSorted(es, ip, t);
      LockUntilMeans(cfg, p, t);
      if cfg.max >= 1 && |p| < TWO31 {
        LockUntilUnwrapped(cfg, p);
      }
    }
  }

  // ---- Evictions and idle time ----

  /** How many of the last failures follow one another within the idle time. */
  ghost function Chain(ttl: int, f: seq<int>): nat {
    if f == [] then 0
    else if |f| == 1 || f[|f| - 1] - f[|f| - 2] > ttl then 1
    else 1 + Chain(ttl, f[..|f| - 1])
  }

  /** An epoch is a tail of all failures, cut where the IP had been idle for more
      than the idle time; an empty one means the idle time, and any lock the
      trailing failures earned, are over. */
  ghost predicate EpochIsTail(cfg: Config, f: seq<int>, p: seq<int>, latest: int) {
    && |p| <= |f| && p == f[|f| - |p|..]
    && (p != [] ==> |p| >= Chain(cfg.ttl, f))
    && (p != [] && |p| < |f| ==> p[0] - f[|f| - |p| - 1] > cfg.ttl)
    && (p == [] && f != [] ==>
          latest > Last(f) + cfg.ttl
          && (Chain(cfg.ttl, f) >= cfg.max && |f| < TWO31 ==> latest > Last(f) + cfg.lockout))
  }

  lemma UnixOrder(a: int, b: int)
    requires Unix(a) < Unix(b)
    ensures a < b
  {
  }

  lemma {:induction false} EpochsAreTails(cfg: Config, es: seq<Event>, ip: string, t: int)
    requires cfg.max != 0 && Timed(es) && After(es, t)
    ensures EpochIsTail(cfg, FailTimes(es, ip), Epoch(cfg, es, ip), t)
  {
    if es == [] {
      assert FailTimes(es, ip) == [] && Epoch(cfg, es, ip) == [];
    } else {
      var es', e := es[..|es| - 1], es[|es| - 1];
      TimedPrefix(es);
      EpochsAreTails(cfg, es', ip, e.at);
      TailStep(cfg, FailTimes(es', ip), Epoch(cfg, es', ip), e, ip, t);
    }
  }

  lemma TailStep(cfg: Config, f: seq<int>, p: seq<int>, e: Event, ip: string, t: int)
    requires EpochIsTail(cfg, f, p, e.at) && e.at <= t
    ensures EpochIsTail(cfg, FailStep(f, e, ip), EpochStep(cfg, p, e, ip), t)
  {
    match e
    case Eviction(at) =>
      assert FailStep(f, e, ip) == f;
      if Dropped(cfg, p, at) {
        TailEvicted(cfg, f, p, at);
        TailLater(cfg, f, [], at, t);
      } else {
        TailLater(cfg, f, p, at, t);
      }
    case Failure(who, at) =>
      if who == ip {
        TailGrows(cfg, f, p, at);
        TailLater(cfg, f + [at], p + [at], at, t);
      } else {
        TailLater(cfg, f, p, at, t);
      }
  }

  lemma TailLater(cfg: Config, f: seq<int>, p: seq<int>, latest: int, t: int)
    requires EpochIsTail(cfg, f, p, latest) && latest <= t
    ensures EpochIsTail(cfg, f, p, t)
  {
  }

  /** An eviction that takes effect leaves an empty tail. */
  lemma TailEvicted(cfg: Config, f: seq<int>, p: seq<int>, at: int)
    requires EpochIsTail(cfg, f, p, at) && Dropped(cfg, p, at)
    ensures EpochIsTail(cfg, f, [], at)
  {
    if p == [] {
    } else {
      UnixOrder(Last(p), at - cfg.ttl);
      assert Last(p) == Last(f);
      assert f[|f|..] == [];
    }
  }

  lemma TailGrows(cfg: Config, f: seq<int>, p: seq<int>, at: int)
    requires EpochIsTail(cfg, f, p, at)
    ensures EpochIsTail(cfg, f + [at], p + [at], at)
  {
    var f', p' := f + [at], p + [at];
    assert f'[..|f'| - 1] == f;
    if p == [] {
      assert p' == f'[|f'| - |p'|..];
    } else {
      assert f'[|f| - |p|..] == f[|f| - |p|..] + [at];
    }
  }
}
