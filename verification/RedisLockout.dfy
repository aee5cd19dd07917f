/** The lockout store on Redis (internal/plugin/redis_lockout.go): a counter key
    that expires one window after its first increment, and a marker key that
    expires with the lock. A key exists strictly before its expiry instant. */
module RedisLockout {
  import opened Common
  import opened Lockout
  import opened LockoutTheorems

  datatype Counter = Counter(n: int, expires: Option<int>)

  datatype Db = Db(counters: map<string, Counter>, blocked: map<string, int>)

  /** Which Redis command fails, if it is issued at all. */
  datatype Fault = NoFault | AtIncr | AtExpire | AtSet

  predicate Alive(db: Db, ip: string, now: int) {
    ip in db.counters && (db.counters[ip].expires.None? || now < db.counters[ip].expires.value)
  }

  /** RecordFailure: the new keys, and the answer or None for an error. */
  function RedisRecorded(db: Db, ip: string, max: int, window: int, lockout: int, now: int, fault: Fault)
    : (Db, Option<bool>)
  {
    if fault.AtIncr? then (db, None)
    else
      var c := if Alive(db, ip, now) then db.counters[ip].(n := db.counters[ip].n + 1) else Counter(1, None);
      if c.n == 1 && fault.AtExpire? then (db.(counters := db.counters[ip := c]), None)
      else
        var c' := if c.n == 1 then c.(expires := Some(now + window)) else c;
        var db' := db.(counters := db.counters[ip := c']);
        if c.n < max then (db', Some(false))
        else if fault.AtSet? then (db', None)
        else (db'.(blocked := db.blocked[ip := now + lockout]), Some(true))
  }

  predicate RedisLocked(db: Db, ip: string, now: int) {
    ip in db.blocked && now < db.blocked[ip]
  }

  /** One call of RecordFailure. */
  datatype Call = Call(ip: string, max: int, window: int, lockout: int, at: int, fault: Fault)

  function CallRun(calls: seq<Call>): Db {
    if calls == [] then Db(map[], map[])
    else
      var c := calls[|calls| - 1];
      RedisRecorded(CallRun(calls[..|calls| - 1]), c.ip, c.max, c.window, c.lockout, c.at, c.fault).0
  }

  /** `calls` is the history of the store, whoever called it. */
  class Store {
    var counters: map<string, Counter>
    var blocked: map<string, int>
    ghost var calls: seq<Call>

    ghost predicate Valid()
      reads this
    {
      View() == CallRun(calls)
    }

    ghost function View(): Db
      reads this
    {
      Db(counters, blocked)
    }

    constructor ()
      ensures View() == Db(map[], map[]) && calls == [] && Valid()
    {
      counters, blocked, calls := map[], map[], [];
    }

    method RecordFailure(ip: string, max: int, window: int, lockout: int, now: int, fault: Fault)
      returns (r: Option<bool>)
      requires Valid()
      modifies this
      ensures (View(), r) == RedisRecorded(old(View()), ip, max, window, lockout, now, fault)
      ensures Valid() && calls == old(calls) + [Call(ip, max, window, lockout, now, fault)]
    {
      calls := calls + [Call(ip, max, window, lockout, now, fault)];
      assert calls[..|calls| - 1] == old(calls);
      if fault == AtIncr {
        return None;
      }
      if ip in counters && counters[ip].expires.Some? && now >= counters[ip].expires.value {
        counters := counters - {ip};
      }
      if ip in counters {
        counters := counters[ip := Counter(counters[ip].n + 1, counters[ip].expires)];
      } else {
        counters := counters[ip := Counter(1, None)];
      }
      var n := counters[ip].n;
      if n == 1 {
        if fault == AtExpire {
          assert counters == old(counters)[ip := counters[ip]];
          return None;
        }
        counters := counters[ip := Counter(n, Some(now + window))];
      }
      assert counters == old(counters)[ip := counters[ip]];
      if n >= max {
        if fault == AtSet {
          return None;
        }
        blocked := blocked[ip := now + lockout];
        return Some(true);
      }
      r := Some(false);
    }

    /** None when the read fails. */
    method IsLockedOut(ip: string, now: int, fails: bool) returns (r: Option<bool>)
      ensures r == if fails then None else Some(RedisLocked(View(), ip, now))
    {
      if fails {
        return None;
      }
      r := Some(ip in blocked && now < blocked[ip]);
    }
  }

  // ---- The meaning of the keys ----

  /** The same failures, with no Redis fault; evictions do not exist here. */
  function RedisRun(cfg: Config, es: seq<Event>): Db {
    if es == [] then Db(map[], map[]) else RedisStep(cfg, RedisRun(cfg, es[..|es| - 1]), es[|es| - 1])
  }

  function RedisStep(cfg: Config, db: Db, e: Event): Db {
    match e
    case Failure(ip, at) => RedisRecorded(db, ip, cfg.max, cfg.ttl, cfg.lockout, at, NoFault).0
    case Eviction(_) => db
  }

  /** The failures in the current window: it starts with the first failure that
      lies a window or more after the start of the one before. */
  ghost function Window(ttl: int, f: seq<int>): (w: seq<int>)
    ensures f != [] ==> w != []
  {
    if f == [] then []
    else
      var w, a := Window(ttl, f[..|f| - 1]), f[|f| - 1];
      if w == [] || a >= w[0] + ttl then [a] else w + [a]
  }

  /** The end of the last lock: it runs from the last failure that found, with
      itself, `max` in its window. */
  ghost function LockEnd(cfg: Config, f: seq<int>): Option<int> {
    if f == [] then None
    else if |Window(cfg.ttl, f)| >= cfg.max then Some(Last(f) + cfg.lockout)
    else LockEnd(cfg, f[..|f| - 1])
  }

  /** The keys of one IP, read off its failures. */
  ghost predicate KeysMatch(cfg: Config, db: Db, ip: string, f: seq<int>) {
    && (f == [] ==> ip !in db.counters)
    && (f != [] ==> ip in db.counters
                    && db.counters[ip] == Counter(|Window(cfg.ttl, f)|, Some(Window(cfg.ttl, f)[0] + cfg.ttl)))
    && (if ip in db.blocked then LockEnd(cfg, f) == Some(db.blocked[ip]) else LockEnd(cfg, f) == None)
  }

  ghost function WindowNext(ttl: int, w: seq<int>, at: int): seq<int> {
    if w == [] || at >= w[0] + ttl then [at] else w + [at]
  }

  /** One RecordFailure on a counter that stands for window w. */
  lemma CounterStep(cfg: Config, db: Db, ip: string, w: seq<int>, at: int)
    requires w == [] ==> ip !in db.counters
    requires w != [] ==> ip in db.counters && db.counters[ip] == Counter(|w|, Some(w[0] + cfg.ttl))
    ensures var w' := WindowNext(cfg.ttl, w, at);
      var (db', r) := RedisRecorded(db, ip, cfg.max, cfg.ttl, cfg.lockout, at, NoFault);
      && db'.counters == db.counters[ip := Counter(|w'|, Some(w'[0] + cfg.ttl))]
      && db'.blocked == (if |w'| >= cfg.max then db.blocked[ip := at + cfg.lockout] else db.blocked)
      && r == Some(|w'| >= cfg.max)
  {
  }

  lemma HistoryStep(cfg: Config, f: seq<int>, at: int)
    ensures Window(cfg.ttl, f + [at]) == WindowNext(cfg.ttl, Window(cfg.ttl, f), at)
    ensures LockEnd(cfg, f + [at])
         == if |Window(cfg.ttl, f + [at])| >= cfg.max then Some(at + cfg.lockout) else LockEnd(cfg, f)
  {
    assert (f + [at])[..|f|] == f;
  }

  lemma KeysStep(cfg: Config, db: Db, ip: string, f: seq<int>, at: int)
    requires KeysMatch(cfg, db, ip, f)
    ensures var (db', r) := RedisRecorded(db, ip, cfg.max, cfg.ttl, cfg.lockout, at, NoFault);
      && KeysMatch(cfg, db', ip, f + [at])
      && r == Some(|Window(cfg.ttl, f + [at])| >= cfg.max)
  {
    CounterStep(cfg, db, ip, Window(cfg.ttl, f), at);
    HistoryStep(cfg, f, at);
  }

  /** Someone else's failure leaves the keys of this IP alone. */
  lemma KeysApart(cfg: Config, db: Db, ip: string, f: seq<int>, e: Event)
    requires KeysMatch(cfg, db, ip, f) && !(e.Failure? && e.ip == ip)
    ensures KeysMatch(cfg, RedisStep(cfg, db, e), ip, f)
  {
  }

  lemma {:induction false} KeysAlwaysMatch(cfg: Config, es: seq<Event>, ip: string)
    ensures KeysMatch(cfg, RedisRun(cfg, es), ip, FailTimes(es, ip))
  {
    if es == [] {
      assert FailTimes(es, ip) == [];
    } else {
      var es', e := es[..|es| - 1], es[|es| - 1];
      KeysAlwaysMatch(cfg, es', ip);
      if e.Failure? && e.ip == ip {
        KeysStep(cfg, RedisRun(cfg, es'), ip, FailTimes(es', ip), e.at);
      } else {
        KeysApart(cfg, RedisRun(cfg, es'), ip, FailTimes(es', ip), e);
      }
    }
  }

  /** The Redis store means what its history says, for every history: the counter
      is the size of the current window, the marker the end of the last lock, and
      the next failure is answered with a lock exactly when its window then holds
      the maximum. */
  lemma RedisMeansHistory(cfg: Config, es: seq<Event>, ip: string, t: int)
    ensures var db, f := RedisRun(cfg, es), FailTimes(es, ip);
      && KeysMatch(cfg, db, ip, f)
      && (RedisLocked(db, ip, t) <==> LockEnd(cfg, f).Some? && t < LockEnd(cfg, f).value)
      && RedisRecorded(db, ip, cfg.max, cfg.ttl, cfg.lockout, t, NoFault).1
         == Some(|Window(cfg.ttl, f + [t])| >= cfg.max)
  {
    KeysAlwaysMatch(cfg, es, ip);
    KeysStep(cfg, RedisRun(cfg, es), ip, FailTimes(es, ip), t);
  }

  // ---- Redis against the in-memory map ----

  lemma ChainStep(ttl: int, f: seq<int>, at: int)
    requires f != []
    ensures Chain(ttl, f + [at]) == if at - Last(f) > ttl then 1 else 1 + Chain(ttl, f)
  {
    assert (f + [at])[..|f|] == f;
  }

  ghost predicate IsChainedTail(ttl: int, f: seq<int>, w: seq<int>) {
    |w| <= |f| && w == f[|f| - |w|..] && |w| <= Chain(ttl, f)
  }

  lemma ChainedStep(ttl: int, f: seq<int>, w: seq<int>, at: int)
    requires Ascending(f, at) && IsChainedTail(ttl, f, w) && f != [] && w != []
    ensures IsChainedTail(ttl, f + [at], WindowNext(ttl, w, at))
  {
    ChainStep(ttl, f, at);
    if at >= w[0] + ttl {
      assert [at] == (f + [at])[|f|..];
    } else {
      assert w[0] == f[|f| - |w|] <= Last(f);
      assert w + [at] == (f + [at])[|f| - |w|..];
    }
  }

  /** A window is a tail of the failures, and one chain for the map. */
  lemma {:induction false} WindowIsChained(cfg: Config, f: seq<int>, t: int)
    requires Ascending(f, t)
    ensures IsChainedTail(cfg.ttl, f, Window(cfg.ttl, f))
  {
    if f == [] {
    } else if |f| == 1 {
      assert Window(cfg.ttl, f[..0]) == [];
    } else {
      var f', a := f[..|f| - 1], f[|f| - 1];
      assert f == f' + [a];
      WindowIsChained(cfg, f', a);
      HistoryStep(cfg, f', a);
      ChainedStep(cfg.ttl, f', Window(cfg.ttl, f'), a);
    }
  }

  lemma {:induction false} LockEndBound(cfg: Config, f: seq<int>, t: int)
    requires Ascending(f, t) && LockEnd(cfg, f).Some?
    ensures LockEnd(cfg, f).value <= t + cfg.lockout
  {
    if |Window(cfg.ttl, f)| >= cfg.max {
    } else {
      LockEndBound(cfg, f[..|f| - 1], t);
    }
  }

  /** At t, the map's lock outlasts the one of Redis, if that is not over. */
  ghost predicate Outlasts(cfg: Config, f: seq<int>, p: seq<int>, t: int) {
    var end := LockEnd(cfg, f);
    end.None? || t >= end.value || (p != [] && LockUntil(cfg, p) >= end.value)
  }

  /** The map's lock after one more failure: not shorter, and a full one from the
      maximum on. */
  lemma LockUntilGrows(cfg: Config, p: seq<int>, at: int)
    requires cfg.max >= 1 && |p| + 1 < TWO31 && Last(p) <= at
    ensures |p| + 1 >= cfg.max ==> LockUntil(cfg, p + [at]) == at + cfg.lockout
    ensures |p| + 1 < cfg.max ==> LockUntil(cfg, p + [at]) == LockUntil(cfg, p) == 0
  {
    LockUntilUnwrapped(cfg, p);
    LockUntilUnwrapped(cfg, p + [at]);
  }

  lemma OutlastsGrows(cfg: Config, f: seq<int>, p: seq<int>, at: int)
    requires cfg.max >= 1 && Ascending(f, at) && |p| + 1 < TWO31 && Last(p) <= at
    requires Outlasts(cfg, f, p, at) && |p| + 1 >= |Window(cfg.ttl, f + [at])|
    ensures Outlasts(cfg, f + [at], p + [at], at)
  {
    HistoryStep(cfg, f, at);
    LockUntilGrows(cfg, p, at);
    if LockEnd(cfg, f).Some? {
      LockEndBound(cfg, f, at);
    }
  }

  lemma TailCoversWindow(cfg: Config, f: seq<int>, p: seq<int>, at: int)
    requires EpochIsTail(cfg, f, p, at) && Ascending(f, at)
    ensures |p| + 1 >= |Window(cfg.ttl, f + [at])|
  {
    TailGrows(cfg, f, p, at);
    assert Ascending(f + [at], at);
    WindowIsChained(cfg, f + [at], at);
  }

  lemma TailEndsAlike(cfg: Config, f: seq<int>, p: seq<int>, at: int)
    requires EpochIsTail(cfg, f, p, at) && Ascending(f, at) && at > 0
    ensures |p| <= |f| && Last(p) <= at
  {
    assert p != [] ==> Last(p) == Last(f);
  }

  lemma {:induction false} MapOutlastsRedis(cfg: Config, es: seq<Event>, ip: string, t: int)
    requires cfg.max >= 1 && Timed(es) && After(es, t) && |FailTimes(es, ip)| < TWO31
    ensures Outlasts(cfg, FailTimes(es, ip), Epoch(cfg, es, ip), t)
  {
    if es == [] {
      assert FailTimes(es, ip) == [];
    } else {
      var es', e := es[..|es| - 1], es[|es| - 1];
      TimedPrefix(es);
      MapOutlastsRedis(cfg, es', ip, e.at);
      if e.Failure? && e.ip == ip {
        var f, p := FailTimes(es', ip), Epoch(cfg, es', ip);
        EpochsAreTails(cfg, es', ip, e.at);
        FailTimesSorted(es', ip, e.at);
        TailCoversWindow(cfg, f, p, e.at);
        TailEndsAlike(cfg, f, p, e.at);
        OutlastsGrows(cfg, f, p, e.at);
      }
    }
  }

  /** One direction never fails: whatever Redis locks, the map locks, for every
      history with evictions anywhere. */
  lemma RedisLocksNoMore(cfg: Config, es: seq<Event>, ip: string, t: int)
    requires cfg.max >= 1 && Timed(es) && After(es, t) && |FailTimes(es, ip)| < TWO31
    ensures RedisLocked(RedisRun(cfg, es), ip, t) ==> IsLocked(cfg, Run(cfg, es), ip, t)
  {
    RedisMeansHistory(cfg, es, ip, t);
    MapOutlastsRedis(cfg, es, ip, t);
    MapMatchesEpochs(cfg, es, ip);
  }

  /** Exactly when the two stores answer alike, for every history: the lock at t,
      and the result of a failure at t. */
  lemma StoresAgreeIff(cfg: Config, es: seq<Event>, ip: string, t: int)
    requires cfg.max != 0 && Timed(es) && After(es, t)
    ensures var f, p := FailTimes(es, ip), Epoch(cfg, es, ip);
      && (IsLocked(cfg, Run(cfg, es), ip, t) == RedisLocked(RedisRun(cfg, es), ip, t)
          <==> (LockedBy(cfg, p, t) <==> LockEnd(cfg, f).Some? && t < LockEnd(cfg, f).value))
      && (Some(Recorded(cfg, Run(cfg, es), ip, t).1)
          == RedisRecorded(RedisRun(cfg, es), ip, cfg.max, cfg.ttl, cfg.lockout, t, NoFault).1
          <==> (Wrap32(|p| + 1) >= cfg.max <==> |Window(cfg.ttl, f + [t])| >= cfg.max))
  {
    MapAnswers(cfg, es, ip, t);
    RedisMeansHistory(cfg, es, ip, t);
  }

  lemma MapAnswers(cfg: Config, es: seq<Event>, ip: string, t: int)
    requires cfg.max != 0 && Timed(es) && After(es, t)
    ensures IsLocked(cfg, Run(cfg, es), ip, t) <==> LockedBy(cfg, Epoch(cfg, es, ip), t)
    ensures Recorded(cfg, Run(cfg, es), ip, t).1 <==> Wrap32(|Epoch(cfg, es, ip)| + 1) >= cfg.max
  {
    MapMatchesEpochs(cfg, es, ip);
    LockoutMeansHistory(cfg, es, ip, t);
  }

  /** The i-th failure lies less than the lockout time before t, and its window held
      `max`. */
  ghost predicate FullAt(cfg: Config, f: seq<int>, i: int, t: int) {
    0 <= i < |f| && t < f[i] + cfg.lockout && |Window(cfg.ttl, f[..i + 1])| >= cfg.max
  }

  ghost predicate FullWindowSince(cfg: Config, f: seq<int>, t: int) {
    exists i :: FullAt(cfg, f, i, t)
  }

  lemma FullAtSame(cfg: Config, f: seq<int>, at: int, i: int, t: int)
    requires 0 <= i < |f|
    ensures FullAt(cfg, f, i, t) <==> FullAt(cfg, f + [at], i, t)
  {
    assert (f + [at])[..i + 1] == f[..i + 1];
  }

  lemma FullWindowStep(cfg: Config, f: seq<int>, at: int, t: int)
    ensures FullWindowSince(cfg, f + [at], t)
       <==> FullWindowSince(cfg, f, t) || (t < at + cfg.lockout && |Window(cfg.ttl, f + [at])| >= cfg.max)
  {
    var g := f + [at];
    assert g[..|f| + 1] == g;
    assert FullAt(cfg, g, |f|, t) <==> t < at + cfg.lockout && |Window(cfg.ttl, g)| >= cfg.max;
    forall i | 0 <= i < |f|
      ensures FullAt(cfg, f, i, t) <==> FullAt(cfg, g, i, t)
    {
      FullAtSame(cfg, f, at, i, t);
    }
  }

  lemma {:induction false} LockEndMeans(cfg: Config, f: seq<int>, t: int)
    requires Ascending(f, t)
    ensures LockEnd(cfg, f).Some? && t < LockEnd(cfg, f).value <==> FullWindowSince(cfg, f, t)
  {
    if f == [] {
    } else {
      var f', at := f[..|f| - 1], f[|f| - 1];
      assert f == f' + [at];
      LockEndMeans(cfg, f', t);
      HistoryStep(cfg, f', at);
      FullWindowStep(cfg, f', at, t);
      if LockEnd(cfg, f').Some? {
        LockEndBound(cfg, f', at);
      }
    }
  }

  /** Exactly when the two locks differ, for every history: the failures since the
      last eviction reach the maximum, the lockout time since the last has not
      passed, and no failure within that time found `max` in its window. */
  lemma LocksDifferIff(cfg: Config, es: seq<Event>, ip: string, t: int)
    requires cfg.max >= 1 && Timed(es) && After(es, t) && |FailTimes(es, ip)| < TWO31
    ensures var f, p := FailTimes(es, ip), Epoch(cfg, es, ip);
      IsLocked(cfg, Run(cfg, es), ip, t) != RedisLocked(RedisRun(cfg, es), ip, t)
      <==> |p| >= cfg.max && t < Last(f) + cfg.lockout && !FullWindowSince(cfg, f, t)
  {
    var f, p := FailTimes(es, ip), Epoch(cfg, es, ip);
    RedisLocksNoMore(cfg, es, ip, t);
    RedisMeansHistory(cfg, es, ip, t);
    FailTimesSorted(es, ip, t);
    LockEndMeans(cfg, f, t);
    EpochsAreTails(cfg, es, ip, t);
    LockoutMeansHistory(cfg, es, ip, t);
    assert p != [] ==> Last(p) == Last(f);
  }

  // ---- Within one window ----

  /** All failures lie within one window of the first. */
  ghost predicate InWindow(ttl: int, f: seq<int>) {
    forall i :: 0 <= i < |f| ==> f[i] < f[0] + ttl
  }

  lemma {:induction false} WindowIsAll(cfg: Config, f: seq<int>)
    requires InWindow(cfg.ttl, f)
    ensures Window(cfg.ttl, f) == f
    ensures LockEnd(cfg, f) == if f != [] && |f| >= cfg.max then Some(Last(f) + cfg.lockout) else None
  {
    if f == [] {
    } else {
      var f', a := f[..|f| - 1], f[|f| - 1];
      InWindowPrefix(cfg.ttl, f);
      WindowIsAll(cfg, f');
      HistoryStep(cfg, f', a);
      assert f == f' + [a];
    }
  }

  lemma InWindowPrefix(ttl: int, f: seq<int>)
    requires f != [] && InWindow(ttl, f)
    ensures InWindow(ttl, f[..|f| - 1])
    ensures |f| > 1 ==> f[|f| - 1] < f[..|f| - 1][0] + ttl
  {
    var f' := f[..|f| - 1];
    assert forall i :: 0 <= i < |f'| ==> f'[i] == f[i];
  }

  /** The keys of an IP whose failures f lie within one window. */
  ghost predicate KeysAreAll(cfg: Config, db: Db, ip: string, f: seq<int>) {
    && (f == [] ==> ip !in db.counters)
    && (f != [] ==> ip in db.counters && db.counters[ip] == Counter(|f|, Some(f[0] + cfg.ttl)))
    && (ip in db.blocked <==> f != [] && |f| >= cfg.max)
    && (ip in db.blocked ==> db.blocked[ip] == Last(f) + cfg.lockout)
  }

  lemma KeysInWindow(cfg: Config, db: Db, ip: string, f: seq<int>)
    requires KeysMatch(cfg, db, ip, f) && InWindow(cfg.ttl, f)
    ensures KeysAreAll(cfg, db, ip, f)
  {
    WindowIsAll(cfg, f);
  }

  /** There the counter is the number of failures, and the marker runs from the
      last one, from the maximum on. */
  lemma RedisMatches(cfg: Config, es: seq<Event>, ip: string)
    requires InWindow(cfg.ttl, FailTimes(es, ip))
    ensures KeysAreAll(cfg, RedisRun(cfg, es), ip, FailTimes(es, ip))
  {
    KeysAlwaysMatch(cfg, es, ip);
    KeysInWindow(cfg, RedisRun(cfg, es), ip, FailTimes(es, ip));
  }

  /** Within a window the in-memory epoch is all failures, or it was evicted after
      the window and any lock were over. */
  lemma EpochIsAllOrOver(cfg: Config, es: seq<Event>, ip: string, t: int)
    requires cfg.max != 0 && Timed(es) && After(es, t) && |FailTimes(es, ip)| < TWO31
    requires InWindow(cfg.ttl, FailTimes(es, ip))
    ensures var f, p := FailTimes(es, ip), Epoch(cfg, es, ip);
      || p == f
      || (p == [] && f != [] && t > Last(f) + cfg.ttl && (|f| >= cfg.max ==> t > Last(f) + cfg.lockout))
  {
    var f, p := FailTimes(es, ip), Epoch(cfg, es, ip);
    EpochsAreTails(cfg, es, ip, t);
    FailTimesSorted(es, ip, t);
    WindowIsAll(cfg, f);
    WindowIsChained(cfg, f, t);
    if |p| == |f| {
      assert f[0..] == f;
    }
  }

  /** Both stores answer alike: the same lock at every time, and the same result
      for the next failure, for every history in which the IP's failures lie
      within one window of its first, with evictions anywhere. */
  lemma StoresAgree(cfg: Config, es: seq<Event>, ip: string, t: int)
    requires cfg.max >= 1 && Timed(es) && After(es, t) && |FailTimes(es, ip)| < TWO31
    requires InWindow(cfg.ttl, FailTimes(es, ip))
    ensures IsLocked(cfg, Run(cfg, es), ip, t) == RedisLocked(RedisRun(cfg, es), ip, t)
    ensures InWindow(cfg.ttl, FailTimes(es, ip) + [t]) && |FailTimes(es, ip)| + 1 < TWO31 ==>
              RedisRecorded(RedisRun(cfg, es), ip, cfg.max, cfg.ttl, cfg.lockout, t, NoFault).1
              == Some(Recorded(cfg, Run(cfg, es), ip, t).1)
  {
    var f := FailTimes(es, ip);
    RedisMatches(cfg, es, ip);
    RedisMeansHistory(cfg, es, ip, t);
    MapMatchesEpochs(cfg, es, ip);
    LockoutMeansHistory(cfg, es, ip, t);
    EpochIsAllOrOver(cfg, es, ip, t);
    if InWindow(cfg.ttl, f + [t]) {
      WindowIsAll(cfg, f + [t]);
      if f != [] {
        FailTimesSorted(es, ip, t);
        assert (f + [t])[|f|] < (f + [t])[0] + cfg.ttl && f[0] <= Last(f);
      }
    }
  }

  // ---- Beyond one window ----

  /** n failures of an IP, d apart. */
  ghost function Steady(ip: string, d: int, n: nat): seq<Event> {
    if n == 0 then [] else Steady(ip, d, n - 1) + [Failure(ip, n * d)]
  }

  lemma {:induction false} SteadyIsTimed(ip: string, d: int, n: nat)
    requires d > 0
    ensures Timed(Steady(ip, d, n)) && After(Steady(ip, d, n), n * d + 1)
  {
    if n == 0 {
    } else {
      SteadyIsTimed(ip, d, n - 1);
      var es := Steady(ip, d, n - 1);
      assert n * d == (n - 1) * d + d;
      assert (n - 1) * d >= 0;
      assert forall i :: 0 <= i < |es| ==> es[i].at <= n * d;
    }
  }

  ghost predicate Evenly(f: seq<int>, d: int) {
    forall i :: 0 <= i < |f| ==> f[i] == (i + 1) * d
  }

  lemma {:induction false} SteadyTimes(ip: string, d: int, n: nat)
    ensures var f := FailTimes(Steady(ip, d, n), ip); |f| == n && Evenly(f, d)
  {
    if n == 0 {
    } else {
      var es := Steady(ip, d, n);
      SteadyTimes(ip, d, n - 1);
      assert es[..|es| - 1] == Steady(ip, d, n - 1);
    }
  }

  lemma MulSub(x: int, y: int, d: int)
    ensures x * d - y * d == (x - y) * d
  {
  }

  lemma {:induction false} SteadyWindow(cfg: Config, f: seq<int>, d: int)
    requires 0 < d < cfg.ttl && f != [] && Evenly(f, d)
    ensures var w := Window(cfg.ttl, f); w[0] == (|f| - |w| + 1) * d && (|w| - 1) * d < cfg.ttl
  {
    if |f| == 1 {
      assert Window(cfg.ttl, f[..0]) == [];
    } else {
      var f', a := f[..|f| - 1], f[|f| - 1];
      var w' := Window(cfg.ttl, f');
      SteadyWindow(cfg, f', d);
      HistoryStep(cfg, f', a);
      assert f == f' + [a];
      MulSub(|f|, |f'| - |w'| + 1, d);
      assert a - w'[0] == |w'| * d;
    }
  }

  lemma {:induction false} SteadyNeverLocks(cfg: Config, f: seq<int>, d: int)
    requires 0 < d < cfg.ttl <= (cfg.max - 1) * d && Evenly(f, d)
    ensures LockEnd(cfg, f) == None
  {
    if f == [] {
    } else {
      var f', w := f[..|f| - 1], Window(cfg.ttl, f);
      SteadyWindow(cfg, f, d);
      assert (|w| - 1) * d < (cfg.max - 1) * d;
      assert |w| >= cfg.max ==> (|w| - 1) * d >= (cfg.max - 1) * d;
      SteadyNeverLocks(cfg, f', d);
    }
  }

  /** Beyond one window they differ: the map's window slides with every failure,
      the Redis counter starts again. A guesser who leaves d between failures, less
      than the window but too much for `max` of them to fit into one, is never
      locked by Redis, and is locked by the map from the max-th failure on. */
  lemma SlidingVersusFixedWindow(cfg: Config, ip: string, d: int, n: nat, t: int)
    requires cfg.max >= 1 && 0 < d < cfg.ttl <= (cfg.max - 1) * d && n < TWO31 && t > n * d
    ensures var es := Steady(ip, d, n);
      && Timed(es) && After(es, t)
      && !RedisLocked(RedisRun(cfg, es), ip, t)
      && (n >= cfg.max && t < n * d + cfg.lockout ==> IsLocked(cfg, Run(cfg, es), ip, t))
  {
    var es := Steady(ip, d, n);
    var f := FailTimes(es, ip);
    SteadyIsTimed(ip, d, n);
    SteadyTimes(ip, d, n);
    SteadyNeverLocks(cfg, f, d);
    RedisMeansHistory(cfg, es, ip, t);
    if n >= cfg.max && t < n * d + cfg.lockout {
      forall i | |f| - cfg.max < i < |f|
        ensures f[i] - f[i - 1] <= cfg.ttl
      {
        assert (i + 1) * d == i * d + d;
      }
      LockHoldsInFull(cfg, es, ip, t);
    }
  }

  // ---- Failures a window apart ----

  /** Faultless failures of one IP at these times. */
  ghost function RecordAll(db: Db, ip: string, max: int, window: int, lockout: int, ts: seq<int>): Db {
    if ts == [] then db
    else
      var n := |ts| - 1;
      RedisRecorded(RecordAll(db, ip, max, window, lockout, ts[..n]), ip, max, window, lockout, ts[n], NoFault).0
  }

  /** Normally a counter is forgotten after its window: failures a window apart
      or more never lock. */
  lemma {:induction false} SpacedFailuresNeverLock(ip: string, max: int, window: int, lockout: int, ts: seq<int>)
    requires max >= 2 && forall i :: 0 < i < |ts| ==> ts[i] >= ts[i - 1] + window
    ensures var db := RecordAll(Db(map[], map[]), ip, max, window, lockout, ts);
      && ip !in db.blocked
      && (ts != [] ==> ip in db.counters && db.counters[ip] == Counter(1, Some(Last(ts) + window)))
      && (ts == [] ==> ip !in db.counters)
  {
    if ts == [] {
    } else {
      SpacedFailuresNeverLock(ip, max, window, lockout, ts[..|ts| - 1]);
    }
  }
}
