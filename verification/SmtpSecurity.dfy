/** The security plugin's lockout (internal/plugin/smtp_security.go): on its own
    map, or on a shared lockout store when one is configured. */
module SmtpSecurity {
  import opened Common
  import opened Lockout
  import RedisLockout
  import RedisFaults

  /** Where the failures are kept. */
  datatype Locks = InMemory(ipMap: IpMap) | Shared(db: RedisLockout.Db)

  /** A failure is recorded: the new locks, and whether the IP is now locked. A
      store that fails is treated as if nothing was locked. */
  function LocksRecorded(cfg: Config, l: Locks, ip: string, now: int, fault: RedisLockout.Fault): (Locks, bool) {
    if cfg.max == 0 then (l, false)
    else
      match l
      case InMemory(m) =>
        var (m', locked) := Recorded(cfg, m, ip, now);
        (InMemory(m'), locked)
      case Shared(db) =>
        var (db', r) := RedisLockout.RedisRecorded(db, ip, cfg.max, cfg.ttl, cfg.lockout, now, fault);
        (Shared(db'), r == Some(true))
  }

  predicate LocksHold(cfg: Config, l: Locks, ip: string, now: int, readFails: bool) {
    match l
    case InMemory(m) => IsLocked(cfg, m, ip, now)
    case Shared(db) => cfg.max != 0 && !readFails && RedisLockout.RedisLocked(db, ip, now)
  }

  class Plugin {
    const cfg: Config
    const hostOnly: string -> string
    const lockoutStore: RedisLockout.Store?
    var ipMap: IpMap
    ghost var history: seq<Event>

    /** `history` is what the map has seen: the failures, unless a lockout store
        keeps them, and the evictions. */
    ghost predicate Valid()
      reads this, lockoutStore
    {
      ipMap == Run(cfg, history) && (lockoutStore != null ==> lockoutStore.Valid())
    }

    ghost function View(): Locks
      reads this, lockoutStore
    {
      if lockoutStore == null then InMemory(ipMap) else Shared(lockoutStore.View())
    }

    constructor (c: Config, host: string -> string, store: RedisLockout.Store?)
      ensures cfg == Config(c.max, if c.lockout == 0 then 900_000_000_000 else c.lockout,
                            if c.ttl == 0 then 3_600_000_000_000 else c.ttl)
      requires store != null ==> store.Valid()
      ensures hostOnly == host && lockoutStore == store && ipMap == map[] && history == [] && Valid()
    {
      var lockout, ttl := c.lockout, c.ttl;
      if lockout == 0 {
        lockout := 15 * 60 * SECOND;
      }
      if ttl == 0 {
        ttl := 3600 * SECOND;
      }
      cfg, hostOnly, lockoutStore := Config(c.max, lockout, ttl), host, store;
      ipMap, history := map[], [];
    }

    /** A call of the lockout store for this host. */
    ghost function CallFor(ip: string, now: int, fault: RedisLockout.Fault): RedisLockout.Call {
      RedisLockout.Call(ip, cfg.max, cfg.ttl, cfg.lockout, now, fault)
    }

    /** `fault` is the Redis command that fails, if any. On the map, the failure locks
        when the failures since the host's last eviction, as an int32, reach the
        maximum with it; on a store, when none of its commands fails and its counter
        does. */
    method RecordAuthFailure(remoteAddr: string, now: int, fault: RedisLockout.Fault) returns (locked: bool)
      requires Valid()
      modifies this, lockoutStore
      ensures Valid()
      ensures (View(), locked) == LocksRecorded(cfg, old(View()), hostOnly(remoteAddr), now, fault)
      ensures lockoutStore == null ==>
                && history == old(history) + [Failure(hostOnly(remoteAddr), now)]
                && (locked <==> cfg.max != 0
                                && Wrap32(|Epoch(cfg, old(history), hostOnly(remoteAddr))| + 1) >= cfg.max)
      ensures lockoutStore != null ==>
                var c := CallFor(hostOnly(remoteAddr), now, fault);
                && ipMap == old(ipMap) && history == old(history)
                && lockoutStore.calls == old(lockoutStore.calls) + (if cfg.max == 0 then [] else [c])
                && (locked <==> cfg.max != 0 && RedisFaults.Locks(old(lockoutStore.calls), c))
    {
      if lockoutStore == null {
        MapStep(cfg, history, hostOnly(remoteAddr), now);
        history := history + [Failure(hostOnly(remoteAddr), now)];
      }
      if cfg.max == 0 {
        return false;
      }
      var ip := hostOnly(remoteAddr);
      if lockoutStore != null {
        RedisFaults.AnswersMeanRun(lockoutStore.calls, CallFor(ip, now, fault), ip, now);
        var r := lockoutStore.RecordFailure(ip, cfg.max, cfg.ttl, cfg.lockout, now, fault);
        if r == None {
          return false;
        }
        return r.value;
      }
      var e := Entry(0, 0, 0);
      if ip in ipMap {
        e := ipMap[ip];
      }
      e := e.(lastSeen := Unix(now));
      e := e.(failures := Wrap32(e.failures + 1));
      locked := e.failures >= cfg.max;
      if locked {
        e := e.(lockedUntil := now + cfg.lockout);
      }
      ipMap := ipMap[ip := e];
    }

    /** On the map, the host is locked if and only if some failure since its last
        eviction locked it less than the lockout time ago; on a store, if and only if
        it can be read and the end of the last lock is still to come. */
    method IsLockedOut(remoteAddr: string, now: int, readFails: bool) returns (locked: bool)
      requires Valid()
      ensures locked == LocksHold(cfg, View(), hostOnly(remoteAddr), now, readFails)
      ensures lockoutStore == null && Timed(history) && After(history, now) ==>
                (locked <==> LockedBy(cfg, Epoch(cfg, history, hostOnly(remoteAddr)), now))
      ensures lockoutStore != null ==>
                var end := RedisFaults.LockOf(lockoutStore.calls, hostOnly(remoteAddr));
                (locked <==> cfg.max != 0 && !readFails && end.Some? && now < end.value)
    {
      if cfg.max == 0 {
        return false;
      }
      var ip := hostOnly(remoteAddr);
      if lockoutStore != null {
        RedisFaults.AnswersMeanRun(lockoutStore.calls, CallFor(ip, now, RedisLockout.NoFault), ip, now);
        var r := lockoutStore.IsLockedOut(ip, now, readFails);
        if r == None {
          return false;
        }
        return r.value;
      }
      if Timed(history) && After(history, now) {
        LockoutMeansHistory(cfg, history, ip, now);
      }
      locked := ip in ipMap && now < ipMap[ip].lockedUntil;
    }

    /** Visits the map in any order and deletes the stale entries. */
    method Evict(now: int)
      requires Valid()
      modifies this`ipMap, this`history
      ensures Valid() && history == old(history) + [Eviction(now)]
      ensures ipMap == Evicted(cfg, old(ipMap), now)
      ensures forall ip :: ip in ipMap <==>
                ip in old(ipMap)
                && !(old(ipMap)[ip].lastSeen < Unix(now - cfg.ttl) && now > old(ipMap)[ip].lockedUntil)
      ensures forall ip :: ip in ipMap ==> ipMap[ip] == old(ipMap)[ip]
    {
      var cutoff := Unix(now - cfg.ttl);
      var todo := ipMap.Keys;
      while todo != {}
        invariant todo <= ipMap.Keys <= old(ipMap).Keys && history == old(history)
        invariant forall ip :: ip in ipMap ==> ipMap[ip] == old(ipMap)[ip]
        invariant forall ip :: ip in old(ipMap) && ip !in todo ==>
                    (ip in ipMap <==> !Stale(cfg, old(ipMap)[ip], now))
        decreases |todo|
      {
        var ip :| ip in todo;
        todo := todo - {ip};
        if ipMap[ip].lastSeen < cutoff && now > ipMap[ip].lockedUntil {
          ipMap := ipMap - {ip};
        }
      }
      assert ipMap == Evicted(cfg, old(ipMap), now);
      history := history + [Eviction(now)];
      assert history[..|history| - 1] == old(history);
    }
  }

  lemma MapStep(cfg: Config, history: seq<Event>, ip: string, now: int)
    ensures Run(cfg, history + [Failure(ip, now)]) == Recorded(cfg, Run(cfg, history), ip, now).0
    ensures Recorded(cfg, Run(cfg, history), ip, now).1
       <==> cfg.max != 0 && Wrap32(|Epoch(cfg, history, ip)| + 1) >= cfg.max
  {
    assert (history + [Failure(ip, now)])[..|history|] == history;
    if cfg.max != 0 {
      MapMatchesEpochs(cfg, history, ip);
    }
  }
}
