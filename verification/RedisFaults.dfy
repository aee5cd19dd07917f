/** The Redis lockout store when its commands may fail (internal/plugin/redis_lockout.go):
    any sequence of calls for any IPs, each with the Redis command that fails on it,
    if any. */
module RedisFaults {
  import opened Common
  import opened RedisLockout

  // ---- The meaning of the keys ----

  /** The counter that call b created is over at t: its EXPIRE took effect, and the
      window has passed. */
  ghost predicate Over(b: Call, t: int) {
    !b.fault.AtExpire? && t >= b.at + b.window
  }

  /** The call is for this IP, and its INCR took effect. */
  ghost predicate Counts(c: Call, ip: string) {
    c.ip == ip && !c.fault.AtIncr?
  }

  /** The call that created the IP's current counter: the first to be counted, or the
      first when the counter before was over. */
  ghost function Birth(calls: seq<Call>, ip: string): (b: Option<nat>)
    ensures b.Some? ==> b.value < |calls| && Counts(calls[b.value], ip)
  {
    if calls == [] then None
    else
      var n := |calls| - 1;
      var b := Birth(calls[..n], ip);
      if !Counts(calls[n], ip) then b
      else if b.None? || Over(calls[b.value], calls[n].at) then Some(n)
      else b
  }

  ghost function Counted(calls: seq<Call>, ip: string): nat {
    if calls == [] then 0
    else Counted(calls[..|calls| - 1], ip) + (if Counts(calls[|calls| - 1], ip) then 1 else 0)
  }

  /** A new counter starts with this call. */
  ghost predicate Fresh(calls: seq<Call>, c: Call) {
    var b := Birth(calls, c.ip);
    b.None? || Over(calls[b.value], c.at)
  }

  /** What the counter reads after this call. */
  ghost function Size(calls: seq<Call>, c: Call): nat {
    if Fresh(calls, c) then 1 else Counted(calls[Birth(calls, c.ip).value..], c.ip) + 1
  }

  /** The call locks its IP: no command it needs fails, and the counter reaches the
      maximum. */
  ghost predicate Locks(calls: seq<Call>, c: Call) {
    && !c.fault.AtIncr? && !c.fault.AtSet? && !(c.fault.AtExpire? && Fresh(calls, c))
    && Size(calls, c) >= c.max
  }

  /** The call is answered with an error. */
  ghost predicate Errs(calls: seq<Call>, c: Call) {
    || c.fault.AtIncr?
    || (c.fault.AtExpire? && Fresh(calls, c))
    || (c.fault.AtSet? && Size(calls, c) >= c.max)
  }

  /** The end of the IP's last lock. */
  ghost function LockOf(calls: seq<Call>, ip: string): Option<int> {
    if calls == [] then None
    else
      var before, c := calls[..|calls| - 1], calls[|calls| - 1];
      if c.ip == ip && Locks(before, c) then Some(c.at + c.lockout) else LockOf(before, ip)
  }

  /** The keys of one IP, read off the calls. */
  ghost predicate KeysRead(db: Db, calls: seq<Call>, ip: string) {
    var b := Birth(calls, ip);
    && (if b.None? then ip !in db.counters
        else ip in db.counters && CounterIs(db.counters[ip], calls[b.value], Counted(calls[b.value..], ip))
             && Counted(calls[b.value..], ip) >= 1)
    && (if ip in db.blocked then LockOf(calls, ip) == Some(db.blocked[ip]) else LockOf(calls, ip) == None)
  }

  /** The counter of a birth and of the calls counted since. */
  ghost predicate CounterIs(k: Counter, b: Call, n: nat) {
    k == Counter(n, if b.fault.AtExpire? then None else Some(b.at + b.window))
  }

  lemma BirthStep(calls: seq<Call>, c: Call, ip: string)
    ensures var b := Birth(calls, ip);
      Birth(calls + [c], ip) == if !Counts(c, ip) then b
                                else if b.None? || Over(calls[b.value], c.at) then Some(|calls|)
                                else b
  {
    assert (calls + [c])[..|calls|] == calls;
  }

  lemma CountedStep(calls: seq<Call>, b: nat, c: Call, ip: string)
    requires b <= |calls|
    ensures Counted((calls + [c])[b..], ip) == Counted(calls[b..], ip) + (if Counts(c, ip) then 1 else 0)
  {
    var all := (calls + [c])[b..];
    assert all[..|all| - 1] == calls[b..] && all[|all| - 1] == c;
  }

  lemma CountedNone(calls: seq<Call>, ip: string)
    ensures Counted(calls[|calls|..], ip) == 0
  {
  }

  lemma LockStep(calls: seq<Call>, c: Call, ip: string)
    ensures LockOf(calls + [c], ip)
         == if c.ip == ip && Locks(calls, c) then Some(c.at + c.lockout) else LockOf(calls, ip)
  {
    assert (calls + [c])[..|calls|] == calls;
  }

  ghost function After(db: Db, c: Call): (Db, Option<bool>) {
    RedisRecorded(db, c.ip, c.max, c.window, c.lockout, c.at, c.fault)
  }

  lemma FreshIsDead(db: Db, calls: seq<Call>, c: Call)
    requires KeysRead(db, calls, c.ip)
    ensures Fresh(calls, c) <==> !Alive(db, c.ip, c.at)
  {
  }

  /** A call is answered as its history says. */
  lemma AnswerStep(db: Db, calls: seq<Call>, c: Call)
    requires KeysRead(db, calls, c.ip)
    ensures After(db, c).1 == if Errs(calls, c) then None else Some(Locks(calls, c))
  {
    FreshIsDead(db, calls, c);
  }

  lemma CounterStep(db: Db, calls: seq<Call>, c: Call)
    requires KeysRead(db, calls, c.ip)
    ensures var db' := After(db, c).0;
      && (c.fault.AtIncr? ==> db' == db)
      && (!c.fault.AtIncr? ==>
            && c.ip in db'.counters
            && db'.counters[c.ip].n == Size(calls, c)
            && (Fresh(calls, c) ==> CounterIs(db'.counters[c.ip], c, 1))
            && (!Fresh(calls, c) ==> db'.counters[c.ip].expires == db.counters[c.ip].expires))
      && (if Locks(calls, c) then db'.blocked == db.blocked[c.ip := c.at + c.lockout] else db'.blocked == db.blocked)
  {
    FreshIsDead(db, calls, c);
  }

  lemma OwnCallReads(db: Db, calls: seq<Call>, c: Call)
    requires KeysRead(db, calls, c.ip)
    ensures KeysRead(After(db, c).0, calls + [c], c.ip)
  {
    var b := Birth(calls, c.ip);
    BirthStep(calls, c, c.ip);
    LockStep(calls, c, c.ip);
    CounterStep(db, calls, c);
    CountedStep(calls, |calls|, c, c.ip);
    CountedNone(calls, c.ip);
    assert (calls + [c])[|calls|] == c;
    if b.Some? {
      CountedStep(calls, b.value, c, c.ip);
      assert (calls + [c])[b.value] == calls[b.value];
    }
  }

  lemma OtherCallReads(db: Db, calls: seq<Call>, c: Call, ip: string)
    requires KeysRead(db, calls, ip) && c.ip != ip
    ensures KeysRead(After(db, c).0, calls + [c], ip)
  {
    var b := Birth(calls, ip);
    BirthStep(calls, c, ip);
    LockStep(calls, c, ip);
    if b.Some? {
      CountedStep(calls, b.value, c, ip);
      assert (calls + [c])[b.value] == calls[b.value];
    }
  }

  /** For every sequence of calls and faults, and every IP: the counter counts the
      calls since its birth whose INCR took effect; it has an expiry, one window after
      its birth, if and only if the EXPIRE of that one call did not fail; and the
      marker is the end of the last lock. */
  lemma {:induction false} CounterMeansRun(calls: seq<Call>, ip: string)
    ensures KeysRead(CallRun(calls), calls, ip)
  {
    if calls == [] {
    } else {
      var before, c := calls[..|calls| - 1], calls[|calls| - 1];
      CounterMeansRun(before, ip);
      assert before + [c] == calls;
      if c.ip == ip {
        OwnCallReads(CallRun(before), before, c);
      } else {
        OtherCallReads(CallRun(before), before, c, ip);
      }
    }
  }

  /** What the two operations answer, for every history with faults. */
  lemma AnswersMeanRun(calls: seq<Call>, c: Call, ip: string, t: int)
    ensures After(CallRun(calls), c).1 == if Errs(calls, c) then None else Some(Locks(calls, c))
    ensures RedisLocked(CallRun(calls), ip, t) <==> LockOf(calls, ip).Some? && t < LockOf(calls, ip).value
  {
    CounterMeansRun(calls, c.ip);
    AnswerStep(CallRun(calls), calls, c);
    CounterMeansRun(calls, ip);
  }

  /** Exactly when a counter is forgotten after its window: when the EXPIRE of its
      first call did not fail. */
  lemma ForgottenIff(calls: seq<Call>, ip: string, t: int)
    requires Birth(calls, ip).Some?
    requires var b := calls[Birth(calls, ip).value]; t >= b.at + b.window
    ensures !Alive(CallRun(calls), ip, t) <==> !calls[Birth(calls, ip).value].fault.AtExpire?
  {
    CounterMeansRun(calls, ip);
  }

  // ---- A lost EXPIRE ----

  lemma {:induction false} LostBirthStays(calls: seq<Call>, more: seq<Call>, ip: string)
    requires Birth(calls, ip).Some? && calls[Birth(calls, ip).value].fault.AtExpire?
    ensures Birth(calls + more, ip) == Birth(calls, ip)
    ensures Counted((calls + more)[Birth(calls, ip).value..], ip)
         == Counted(calls[Birth(calls, ip).value..], ip) + Counted(more, ip)
  {
    var b := Birth(calls, ip).value;
    if more == [] {
      assert calls + more == calls;
    } else {
      var init, c := more[..|more| - 1], more[|more| - 1];
      LostBirthStays(calls, init, ip);
      assert calls + more == calls + init + [c];
      BirthStep(calls + init, c, ip);
      CountedStep(calls + init, b, c, ip);
      assert (calls + init)[b] == calls[b];
    }
  }

  /** If the one EXPIRE fails, the counter is never forgotten, whatever follows and
      whatever else fails: it counts every later INCR, and every later call from the
      max-th on whose INCR and SET take effect locks the IP, however far apart they
      are. */
  lemma LostExpiryNeverForgets(calls: seq<Call>, more: seq<Call>, c: Call)
    requires Birth(calls, c.ip).Some? && calls[Birth(calls, c.ip).value].fault.AtExpire?
    ensures var db := CallRun(calls + more);
      var n := Counted(calls[Birth(calls, c.ip).value..], c.ip) + Counted(more, c.ip);
      && c.ip in db.counters && db.counters[c.ip] == Counter(n, None)
      && (n + 1 >= c.max && !c.fault.AtIncr? && !c.fault.AtSet? ==>
            var (db', r) := After(db, c);
            r == Some(true) && forall t :: t < c.at + c.lockout ==> RedisLocked(db', c.ip, t))
  {
    LostBirthStays(calls, more, c.ip);
    CounterMeansRun(calls + more, c.ip);
    assert (calls + more)[Birth(calls, c.ip).value] == calls[Birth(calls, c.ip).value];
  }
}
