/** RegisterDomain RPCs that overlap (internal/server/server.go over
    internal/registry/redis/registry.go): claim check, route write, default write and
    store write are separate steps, on one store and one Redis that all nodes share. */
module RacingClaims {
  import opened Common
  import opened MemStore
  import opened Registries
  import opened RegistryTheorems

  /** How far an RPC past its claim check has come. */
  datatype Phase = Checked(rpc: Rpc) | Routed(rpc: Rpc) | Ready(rpc: Rpc)

  datatype State = State(d: Directory, pending: map<nat, Phase>)

  /** `id` names the RPC. */
  datatype Event =
    | Begin(id: nat, rpc: Rpc)
    | WriteRoute(id: nat, rpc: Rpc)
    | WriteDefault(id: nat, rpc: Rpc)
    | Save(id: nat, rpc: Rpc)

  predicate Enabled(s: State, e: Event) {
    match e
    case Begin(id, rpc) => id !in s.pending
    case WriteRoute(id, rpc) => id in s.pending && s.pending[id] == Checked(rpc)
    case WriteDefault(id, rpc) => id in s.pending && s.pending[id] == Routed(rpc)
    case Save(id, rpc) => id in s.pending && s.pending[id] == Ready(rpc)
  }

  /** A claim that is refused, invalid or already held is answered at once. */
  function Next(s: State, e: Event): State
    requires Enabled(s, e)
  {
    var r := e.rpc;
    match e
    case Begin(id, _) =>
      if r.name == "" || r.name in s.d.domains then s else s.(pending := s.pending[id := Checked(r)])
    case WriteRoute(id, _) =>
      s.(d := s.d.(redis := s.d.redis.(routes := s.d.redis.routes[r.name := r.node])),
         pending := s.pending[id := if r.isDefault then Routed(r) else Ready(r)])
    case WriteDefault(id, _) =>
      s.(d := s.d.(redis := s.d.redis.(defaultDomain := Some(r.name))), pending := s.pending[id := Ready(r)])
    case Save(id, _) =>
      State(s.d.(domains := WithDomain(s.d.domains, Domain(r.name, r.node, r.isDefault))), s.pending - {id})
  }

  predicate Legal(es: seq<Event>)
    decreases |es|, 0
  {
    es == [] || (Legal(es[..|es| - 1]) && Enabled(At(es[..|es| - 1]), es[|es| - 1]))
  }

  function At(es: seq<Event>): State
    requires Legal(es)
    decreases |es|, 1
  {
    if es == [] then State(EMPTY, map[]) else Next(At(es[..|es| - 1]), es[|es| - 1])
  }

  // ---- Reading the directory off the run ----

  /** The node whose route write for k came last. */
  ghost function LastRouter(es: seq<Event>, k: string): Option<string> {
    if es == [] then None
    else
      var e := es[|es| - 1];
      if e.WriteRoute? && e.rpc.name == k then Some(e.rpc.node) else LastRouter(es[..|es| - 1], k)
  }

  /** The node whose store write for k came last. */
  ghost function LastSaver(es: seq<Event>, k: string): Option<string> {
    if es == [] then None
    else
      var e := es[|es| - 1];
      if e.Save? && e.rpc.name == k then Some(e.rpc.node) else LastSaver(es[..|es| - 1], k)
  }

  /** The domain of the last default write. */
  ghost function RedisDefault(es: seq<Event>): Option<string> {
    if es == [] then None
    else
      var e := es[|es| - 1];
      if e.WriteDefault? then Some(e.rpc.name) else RedisDefault(es[..|es| - 1])
  }

  /** The domain of the last store write with the default flag, unless a later one
      without it wrote the same domain. */
  ghost function StoreDefault(es: seq<Event>): Option<string> {
    if es == [] then None
    else
      var e, before := es[|es| - 1], StoreDefault(es[..|es| - 1]);
      if !e.Save? then before
      else if e.rpc.isDefault then Some(e.rpc.name)
      else if before == Some(e.rpc.name) then None
      else before
  }

  ghost predicate Matches(s: State, es: seq<Event>, k: string) {
    && (if k in s.d.redis.routes then LastRouter(es, k) == Some(s.d.redis.routes[k]) else LastRouter(es, k) == None)
    && (if k in s.d.domains then LastSaver(es, k) == Some(s.d.domains[k].nodeId) else LastSaver(es, k) == None)
    && (IsDefault(s.d.domains, k) <==> StoreDefault(es) == Some(k))
    && s.d.redis.defaultDomain == RedisDefault(es)
  }

  lemma {:induction false} RunMatches(es: seq<Event>, k: string)
    requires Legal(es)
    ensures Matches(At(es), es, k)
  {
    if es == [] {
    } else {
      RunMatches(es[..|es| - 1], k);
      MatchStep(At(es[..|es| - 1]), es, k);
    }
  }

  lemma MatchStep(s: State, es: seq<Event>, k: string)
    requires es != [] && Enabled(s, es[|es| - 1]) && Matches(s, es[..|es| - 1], k)
    ensures Matches(Next(s, es[|es| - 1]), es, k)
  {
    var e := es[|es| - 1];
    if e.Save? {
      assert Next(s, e).d.domains == WithDomain(s.d.domains, Domain(e.rpc.name, e.rpc.node, e.rpc.isDefault));
    }
  }

  // ---- What is left when all RPCs have returned ----

  /** Some RPC has written the route of k and not yet the store. */
  ghost predicate UnderWay(s: State, k: string) {
    exists id :: id in s.pending && !s.pending[id].Checked? && s.pending[id].rpc.name == k
  }

  /** A route is stored or under way; a stored domain, one under way and the default
      have routes. */
  ghost predicate Covered(s: State) {
    && s.d.domains.Keys <= s.d.redis.routes.Keys
    && (forall k :: k in s.d.redis.routes ==> k in s.d.domains || UnderWay(s, k))
    && (forall id :: id in s.pending && !s.pending[id].Checked? ==> s.pending[id].rpc.name in s.d.redis.routes)
    && (s.d.redis.defaultDomain.Some? ==> s.d.redis.defaultDomain.value in s.d.redis.routes)
  }

  lemma CoveredStep(s: State, e: Event)
    requires Covered(s) && Enabled(s, e)
    ensures Covered(Next(s, e))
  {
    var s' := Next(s, e);
    forall k | k in s'.d.redis.routes
      ensures k in s'.d.domains || UnderWay(s', k)
    {
      if e.WriteRoute? && e.rpc.name == k {
        assert !s'.pending[e.id].Checked? && s'.pending[e.id].rpc.name == k;
      } else if k !in s'.d.domains {
        assert UnderWay(s, k);
        var id :| id in s.pending && !s.pending[id].Checked? && s.pending[id].rpc.name == k;
        assert id in s'.pending && !s'.pending[id].Checked? && s'.pending[id].rpc.name == k;
      }
    }
  }

  lemma {:induction false} RunCovered(es: seq<Event>)
    requires Legal(es)
    ensures Covered(At(es))
  {
    if es == [] {
    } else {
      RunCovered(es[..|es| - 1]);
      CoveredStep(At(es[..|es| - 1]), es[|es| - 1]);
    }
  }

  /** The node a target without a domain of its own is sent to. */
  ghost function Fallback(name: Option<string>, node: string -> Option<string>): Option<string> {
    if name.None? then None else node(name.value)
  }

  ghost predicate SameOwners(es: seq<Event>) {
    forall k :: LastRouter(es, k) == LastSaver(es, k)
  }

  ghost predicate SameDefault(es: seq<Event>) {
    Fallback(RedisDefault(es), k => LastRouter(es, k)) == Fallback(StoreDefault(es), k => LastSaver(es, k))
  }

  /** The two answers once all RPCs have returned. */
  lemma Answers(es: seq<Event>, target: string)
    requires Legal(es) && At(es).pending == map[]
    ensures var d, k := At(es).d, DomainOf(target);
      && (k in d.redis.routes <==> k in d.domains)
      && (k in d.domains ==>
            && LastRouter(es, k) == Some(d.redis.routes[k]) && LastSaver(es, k) == Some(d.domains[k].nodeId)
            && RedisLookup(d.redis, target) == Found(d.redis.routes[k])
            && TwoTier(d.domains, target) == Found(d.domains[k].nodeId))
      && (k !in d.domains ==>
            && RedisLookup(d.redis, target) == AsRoute(Fallback(RedisDefault(es), k => LastRouter(es, k)))
            && TwoTier(d.domains, target) == AsRoute(Fallback(StoreDefault(es), k => LastSaver(es, k))))
  {
    var s, k := At(es), DomainOf(target);
    RunCovered(es);
    RunMatches(es, k);
    assert !UnderWay(s, k);
    if k !in s.d.domains {
      if RedisDefault(es).Some? {
        RunMatches(es, RedisDefault(es).value);
      }
      StoreFallback(es, target);
    }
  }

  function AsRoute(n: Option<string>): Route {
    if n.Some? then Found(n.value) else NotFound
  }

  lemma StoreFallback(es: seq<Event>, target: string)
    requires Legal(es) && DomainOf(target) !in At(es).d.domains
    ensures TwoTier(At(es).d.domains, target) == AsRoute(Fallback(StoreDefault(es), k => LastSaver(es, k)))
  {
    var ds := At(es).d.domains;
    if StoreDefault(es).Some? {
      RunMatches(es, StoreDefault(es).value);
      assert IsDefault(ds, StoreDefault(es).value);
    }
    if exists k :: IsDefault(ds, k) {
      var k :| IsDefault(ds, k) && TwoTier(ds, target) == Found(ds[k].nodeId);
      RunMatches(es, k);
    }
  }

  /** One domain, asked for by its name. */
  lemma OwnerAnswers(es: seq<Event>, k: string)
    requires Legal(es) && At(es).pending == map[] && SameAnswers(At(es).d)
    ensures LastRouter(es, k) == LastSaver(es, k)
  {
    DomainOfAddress("", k);
    var t := "" + "@" + k;
    Answers(es, t);
    RunMatches(es, k);
    assert RedisLookup(At(es).d.redis, t) == TwoTier(At(es).d.domains, t);
  }

  lemma DefaultAnswers(es: seq<Event>)
    requires Legal(es) && At(es).pending == map[] && SameAnswers(At(es).d)
    ensures SameDefault(es)
  {
    var t := UnusedDomain(At(es).d.domains);
    Answers(es, t);
    assert RedisLookup(At(es).d.redis, t) == TwoTier(At(es).d.domains, t);
  }

  lemma TargetAnswers(es: seq<Event>, target: string)
    requires Legal(es) && At(es).pending == map[] && SameOwners(es) && SameDefault(es)
    ensures RedisLookup(At(es).d.redis, target) == TwoTier(At(es).d.domains, target)
  {
    Answers(es, target);
    assert LastRouter(es, DomainOf(target)) == LastSaver(es, DomainOf(target));
  }

  /** Exactly when the registries answer alike after any interleaving of RPCs: the
      last route write and the last store write of every domain are of one node, and
      so are the defaults. */
  lemma RaceAgreesIff(es: seq<Event>)
    requires Legal(es) && At(es).pending == map[]
    ensures SameAnswers(At(es).d) <==> SameOwners(es) && SameDefault(es)
  {
    if SameAnswers(At(es).d) {
      forall k
        ensures LastRouter(es, k) == LastSaver(es, k)
      {
        OwnerAnswers(es, k);
      }
      DefaultAnswers(es);
    }
    if SameOwners(es) && SameDefault(es) {
      forall target
        ensures RedisLookup(At(es).d.redis, target) == TwoTier(At(es).d.domains, target)
      {
        TargetAnswers(es, target);
      }
    }
  }

  // ---- Both claimants win ----

  lemma AtStep(es: seq<Event>, e: Event)
    requires Legal(es) && Enabled(At(es), e)
    ensures Legal(es + [e]) && At(es + [e]) == Next(At(es), e)
  {
    assert (es + [e])[..|es|] == es;
  }

  /** Two overlapping claims of one name: both pass the check and both are accepted,
      and Redis then names the one node, the store the other. */
  lemma BothClaimantsWin(a: string, b: string, name: string) returns (es: seq<Event>)
    requires name != "" && a != b
    ensures Legal(es) && At(es).pending == map[]
    ensures RedisLookup(At(es).d.redis, "@" + name) == Found(b)
    ensures TwoTier(At(es).d.domains, "@" + name) == Found(a)
  {
    var x, y := Claim(a, name, false), Claim(b, name, false);
    AtStep([], Begin(0, x));
    AtStep([Begin(0, x)], Begin(1, y));
    es := [Begin(0, x)] + [Begin(1, y)];
    AtStep(es, WriteRoute(0, x));
    es := es + [WriteRoute(0, x)];
    AtStep(es, WriteRoute(1, y));
    es := es + [WriteRoute(1, y)];
    AtStep(es, Save(1, y));
    es := es + [Save(1, y)];
    AtStep(es, Save(0, x));
    es := es + [Save(0, x)];
    DomainOfAddress("", name);
    assert "" + "@" + name == "@" + name;
  }
}
