/** Routing registries (internal/registry/local/registry.go,
    internal/registry/redis/registry.go, internal/relay/registry.go) and the RPCs
    that write them (internal/server/server.go). */
module Registries {
  import opened Common
  import opened MemStore

  /** The answer of a Lookup: an owning node, ErrNotFound, or another error. */
  datatype Route = Found(node: string) | NotFound | Broken

  // ---- Addresses ----

  function IndexOfAt(s: string): (r: int)
    ensures -1 <= r < |s|
    ensures r >= 0 ==> s[r] == '@' && '@' !in s[..r]
    ensures r < 0 ==> '@' !in s
  {
    if s == "" then -1
    else if s[0] == '@' then 0
    else
      var k := IndexOfAt(s[1..]);
      assert k >= 0 ==> s[..k + 1] == [s[0]] + s[1..][..k];
      if k < 0 then -1 else k + 1
  }

  /** The text after the first '@', or the whole target. */
  function DomainOf(target: string): string {
    var k := IndexOfAt(target);
    if k >= 0 then target[k + 1..] else target
  }

  lemma DomainOfAddress(user: string, domain: string)
    requires '@' !in user
    ensures DomainOf(user + "@" + domain) == domain
    ensures '@' !in domain ==> DomainOf(domain) == domain
  {
    var t := user + "@" + domain;
    var k := IndexOfAt(t);
    assert t[|user|] == '@' && '@' in t;
    assert forall i :: 0 <= i < |user| ==> t[i] == user[i] != '@';
    assert k == |user|;
    assert t[|user| + 1..] == domain;
  }

  // ---- Lookup ----

  ghost predicate IsDefault(ds: Domains, k: string) {
    k in ds && ds[k].isDefault
  }

  /** The reference: the owner of the target's domain, else the node of the
      default domain, else not found. */
  ghost function TwoTier(ds: Domains, target: string): Route {
    if DomainOf(target) in ds then Found(ds[DomainOf(target)].nodeId)
    else if exists k :: IsDefault(ds, k) then (var k :| IsDefault(ds, k); Found(ds[k].nodeId))
    else NotFound
  }

  datatype Redis = Redis(routes: map<string, string>, defaultDomain: Option<string>)

  function RedisLookup(r: Redis, target: string): Route {
    var domain := DomainOf(target);
    if domain in r.routes then Found(r.routes[domain])
    else if r.defaultDomain.None? || r.defaultDomain.value == domain then NotFound
    else if r.defaultDomain.value in r.routes then Found(r.routes[r.defaultDomain.value])
    else NotFound
  }

  /** What Redis looks like to one Lookup when some of its reads fail: a key that
      cannot be read is taken for missing. The reads are the route, the name of the
      default domain and the default's route. */
  function Readable(r: Redis, target: string, route: bool, def: bool, defRoute: bool): Redis {
    var domain := DomainOf(target);
    var routes := if route then r.routes else r.routes - {domain};
    Redis(if !defRoute && r.defaultDomain.Some? && r.defaultDomain.value != domain
          then routes - {r.defaultDomain.value} else routes,
          if def then r.defaultDomain else None)
  }

  class LocalRegistry {
    const nodeId: string
    const store: Store

    constructor (n: string, s: Store)
      ensures nodeId == n && store == s
    {
      nodeId, store := n, s;
    }

    /** Three tiers in the code; the user tier never changes the answer. */
    method Lookup(target: string) returns (r: Route)
      requires store.Valid()
      ensures r == TwoTier(store.domains, target)
      ensures var d := DomainOf(target);
        && (d in store.domains ==> r == Found(store.domains[d].nodeId))
        && (d !in store.domains ==>
              && (forall k :: k in store.domains && store.domains[k].isDefault ==> r == Found(store.domains[k].nodeId))
              && ((forall k :: k in store.domains ==> !store.domains[k].isDefault) ==> r == NotFound))
    {
      var at := IndexOfAt(target);
      if at >= 0 {
        if target in store.users {
          var d := store.GetDomain(target[at + 1..]);
          if d.Some? {
            return Found(d.value.nodeId);
          }
        }
      }
      var domainName := target;
      if at >= 0 {
        domainName := target[at + 1..];
      }
      var d := store.GetDomain(domainName);
      if d.Some? {
        return Found(d.value.nodeId);
      }
      var def := store.GetDefaultDomain();
      if def.None? {
        return NotFound;
      }
      assert IsDefault(store.domains, def.value.name);
      r := Found(def.value.nodeId);
    }
  }

  // ---- Heartbeats ----

  const HEARTBEAT_TTL: int := 30_000_000_000

  datatype Beat = Beat(node: string, address: string, at: int)

  ghost predicate LastBeat(beats: seq<Beat>, i: int, node: string) {
    0 <= i < |beats| && beats[i].node == node && forall j :: i < j < |beats| ==> beats[j].node != node
  }

  /** The node's last heartbeat carried this address, less than 30 s ago. */
  ghost predicate Announced(beats: seq<Beat>, node: string, address: string, now: int) {
    exists i :: LastBeat(beats, i, node) && beats[i].address == address && now < beats[i].at + HEARTBEAT_TTL
  }

  /** After a heartbeat at t, and until the next of that node, its address is known
      exactly before t + 30 s, whatever other nodes announce, and no other address
      is. */
  lemma HeartbeatLasts(before: seq<Beat>, b: Beat, after: seq<Beat>, address: string, now: int)
    requires forall j :: 0 <= j < |after| ==> after[j].node != b.node
    ensures Announced(before + [b] + after, b.node, address, now)
       <==> address == b.address && now < b.at + 30_000_000_000
  {
    var beats := before + [b] + after;
    assert beats[|before|] == b;
    forall j | |before| < j < |beats|
      ensures beats[j].node != b.node
    {
      assert beats[j] == after[j - |before| - 1];
    }
    assert LastBeat(beats, |before|, b.node);
  }

  /** The shared Redis instance. `beats` is the history of its node keys. */
  class RedisServer {
    var routes: map<string, string>
    var defaultDomain: Option<string>
    var nodes: map<string, (string, int)>
    ghost var beats: seq<Beat>

    /** A node key is that node's last heartbeat. */
    ghost predicate Beating()
      reads this
    {
      && (forall n :: n in nodes ==> exists i :: LastBeat(beats, i, n))
      && (forall i, n :: LastBeat(beats, i, n) ==>
            n in nodes && nodes[n] == (beats[i].address, beats[i].at + HEARTBEAT_TTL))
    }

    ghost function View(): Redis
      reads this
    {
      Redis(routes, defaultDomain)
    }

    constructor ()
      ensures View() == Redis(map[], None) && nodes == map[] && beats == [] && Beating()
    {
      routes, defaultDomain, nodes, beats := map[], None, map[], [];
    }
  }

  /** The answer of ResolveNode: an address, ErrNotFound, or another error. */
  datatype Resolution = Resolved(address: string) | NoHeartbeat | Unreachable

  class RedisRegistry {
    const nodeId: string
    const address: string
    const client: RedisServer
    const local: Store

    constructor (n: string, a: string, c: RedisServer, s: Store)
      ensures nodeId == n && address == a && client == c && local == s
    {
      nodeId, address, client, local := n, a, c, s;
    }

    /** Each of the three reads may fail. */
    method Lookup(target: string, route: bool, def: bool, defRoute: bool) returns (r: Route)
      ensures r == RedisLookup(Readable(client.View(), target, route, def, defRoute), target)
      ensures route && def && defRoute ==> r == RedisLookup(client.View(), target)
      ensures var d, main := DomainOf(target), client.defaultDomain;
        r == if route && d in client.routes then Found(client.routes[d])
             else if def && defRoute && main.Some? && main.value != d && main.value in client.routes
             then Found(client.routes[main.value])
             else NotFound
    {
      var domain := target;
      var at := IndexOfAt(target);
      if at >= 0 {
        domain := target[at + 1..];
      }
      if route && domain in client.routes {
        return Found(client.routes[domain]);
      }
      if !def || client.defaultDomain.None? || client.defaultDomain.value == domain {
        return NotFound;
      }
      var name := client.defaultDomain.value;
      if !defRoute || name !in client.routes {
        return NotFound;
      }
      r := Found(client.routes[name]);
    }

    /** Register of a domain: Redis first, then the local store. Each Redis write
        may fail and ends the call. */
    method RegisterDomainEntity(name: string, isDefault: bool, setRoute: bool, setDefault: bool) returns (ok: bool)
      requires local.Valid()
      modifies client`routes, client`defaultDomain, local`domains
      ensures local.Valid()
      ensures (Directory(local.domains, client.View()), ok)
           == Registered(old(Directory(local.domains, client.View())), nodeId, name, isDefault, setRoute, setDefault)
    {
      if !setRoute {
        return false;
      }
      client.routes := client.routes[name := nodeId];
      if isDefault {
        if !setDefault {
          return false;
        }
        client.defaultDomain := Some(name);
      }
      ok := local.SaveDomain(Domain(name, nodeId, isDefault));
    }

    /** Publishes the address: this is the node's last heartbeat now. */
    method Announce(now: int)
      requires client.Beating()
      modifies client`nodes, client`beats
      ensures client.Beating() && client.beats == old(client.beats) + [Beat(nodeId, address, now)]
    {
      client.nodes := client.nodes[nodeId := (address, now + HEARTBEAT_TTL)];
      client.beats := client.beats + [Beat(nodeId, address, now)];
      BeatAdded(old(client.beats), Beat(nodeId, address, now));
    }

    /** The own address always; of another node, the address of its last heartbeat
        while that is less than 30 s old. */
    method ResolveNode(n: string, now: int, fails: bool) returns (r: Resolution)
      requires client.Beating()
      ensures n == nodeId ==> r == Resolved(address)
      ensures n != nodeId ==> r.Unreachable? == fails
      ensures n != nodeId && !fails ==>
                forall a :: r == Resolved(a) <==> Announced(client.beats, n, a, now)
    {
      if n == nodeId {
        return Resolved(address);
      }
      if fails {
        return Unreachable;
      }
      if n in client.nodes && now < client.nodes[n].1 {
        return Resolved(client.nodes[n].0);
      }
      r := NoHeartbeat;
    }
  }

  lemma BeatAdded(beats: seq<Beat>, b: Beat)
    ensures LastBeat(beats + [b], |beats|, b.node)
    ensures forall i, n :: n != b.node ==> (LastBeat(beats + [b], i, n) <==> LastBeat(beats, i, n))
    ensures forall i :: LastBeat(beats + [b], i, b.node) ==> i == |beats|
  {
    var all := beats + [b];
    assert all[|beats|] == b;
    forall i, n | n != b.node
      ensures LastBeat(all, i, n) <==> LastBeat(beats, i, n)
    {
      assert forall j :: 0 <= j < |beats| ==> all[j] == beats[j];
    }
  }

  // ---- The store and Redis together ----

  datatype Directory = Directory(domains: Domains, redis: Redis)

  function Registered(d: Directory, node: string, name: string, isDefault: bool, setRoute: bool, setDefault: bool)
    : (Directory, bool)
  {
    if !setRoute then (d, false)
    else
      var routed := d.(redis := d.redis.(routes := d.redis.routes[name := node]));
      if isDefault && !setDefault then (routed, false)
      else
        var r := if isDefault then routed.redis.(defaultDomain := Some(name)) else routed.redis;
        if name == "" then (routed.(redis := r), false)
        else (Directory(WithDomain(d.domains, Domain(name, node, isDefault)), r), true)
  }

  datatype RpcResult = RpcOk | InvalidArgument | AlreadyExists | Internal | NoSuchDomain

  /** RegisterDomain: the claim check reads the store, then the registry writes. */
  function DomainClaimed(d: Directory, node: string, name: string, isDefault: bool, setRoute: bool, setDefault: bool)
    : (Directory, RpcResult)
  {
    if name == "" then (d, InvalidArgument)
    else if name in d.domains then (d, if d.domains[name].nodeId != node then AlreadyExists else RpcOk)
    else
      var (d', ok) := Registered(d, node, name, isDefault, setRoute, setDefault);
      (d', if ok then RpcOk else Internal)
  }

  /** RemapDomain writes the store alone. */
  function DomainRemapped(d: Directory, name: string, target: string): (Directory, RpcResult) {
    if name == "" || target == "" then (d, InvalidArgument)
    else if name !in d.domains then (d, NoSuchDomain)
    else (d.(domains := WithDomain(d.domains, d.domains[name].(nodeId := target))), RpcOk)
  }

  class Server {
    const nodeId: string
    const store: Store
    const registry: RedisRegistry

    constructor (s: Store, r: RedisRegistry)
      ensures nodeId == r.nodeId && store == s && registry == r
    {
      nodeId, store, registry := r.nodeId, s, r;
    }

    ghost function View(): Directory
      reads this, store, registry.client
    {
      Directory(store.domains, registry.client.View())
    }

    method RegisterDomain(name: string, isDefault: bool, setRoute: bool, setDefault: bool) returns (r: RpcResult)
      requires store.Valid() && registry.local == store && registry.nodeId == nodeId
      modifies registry.client`routes, registry.client`defaultDomain, store`domains
      ensures store.Valid()
      ensures (View(), r) == DomainClaimed(old(View()), nodeId, name, isDefault, setRoute, setDefault)
      ensures var known := name in old(store.domains);
        var writes := name != "" && !known && setRoute;
        var complete := writes && (isDefault ==> setDefault);
        && (r == InvalidArgument <==> name == "")
        && (r == AlreadyExists <==> name != "" && known && old(store.domains)[name].nodeId != nodeId)
        && (r == Internal <==> name != "" && !known && !complete)
        && (r == RpcOk <==> name != "" && (if known then old(store.domains)[name].nodeId == nodeId else complete))
        && registry.client.routes == (if writes then old(registry.client.routes)[name := nodeId]
                                      else old(registry.client.routes))
        && registry.client.defaultDomain == (if complete && isDefault then Some(name)
                                             else old(registry.client.defaultDomain))
        && (!complete ==> store.domains == old(store.domains))
        && (complete ==> name in store.domains && store.domains[name] == Domain(name, nodeId, isDefault))
    {
      if name == "" {
        return InvalidArgument;
      }
      var existing := store.GetDomain(name);
      if existing.Some? {
        if existing.value.nodeId != nodeId {
          return AlreadyExists;
        }
        return RpcOk;
      }
      var ok := registry.RegisterDomainEntity(name, isDefault, setRoute, setDefault);
      if !ok {
        return Internal;
      }
      r := RpcOk;
    }

    method RemapDomain(name: string, target: string) returns (r: RpcResult)
      requires store.Valid()
      modifies store`domains
      ensures store.Valid()
      ensures (View(), r) == DomainRemapped(old(View()), name, target)
      ensures var known := name in old(store.domains);
        && (r == InvalidArgument <==> name == "" || target == "")
        && (r == NoSuchDomain <==> name != "" && target != "" && !known)
        && (r == RpcOk <==> name != "" && target != "" && known)
        && (r != RpcOk ==> store.domains == old(store.domains))
        && (r == RpcOk ==> name in store.domains
                           && store.domains[name] == old(store.domains)[name].(nodeId := target))
        && View().redis == old(View()).redis
    {
      if name == "" {
        return InvalidArgument;
      }
      if target == "" {
        return InvalidArgument;
      }
      var d := store.GetDomain(name);
      if d.None? {
        return NoSuchDomain;
      }
      var ok := store.SaveDomain(d.value.(nodeId := target));
      r := if ok then RpcOk else Internal;
    }
  }

  // ---- Relay fallback ----

  /** FallbackRegistry: not-found becomes the relay node, errors stay errors. */
  function FallbackLookup(inner: Route, relayNode: string): (r: Route)
    ensures inner == NotFound ==> r == Found(relayNode)
    ensures inner != NotFound ==> r == inner
  {
    if inner.NotFound? then Found(relayNode) else inner
  }

  /** StaticResolver over an optional base. */
  function StaticResolve(entries: map<string, string>, base: Option<string -> Option<string>>, node: string)
    : (r: Option<string>)
    ensures node in entries ==> r == Some(entries[node])
    ensures node !in entries ==> r == if base == None then None else base.value(node)
  {
    if node in entries then Some(entries[node])
    else if base.Some? then base.value(node)
    else None
  }
}
