/** RegisterDomain when every node has a store of its own and all share one Redis
    (internal/server/server.go over internal/registry/redis/registry.go). The claim
    check reads the node's store only. */
module PrivateStores {
  import opened MemStore
  import opened Registries
  import opened RegistryTheorems

  datatype Fleet = Fleet(stores: map<string, Domains>, redis: Redis)

  ghost function StoreOf(f: Fleet, node: string): Domains {
    if node in f.stores then f.stores[node] else map[]
  }

  ghost function ServeOwn(f: Fleet, r: Rpc): (Fleet, RpcResult) {
    var (d, res) := DomainClaimed(Directory(StoreOf(f, r.node), f.redis), r.node, r.name, r.isDefault, true, true);
    (Fleet(f.stores[r.node := d.domains], d.redis), res)
  }

  ghost function FleetAt(rs: seq<Rpc>): Fleet {
    if rs == [] then Fleet(map[], EMPTY.redis) else ServeOwn(FleetAt(rs[..|rs| - 1]), rs[|rs| - 1]).0
  }

  /** The nodes that claimed a name, in the order of their first claims. */
  ghost function Claimants(rs: seq<Rpc>, name: string): seq<string> {
    if rs == [] then []
    else
      var before, r := Claimants(rs[..|rs| - 1], name), rs[|rs| - 1];
      if r.name == name && r.node !in before then before + [r.node] else before
  }

  ghost predicate Claims(rs: seq<Rpc>, name: string, node: string) {
    exists i :: 0 <= i < |rs| && rs[i].name == name && rs[i].node == node
  }

  ghost predicate AllDifferent(nodes: seq<string>) {
    forall i, j :: 0 <= i < j < |nodes| ==> nodes[i] != nodes[j]
  }

  lemma ClaimsStep(rs: seq<Rpc>, name: string, node: string)
    requires rs != []
    ensures Claims(rs, name, node)
       <==> Claims(rs[..|rs| - 1], name, node) || (rs[|rs| - 1].name == name && rs[|rs| - 1].node == node)
  {
    var init := rs[..|rs| - 1];
    if Claims(init, name, node) {
      var i :| 0 <= i < |init| && init[i].name == name && init[i].node == node;
      assert rs[i] == init[i];
    }
    if Claims(rs, name, node) {
      var i :| 0 <= i < |rs| && rs[i].name == name && rs[i].node == node;
      assert i < |init| ==> init[i] == rs[i];
    }
  }

  lemma {:induction false} ClaimantsAreThose(rs: seq<Rpc>, name: string, node: string)
    ensures node in Claimants(rs, name) <==> Claims(rs, name, node)
    ensures AllDifferent(Claimants(rs, name))
  {
    if rs == [] {
    } else {
      ClaimantsAreThose(rs[..|rs| - 1], name, node);
      ClaimsStep(rs, name, node);
    }
  }

  /** The node's store holds the name exactly if the node claimed it, as its own,
      and Redis routes the name to the last newcomer. */
  ghost predicate Placed(f: Fleet, claimants: seq<string>, name: string) {
    && (forall node :: name in StoreOf(f, node) <==> node in claimants)
    && (forall node :: name in StoreOf(f, node) ==> StoreOf(f, node)[name].nodeId == node)
    && (name in f.redis.routes <==> claimants != [])
    && (claimants != [] ==> f.redis.routes[name] == claimants[|claimants| - 1])
  }

  lemma PlacedStep(f: Fleet, r: Rpc, name: string, before: seq<string>, own: seq<string>)
    requires name != "" && Placed(f, before, name) && (r.name != "" ==> Placed(f, own, r.name))
    ensures Placed(ServeOwn(f, r).0, if r.name == name && r.node !in before then before + [r.node] else before, name)
  {
    var f' := ServeOwn(f, r).0;
    assert forall node :: node != r.node ==> StoreOf(f', node) == StoreOf(f, node);
  }

  lemma {:induction false} AlwaysPlaced(rs: seq<Rpc>, name: string)
    requires name != ""
    ensures Placed(FleetAt(rs), Claimants(rs, name), name)
    decreases |rs|
  {
    if rs == [] {
    } else {
      var init, r := rs[..|rs| - 1], rs[|rs| - 1];
      AlwaysPlaced(init, name);
      if r.name != "" {
        AlwaysPlaced(init, r.name);
      }
      PlacedStep(FleetAt(init), r, name, Claimants(init, name), Claimants(init, r.name));
    }
  }

  /** No claim is ever refused, whoever owns the domain. */
  lemma ClaimsAreNeverRefused(rs: seq<Rpc>, r: Rpc)
    requires r.name != ""
    ensures ServeOwn(FleetAt(rs), r).1 == RpcOk
  {
    AlwaysPlaced(rs, r.name);
  }

  /** The route leads to the node whose first claim of the name came last. */
  lemma LastNewcomerOwnsRoute(rs: seq<Rpc>, name: string)
    requires name != "" && Claimants(rs, name) != []
    ensures RedisLookup(FleetAt(rs).redis, "@" + name)
         == Found(Claimants(rs, name)[|Claimants(rs, name)| - 1])
  {
    AlwaysPlaced(rs, name);
    DomainOfAddress("", name);
    assert "" + "@" + name == "@" + name;
  }

  /** The first claimant keeps the route if and only if nobody else ever claims
      the name. */
  lemma FirstClaimantKeepsRouteIff(rs: seq<Rpc>, name: string)
    requires name != "" && Claimants(rs, name) != []
    ensures var first := Claimants(rs, name)[0];
      RedisLookup(FleetAt(rs).redis, "@" + name) == Found(first)
      <==> forall i :: 0 <= i < |rs| && rs[i].name == name ==> rs[i].node == first
  {
    var nodes := Claimants(rs, name);
    var last := nodes[|nodes| - 1];
    LastNewcomerOwnsRoute(rs, name);
    ClaimantsAreThose(rs, name, last);
    if |nodes| == 1 {
      forall i | 0 <= i < |rs| && rs[i].name == name
        ensures rs[i].node == nodes[0]
      {
        ClaimantsAreThose(rs, name, rs[i].node);
        assert Claims(rs, name, rs[i].node);
      }
    } else {
      assert last != nodes[0];
      var i :| 0 <= i < |rs| && rs[i].name == name && rs[i].node == last;
    }
  }
}
