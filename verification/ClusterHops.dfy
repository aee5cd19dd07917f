/** Forwarding between nodes that share one routing table, each with or without a
    relay of its own (internal/forwarder/forwarder.go, internal/server/node.go). A
    forwarded request keeps all its RecipientIds, and the receiving node splits them
    again. */
module ClusterHops {
  import opened Common
  import opened Registries
  import opened Forwarder

  /** A node's relay: the virtual node unknown recipients fall back to, and where
      the relay server listens. */
  datatype Relay = Relay(id: string, address: string)

  /** One routing table, one address book, the relays, and which node handles the
      requests to an address; none does where a relay listens. */
  datatype Cluster = Cluster(
    lookup: string -> Route,
    address: string -> Option<string>,
    relay: string -> Option<Relay>,
    listener: string -> Option<string>)

  /** Nodes listen at their own addresses, relays are not nodes. */
  ghost predicate Wired(c: Cluster) {
    && (forall n :: c.address(n).Some? ==> c.listener(c.address(n).value) == Some(n))
    && (forall n :: c.relay(n).Some? ==>
          && c.relay(n).value.id != n && c.address(c.relay(n).value.id) == None
          && c.listener(c.relay(n).value.address) == None)
  }

  /** The outside world as `handle` of node n sees it: the relay is put in front of
      the registry and of the resolver. */
  function View(c: Cluster, n: string): Network {
    if c.relay(n).None? then Network((i, r) => c.lookup(r), (i, m) => c.address(m), a => Delivered)
    else
      var relay := c.relay(n).value;
      Network((i, r) => FallbackLookup(c.lookup(r), relay.id),
              (i, m) => StaticResolve(map[relay.id := relay.address], Some(c.address), m),
              a => Delivered)
  }

  /** The recipient is owned by a node that has an address. */
  ghost predicate Homed(c: Cluster, r: string) {
    c.lookup(r).Found? && c.address(c.lookup(r).node).Some?
  }

  /** Node n hands the recipient to its relay. */
  ghost predicate External(c: Cluster, n: string, r: string) {
    c.relay(n).Some? && (c.lookup(r).NotFound? || c.lookup(r) == Found(c.relay(n).value.id))
  }

  /** Where each recipient goes: to its home, to the relay, or nowhere. */
  lemma TargetAt(c: Cluster, n: string, rs: seq<string>, i: nat)
    requires Wired(c) && i < |rs|
    ensures Targets(n, View(c, n), rs)[i]
         == if Homed(c, rs[i]) && c.lookup(rs[i]).node != n then c.address(c.lookup(rs[i]).node)
            else if External(c, n, rs[i]) then Some(c.relay(n).value.address)
            else None
  {
    var net := View(c, n);
    assert Targets(n, net, rs)[i] == TargetOf(n, net.lookup(i, rs[i]), m => net.resolve(i, m));
  }

  /** The nodes that handle the request next: those that listen where n forwards it
      to. */
  ghost function NextNodes(c: Cluster, n: string, rs: seq<string>): set<string> {
    var ts := Targets(n, View(c, n), rs);
    set i | 0 <= i < |rs| && ts[i].Some? && c.listener(ts[i].value).Some? :: c.listener(ts[i].value).value
  }

  /** ... are exactly the other homes of its recipients. */
  lemma NextNodesAreHomes(c: Cluster, n: string, rs: seq<string>, m: string)
    requires Wired(c)
    ensures m in NextNodes(c, n, rs)
       <==> m != n && exists i :: 0 <= i < |rs| && Homed(c, rs[i]) && c.lookup(rs[i]).node == m
  {
    var ts := Targets(n, View(c, n), rs);
    if m in NextNodes(c, n, rs) {
      var i :| 0 <= i < |rs| && ts[i].Some? && c.listener(ts[i].value) == Some(m);
      TargetAt(c, n, rs, i);
      assert Homed(c, rs[i]) && c.lookup(rs[i]).node == m;
    }
    if m != n && exists i :: 0 <= i < |rs| && Homed(c, rs[i]) && c.lookup(rs[i]).node == m {
      var i :| 0 <= i < |rs| && Homed(c, rs[i]) && c.lookup(rs[i]).node == m;
      TargetAt(c, n, rs, i);
      assert c.listener(ts[i].value) == Some(m);
    }
  }

  // ---- When forwarding comes to rest ----

  /** The request, handled at n, is at rest after at most h further hops between
      nodes. */
  ghost predicate Settles(c: Cluster, n: string, rs: seq<string>, h: nat)
    decreases h
  {
    forall m :: m in NextNodes(c, n, rs) ==> h > 0 && Settles(c, m, rs, h - 1)
  }

  /** All recipients that have a home have this one. */
  ghost predicate OwnedBy(c: Cluster, rs: seq<string>, owner: string) {
    forall i :: 0 <= i < |rs| && Homed(c, rs[i]) ==> c.lookup(rs[i]).node == owner
  }

  /** The owner's own handle forwards nothing to another node, and nothing at all of
      what is not bound for its relay. */
  lemma OwnerKeepsAll(c: Cluster, owner: string, rs: seq<string>)
    requires Wired(c) && OwnedBy(c, rs, owner)
    ensures NextNodes(c, owner, rs) == {}
    ensures forall i :: 0 <= i < |rs| && !External(c, owner, rs[i]) ==> Targets(owner, View(c, owner), rs)[i] == None
  {
    forall m
      ensures m !in NextNodes(c, owner, rs)
    {
      NextNodesAreHomes(c, owner, rs, m);
    }
    forall i | 0 <= i < |rs| && !External(c, owner, rs[i])
      ensures Targets(owner, View(c, owner), rs)[i] == None
    {
      TargetAt(c, owner, rs, i);
    }
  }

  /** With one owner a request is at rest after at most one hop, wherever it
      enters. */
  lemma OneOwnerOneHop(c: Cluster, n: string, rs: seq<string>, owner: string)
    requires Wired(c) && OwnedBy(c, rs, owner)
    ensures Settles(c, n, rs, 1)
  {
    forall m | m in NextNodes(c, n, rs)
      ensures Settles(c, m, rs, 0)
    {
      NextNodesAreHomes(c, n, rs, m);
      assert m == owner;
      OwnerKeepsAll(c, owner, rs);
    }
  }

  /** With two owners every node forwards to some other owner, which forwards on in
      turn: no number of hops is enough. */
  lemma {:induction false} TwoOwnersNeverSettle(c: Cluster, n: string, rs: seq<string>, i: nat, j: nat, h: nat)
    requires Wired(c) && i < |rs| && j < |rs| && Homed(c, rs[i]) && Homed(c, rs[j])
    requires c.lookup(rs[i]).node != c.lookup(rs[j]).node
    ensures !Settles(c, n, rs, h)
    decreases h
  {
    var m := AnotherOwner(c, n, rs, i, j);
    if h == 0 {
    } else {
      TwoOwnersNeverSettle(c, m, rs, i, j, h - 1);
    }
  }

  lemma AnotherOwner(c: Cluster, n: string, rs: seq<string>, i: nat, j: nat) returns (m: string)
    requires Wired(c) && i < |rs| && j < |rs| && Homed(c, rs[i]) && Homed(c, rs[j])
    requires c.lookup(rs[i]).node != c.lookup(rs[j]).node
    ensures m in NextNodes(c, n, rs) && c.address(m).Some?
  {
    var k := if c.lookup(rs[i]).node != n then i else j;
    m := c.lookup(rs[k]).node;
    assert Homed(c, rs[k]) && c.lookup(rs[k]).node == m;
    NextNodesAreHomes(c, n, rs, m);
  }

  /** Exactly when forwarding comes to rest: all recipients that have a home have the
      same. Then one hop is enough. Relays do not count: nothing is forwarded on from
      there. */
  lemma SettlesIffOneOwner(c: Cluster, n: string, rs: seq<string>)
    requires Wired(c)
    ensures (exists h: nat :: Settles(c, n, rs, h)) <==> (exists owner :: OwnedBy(c, rs, owner))
    ensures (exists owner :: OwnedBy(c, rs, owner)) ==> Settles(c, n, rs, 1)
  {
    if exists owner :: OwnedBy(c, rs, owner) {
      var owner :| OwnedBy(c, rs, owner);
      OneOwnerOneHop(c, n, rs, owner);
      assert Settles(c, n, rs, 1);
    } else {
      var i, j := TwoOwners(c, rs);
      forall h: nat
        ensures !Settles(c, n, rs, h)
      {
        TwoOwnersNeverSettle(c, n, rs, i, j, h);
      }
    }
  }

  lemma TwoOwners(c: Cluster, rs: seq<string>) returns (i: nat, j: nat)
    requires !exists owner :: OwnedBy(c, rs, owner)
    ensures i < |rs| && j < |rs| && Homed(c, rs[i]) && Homed(c, rs[j])
    ensures c.lookup(rs[i]).node != c.lookup(rs[j]).node
  {
    assert !OwnedBy(c, rs, "");
    i :| 0 <= i < |rs| && Homed(c, rs[i]);
    assert !OwnedBy(c, rs, c.lookup(rs[i]).node);
    j :| 0 <= j < |rs| && Homed(c, rs[j]) && c.lookup(rs[j]).node != c.lookup(rs[i]).node;
  }

  // ---- How often an external recipient is mailed ----

  /** How many relays get recipient r while the request, handled at n, makes up to h
      hops. */
  ghost function Mailings(c: Cluster, n: string, rs: seq<string>, r: string, h: nat): nat
    decreases h, 0
  {
    (if External(c, n, r) then 1 else 0)
    + (if h == 0 then 0 else MailingsOf(c, NextNodes(c, n, rs), rs, r, h - 1))
  }

  ghost function MailingsOf(c: Cluster, ms: set<string>, rs: seq<string>, r: string, h: nat): nat
    decreases h, 1, |ms|
  {
    if ms == {} then 0
    else
      var m :| m in ms;
      Mailings(c, m, rs, r, h) + MailingsOf(c, ms - {m}, rs, r, h)
  }

  /** Node n, like any other that handles the request, has the recipient among those
      for its relay: the group it hands over holds it. */
  lemma ExternalIsHandedOver(c: Cluster, n: string, rs: seq<string>, i: nat)
    requires Wired(c) && i < |rs|
    ensures External(c, n, rs[i]) <==>
              c.relay(n).Some? && Targets(n, View(c, n), rs)[i] == Some(c.relay(n).value.address)
  {
    TargetAt(c, n, rs, i);
  }

  /** Every node of the cluster, and the entry node n, hands r to its relay. */
  ghost predicate ExternalEverywhere(c: Cluster, n: string, r: string) {
    External(c, n, r) && forall m :: c.address(m).Some? ==> External(c, m, r)
  }

  lemma SplitMailings(c: Cluster, ms: set<string>, rs: seq<string>, r: string, h: nat) returns (m: string)
    requires ms != {}
    ensures m in ms
    ensures MailingsOf(c, ms, rs, r, h) == Mailings(c, m, rs, r, h) + MailingsOf(c, ms - {m}, rs, r, h)
  {
    m :| m in ms && MailingsOf(c, ms, rs, r, h) == Mailings(c, m, rs, r, h) + MailingsOf(c, ms - {m}, rs, r, h);
  }

  lemma {:induction false} EachMailsOnce(c: Cluster, ms: set<string>, m: string, rs: seq<string>, r: string, h: nat)
    requires m in ms
    ensures MailingsOf(c, ms, rs, r, h) >= Mailings(c, m, rs, r, h)
    decreases |ms|
  {
    var x := SplitMailings(c, ms, rs, r, h);
    if x == m {
    } else {
      EachMailsOnce(c, ms - {x}, m, rs, r, h);
    }
  }

  /** One hop to nowhere, and one to a single node. */
  lemma MailingsOfNone(c: Cluster, n: string, rs: seq<string>, r: string, h: nat)
    requires NextNodes(c, n, rs) == {}
    ensures Mailings(c, n, rs, r, h) == if External(c, n, r) then 1 else 0
  {
    if h > 0 {
      assert MailingsOf(c, {}, rs, r, h - 1) == 0;
    }
  }

  lemma MailingsOfOne(c: Cluster, n: string, m: string, rs: seq<string>, r: string, h: nat)
    requires NextNodes(c, n, rs) == {m} && h >= 1
    ensures Mailings(c, n, rs, r, h) == (if External(c, n, r) then 1 else 0) + Mailings(c, m, rs, r, h - 1)
  {
    var x := SplitMailings(c, {m}, rs, r, h - 1);
    assert x == m && {m} - {m} == {};
    assert MailingsOf(c, {}, rs, r, h - 1) == 0;
  }

  /** With one owner, r is mailed once per node that handles the request: by the
      entry node and, if that is not the owner of some recipient, by the owner. */
  lemma OneOwnerMailings(c: Cluster, n: string, rs: seq<string>, owner: string, r: string, h: nat)
    requires Wired(c) && OwnedBy(c, rs, owner) && h >= 1
    ensures Mailings(c, n, rs, r, h) == (if External(c, n, r) then 1 else 0)
                                        + (if owner in NextNodes(c, n, rs) && External(c, owner, r) then 1 else 0)
  {
    var ms := NextNodes(c, n, rs);
    forall m | m in ms
      ensures m == owner
    {
      NextNodesAreHomes(c, n, rs, m);
    }
    OwnerKeepsAll(c, owner, rs);
    if owner in ms {
      assert ms == {owner};
      MailingsOfOne(c, n, owner, rs, r, h);
      MailingsOfNone(c, owner, rs, r, h - 1);
    } else {
      assert ms == {};
      MailingsOfNone(c, n, rs, r, h);
    }
  }

  lemma MailingsAlong(c: Cluster, n: string, m: string, rs: seq<string>, r: string, h: nat)
    requires h >= 1 && m in NextNodes(c, n, rs) && External(c, n, r)
    ensures Mailings(c, n, rs, r, h) >= 1 + Mailings(c, m, rs, r, h - 1)
  {
    EachMailsOnce(c, NextNodes(c, n, rs), m, rs, r, h - 1);
  }

  /** With two owners it is mailed again on every hop. */
  lemma {:induction false} TwoOwnersMailAgain(c: Cluster, n: string, rs: seq<string>, i: nat, j: nat, r: string, h: nat)
    requires Wired(c) && i < |rs| && j < |rs| && Homed(c, rs[i]) && Homed(c, rs[j])
    requires c.lookup(rs[i]).node != c.lookup(rs[j]).node && ExternalEverywhere(c, n, r)
    ensures Mailings(c, n, rs, r, h) >= h + 1
    decreases h
  {
    if h == 0 {
    } else {
      var m := AnotherOwner(c, n, rs, i, j);
      TwoOwnersMailAgain(c, m, rs, i, j, r, h - 1);
      MailingsAlong(c, n, m, rs, r, h);
    }
  }

  /** Some recipient of the request has its home at another node. */
  ghost predicate HomedElsewhere(c: Cluster, n: string, rs: seq<string>) {
    exists i :: 0 <= i < |rs| && Homed(c, rs[i]) && c.lookup(rs[i]).node != n
  }

  lemma ElsewhereMailsAgain(c: Cluster, n: string, rs: seq<string>, r: string)
    requires Wired(c) && ExternalEverywhere(c, n, r) && HomedElsewhere(c, n, rs)
    ensures Mailings(c, n, rs, r, 1) >= 2
  {
    var i :| 0 <= i < |rs| && Homed(c, rs[i]) && c.lookup(rs[i]).node != n;
    var m := c.lookup(rs[i]).node;
    NextNodesAreHomes(c, n, rs, m);
    EachMailsOnce(c, NextNodes(c, n, rs), m, rs, r, 0);
    assert External(c, n, r) && External(c, m, r);
  }

  lemma NowhereElse(c: Cluster, n: string, rs: seq<string>)
    requires Wired(c) && !HomedElsewhere(c, n, rs)
    ensures NextNodes(c, n, rs) == {}
  {
    forall m
      ensures m !in NextNodes(c, n, rs)
    {
      NextNodesAreHomes(c, n, rs, m);
    }
  }

  /** Exactly when an external recipient is mailed once: no recipient of the request
      has its home at another node. */
  lemma MailedOnceIff(c: Cluster, n: string, rs: seq<string>, r: string)
    requires Wired(c) && ExternalEverywhere(c, n, r)
    ensures (forall h: nat :: Mailings(c, n, rs, r, h) == 1) <==> !HomedElsewhere(c, n, rs)
  {
    if HomedElsewhere(c, n, rs) {
      ElsewhereMailsAgain(c, n, rs, r);
    } else {
      NowhereElse(c, n, rs);
      forall h: nat
        ensures Mailings(c, n, rs, r, h) == 1
      {
        MailingsOfNone(c, n, rs, r, h);
      }
    }
  }
}
