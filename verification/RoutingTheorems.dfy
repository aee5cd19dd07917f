/** What routing promises about every recipient of a request. */
module RoutingTheorems {
  import opened Common
  import opened Registries
  import opened RelayServer
  import opened Forwarder
  import RelayQueueModel

  // ---- Conservation of recipients ----

  /** The groups of a list of addresses, together. */
  ghost function Groups(rs: seq<string>, ts: seq<Option<string>>, addrs: seq<string>): multiset<string>
    requires |rs| == |ts|
  {
    if addrs == [] then multiset{}
    else
      var n := |addrs| - 1;
      Groups(rs, ts, addrs[..n]) + multiset(Group(rs, ts, Some(addrs[n])))
  }

  ghost predicate Different(addrs: seq<string>) {
    forall i, j :: 0 <= i < j < |addrs| ==> addrs[i] != addrs[j]
  }

  /** One more recipient lands in exactly one group. */
  lemma {:induction false} GroupsStep(rs: seq<string>, ts: seq<Option<string>>, addrs: seq<string>)
    requires |rs| == |ts| > 0 && Different(addrs)
    ensures var n := |rs| - 1;
      Groups(rs, ts, addrs)
      == Groups(rs[..n], ts[..n], addrs) + Single(rs[n], ts[n].Some? && ts[n].value in addrs)
  {
    if addrs == [] {
    } else {
      var m, n := |addrs| - 1, |rs| - 1;
      var init, last := addrs[..m], addrs[m];
      assert addrs == init + [last];
      assert last !in init;
      GroupsStep(rs, ts, init);
      LastOf(rs, ts, Some(last));
      if ts[n] == Some(last) {
        assert Single(rs[n], ts[n].Some? && ts[n].value in init) == multiset{};
      } else {
        assert (ts[n].Some? && ts[n].value in addrs) == (ts[n].Some? && ts[n].value in init);
      }
    }
  }

  ghost function Single(r: string, present: bool): multiset<string> {
    if present then multiset{r} else multiset{}
  }

  lemma Bag<T>(a: seq<T>, b: seq<T>)
    ensures multiset(a + b) == multiset(a) + multiset(b)
  {
  }

  /** The last recipient's share of a group and of the request. */
  lemma LastOf(rs: seq<string>, ts: seq<Option<string>>, t: Option<string>)
    requires |rs| == |ts| > 0
    ensures var n := |rs| - 1;
      && multiset(Group(rs, ts, t))
         == multiset(Group(rs[..n], ts[..n], t)) + Single(rs[n], ts[n] == t)
      && multiset(rs) == multiset(rs[..n]) + multiset{rs[n]}
  {
    var n := |rs| - 1;
    Bag(Group(rs[..n], ts[..n], t), [rs[n]]);
    Bag(Group(rs[..n], ts[..n], t), []);
    Bag(rs[..n], [rs[n]]);
    assert rs == rs[..n] + [rs[n]];
  }

  lemma {:induction false} NoGroups(addrs: seq<string>)
    ensures Groups([], [], addrs) == multiset{}
  {
    if addrs == [] {
    } else {
      NoGroups(addrs[..|addrs| - 1]);
    }
  }

  /** Local recipients and groups partition the request. */
  lemma {:induction false} GroupsPartition(rs: seq<string>, ts: seq<Option<string>>, addrs: seq<string>)
    requires |rs| == |ts| && Different(addrs)
    requires forall k :: 0 <= k < |ts| && ts[k].Some? ==> ts[k].value in addrs
    ensures multiset(Group(rs, ts, None)) + Groups(rs, ts, addrs) == multiset(rs)
  {
    if rs == [] {
      NoGroups(addrs);
      assert ts == [];
    } else {
      var n := |rs| - 1;
      GroupsPartition(rs[..n], ts[..n], addrs);
      GroupsStep(rs, ts, addrs);
      LastOf(rs, ts, None);
      assert ts[n].Some? ==> ts[n].value in addrs;
    }
  }

  ghost function Addresses(fs: seq<Forward>): seq<string> {
    seq(|fs|, i requires 0 <= i < |fs| => fs[i].addr)
  }

  lemma ForwardCarriesGroup(rs: seq<string>, ts: seq<Option<string>>, fs: seq<Forward>)
    requires |rs| == |ts| && fs != [] && Grouped(rs, ts, fs[|fs| - 1])
    ensures var init := fs[..|fs| - 1];
      multiset(TakenBack(fs)) + Sent(fs)
      == multiset(TakenBack(init)) + Sent(init) + multiset(Group(rs, ts, Some(fs[|fs| - 1].addr)))
  {
    var init, f := fs[..|fs| - 1], fs[|fs| - 1];
    if f.ok {
    } else {
      Bag(TakenBack(init), f.deliverTo);
    }
  }

  lemma AddressesStep(rs: seq<string>, ts: seq<Option<string>>, fs: seq<Forward>)
    requires |rs| == |ts| && fs != []
    ensures Groups(rs, ts, Addresses(fs))
         == Groups(rs, ts, Addresses(fs[..|fs| - 1])) + multiset(Group(rs, ts, Some(fs[|fs| - 1].addr)))
  {
    assert Addresses(fs)[..|fs| - 1] == Addresses(fs[..|fs| - 1]);
  }

  /** What was forwarded successfully and what was taken back are all groups. */
  lemma {:induction false} ForwardsCarryGroups(rs: seq<string>, ts: seq<Option<string>>, fs: seq<Forward>)
    requires |rs| == |ts| && forall i :: 0 <= i < |fs| ==> Grouped(rs, ts, fs[i])
    ensures multiset(TakenBack(fs)) + Sent(fs) == Groups(rs, ts, Addresses(fs))
  {
    if fs == [] {
    } else {
      ForwardsCarryGroups(rs, ts, fs[..|fs| - 1]);
      ForwardCarriesGroup(rs, ts, fs);
      AddressesStep(rs, ts, fs);
    }
  }

  /** No recipient is lost or doubled: for every registry, resolver and RPC
      outcome, and every order of the forwards, what is delivered locally and
      what was forwarded successfully is the request. */
  lemma RecipientsAreConserved(rs: seq<string>, ts: seq<Option<string>>, local: seq<string>, fs: seq<Forward>)
    requires |rs| == |ts| && Split(rs, ts, local, fs)
    ensures multiset(local) + Sent(fs) == multiset(rs)
  {
    var addrs := Addresses(fs);
    forall k | 0 <= k < |ts| && ts[k].Some?
      ensures ts[k].value in addrs
    {
      assert HasForward(fs, ts[k].value);
      var i :| 0 <= i < |fs| && fs[i].addr == ts[k].value;
      assert addrs[i] == ts[k].value;
    }
    GroupsPartition(rs, ts, addrs);
    ForwardsCarryGroups(rs, ts, fs);
    Bag(Group(rs, ts, None), TakenBack(fs));
  }

  /** A group holds only recipients bound for it. */
  lemma {:induction false} GroupMembers(rs: seq<string>, ts: seq<Option<string>>, t: Option<string>, k: nat)
    returns (i: nat)
    requires |rs| == |ts| && k < |Group(rs, ts, t)|
    ensures i < |rs| && rs[i] == Group(rs, ts, t)[k] && ts[i] == t
  {
    var n := |rs| - 1;
    var init := Group(rs[..n], ts[..n], t);
    if k < |init| {
      i := GroupMembers(rs[..n], ts[..n], t, k);
    } else {
      i := n;
    }
  }

  /** A group keeps the order of the request: its first recipient comes first. */
  lemma {:induction false} GroupKeepsOrder(rs: seq<string>, ts: seq<Option<string>>, t: Option<string>)
    requires |rs| == |ts| > 0
    ensures Group(rs, ts, t) == (if ts[0] == t then [rs[0]] else []) + Group(rs[1..], ts[1..], t)
    decreases |rs|
  {
    var n := |rs| - 1;
    if n == 0 {
      assert Group(rs[1..], ts[1..], t) == [];
      assert Group(rs[..0], ts[..0], t) == [];
    } else {
      GroupKeepsOrder(rs[..n], ts[..n], t);
      assert rs[..n][1..] == rs[1..][..n - 1] && ts[..n][1..] == ts[1..][..n - 1];
    }
  }

  /** So every forwarded recipient is owned by a node that resolved to the
      address it was sent to. */
  lemma ForwardedToTheirOwner(node: string, net: Network, rs: seq<string>, local: seq<string>, fs: seq<Forward>,
                              j: nat, k: nat) returns (i: nat)
    requires Split(rs, Targets(node, net, rs), local, fs) && j < |fs| && k < |fs[j].deliverTo|
    ensures i < |rs| && rs[i] == fs[j].deliverTo[k]
    ensures net.lookup(i, rs[i]).Found? && net.lookup(i, rs[i]).node != node
    ensures net.resolve(i, net.lookup(i, rs[i]).node) == Some(fs[j].addr)
  {
    var ts := Targets(node, net, rs);
    assert Grouped(rs, ts, fs[j]);
    i := GroupMembers(rs, ts, Some(fs[j].addr), k);
    assert ts[i] == TargetOf(node, net.lookup(i, rs[i]), n => net.resolve(i, n));
  }

  // ---- A single node with a queued relay ----

  /** The registry falls back to the relay node and only the relay resolves. */
  function SingleNode(inner: (nat, string) -> Route, relayNode: string, relayAddr: string, call: string -> Rpc): Network {
    Network((i: nat, r: string) => FallbackLookup(inner(i, r), relayNode),
            (i: nat, n: string) => StaticResolve(map[relayNode := relayAddr], None, n),
            call)
  }

  lemma OnlyTheRelayIsRemote(node: string, inner: (nat, string) -> Route, relayNode: string, relayAddr: string,
                             call: string -> Rpc, rs: seq<string>, i: nat)
    requires i < |rs|
    ensures var t := Targets(node, SingleNode(inner, relayNode, relayAddr, call), rs)[i];
      t.Some? ==> t.value == relayAddr && (inner(i, rs[i]).NotFound? || inner(i, rs[i]) == Found(relayNode))
  {
    var net := SingleNode(inner, relayNode, relayAddr, call);
    var route := net.lookup(i, rs[i]);
    assert Targets(node, net, rs)[i] == TargetOf(node, route, n => net.resolve(i, n));
    assert route.Found? ==> net.resolve(i, route.node) == StaticResolve(map[relayNode := relayAddr], None, route.node);
  }

  /** A recipient reaches the relay only if the inner registry did not know it or
      named the relay node. */
  lemma OnlyUnknownsAreRelayed(node: string, inner: (nat, string) -> Route, relayNode: string, relayAddr: string,
                               call: string -> Rpc, rs: seq<string>, k: nat) returns (i: nat)
    requires k < |Group(rs, Targets(node, SingleNode(inner, relayNode, relayAddr, call), rs), Some(relayAddr))|
    ensures i < |rs|
    ensures rs[i] == Group(rs, Targets(node, SingleNode(inner, relayNode, relayAddr, call), rs), Some(relayAddr))[k]
    ensures inner(i, rs[i]).NotFound? || inner(i, rs[i]) == Found(relayNode)
  {
    i := GroupMembers(rs, Targets(node, SingleNode(inner, relayNode, relayAddr, call), rs), Some(relayAddr), k);
    OnlyTheRelayIsRemote(node, inner, relayNode, relayAddr, call, rs, i);
  }

  /** One relay job was accepted: its recipients are `to`, and the rest of it is the
      request's. */
  ghost predicate TookOne(q0: RelayQueueModel.State, q: RelayQueueModel.State, to: seq<string>, req: Request) {
    var msg := RelayQueueModel.Message(req.userId, to, req.subject, req.body, req.headers);
    && |q.log| == |q0.log| + 1 && q.log[..|q0.log|] == q0.log
    && q.log[|q0.log|].msg == msg && q.log[|q0.log|].sends == [] && q.log[|q0.log|].place.Buffered?
    && q.jobs == q0.jobs + [RelayQueueModel.Job(|q0.log|, msg, 0, 0)]
  }

  /** Whether the relay would take a message now: the body is small enough, the
      channel has a slot, and the select does not take a done context instead. */
  predicate Takes(q: RelayQueueModel.State, req: Request, ctxDone: bool, takeDone: bool) {
    && |req.body| <= 26_214_400
    && |q.jobs| < Max(q.cfg.workers * 8, 64) && !(ctxDone && takeDone)
  }

  lemma TwoDiffer(fs: seq<Forward>)
    requires Separate(fs)
    ensures |fs| >= 2 ==> fs[0].addr != fs[1].addr
  {
  }

  lemma AtMostOneForward(node: string, inner: (nat, string) -> Route, relayNode: string, relayAddr: string,
                         call: string -> Rpc, rs: seq<string>, local: seq<string>, fs: seq<Forward>)
    requires Split(rs, Targets(node, SingleNode(inner, relayNode, relayAddr, call), rs), local, fs)
    ensures |fs| <= 1 && (|fs| == 1 ==> fs[0].addr == relayAddr && fs[0].deliverTo != [])
  {
    var ts := Targets(node, SingleNode(inner, relayNode, relayAddr, call), rs);
    TwoDiffer(fs);
    forall i | 0 <= i < |fs|
      ensures fs[i].addr == relayAddr && fs[i].deliverTo != []
    {
      assert Grouped(rs, ts, fs[i]);
      var k :| 0 <= k < |ts| && ts[k] == Some(fs[i].addr);
      OnlyTheRelayIsRemote(node, inner, relayNode, relayAddr, call, rs, k);
      GroupNonEmpty(rs, ts, k);
    }
  }

  lemma {:induction false} GroupNonEmpty(rs: seq<string>, ts: seq<Option<string>>, k: nat)
    requires |rs| == |ts| && k < |rs|
    ensures Group(rs, ts, ts[k]) != []
  {
    var n := |rs| - 1;
    if k < n {
      GroupNonEmpty(rs[..n], ts[..n], k);
      assert ts[..n][k] == ts[k];
    }
  }

  /** End to end on one node with a queued relay: every recipient occurrence ends
      up either in the local handler's request or in the `to` list of one accepted
      relay job. The relay job holds, in order, exactly the recipients routed to
      the relay; if the body is too large or the queue does not take the message,
      the whole group is delivered locally and the queue is untouched. */
  lemma EndToEnd(node: string, inner: (nat, string) -> Route, relayNode: string, relayAddr: string,
                 call: string -> Rpc, req: Request, q0: RelayQueueModel.State, q: RelayQueueModel.State,
                 ctxDone: bool, takeDone: bool, localReq: Option<Request>, fs: seq<Forward>)
    requires Split(req.recipientIds, Targets(node, SingleNode(inner, relayNode, relayAddr, call), req.recipientIds),
                   Local(localReq), fs)
    requires Accounted(Some(q0), Some(q), Some(relayAddr), call, req, ctxDone, takeDone, fs)
    ensures var rs := req.recipientIds;
      var ts := Targets(node, SingleNode(inner, relayNode, relayAddr, call), rs);
      var outbound := Group(rs, ts, Some(relayAddr));
      if outbound != [] && Takes(q0, req, ctxDone, takeDone)
      then TookOne(q0, q, outbound, req) && multiset(Local(localReq)) + multiset(outbound) == multiset(rs)
      else q == q0 && multiset(Local(localReq)) == multiset(rs)
  {
    var rs := req.recipientIds;
    var ts := Targets(node, SingleNode(inner, relayNode, relayAddr, call), rs);
    RecipientsAreConserved(rs, ts, Local(localReq), fs);
    AtMostOneForward(node, inner, relayNode, relayAddr, call, rs, Local(localReq), fs);
    if |fs| == 1 {
      assert Grouped(rs, ts, fs[0]);
      OneForward(fs);
      RelayedOutcome(q0, req, fs[0].deliverTo, ctxDone, takeDone);
    } else {
      NothingOutbound(node, inner, relayNode, relayAddr, call, rs, Local(localReq), fs);
    }
  }

  lemma RelayedOutcome(q0: RelayQueueModel.State, req: Request, to: seq<string>, ctxDone: bool, takeDone: bool)
    requires to != []
    ensures var (q, ok) := Relayed(q0, req.(deliverTo := to), ctxDone, takeDone);
      && ok == Takes(q0, req, ctxDone, takeDone)
      && (if ok then TookOne(q0, q, to, req) else q == q0)
  {
  }

  lemma OneForward(fs: seq<Forward>)
    requires |fs| == 1
    ensures Sent(fs) == if fs[0].ok then multiset(fs[0].deliverTo) else multiset{}
  {
    assert fs[..0] == [];
  }

  lemma NothingOutbound(node: string, inner: (nat, string) -> Route, relayNode: string, relayAddr: string,
                        call: string -> Rpc, rs: seq<string>, local: seq<string>, fs: seq<Forward>)
    requires Split(rs, Targets(node, SingleNode(inner, relayNode, relayAddr, call), rs), local, fs) && fs == []
    ensures Group(rs, Targets(node, SingleNode(inner, relayNode, relayAddr, call), rs), Some(relayAddr)) == []
  {
    var ts := Targets(node, SingleNode(inner, relayNode, relayAddr, call), rs);
    NoForwardNoTarget(ts, fs, relayAddr);
    EmptyGroup(rs, ts, Some(relayAddr));
  }

  lemma NoForwardNoTarget(ts: seq<Option<string>>, fs: seq<Forward>, a: string)
    requires Covered(ts, {}, fs) && !HasForward(fs, a)
    ensures Some(a) !in ts
  {
  }

  /** The same of the real objects: an interceptor, a relay server and its queue. */
  method SendOnSingleNode(f: Interceptor, relay: RelayServer.Server, inner: (nat, string) -> Route, relayNode: string,
                          relayAddr: string, req: Request, ctxDone: bool, takeDone: bool)
    returns (localReq: Option<Request>)
    requires relay.queue != null && relay.queue.Valid()
    modifies f, relay.queue
    ensures relay.queue.Valid()
    ensures var rs := req.recipientIds;
      var ts := Targets(f.nodeId, SingleNode(inner, relayNode, relayAddr, a => DialFailed), rs);
      var outbound := Group(rs, ts, Some(relayAddr));
      if outbound != [] && Takes(old(relay.queue.View()), req, ctxDone, takeDone)
      then TookOne(old(relay.queue.View()), relay.queue.View(), outbound, req)
           && multiset(Local(localReq)) + multiset(outbound) == multiset(rs)
      else relay.queue.View() == old(relay.queue.View()) && multiset(Local(localReq)) == multiset(rs)
  {
    var call := (a: string) => DialFailed;
    var net := SingleNode(inner, relayNode, relayAddr, call);
    ghost var q0 := relay.queue.View();
    ghost var fs;
    localReq, fs := f.Handle(net, relay, Some(relayAddr), req, ctxDone, takeDone);
    EndToEnd(f.nodeId, inner, relayNode, relayAddr, call, req, q0, relay.queue.View(), ctxDone, takeDone, localReq, fs);
  }
}
