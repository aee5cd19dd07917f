/** The forwarding interceptor (internal/forwarder/forwarder.go): recipients are
    split by owner, grouped by address, forwarded, and taken back for local
    delivery when a forward fails. */
module Forwarder {
  import opened Common
  import opened Registries
  import opened RelayServer
  import RelayQueueModel

  /** Everything handle asks of the outside: the registry and the resolver, per
      position in the recipient list so that answers may change between calls,
      and the result of an RPC to an address. */
  datatype Network = Network(
    lookup: (nat, string) -> Route,
    resolve: (nat, string) -> Option<string>,
    call: string -> Rpc)

  datatype Rpc = Delivered | DialFailed | Rejected | Unavailable

  /** Where one recipient goes: an address, or local delivery. */
  function TargetOf(node: string, route: Route, resolve: string -> Option<string>): Option<string> {
    if !route.Found? || route.node == node then None else resolve(route.node)
  }

  function Targets(node: string, net: Network, rs: seq<string>): (ts: seq<Option<string>>)
    ensures |ts| == |rs|
  {
    seq(|rs|, i requires 0 <= i < |rs| => TargetOf(node, net.lookup(i, rs[i]), n => net.resolve(i, n)))
  }

  /** The recipients bound for one target, in order. */
  function Group(rs: seq<string>, ts: seq<Option<string>>, t: Option<string>): seq<string>
    requires |rs| == |ts|
  {
    if rs == [] then []
    else
      var n := |rs| - 1;
      Group(rs[..n], ts[..n], t) + (if ts[n] == t then [rs[n]] else [])
  }

  datatype Forward = Forward(addr: string, deliverTo: seq<string>, ok: bool)

  /** The recipients of the failed forwards, in forwarding order. */
  function TakenBack(fs: seq<Forward>): seq<string> {
    if fs == [] then []
    else
      var n := |fs| - 1;
      TakenBack(fs[..n]) + (if fs[n].ok then [] else fs[n].deliverTo)
  }

  ghost function Sent(fs: seq<Forward>): multiset<string> {
    if fs == [] then multiset{}
    else
      var n := |fs| - 1;
      Sent(fs[..n]) + (if fs[n].ok then multiset(fs[n].deliverTo) else multiset{})
  }

  /** What handle does with a request: one forward per remote address, in some
      order, with exactly that address's recipients; and locally the rest plus
      whatever had to be taken back. */
  ghost predicate Split(rs: seq<string>, ts: seq<Option<string>>, local: seq<string>, fs: seq<Forward>)
    requires |rs| == |ts|
  {
    && Separate(fs)
    && (forall i :: 0 <= i < |fs| ==> Grouped(rs, ts, fs[i]))
    && Covered(ts, {}, fs)
    && local == Group(rs, ts, None) + TakenBack(fs)
  }

  ghost predicate HasForward(fs: seq<Forward>, addr: string) {
    exists i :: 0 <= i < |fs| && fs[i].addr == addr
  }

  /** How far the first loop of handle has come. */
  ghost predicate Classified(rs: seq<string>, ts: seq<Option<string>>, local: seq<string>,
                             remote: map<string, seq<string>>)
    requires |rs| == |ts|
  {
    && local == Group(rs, ts, None)
    && (forall a :: a in remote <==> Some(a) in ts)
    && (forall a :: a in remote ==> remote[a] == Group(rs, ts, Some(a)))
  }

  /** How far the second loop has come, with the addresses of `todo` left. */
  ghost predicate Progress(rs: seq<string>, ts: seq<Option<string>>, todo: set<string>, local: seq<string>,
                           fs: seq<Forward>)
    requires |rs| == |ts|
  {
    && Separate(fs)
    && (forall i :: 0 <= i < |fs| ==> fs[i].addr !in todo && Grouped(rs, ts, fs[i]))
    && Covered(ts, todo, fs)
    && local == Group(rs, ts, None) + TakenBack(fs)
  }

  ghost predicate Separate(fs: seq<Forward>) {
    forall i, j :: 0 <= i < j < |fs| ==> fs[i].addr != fs[j].addr
  }

  ghost predicate Grouped(rs: seq<string>, ts: seq<Option<string>>, f: Forward)
    requires |rs| == |ts|
  {
    Some(f.addr) in ts && f.deliverTo == Group(rs, ts, Some(f.addr))
  }

  ghost predicate Covered(ts: seq<Option<string>>, todo: set<string>, fs: seq<Forward>) {
    forall k :: 0 <= k < |ts| && ts[k].Some? && ts[k].value !in todo ==> HasForward(fs, ts[k].value)
  }

  /** Every forward was answered by the network, or by the relay's queue when it
      went to the relay's address; nothing else touched the queue. */
  ghost predicate Accounted(q0: Option<RelayQueueModel.State>, q: Option<RelayQueueModel.State>,
                            relayAddr: Option<string>, call: string -> Rpc, req: Request, ctxDone: bool,
                            takeDone: bool, fs: seq<Forward>)
  {
    && q0.Some? == q.Some?
    && (forall i :: 0 <= i < |fs| && !(q0.Some? && relayAddr == Some(fs[i].addr)) ==>
          fs[i].ok == call(fs[i].addr).Delivered?)
    && (q0.Some? ==>
          && (forall i :: 0 <= i < |fs| && relayAddr == Some(fs[i].addr) ==>
                (q.value, fs[i].ok) == Relayed(q0.value, req.(deliverTo := fs[i].deliverTo), ctxDone, takeDone))
          && ((forall i :: 0 <= i < |fs| ==> relayAddr != Some(fs[i].addr)) ==> q == q0))
  }

  ghost function QueueOf(relay: RelayServer.Server): Option<RelayQueueModel.State>
    reads relay.queue
  {
    if relay.queue == null then None else Some(relay.queue.View())
  }

  class Interceptor {
    const nodeId: string
    var conns: set<string>

    constructor (n: string)
      ensures nodeId == n && conns == {}
    {
      nodeId, conns := n, {};
    }

    /** The first loop of handle. */
    method Classify(net: Network, rs: seq<string>) returns (local: seq<string>, remote: map<string, seq<string>>)
      ensures Classified(rs, Targets(nodeId, net, rs), local, remote)
    {
      local, remote := [], map[];
      ghost var ts := Targets(nodeId, net, rs);
      var i := 0;
      while i < |rs|
        invariant 0 <= i <= |rs|
        invariant Classified(rs[..i], ts[..i], local, remote)
      {
        ghost var target := TargetOf(nodeId, net.lookup(i, rs[i]), n => net.resolve(i, n));
        assert ts[i] == target;
        ClassifyStep(rs, ts, i, local, remote);
        var route := net.lookup(i, rs[i]);
        if !route.Found? || route.node == nodeId {
          local := local + [rs[i]];
        } else {
          var addr := net.resolve(i, route.node);
          assert target == addr;
          if addr.None? {
            local := local + [rs[i]];
          } else {
            remote := Filed(remote, addr.value, rs[i]);
          }
        }
        i := i + 1;
      }
      assert rs[..i] == rs && ts[..i] == ts;
    }

    /** One forward: dial through the pool, call, and drop the connection when
        the peer is unavailable. A queued relay at this address answers for
        itself. */
    method ForwardTo(call: string -> Rpc, relay: RelayServer.Server, relayAddr: Option<string>, req: Request,
                     addr: string, recipients: seq<string>, ctxDone: bool, takeDone: bool) returns (ok: bool)
      requires relay.queue != null ==> relay.queue.Valid()
      modifies this, relay.queue
      ensures relay.queue != null ==> relay.queue.Valid()
      ensures if relay.queue != null && relayAddr == Some(addr)
              then (relay.queue.View(), ok)
                   == Relayed(old(relay.queue.View()), req.(deliverTo := recipients), ctxDone, takeDone)
              else QueueOf(relay) == old(QueueOf(relay)) && ok == call(addr).Delivered?
      ensures relay.queue == null || relayAddr != Some(addr) ==>
                (addr in conns <==> !call(addr).Unavailable? && (addr in old(conns) || !call(addr).DialFailed?))
      ensures relay.queue != null && relayAddr == Some(addr) ==> addr in conns
      ensures addr in conns ==> conns == old(conns) + {addr}
      ensures addr !in conns ==> conns == old(conns) - {addr} && !ok
    {
      if relay.queue != null && relayAddr == Some(addr) {
        conns := conns + {addr};
        ok := relay.SendMessage(req.(deliverTo := recipients), ctxDone, takeDone, false);
        return;
      }
      var r := call(addr);
      if addr !in conns && r.DialFailed? {
        return false;
      }
      conns := conns + {addr};
      if r.Unavailable? {
        conns := conns - {addr};
      }
      ok := r.Delivered?;
    }

    /** handle: returns what the local handler is given (nothing at all when every
        recipient was forwarded) and, for the record, the forwards made. */
    method Handle(net: Network, relay: RelayServer.Server, relayAddr: Option<string>, req: Request, ctxDone: bool,
                  takeDone: bool)
      returns (localReq: Option<Request>, ghost fs: seq<Forward>)
      requires relay.queue != null ==> relay.queue.Valid()
      modifies this, relay.queue
      ensures relay.queue != null ==> relay.queue.Valid()
      ensures Split(req.recipientIds, Targets(nodeId, net, req.recipientIds), Local(localReq), fs)
      ensures Accounted(old(QueueOf(relay)), QueueOf(relay), relayAddr, net.call, req, ctxDone, takeDone, fs)
      ensures localReq.Some? ==> localReq.value == req.(recipientIds := localReq.value.recipientIds)
                                 && localReq.value.recipientIds != []
    {
      var rs := req.recipientIds;
      ghost var ts := Targets(nodeId, net, rs);
      var local, remote := Classify(net, rs);
      var todo := remote.Keys;
      fs := [];
      while todo != {}
        invariant todo <= remote.Keys
        invariant relay.queue != null ==> relay.queue.Valid()
        invariant Progress(rs, ts, todo, local, fs)
        invariant Accounted(old(QueueOf(relay)), QueueOf(relay), relayAddr, net.call, req, ctxDone, takeDone, fs)
        decreases |todo|
      {
        var addr :| addr in todo;
        ghost var q := QueueOf(relay);
        var ok := ForwardTo(net.call, relay, relayAddr, req, addr, remote[addr], ctxDone, takeDone);
        ghost var f := Forward(addr, remote[addr], ok);
        ProgressStep(rs, ts, todo, local, fs, f);
        AccountedStep(old(QueueOf(relay)), q, QueueOf(relay), relayAddr, net.call, req, ctxDone, takeDone, fs, f);
        if !ok {
          local := local + remote[addr];
        }
        fs := fs + [f];
        todo := todo - {addr};
      }
      localReq := None;
      if |local| > 0 {
        localReq := Some(req.(recipientIds := local));
      }
    }
  }

  lemma TakenBackStep(fs: seq<Forward>, f: Forward)
    ensures TakenBack(fs + [f]) == TakenBack(fs) + (if f.ok then [] else f.deliverTo)
    ensures Sent(fs + [f]) == Sent(fs) + (if f.ok then multiset(f.deliverTo) else multiset{})
  {
    assert (fs + [f])[..|fs|] == fs;
  }

  lemma CoveredStep(ts: seq<Option<string>>, todo: set<string>, fs: seq<Forward>, f: Forward)
    requires Covered(ts, todo, fs)
    ensures Covered(ts, todo - {f.addr}, fs + [f])
  {
    var fs' := fs + [f];
    assert fs'[|fs|] == f;
    forall k | 0 <= k < |ts| && ts[k].Some? && ts[k].value !in todo - {f.addr}
      ensures HasForward(fs', ts[k].value)
    {
      if ts[k].value != f.addr {
        var i :| 0 <= i < |fs| && fs[i].addr == ts[k].value;
        assert fs'[i].addr == ts[k].value;
      }
    }
  }

  lemma SeparateStep(fs: seq<Forward>, f: Forward)
    requires Separate(fs) && forall i :: 0 <= i < |fs| ==> fs[i].addr != f.addr
    ensures Separate(fs + [f])
  {
  }

  lemma LocalStep(g: seq<string>, fs: seq<Forward>, f: Forward)
    ensures g + TakenBack(fs + [f]) == (if f.ok then g + TakenBack(fs) else g + TakenBack(fs) + f.deliverTo)
  {
    TakenBackStep(fs, f);
  }

  lemma ProgressStep(rs: seq<string>, ts: seq<Option<string>>, todo: set<string>, local: seq<string>,
                     fs: seq<Forward>, f: Forward)
    requires |rs| == |ts| && Progress(rs, ts, todo, local, fs) && f.addr in todo && Grouped(rs, ts, f)
    ensures Progress(rs, ts, todo - {f.addr}, if f.ok then local else local + f.deliverTo, fs + [f])
  {
    SeparateStep(fs, f);
    CoveredStep(ts, todo, fs, f);
    LocalStep(Group(rs, ts, None), fs, f);
    var fs' := fs + [f];
    forall i | 0 <= i < |fs'|
      ensures fs'[i].addr !in todo - {f.addr} && Grouped(rs, ts, fs'[i])
    {
      assert i < |fs| ==> fs'[i] == fs[i];
    }
  }

  lemma AccountedStep(q0: Option<RelayQueueModel.State>, q: Option<RelayQueueModel.State>,
                      q': Option<RelayQueueModel.State>, relayAddr: Option<string>, call: string -> Rpc, req: Request,
                      ctxDone: bool, takeDone: bool, fs: seq<Forward>, f: Forward)
    requires Accounted(q0, q, relayAddr, call, req, ctxDone, takeDone, fs)
    requires forall i :: 0 <= i < |fs| ==> fs[i].addr != f.addr
    requires if q.Some? && relayAddr == Some(f.addr)
             then q'.Some? && (q'.value, f.ok) == Relayed(q.value, req.(deliverTo := f.deliverTo), ctxDone, takeDone)
             else q' == q && f.ok == call(f.addr).Delivered?
    ensures Accounted(q0, q', relayAddr, call, req, ctxDone, takeDone, fs + [f])
  {
    var fs' := fs + [f];
    assert forall i :: 0 <= i < |fs| ==> fs'[i] == fs[i];
    assert fs'[|fs|] == f;
  }

  function Filed(remote: map<string, seq<string>>, a: string, r: string): map<string, seq<string>> {
    remote[a := (if a in remote then remote[a] else []) + [r]]
  }

  lemma ClassifyStep(rs: seq<string>, ts: seq<Option<string>>, i: nat, local: seq<string>,
                     remote: map<string, seq<string>>)
    requires |rs| == |ts| && i < |rs| && Classified(rs[..i], ts[..i], local, remote)
    ensures ts[i].None? ==> Classified(rs[..i + 1], ts[..i + 1], local + [rs[i]], remote)
    ensures ts[i].Some? ==> Classified(rs[..i + 1], ts[..i + 1], local, Filed(remote, ts[i].value, rs[i]))
  {
    GroupStep(rs, ts, i);
  }

  function Local(r: Option<Request>): seq<string> {
    if r.Some? then r.value.recipientIds else []
  }

  lemma GroupStep(rs: seq<string>, ts: seq<Option<string>>, i: nat)
    requires |rs| == |ts| && i < |rs|
    ensures forall t :: Group(rs[..i + 1], ts[..i + 1], t)
                     == Group(rs[..i], ts[..i], t) + (if ts[i] == t then [rs[i]] else [])
    ensures ts[..i + 1] == ts[..i] + [ts[i]]
    ensures forall a :: Some(a) !in ts[..i] ==> Group(rs[..i], ts[..i], Some(a)) == []
  {
    assert rs[..i + 1][..i] == rs[..i] && ts[..i + 1][..i] == ts[..i];
    forall a | Some(a) !in ts[..i]
      ensures Group(rs[..i], ts[..i], Some(a)) == []
    {
      EmptyGroup(rs[..i], ts[..i], Some(a));
    }
  }

  lemma {:induction false} EmptyGroup(rs: seq<string>, ts: seq<Option<string>>, t: Option<string>)
    requires |rs| == |ts| && t !in ts
    ensures Group(rs, ts, t) == []
  {
    if rs == [] {
    } else {
      EmptyGroup(rs[..|rs| - 1], ts[..|rs| - 1], t);
    }
  }
}
