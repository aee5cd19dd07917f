/** When the two registries give one answer. */
module RegistryTheorems {
  import opened Common
  import opened MemStore
  import opened Registries

  /** Redis and the store hold the same directory. */
  ghost predicate Agree(d: Directory) {
    && Named(d.domains) && OneDefault(d.domains)
    && d.redis.routes.Keys == d.domains.Keys
    && (forall k :: k in d.domains ==> d.redis.routes[k] == d.domains[k].nodeId)
    && (forall k :: IsDefault(d.domains, k) <==> d.redis.defaultDomain == Some(k))
  }

  /** Then both lookups are the two-tier one, for every target. */
  lemma LookupsAgree(d: Directory, target: string)
    requires Agree(d)
    ensures RedisLookup(d.redis, target) == TwoTier(d.domains, target)
  {
    if d.redis.defaultDomain.Some? {
      assert IsDefault(d.domains, d.redis.defaultDomain.value);
    }
  }

  /** RegisterDomain RPCs, served by any of the nodes on the shared store and
      Redis. */
  datatype Rpc = Claim(node: string, name: string, isDefault: bool)

  ghost function Serve(d: Directory, r: Rpc): Directory {
    DomainClaimed(d, r.node, r.name, r.isDefault, true, true).0
  }

  ghost function ServeAll(d: Directory, rs: seq<Rpc>): Directory
    decreases |rs|
  {
    if rs == [] then d else ServeAll(Serve(d, rs[0]), rs[1..])
  }

  const EMPTY: Directory := Directory(map[], Redis(map[], None))

  lemma ServeKeepsAgree(d: Directory, r: Rpc)
    requires Agree(d)
    ensures Agree(Serve(d, r))
  {
    if r.name != "" && r.name !in d.domains {
      assert !IsDefault(d.domains, r.name);
      DirectRegisterKeepsAgree(d, r.node, r.name, r.isDefault);
    }
  }

  lemma {:induction false} RunKeepsAgree(d: Directory, rs: seq<Rpc>)
    requires Agree(d)
    ensures Agree(ServeAll(d, rs))
    decreases |rs|
  {
    if rs == [] {
    } else {
      ServeKeepsAgree(d, rs[0]);
      RunKeepsAgree(Serve(d, rs[0]), rs[1..]);
    }
  }

  /** After any sequence of RegisterDomain RPCs both registries answer alike for
      every target, and at most one domain is the default. */
  lemma RegistriesAgree(rs: seq<Rpc>, target: string)
    ensures var d := ServeAll(EMPTY, rs);
      && RedisLookup(d.redis, target) == TwoTier(d.domains, target)
      && OneDefault(d.domains)
  {
    RunKeepsAgree(EMPTY, rs);
    LookupsAgree(ServeAll(EMPTY, rs), target);
  }

  /** A claim is for ever: along such a run no domain changes its owner, and a
      later claim by another node is refused. */
  lemma {:induction false} ClaimsAreExclusive(d: Directory, rs: seq<Rpc>, name: string)
    requires Agree(d) && name in d.domains
    ensures name in ServeAll(d, rs).domains && ServeAll(d, rs).domains[name].nodeId == d.domains[name].nodeId
    ensures forall node, def :: node != d.domains[name].nodeId && name != "" ==>
              DomainClaimed(ServeAll(d, rs), node, name, def, true, true).1 == AlreadyExists
    decreases |rs|
  {
    if rs == [] {
    } else {
      ServeKeepsAgree(d, rs[0]);
      ClaimsAreExclusive(Serve(d, rs[0]), rs[1..], name);
    }
  }

  // ---- What breaks the agreement, exactly ----

  ghost predicate SameAnswers(d: Directory) {
    forall target :: RedisLookup(d.redis, target) == TwoTier(d.domains, target)
  }

  /** RemapDomain writes the store alone, so the registries agree afterwards
      exactly when the domain was remapped to the node that owned it. */
  lemma RemapAgreesIff(d: Directory, name: string, target: string)
    requires Agree(d) && name != "" && target != "" && name in d.domains
    ensures SameAnswers(DomainRemapped(d, name, target).0) <==> target == d.domains[name].nodeId
  {
    var d' := DomainRemapped(d, name, target).0;
    DomainOfAddress("", name);
    if target == d.domains[name].nodeId {
      assert d'.domains == d.domains by {
        WithSameDomain(d.domains, name);
      }
      forall t
        ensures RedisLookup(d'.redis, t) == TwoTier(d'.domains, t)
      {
        LookupsAgree(d, t);
      }
    } else {
      var t := "" + "@" + name;
      assert RedisLookup(d'.redis, t) == Found(d.domains[name].nodeId);
      assert TwoTier(d'.domains, t) == Found(target);
    }
  }

  lemma WithSameDomain(ds: Domains, name: string)
    requires Named(ds) && OneDefault(ds) && name in ds
    ensures WithDomain(ds, ds[name]) == ds
  {
  }

  lemma UnusedDomain(ds: Domains) returns (t: string)
    ensures DomainOf(t) !in ds
  {
    var n := LongerThanAll(ds.Keys);
    t := seq(n, _ => 'x');
    assert IndexOfAt(t) < 0;
  }

  lemma {:induction false} LongerThanAll(ks: set<string>) returns (n: nat)
    ensures forall k :: k in ks ==> |k| < n
    decreases |ks|
  {
    if ks == {} {
      n := 0;
    } else {
      var k :| k in ks;
      var m := LongerThanAll(ks - {k});
      n := if m > |k| then m else |k| + 1;
    }
  }

  /** Register called directly, past the claim check, by the node that wins the
      domain: the registries agree afterwards exactly unless it takes the default
      flag from the current default domain, which the store forgets and Redis
      keeps. */
  lemma DirectRegisterAgreesIff(d: Directory, node: string, name: string, isDefault: bool)
    requires Agree(d) && name != ""
    ensures SameAnswers(Registered(d, node, name, isDefault, true, true).0)
       <==> isDefault || d.redis.defaultDomain != Some(name)
  {
    var d' := Registered(d, node, name, isDefault, true, true).0;
    var x := Domain(name, node, isDefault);
    assert d'.domains == WithDomain(d.domains, x);
    if isDefault || d.redis.defaultDomain != Some(name) {
      DirectRegisterKeepsAgree(d, node, name, isDefault);
      forall t
        ensures RedisLookup(d'.redis, t) == TwoTier(d'.domains, t)
      {
        LookupsAgree(d', t);
      }
    } else {
      assert IsDefault(d.domains, name);
      forall k
        ensures !IsDefault(d'.domains, k)
      {
        if k != name { assert IsDefault(d'.domains, k) ==> IsDefault(d.domains, k); }
      }
      var t := UnusedDomain(d'.domains);
      assert TwoTier(d'.domains, t) == NotFound;
      assert RedisLookup(d'.redis, t) == Found(node);
    }
  }

  lemma DirectRegisterKeepsAgree(d: Directory, node: string, name: string, isDefault: bool)
    requires Agree(d) && name != "" && (isDefault || d.redis.defaultDomain != Some(name))
    ensures Agree(Registered(d, node, name, isDefault, true, true).0)
  {
    var d' := Registered(d, node, name, isDefault, true, true).0;
    var x := Domain(name, node, isDefault);
    WithDomainKeepsOneDefault(d.domains, x);
    forall k
      ensures IsDefault(d'.domains, k) <==> d'.redis.defaultDomain == Some(k)
    {
      assert IsDefault(d.domains, k) <==> d.redis.defaultDomain == Some(k);
    }
  }

  // ---- RPCs whose Redis writes may fail ----

  /** An RPC and which of its Redis writes succeed. */
  datatype FaultyRpc = FaultyRpc(rpc: Rpc, setRoute: bool, setDefault: bool)

  ghost function ServeFaulty(d: Directory, f: FaultyRpc): Directory {
    DomainClaimed(d, f.rpc.node, f.rpc.name, f.rpc.isDefault, f.setRoute, f.setDefault).0
  }

  ghost function ServeAllFaulty(fs: seq<FaultyRpc>): Directory {
    if fs == [] then EMPTY else ServeFaulty(ServeAllFaulty(fs[..|fs| - 1]), fs[|fs| - 1])
  }

  /** Redis may hold routes of domains the store never got; on all others, and on
      the default, the two agree. */
  ghost predicate AgreeOnStored(d: Directory) {
    && Named(d.domains) && OneDefault(d.domains)
    && d.domains.Keys <= d.redis.routes.Keys
    && (forall k :: k in d.domains ==> d.redis.routes[k] == d.domains[k].nodeId)
    && (forall k :: IsDefault(d.domains, k) <==> d.redis.defaultDomain == Some(k))
  }

  lemma FaultyStep(d: Directory, f: FaultyRpc)
    requires AgreeOnStored(d)
    ensures AgreeOnStored(ServeFaulty(d, f))
  {
    var r := f.rpc;
    if r.name != "" && r.name !in d.domains && f.setRoute && (r.isDefault ==> f.setDefault) {
      WithDomainKeepsOneDefault(d.domains, Domain(r.name, r.node, r.isDefault));
      var d' := ServeFaulty(d, f);
      forall k
        ensures IsDefault(d'.domains, k) <==> d'.redis.defaultDomain == Some(k)
      {
        assert IsDefault(d.domains, k) <==> d.redis.defaultDomain == Some(k);
      }
    }
  }

  lemma {:induction false} FaultyRunKeepsAgreeOnStored(fs: seq<FaultyRpc>)
    ensures AgreeOnStored(ServeAllFaulty(fs))
  {
    if fs == [] {
    } else {
      FaultyRunKeepsAgreeOnStored(fs[..|fs| - 1]);
      FaultyStep(ServeAllFaulty(fs[..|fs| - 1]), fs[|fs| - 1]);
    }
  }

  // ---- The same, read off the run ----

  /** A claim of k with no failing write. */
  ghost predicate Whole(f: FaultyRpc, k: string) {
    f.rpc.name == k != "" && f.setRoute && (f.rpc.isDefault ==> f.setDefault)
  }

  /** A claim of k whose default-domain write fails after the route was set. */
  ghost predicate Half(f: FaultyRpc, k: string) {
    f.rpc.name == k != "" && f.setRoute && f.rpc.isDefault && !f.setDefault
  }

  ghost predicate Claimed(fs: seq<FaultyRpc>, k: string) {
    exists i :: 0 <= i < |fs| && Whole(fs[i], k)
  }

  /** The node whose claim of k was the last to fail half-way. */
  ghost function LastHalf(fs: seq<FaultyRpc>, k: string): Option<string> {
    if fs == [] then None
    else if Half(fs[|fs| - 1], k) then Some(fs[|fs| - 1].rpc.node)
    else LastHalf(fs[..|fs| - 1], k)
  }

  /** The node of the default domain: the last to claim one, whole and first. */
  ghost function DefaultNode(fs: seq<FaultyRpc>): Option<string> {
    if fs == [] then None
    else
      var init, f := fs[..|fs| - 1], fs[|fs| - 1];
      if f.rpc.isDefault && Whole(f, f.rpc.name) && !Claimed(init, f.rpc.name) then Some(f.rpc.node)
      else DefaultNode(init)
  }

  /** What the run says about domain k is what the directory holds. */
  ghost predicate RunMatches(d: Directory, fs: seq<FaultyRpc>, k: string) {
    && (k in d.domains <==> Claimed(fs, k))
    && (k !in d.domains ==>
          if k in d.redis.routes then LastHalf(fs, k) == Some(d.redis.routes[k]) else LastHalf(fs, k) == None)
    && (IsDefault(d.domains, k) ==> DefaultNode(fs) == Some(d.domains[k].nodeId))
  }

  lemma ClaimedStep(fs: seq<FaultyRpc>, k: string)
    requires fs != []
    ensures Claimed(fs, k) <==> Claimed(fs[..|fs| - 1], k) || Whole(fs[|fs| - 1], k)
  {
    var init := fs[..|fs| - 1];
    if Claimed(init, k) {
      var i :| 0 <= i < |init| && Whole(init[i], k);
      assert Whole(fs[i], k);
    }
    if Claimed(fs, k) {
      var i :| 0 <= i < |fs| && Whole(fs[i], k);
      assert i < |init| ==> Whole(init[i], k);
    }
  }

  lemma RunStep(d: Directory, fs: seq<FaultyRpc>, k: string)
    requires fs != [] && AgreeOnStored(d)
    requires RunMatches(d, fs[..|fs| - 1], k) && RunMatches(d, fs[..|fs| - 1], fs[|fs| - 1].rpc.name)
    ensures RunMatches(ServeFaulty(d, fs[|fs| - 1]), fs, k)
  {
    ClaimedStep(fs, k);
    var f := fs[|fs| - 1];
    var name := f.rpc.name;
    if name != "" && name !in d.domains && f.setRoute && (f.rpc.isDefault ==> f.setDefault) {
      assert ServeFaulty(d, f).domains == WithDomain(d.domains, Domain(name, f.rpc.node, f.rpc.isDefault));
    }
  }

  lemma {:induction false} RunAlwaysMatches(fs: seq<FaultyRpc>, k: string)
    ensures RunMatches(ServeAllFaulty(fs), fs, k)
  {
    if fs == [] {
    } else {
      var init := fs[..|fs| - 1];
      FaultyRunKeepsAgreeOnStored(init);
      RunAlwaysMatches(init, k);
      RunAlwaysMatches(init, fs[|fs| - 1].rpc.name);
      RunStep(ServeAllFaulty(init), fs, k);
    }
  }

  lemma {:induction false} DefaultIsStored(fs: seq<FaultyRpc>)
    ensures DefaultNode(fs).Some? ==> exists k :: IsDefault(ServeAllFaulty(fs).domains, k)
  {
    if fs == [] {
    } else {
      var init, f := fs[..|fs| - 1], fs[|fs| - 1];
      var d, d' := ServeAllFaulty(init), ServeAllFaulty(fs);
      FaultyRunKeepsAgreeOnStored(init);
      RunAlwaysMatches(init, f.rpc.name);
      DefaultIsStored(init);
      if f.rpc.isDefault && Whole(f, f.rpc.name) && !Claimed(init, f.rpc.name) {
        assert IsDefault(d'.domains, f.rpc.name);
      } else if DefaultNode(init).Some? {
        var k :| IsDefault(d.domains, k);
        assert IsDefault(d'.domains, k);
      }
    }
  }

  /** The answer to a domain the store does not know. */
  lemma DefaultAnswer(fs: seq<FaultyRpc>, target: string)
    requires DomainOf(target) !in ServeAllFaulty(fs).domains
    ensures TwoTier(ServeAllFaulty(fs).domains, target)
         == if DefaultNode(fs).Some? then Found(DefaultNode(fs).value) else NotFound
  {
    var d := ServeAllFaulty(fs);
    DefaultIsStored(fs);
    if exists k :: IsDefault(d.domains, k) {
      var k :| IsDefault(d.domains, k) && TwoTier(d.domains, target) == Found(d.domains[k].nodeId);
      RunAlwaysMatches(fs, k);
    }
  }

  lemma AnswerFor(d: Directory, target: string)
    requires AgreeOnStored(d)
    ensures var k := DomainOf(target);
      RedisLookup(d.redis, target) == if k in d.redis.routes && k !in d.domains then Found(d.redis.routes[k])
                                      else TwoTier(d.domains, target)
  {
    if d.redis.defaultDomain.Some? {
      assert IsDefault(d.domains, d.redis.defaultDomain.value);
    }
  }

  /** The two answers for one target, read off the run. */
  lemma FaultyAnswersIff(fs: seq<FaultyRpc>, target: string)
    ensures var d, k := ServeAllFaulty(fs), DomainOf(target);
      RedisLookup(d.redis, target) == TwoTier(d.domains, target)
      <==> (!Claimed(fs, k) && LastHalf(fs, k).Some? ==> DefaultNode(fs) == LastHalf(fs, k))
  {
    var d, k := ServeAllFaulty(fs), DomainOf(target);
    FaultyRunKeepsAgreeOnStored(fs);
    RunAlwaysMatches(fs, k);
    AnswerFor(d, target);
    if k !in d.domains {
      DefaultAnswer(fs, target);
    }
  }

  /** Along any run, failing Redis writes included, the registries answer alike
      exactly when every domain whose default-domain write failed was later or
      before claimed without a fault, or was last tried by the default's own node. */
  lemma FaultyRunAgreesIff(fs: seq<FaultyRpc>)
    ensures SameAnswers(ServeAllFaulty(fs))
       <==> forall k :: !Claimed(fs, k) && LastHalf(fs, k).Some? ==> DefaultNode(fs) == LastHalf(fs, k)
  {
    var d := ServeAllFaulty(fs);
    if SameAnswers(d) {
      forall k | !Claimed(fs, k) && LastHalf(fs, k).Some?
        ensures DefaultNode(fs) == LastHalf(fs, k)
      {
        DomainOfAddress("", k);
        var t := "" + "@" + k;
        FaultyAnswersIff(fs, t);
        assert RedisLookup(d.redis, t) == TwoTier(d.domains, t);
      }
    }
    if forall k :: !Claimed(fs, k) && LastHalf(fs, k).Some? ==> DefaultNode(fs) == LastHalf(fs, k) {
      forall target
        ensures RedisLookup(d.redis, target) == TwoTier(d.domains, target)
      {
        FaultyAnswersIff(fs, target);
      }
    }
  }

  /** A retry repairs: once the domain of a failed RPC is claimed again without a
      fault, by whichever node, nothing of the failed claim is left. */
  lemma RetryRepairs(d: Directory, f: FaultyRpc, r: Rpc)
    requires DomainClaimed(d, f.rpc.node, f.rpc.name, f.rpc.isDefault, f.setRoute, f.setDefault).1 == Internal
    requires r.name == f.rpc.name
    ensures Serve(ServeFaulty(d, f), r) == Serve(d, r)
  {
    assert ServeFaulty(d, f).redis.routes[r.name := r.node] == d.redis.routes[r.name := r.node];
  }
}
