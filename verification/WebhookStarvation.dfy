/** When the sweeper passes over a due job. An attempt whose message cannot be
    fetched writes nothing, so its job stays due, and stays in front. */
module WebhookStarvation {
  import opened Common
  import opened MemStore
  import opened WebhookModel
  import opened WebhookTheorems

  // ---- Which due jobs a listing can hold ----

  /** The due jobs that come strictly before k. */
  ghost function Earlier(m: Jobs, before: int, k: Key): set<Key>
    requires k in m
  {
    set l | l in m && Due(m[l], before) && m[l].nextRetryAt < m[k].nextRetryAt
  }

  lemma ListedHasRoom(m: Jobs, before: int, limit: int, out: seq<DeliveryJob>, k: Key)
    requires k in m && limit > 0 && IsDueList(m, before, limit, out) && Listed(out, k)
    ensures |Earlier(m, before, k)| < limit
  {
    var i :| 0 <= i < |out| && KeyOf(out[i]) == k;
    forall l | l in Earlier(m, before, k)
      ensures l in KeySet(out)
    {
      assert l in DueKeys(m, before);
      assert Listed(out, l);
    }
    assert k in KeySet(out);
    DistinctCount(out);
    SubsetCount(Earlier(m, before, k) + {k}, KeySet(out));
  }

  lemma {:induction false} Latest(m: Jobs, ks: set<Key>) returns (x: Key)
    requires ks <= m.Keys && ks != {}
    ensures x in ks && forall l :: l in ks ==> m[l].nextRetryAt <= m[x].nextRetryAt
    decreases |ks|
  {
    x :| x in ks;
    if ks - {x} == {} {
      assert ks == {x};
    } else {
      var y := Latest(m, ks - {x});
      x := if m[y].nextRetryAt >= m[x].nextRetryAt then y else x;
    }
  }

  /** The list holds jobs of ks only, as they are stored. */
  ghost predicate Drawn(m: Jobs, ks: set<Key>, out: seq<DeliveryJob>) {
    forall i :: 0 <= i < |out| ==> KeyOf(out[i]) in ks && KeyOf(out[i]) in m && m[KeyOf(out[i])] == out[i]
  }

  ghost predicate Complete(ks: set<Key>, out: seq<DeliveryJob>) {
    forall l :: l in ks ==> Listed(out, l)
  }

  /** A sorted list of exactly these jobs. */
  ghost predicate Lists(m: Jobs, ks: set<Key>, out: seq<DeliveryJob>) {
    Drawn(m, ks, out) && Complete(ks, out) && Distinct(out) && Sorted(out) && |out| == |ks|
  }

  /** Every job of a is due no later than any of b. */
  ghost predicate Before(m: Jobs, a: set<Key>, b: set<Key>) {
    forall x, y :: x in a && x in m && y in b && y in m ==> m[x].nextRetryAt <= m[y].nextRetryAt
  }

  lemma AppendComplete(a: set<Key>, b: set<Key>, s: seq<DeliveryJob>, t: seq<DeliveryJob>)
    requires Complete(a, s) && Complete(b, t)
    ensures Complete(a + b, s + t)
  {
    forall l | l in a + b
      ensures Listed(s + t, l)
    {
      if l in a {
        assert Listed(s, l);
        var i :| 0 <= i < |s| && KeyOf(s[i]) == l;
        assert KeyOf((s + t)[i]) == l;
      } else {
        assert Listed(t, l);
        var i :| 0 <= i < |t| && KeyOf(t[i]) == l;
        assert KeyOf((s + t)[|s| + i]) == l;
      }
    }
  }

  lemma AppendInOrder(m: Jobs, a: set<Key>, b: set<Key>, s: seq<DeliveryJob>, t: seq<DeliveryJob>)
    requires Drawn(m, a, s) && Drawn(m, b, t) && a !! b && Before(m, a, b)
    requires Distinct(s) && Distinct(t) && Sorted(s) && Sorted(t)
    ensures Distinct(s + t) && Sorted(s + t) && Drawn(m, a + b, s + t)
  {
    var r := s + t;
    forall i, j | 0 <= i < j < |r|
      ensures KeyOf(r[i]) != KeyOf(r[j]) && r[i].nextRetryAt <= r[j].nextRetryAt
    {
      if j < |s| {
        assert r[i] == s[i] && r[j] == s[j];
      } else if i >= |s| {
        assert r[i] == t[i - |s|] && r[j] == t[j - |s|];
      } else {
        assert r[i] == s[i] && r[j] == t[j - |s|];
        assert KeyOf(s[i]) in a && KeyOf(t[j - |s|]) in b;
      }
    }
  }

  lemma Append(m: Jobs, a: set<Key>, b: set<Key>, s: seq<DeliveryJob>, t: seq<DeliveryJob>)
    requires Lists(m, a, s) && Lists(m, b, t) && a !! b && Before(m, a, b)
    ensures Lists(m, a + b, s + t)
  {
    AppendComplete(a, b, s, t);
    AppendInOrder(m, a, b, s, t);
    assert |a + b| == |a| + |b|;
  }

  lemma ListOne(m: Jobs, k: Key)
    requires Keyed(m) && k in m
    ensures Lists(m, {k}, [m[k]])
  {
    assert KeyOf([m[k]][0]) == k;
  }

  lemma {:induction false} ListAll(m: Jobs, ks: set<Key>) returns (out: seq<DeliveryJob>)
    requires Keyed(m) && ks <= m.Keys
    ensures Lists(m, ks, out)
    decreases |ks|
  {
    if ks == {} {
      out := [];
    } else {
      var x := Latest(m, ks);
      var init := ListAll(m, ks - {x});
      ListOne(m, x);
      Append(m, ks - {x}, {x}, init, [m[x]]);
      assert ks - {x} + {x} == ks;
      out := init + [m[x]];
    }
  }

  /** The due jobs other than k that are not strictly before it. */
  ghost function Others(m: Jobs, before: int, k: Key): set<Key>
    requires k in m
  {
    DueKeys(m, before) - Earlier(m, before, k) - {k}
  }

  lemma DueInOrder(m: Jobs, before: int, k: Key)
    requires k in m && Due(m[k], before)
    ensures Before(m, Earlier(m, before, k), {k}) && Before(m, Earlier(m, before, k) + {k}, Others(m, before, k))
    ensures Earlier(m, before, k) + {k} + Others(m, before, k) == DueKeys(m, before)
  {
  }

  /** All due jobs in order, with k right behind the strictly earlier ones. */
  lemma ListFromK(m: Jobs, before: int, k: Key) returns (all: seq<DeliveryJob>)
    requires Keyed(m) && k in m && Due(m[k], before)
    ensures Lists(m, DueKeys(m, before), all)
    ensures var n := |Earlier(m, before, k)|; n < |all| && KeyOf(all[n]) == k
  {
    var early, others := Earlier(m, before, k), Others(m, before, k);
    var a := ListAll(m, early);
    var b := ListAll(m, others);
    DueInOrder(m, before, k);
    ListOne(m, k);
    Append(m, early, {k}, a, [m[k]]);
    Append(m, early + {k}, others, a + [m[k]], b);
    all := a + [m[k]] + b;
    assert all[|a|] == m[k];
  }

  /** With room behind the earlier ones, some listing holds k. */
  lemma RoomIsListed(m: Jobs, before: int, limit: int, k: Key) returns (out: seq<DeliveryJob>)
    requires Keyed(m) && k in m && Due(m[k], before) && limit > 0 && |Earlier(m, before, k)| < limit
    ensures IsDueList(m, before, limit, out) && Listed(out, k)
  {
    var all := ListFromK(m, before, k);
    var n := |Earlier(m, before, k)|;
    assert AllDue(m, before, all);
    if limit < |all| {
      TruncateList(m, before, limit, all);
      out := all[..limit];
    } else {
      out := all;
    }
    assert KeyOf(out[n]) == k;
  }

  /** Exactly when a due job can be swept: fewer than `limit` due jobs come
      strictly before it. */
  lemma CanBeListedIff(m: Jobs, before: int, limit: int, k: Key)
    requires Keyed(m) && k in m && Due(m[k], before) && limit > 0
    ensures (exists out :: IsDueList(m, before, limit, out) && Listed(out, k))
       <==> |Earlier(m, before, k)| < limit
  {
    if |Earlier(m, before, k)| < limit {
      var out := RoomIsListed(m, before, limit, k);
    } else {
      forall out | IsDueList(m, before, limit, out) && Listed(out, k)
        ensures false
      {
        ListedHasRoom(m, before, limit, out, k);
      }
    }
  }

  // ---- Starvation over runs ----

  /** The jobs `stuck` are open, come before k, fill a whole sweep, and no outcome
      of theirs waits to be written. */
  ghost predicate Blocked(s: State, stuck: set<Key>, k: Key) {
    && s.cfg.workers > 0 && |stuck| >= Capacity(s.cfg) && k in s.records
    && (forall b :: b in stuck ==>
          b in s.records && s.records[b].status.Open() && s.records[b].nextRetryAt < s.records[k].nextRetryAt)
    && (forall w :: 0 <= w < |s.workers| && s.workers[w].Updating? ==> KeyOf(s.workers[w].job) !in stuck)
  }

  /** No attempt at one of these jobs gets as far as a request, and no event for k
      repeats. */
  ghost predicate Unfetchable(s: State, es: seq<Event>, stuck: set<Key>, k: Key)
    requires Legal(s, es)
    decreases |es|
  {
    es == []
    || (&& (es[0].Post? || es[0].BuildFails? ==> KeyOf(s.workers[es[0].w].job) !in stuck)
        && !(es[0].Arrive? && es[0].key == k)
        && Unfetchable(Next(s, es[0]), es[1..], stuck, k))
  }

  lemma BlockedListing(s: State, stuck: set<Key>, k: Key, due: seq<DeliveryJob>)
    requires Blocked(s, stuck, k) && Enabled(s, SweepList(due))
    ensures NoCopyIn(due, k)
  {
    if i :| 0 <= i < |due| && KeyOf(due[i]) == k {
      assert Listed(due, k) && Due(s.records[k], s.now);
      ListedHasRoom(s.records, s.now, Capacity(s.cfg), due, k);
      assert stuck <= Earlier(s.records, s.now, k);
      SubsetCount(stuck, Earlier(s.records, s.now, k));
      assert false;
    }
  }

  lemma BlockedStays(s: State, e: Event, stuck: set<Key>, k: Key)
    requires Blocked(s, stuck, k) && Enabled(s, e) && NoCopy(s, k)
    requires e.Post? || e.BuildFails? ==> KeyOf(s.workers[e.w].job) !in stuck
    ensures Blocked(Next(s, e), stuck, k) && Next(s, e).records[k] == s.records[k]
  {
    OnlyCommitWrites(s, e, k);
    forall b | b in stuck
      ensures b in Next(s, e).records && Next(s, e).records[b] == s.records[b]
    {
      OnlyCommitWrites(s, e, b);
    }
  }

  /** As long as the messages of workers * 10 earlier jobs cannot be fetched, a job
      without a live copy is never posted, however long it has been due, crashes
      included. */
  lemma {:induction false} LaterJobStarves(s: State, es: seq<Event>, stuck: set<Key>, k: Key)
    requires Legal(s, es) && Blocked(s, stuck, k) && NoCopy(s, k) && Unfetchable(s, es, stuck, k)
    ensures k in Run(s, es).records && Run(s, es).records[k] == s.records[k]
    ensures Calls(Run(s, es), k) == Calls(s, k) && NoCopy(Run(s, es), k)
    decreases |es|
  {
    if es == [] {
    } else {
      BlockedStays(s, es[0], stuck, k);
      if es[0].SweepList? {
        BlockedListing(s, stuck, k, es[0].due);
      }
      NoCopyAppears(s, es[0], k);
      LaterJobStarves(Next(s, es[0]), es[1..], stuck, k);
    }
  }
}
