/** The in-memory store (internal/store/memstore/memstore.go): domains, users and
    webhook delivery jobs. Instants are integers; 0 is the zero time. */
module MemStore {
  import opened Common

  datatype Domain = Domain(name: string, nodeId: string, isDefault: bool)

  datatype User = User(email: string, kind: string, publicKey: string, metadata: map<string, string>,
                       createdAt: int)

  datatype Status = Pending | Delivered | Failed | Dead
  {
    predicate Open() {
      Pending? || Failed?
    }
  }

  /** LastError, with the text of a status error kept as the status itself. */
  datatype ErrorText = NoError | HttpStatus(code: int) | Other(text: string)

  type Key = (string, string)

  datatype DeliveryJob = DeliveryJob(
    messageId: string,
    recipientId: string,
    endpoint: string,
    status: Status,
    attempts: int,
    maxAttempts: int,
    lastError: ErrorText,
    nextRetryAt: int,
    deliveredAt: Option<int>,
    createdAt: int,
    updatedAt: int)

  function KeyOf(j: DeliveryJob): Key {
    (j.messageId, j.recipientId)
  }

  type Jobs = map<Key, DeliveryJob>

  // ---- What the job operations do to the map ----

  function Stamped(j: DeliveryJob, now: int): DeliveryJob {
    j.(createdAt := if j.createdAt == 0 then now else j.createdAt,
       updatedAt := if j.updatedAt == 0 then now else j.updatedAt,
       maxAttempts := if j.maxAttempts == 0 then 5 else j.maxAttempts)
  }

  /** The first save of a key wins. */
  function Saved(m: Jobs, j: DeliveryJob, now: int): Jobs {
    if KeyOf(j) in m then m else m[KeyOf(j) := Stamped(j, now)]
  }

  /** An update overwrites progress and keeps identity, endpoint, limit and
      creation time. */
  function Merged(existing: DeliveryJob, j: DeliveryJob, now: int): DeliveryJob {
    existing.(status := j.status, attempts := j.attempts, lastError := j.lastError,
              nextRetryAt := j.nextRetryAt, deliveredAt := j.deliveredAt, updatedAt := now)
  }

  function Updated(m: Jobs, j: DeliveryJob, now: int): Jobs {
    if KeyOf(j) in m then m[KeyOf(j) := Merged(m[KeyOf(j)], j, now)] else m
  }

  /** Repeated events are harmless: whatever they carry, a second save of a key
      does nothing, and a complete job is stored as it is. */
  lemma FirstSaveWins(m: Jobs, j: DeliveryJob, again: DeliveryJob, now: int, later: int)
    requires KeyOf(again) == KeyOf(j)
    ensures Saved(Saved(m, j, now), again, later) == Saved(m, j, now)
    ensures KeyOf(j) !in m && j.createdAt != 0 && j.updatedAt != 0 && j.maxAttempts != 0 ==>
              Saved(m, j, now)[KeyOf(j)] == j
  {
  }

  /** Updates overwrite: of two writers only the last leaves a trace, however
      stale its copy is. */
  lemma LastUpdateWins(m: Jobs, first: DeliveryJob, last: DeliveryJob, t: int, u: int)
    requires KeyOf(first) == KeyOf(last)
    ensures Updated(Updated(m, first, t), last, u) == Updated(m, last, u)
  {
    var k := KeyOf(last);
    if k in m {
      assert Merged(Merged(m[k], first, t), last, u) == Merged(m[k], last, u);
    }
  }

  // ---- Which jobs are due, and what a listing of them is ----

  ghost predicate Keyed(m: Jobs) {
    forall k :: k in m ==> KeyOf(m[k]) == k
  }

  predicate Due(j: DeliveryJob, before: int) {
    j.status.Open() && j.nextRetryAt <= before
  }

  ghost function DueKeys(m: Jobs, before: int): set<Key> {
    set k | k in m && Due(m[k], before)
  }

  ghost predicate Listed(out: seq<DeliveryJob>, k: Key) {
    exists i :: 0 <= i < |out| && KeyOf(out[i]) == k
  }

  ghost predicate Distinct(out: seq<DeliveryJob>) {
    forall i, j :: 0 <= i < j < |out| ==> KeyOf(out[i]) != KeyOf(out[j])
  }

  ghost predicate Sorted(out: seq<DeliveryJob>) {
    forall i, j :: 0 <= i < j < |out| ==> out[i].nextRetryAt <= out[j].nextRetryAt
  }

  /** `out` is the `limit` earliest due jobs of m, in order, each once; a limit
      that is not positive means all of them. */
  ghost predicate IsDueList(m: Jobs, before: int, limit: int, out: seq<DeliveryJob>) {
    && (forall i :: 0 <= i < |out| ==> KeyOf(out[i]) in m && m[KeyOf(out[i])] == out[i] && Due(out[i], before))
    && Distinct(out)
    && Sorted(out)
    && |out| == (if limit > 0 then Min(limit, |DueKeys(m, before)|) else |DueKeys(m, before)|)
    && (forall k, i :: k in DueKeys(m, before) && !Listed(out, k) && 0 <= i < |out| ==>
          out[i].nextRetryAt <= m[k].nextRetryAt)
  }

  ghost function KeySet(out: seq<DeliveryJob>): set<Key> {
    set i | 0 <= i < |out| :: KeyOf(out[i])
  }

  lemma {:induction false} DistinctCount(out: seq<DeliveryJob>)
    requires Distinct(out)
    ensures |KeySet(out)| == |out|
  {
    if out == [] {
    } else {
      var n := |out| - 1;
      var init := out[..n];
      DistinctCount(init);
      assert KeySet(out) == KeySet(init) + {KeyOf(out[n])};
      assert KeyOf(out[n]) !in KeySet(init);
    }
  }

  /** No due job is passed over silently: either it is listed, or the listing is
      full of `limit` jobs that were due no later. */
  lemma DueIsListed(m: Jobs, before: int, limit: int, out: seq<DeliveryJob>, k: Key)
    requires IsDueList(m, before, limit, out) && k in m && Due(m[k], before)
    ensures Listed(out, k)
         || (limit > 0 && |out| == limit && forall i :: 0 <= i < |out| ==> out[i].nextRetryAt <= m[k].nextRetryAt)
  {
    if !Listed(out, k) {
      DistinctCount(out);
      assert k !in KeySet(out);
      assert KeySet(out) + {k} <= DueKeys(m, before);
      SubsetCount(KeySet(out) + {k}, DueKeys(m, before));
    }
  }

  /** What a listing promises, field by field: stored pending or failed jobs whose
      time has come, no two of one message and recipient, the earliest first, at most
      `limit`; and one that is not listed is no earlier than all of a full list. */
  ghost predicate InPlainWords(m: Jobs, before: int, limit: int, out: seq<DeliveryJob>) {
    && (forall i :: 0 <= i < |out| ==> Belongs(m, before, out[i]))
    && (forall i, j :: 0 <= i < j < |out| ==>
          && out[i].nextRetryAt <= out[j].nextRetryAt
          && (out[i].messageId, out[i].recipientId) != (out[j].messageId, out[j].recipientId))
    && (limit > 0 ==> |out| <= limit)
    && (forall k :: k in m && Belongs(m, before, m[k]) ==>
          m[k] in out || (0 < limit == |out| && NoneLater(out, m[k].nextRetryAt)))
  }

  ghost predicate Belongs(m: Jobs, before: int, j: DeliveryJob) {
    && (j.messageId, j.recipientId) in m && m[(j.messageId, j.recipientId)] == j
    && (j.status == Pending || j.status == Failed) && j.nextRetryAt <= before
  }

  ghost predicate NoneLater(out: seq<DeliveryJob>, t: int) {
    forall i :: 0 <= i < |out| ==> out[i].nextRetryAt <= t
  }

  lemma ListingIsComplete(m: Jobs, before: int, limit: int, out: seq<DeliveryJob>)
    requires Keyed(m) && IsDueList(m, before, limit, out)
    ensures InPlainWords(m, before, limit, out)
  {
    forall k | k in m && Belongs(m, before, m[k])
      ensures m[k] in out || (0 < limit == |out| && NoneLater(out, m[k].nextRetryAt))
    {
      DueIsListed(m, before, limit, out, k);
      if Listed(out, k) {
        var i :| 0 <= i < |out| && KeyOf(out[i]) == k;
        assert out[i] == m[k];
      }
    }
  }

  // ---- Domains ----

  type Domains = map<string, Domain>

  ghost predicate Named(ds: Domains) {
    forall k :: k in ds ==> ds[k].name == k
  }

  /** At most one domain per store is the default. */
  ghost predicate OneDefault(ds: Domains) {
    forall k, l :: k in ds && l in ds && ds[k].isDefault && ds[l].isDefault ==> k == l
  }

  /** Saving a default domain takes the flag from every other one. */
  function WithDomain(ds: Domains, d: Domain): Domains {
    var cleared := map k | k in ds :: if d.isDefault && k != d.name then ds[k].(isDefault := false) else ds[k];
    cleared[d.name := d]
  }

  lemma WithDomainKeepsOneDefault(ds: Domains, d: Domain)
    requires Named(ds) && OneDefault(ds)
    ensures Named(WithDomain(ds, d)) && OneDefault(WithDomain(ds, d))
  {
    var ds' := WithDomain(ds, d);
    forall k, l | k in ds' && l in ds' && ds'[k].isDefault && ds'[l].isDefault
      ensures k == l
    {
      assert k != d.name ==> ds[k] == ds'[k];
      assert l != d.name ==> ds[l] == ds'[l];
    }
  }

  class Store {
    var domains: Domains
    var users: map<string, User>
    var deliveryJobs: Jobs

    ghost predicate Valid()
      reads this
    {
      Named(domains) && OneDefault(domains) && Keyed(deliveryJobs)
    }

    constructor ()
      ensures Valid() && domains == map[] && users == map[] && deliveryJobs == map[]
    {
      domains, users, deliveryJobs := map[], map[], map[];
    }

    method SaveDomain(d: Domain) returns (ok: bool)
      requires Valid()
      modifies this`domains
      ensures Valid()
      ensures ok == (d.name != "")
      ensures domains == if ok then WithDomain(old(domains), d) else old(domains)
      ensures ok ==> domains.Keys == old(domains).Keys + {d.name} && domains[d.name] == d
      ensures forall k :: k in old(domains) && k != d.name ==>
                domains[k] == if ok && d.isDefault then old(domains)[k].(isDefault := false) else old(domains)[k]
    {
      if d.name == "" {
        return false;
      }
      if d.isDefault {
        domains := ClearDefaults(domains, d.name);
      }
      domains := domains[d.name := d];
      assert domains == WithDomain(old(domains), d);
      WithDomainKeepsOneDefault(old(domains), d);
      ok := true;
    }

    method GetDomain(name: string) returns (r: Option<Domain>)
      ensures r == if name in domains then Some(domains[name]) else None
    {
      if name in domains {
        r := Some(domains[name]);
      } else {
        r := None;
      }
    }

    /** The loop visits the map in any order and stops at the first default. */
    method GetDefaultDomain() returns (r: Option<Domain>)
      requires Valid()
      ensures forall k :: k in domains && domains[k].isDefault ==> r == Some(domains[k])
      ensures r.Some? ==> r.value.name in domains && domains[r.value.name] == r.value && r.value.isDefault
    {
      var todo := domains.Keys;
      while todo != {}
        invariant todo <= domains.Keys
        invariant forall k :: k in domains && domains[k].isDefault ==> k in todo
        decreases |todo|
      {
        var k :| k in todo;
        if domains[k].isDefault {
          return Some(domains[k]);
        }
        todo := todo - {k};
      }
      r := None;
    }

    /** A later save keeps the first creation time. */
    method SaveUser(u: User) returns (ok: bool)
      modifies this`users
      ensures ok == (u.email != "")
      ensures !ok ==> users == old(users)
      ensures ok ==> users.Keys == old(users).Keys + {u.email}
      ensures ok ==> forall e :: e in old(users) && e != u.email ==> users[e] == old(users)[e]
      ensures ok ==> users[u.email].(createdAt := u.createdAt) == u
      ensures ok && u.email in old(users) && old(users)[u.email].createdAt != 0 ==>
                users[u.email].createdAt == old(users)[u.email].createdAt
      ensures ok && !(u.email in old(users) && old(users)[u.email].createdAt != 0) ==> users[u.email] == u
    {
      if u.email == "" {
        return false;
      }
      var saved := u;
      if u.email in users && users[u.email].createdAt != 0 {
        saved := saved.(createdAt := users[u.email].createdAt);
      }
      users := users[u.email := saved];
      ok := true;
    }

    method SaveDeliveryJob(job: DeliveryJob, now: int)
      requires Valid()
      modifies this`deliveryJobs
      ensures Valid()
      ensures deliveryJobs == Saved(old(deliveryJobs), job, now)
      ensures var key := (job.messageId, job.recipientId);
        && key in deliveryJobs
        && (key in old(deliveryJobs) ==> deliveryJobs == old(deliveryJobs))
        && (key !in old(deliveryJobs) ==>
              && deliveryJobs == old(deliveryJobs)[key := deliveryJobs[key]]
              && deliveryJobs[key].createdAt == (if job.createdAt == 0 then now else job.createdAt)
              && deliveryJobs[key].updatedAt == (if job.updatedAt == 0 then now else job.updatedAt)
              && deliveryJobs[key].maxAttempts == (if job.maxAttempts == 0 then 5 else job.maxAttempts)
              && job == deliveryJobs[key].(createdAt := job.createdAt, updatedAt := job.updatedAt,
                                           maxAttempts := job.maxAttempts))
    {
      var j := job;
      if j.createdAt == 0 {
        j := j.(createdAt := now);
      }
      if j.updatedAt == 0 {
        j := j.(updatedAt := now);
      }
      if j.maxAttempts == 0 {
        j := j.(maxAttempts := 5);
      }
      var key := (j.messageId, j.recipientId);
      if key !in deliveryJobs {
        deliveryJobs := deliveryJobs[key := j];
      }
    }

    method UpdateDeliveryJob(job: DeliveryJob, now: int) returns (found: bool)
      requires Valid()
      modifies this`deliveryJobs
      ensures Valid()
      ensures found == (KeyOf(job) in old(deliveryJobs))
      ensures deliveryJobs == Updated(old(deliveryJobs), job, now)
      ensures var key := (job.messageId, job.recipientId);
        && found == (key in old(deliveryJobs))
        && (!found ==> deliveryJobs == old(deliveryJobs))
        && (found ==>
              && key in deliveryJobs
              && deliveryJobs == old(deliveryJobs)[key := deliveryJobs[key]]
              && deliveryJobs[key].endpoint == old(deliveryJobs)[key].endpoint
              && deliveryJobs[key].maxAttempts == old(deliveryJobs)[key].maxAttempts
              && deliveryJobs[key].createdAt == old(deliveryJobs)[key].createdAt
              && deliveryJobs[key].updatedAt == now
              && job == deliveryJobs[key].(endpoint := job.endpoint, maxAttempts := job.maxAttempts,
                                           createdAt := job.createdAt, updatedAt := job.updatedAt))
    {
      var key := (job.messageId, job.recipientId);
      if key !in deliveryJobs {
        return false;
      }
      var existing := deliveryJobs[key];
      existing := existing.(status := job.status);
      existing := existing.(attempts := job.attempts);
      existing := existing.(lastError := job.lastError);
      existing := existing.(nextRetryAt := job.nextRetryAt);
      existing := existing.(deliveredAt := job.deliveredAt);
      existing := existing.(updatedAt := now);
      deliveryJobs := deliveryJobs[key := existing];
      found := true;
    }

    /** Collects the due jobs in any map order, sorts and truncates them. */
    method ListPendingDeliveryJobs(before: int, limit: int) returns (out: seq<DeliveryJob>)
      requires Valid()
      ensures IsDueList(deliveryJobs, before, limit, out)
      ensures InPlainWords(deliveryJobs, before, limit, out)
    {
      out := CollectDue(deliveryJobs, before);
      out := SortByRetry(out);
      CompleteList(deliveryJobs, before, out);
      if limit > 0 && |out| > limit {
        TruncateList(deliveryJobs, before, limit, out);
        out := out[..limit];
      }
      ListingIsComplete(deliveryJobs, before, limit, out);
    }
  }

  /** The loop of SaveDomain, in any map order. */
  method ClearDefaults(ds: Domains, name: string) returns (r: Domains)
    ensures r == map k | k in ds :: if k != name then ds[k].(isDefault := false) else ds[k]
  {
    r := ds;
    var todo := ds.Keys;
    while todo != {}
      invariant todo <= ds.Keys && r.Keys == ds.Keys
      invariant forall k :: k in ds ==>
                  r[k] == if k in todo || k == name then ds[k] else ds[k].(isDefault := false)
      decreases |todo|
    {
      var k :| k in todo;
      todo := todo - {k};
      if r[k].isDefault && k != name {
        r := r[k := r[k].(isDefault := false)];
      }
    }
  }

  /** All due jobs of m, each once: what the collecting loop yields. */
  ghost predicate AllDue(m: Jobs, before: int, out: seq<DeliveryJob>) {
    && (forall i :: 0 <= i < |out| ==> KeyOf(out[i]) in m && m[KeyOf(out[i])] == out[i] && Due(out[i], before))
    && Distinct(out)
    && (forall k :: k in DueKeys(m, before) ==> Listed(out, k))
  }

  method CollectDue(m: Jobs, before: int) returns (out: seq<DeliveryJob>)
    requires Keyed(m)
    ensures AllDue(m, before, out)
  {
    out := [];
    var todo := m.Keys;
    while todo != {}
      invariant todo <= m.Keys
      invariant forall i :: 0 <= i < |out| ==>
                  KeyOf(out[i]) in m && KeyOf(out[i]) !in todo && m[KeyOf(out[i])] == out[i] && Due(out[i], before)
      invariant Distinct(out)
      invariant forall k :: k in DueKeys(m, before) && k !in todo ==> Listed(out, k)
      decreases |todo|
    {
      var k :| k in todo;
      var j := m[k];
      ghost var was := out;
      if (j.status == Pending || j.status == Failed) && !(j.nextRetryAt > before) {
        out := out + [j];
        assert KeyOf(out[|was|]) == k;
      }
      forall l | l in DueKeys(m, before) && l !in todo - {k}
        ensures Listed(out, l)
      {
        if l != k {
          var i :| 0 <= i < |was| && KeyOf(was[i]) == l;
          assert KeyOf(out[i]) == l;
        }
      }
      todo := todo - {k};
    }
  }

  /** Any sort by NextRetryAt: the same jobs, in order. */
  method SortByRetry(s: seq<DeliveryJob>) returns (r: seq<DeliveryJob>)
    ensures Sorted(r) && multiset(r) == multiset(s)
  {
    r := [];
    var n := 0;
    while n < |s|
      invariant 0 <= n <= |s|
      invariant Sorted(r) && multiset(r) == multiset(s[..n])
    {
      var i := Slot(r, s[n]);
      InsertSorted(r, i, s[n]);
      InsertMultiset(r, i, s[n]);
      assert s[..n + 1] == s[..n] + [s[n]];
      r := Insert(r, i, s[n]);
      n := n + 1;
    }
    assert s[..n] == s;
  }

  method Slot(r: seq<DeliveryJob>, x: DeliveryJob) returns (i: nat)
    requires Sorted(r)
    ensures i <= |r|
    ensures forall k :: 0 <= k < i ==> r[k].nextRetryAt <= x.nextRetryAt
    ensures forall k :: i <= k < |r| ==> x.nextRetryAt < r[k].nextRetryAt
  {
    i := |r|;
    while i > 0 && x.nextRetryAt < r[i - 1].nextRetryAt
      invariant 0 <= i <= |r|
      invariant forall k :: i <= k < |r| ==> x.nextRetryAt < r[k].nextRetryAt
    {
      i := i - 1;
    }
  }

  function Insert(r: seq<DeliveryJob>, i: nat, x: DeliveryJob): seq<DeliveryJob>
    requires i <= |r|
  {
    r[..i] + [x] + r[i..]
  }

  lemma InsertSorted(r: seq<DeliveryJob>, i: nat, x: DeliveryJob)
    requires i <= |r| && Sorted(r)
    requires forall k :: 0 <= k < i ==> r[k].nextRetryAt <= x.nextRetryAt
    requires forall k :: i <= k < |r| ==> x.nextRetryAt < r[k].nextRetryAt
    ensures Sorted(Insert(r, i, x))
  {
  }

  lemma InsertMultiset(r: seq<DeliveryJob>, i: nat, x: DeliveryJob)
    requires i <= |r|
    ensures multiset(Insert(r, i, x)) == multiset(r) + multiset{x}
  {
    assert r == r[..i] + r[i..];
  }

  lemma {:induction false} CountDistinct(out: seq<DeliveryJob>)
    ensures |KeySet(out)| <= |out|
    ensures |KeySet(out)| == |out| ==> Distinct(out)
  {
    if out == [] {
    } else {
      var n := |out| - 1;
      var init := out[..n];
      CountDistinct(init);
      assert KeySet(out) == KeySet(init) + {KeyOf(out[n])};
    }
  }

  lemma SortKeepsDistinct(s: seq<DeliveryJob>, r: seq<DeliveryJob>)
    requires multiset(r) == multiset(s) && Distinct(s)
    ensures Distinct(r)
  {
    forall k | k in KeySet(s)
      ensures k in KeySet(r)
    {
      var i :| 0 <= i < |s| && KeyOf(s[i]) == k;
      assert s[i] in multiset(r);
    }
    DistinctCount(s);
    SubsetCount(KeySet(s), KeySet(r));
    assert |multiset(r)| == |r| && |multiset(s)| == |s|;
    CountDistinct(r);
  }

  lemma CompleteList(m: Jobs, before: int, out: seq<DeliveryJob>)
    requires Keyed(m) && Sorted(out)
    requires exists raw :: AllDue(m, before, raw) && multiset(raw) == multiset(out)
    ensures AllDue(m, before, out) && |out| == |DueKeys(m, before)| && IsDueList(m, before, 0, out)
  {
    var raw :| AllDue(m, before, raw) && multiset(raw) == multiset(out);
    SortKeepsDistinct(raw, out);
    forall i | 0 <= i < |out|
      ensures KeyOf(out[i]) in m && m[KeyOf(out[i])] == out[i] && Due(out[i], before)
    {
      assert out[i] in multiset(raw);
    }
    forall k | k in DueKeys(m, before)
      ensures Listed(out, k)
    {
      var i :| 0 <= i < |raw| && KeyOf(raw[i]) == k;
      assert raw[i] in multiset(out);
      var l :| 0 <= l < |out| && out[l] == raw[i];
      assert KeyOf(out[l]) == k;
    }
    DistinctCount(out);
    assert KeySet(out) == DueKeys(m, before);
  }

  lemma TruncateList(m: Jobs, before: int, limit: int, out: seq<DeliveryJob>)
    requires AllDue(m, before, out) && Sorted(out) && |out| == |DueKeys(m, before)|
    requires 0 < limit < |out|
    ensures IsDueList(m, before, limit, out[..limit])
  {
    var cut := out[..limit];
    forall l | 0 <= l < limit
      ensures Listed(cut, KeyOf(out[l]))
    {
      assert KeyOf(cut[l]) == KeyOf(out[l]);
    }
    forall k, i | k in DueKeys(m, before) && !Listed(cut, k) && 0 <= i < |cut|
      ensures cut[i].nextRetryAt <= m[k].nextRetryAt
    {
      var l :| 0 <= l < |out| && KeyOf(out[l]) == k;
    }
  }
}
