/** What an event and an attempt leave in the store, in the numbers of the HTTP
    status (internal/webhook/dispatcher.go, internal/webhook/retry.go). */
module WebhookOutcomes {
  import opened Common
  import opened Backoff
  import opened MemStore
  import opened WebhookRetry
  import opened WebhookModel
  import opened WebhookSafety
  import opened WebhookTheorems

  // ---- One attempt ----

  /** A 2xx response. */
  ghost predicate Is2xx(o: Outcome) {
    o.Response? && 200 <= o.status <= 299
  }

  /** A 4xx response other than 429 Too Many Requests. */
  ghost predicate IsRefusal(o: Outcome) {
    o.Response? && 400 <= o.status <= 499 && o.status != 429
  }

  /** The record an attempt at copy j leaves, when it ends at `now`: 2xx delivers,
      a refusal or the last attempt is final, everything else, a 429 and a network
      error included, is retried 80 to 120 % of min(10 s * 2^n, 1 h) later. */
  ghost predicate Concludes(before: DeliveryJob, j: DeliveryJob, o: Outcome, now: int, after: DeliveryJob)
    requires j.attempts >= 0
  {
    var n := j.attempts + 1;
    var delay := if n <= 8 then 10_000_000_000.0 * (Pow2(n) as real) else 3_600_000_000_000.0;
    && after.attempts == n && after.updatedAt == now
    && (after.status == Delivered <==> Is2xx(o))
    && (after.status == Dead <==> !Is2xx(o) && (IsRefusal(o) || n >= j.maxAttempts))
    && (after.status == Failed <==> !Is2xx(o) && !IsRefusal(o) && n < j.maxAttempts)
    && after.deliveredAt == (if Is2xx(o) then Some(now) else j.deliveredAt)
    && after.lastError == (if Is2xx(o) then NoError
                           else if o.Response? then HttpStatus(o.status)
                           else Other(o.text))
    && (after.status == Failed ==>
          0.8 * delay - 1.0 < (after.nextRetryAt - now) as real < 1.2 * delay)
    && (after.status != Failed ==> after.nextRetryAt == j.nextRetryAt)
    && (after.messageId, after.recipientId, after.endpoint, after.maxAttempts, after.createdAt)
       == (before.messageId, before.recipientId, before.endpoint, before.maxAttempts, before.createdAt)
  }

  lemma RetryBand(now: int, n: nat, u: real)
    requires Draw(u)
    ensures var delay := if n <= 8 then 10_000_000_000.0 * (Pow2(n) as real) else 3_600_000_000_000.0;
      0.8 * delay - 1.0 < (NextRetryAt(now, n, u) - now) as real < 1.2 * delay
  {
    NominalRange(n);
    JitterStaysWithinBand(n, u);
  }

  lemma OutcomeConcludes(before: DeliveryJob, j: DeliveryJob, o: Outcome, now: int, u: real)
    requires j.attempts >= 0 && Draw(u)
    ensures Concludes(before, j, o, now, Merged(before, AfterPost(j, o, now, u), now))
  {
    RetryBand(now, j.attempts + 1, u);
  }

  /** Every attempt that is made, and then written, concludes like that. */
  lemma AttemptConcludes(s: State, w: nat, o: Outcome, u: real)
    requires Inv(s) && Enabled(s, Post(w, o, u))
    ensures var j := s.workers[w].job;
      var k := (j.messageId, j.recipientId);
      var s1 := Next(s, Post(w, o, u));
      && Enabled(s1, Commit(w)) && k in s.records
      && var s2 := Next(s1, Commit(w));
         && k in s2.records && Concludes(s.records[k], j, o, s.now, s2.records[k])
         && s2.records == s.records[k := s2.records[k]]
         && Calls(s2, k) == Calls(s, k) + [o] && s2.workers == s.workers[w := Idle]
  {
    var j := s.workers[w].job;
    assert WorkerOk(s, s.workers[w]);
    OutcomeConcludes(s.records[KeyOf(j)], j, o, s.now, u);
    var s1 := Next(s, Post(w, o, u));
    assert KeyOf(AfterPost(j, o, s.now, u)) == KeyOf(j);
    assert s1.workers[w := Idle] == s.workers[w := Idle];
  }

  /** Below the limit one attempt ends dead exactly on a refusal, delivered exactly
      on a 2xx, and failed otherwise. */
  lemma OneAttemptDecides(s: State, w: nat, o: Outcome, u: real)
    requires Inv(s) && Enabled(s, Post(w, o, u)) && s.workers[w].job.attempts + 1 < s.cfg.maxAttempts
    ensures var after := Next(s, Post(w, o, u)).workers[w].job;
      && (after.status == Dead <==> o.Response? && 400 <= o.status <= 499 && o.status != 429)
      && (after.status == Delivered <==> o.Response? && 200 <= o.status <= 299)
      && (after.status == Failed <==> o.NetworkError? || (o.Response? && !(200 <= o.status <= 299)
                                                          && (!(400 <= o.status <= 499) || o.status == 429)))
  {
    assert WorkerOk(s, s.workers[w]);
    var j := s.workers[w].job;
    OutcomeConcludes(j, j, o, s.now, u);
  }

  /** A request that cannot be built fails the attempt without counting it. */
  lemma UnbuiltConcludes(s: State, w: nat, text: string, u: real)
    requires Inv(s) && Enabled(s, BuildFails(w, text, u))
    ensures var j := s.workers[w].job;
      var k := (j.messageId, j.recipientId);
      var s1 := Next(s, BuildFails(w, text, u));
      && Enabled(s1, Commit(w)) && k in s.records
      && var s2 := Next(s1, Commit(w));
         && k in s2.records && s2.records[k].status == Failed && s2.records[k].attempts == j.attempts
         && s2.records[k].lastError == Other(text) && s2.records[k].updatedAt == s.now
         && s2.records[k].nextRetryAt >= s.now + 8_000_000_000 && s2.calls == s.calls
  {
    assert WorkerOk(s, s.workers[w]);
    RetryIsLater(s.now, s.workers[w].job.attempts, u);
  }

  // ---- Whole runs ----

  /** In every run, a dead record with fewer than MaxAttempts POSTs had a POST
      answered with a 4xx other than 429, and a delivered one had one answered with
      a 2xx. */
  lemma ClosedForAReason(cfg: Config, start: int, es: seq<Event>, k: Key)
    requires Reachable(cfg, start, es) && k in At(cfg, start, es).records
    ensures var s := At(cfg, start, es);
      var j, calls := s.records[k], Calls(s, k);
      && (j.status == Dead && |calls| < cfg.maxAttempts ==>
            exists i :: 0 <= i < |calls| && calls[i].Response?
                        && 400 <= calls[i].status <= 499 && calls[i].status != 429)
      && (j.status == Delivered ==>
            exists i :: 0 <= i < |calls| && calls[i].Response? && 200 <= calls[i].status <= 299)
  {
    NeverGivesUpEarly(cfg, start, es, k);
    var s := At(cfg, start, es);
    var calls := Calls(s, k);
    if SawPermanent(calls) {
      var i :| 0 <= i < |calls| && calls[i].Permanent();
      assert calls[i].Response? && 400 <= calls[i].status <= 499 && calls[i].status != 429;
    }
    if SawSuccess(calls) {
      var i :| 0 <= i < |calls| && calls[i].Success();
      assert calls[i].Response? && 200 <= calls[i].status <= 299;
    }
  }

  // ---- One event ----

  /** A message for a user with an endpoint: a fresh key gets a pending record, a
      known one keeps its own, and the handler holds a copy to send. */
  lemma ArrivalIsStored(s: State, key: Key, endpoint: string)
    requires Inv(s) && endpoint != ""
    ensures var s' := Next(s, Arrive(key, endpoint));
      var job := DeliveryJob(key.0, key.1, endpoint, Pending, 0, s.cfg.maxAttempts, NoError, s.now, None, s.now, 0);
      && s'.handlers == s.handlers + [job]
      && s'.records == (if key in s.records then s.records else s.records[key := job.(updatedAt := s.now)])
  {
  }
}
