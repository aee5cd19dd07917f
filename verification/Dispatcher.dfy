/** The dispatcher object (internal/webhook/dispatcher.go). Each method is one
    atomic action of an event handler, the sweeper or a worker, on the object's
    own fields and on the store it shares, proved to make exactly the
    corresponding transition of WebhookModel. */
module Dispatcher {
  import opened Common
  import opened MemStore
  import opened WebhookRetry
  import opened WebhookModel
  import opened WebhookSafety
  import opened WebhookOutcomes

  /** What resolving the recipient gives: the endpoint is empty when the user has
      none configured. */
  datatype Lookup = UserFound(endpoint: string) | UserUnknown | LookupFailed

  /** Offering a list of copies one after the other. */
  ghost function OfferAll(cfg: Config, queue: seq<DeliveryJob>, js: seq<DeliveryJob>): seq<DeliveryJob>
    decreases |js|
  {
    if js == [] then queue else OfferAll(cfg, Offer(cfg, queue, js[0]), js[1..])
  }

  lemma {:induction false} OfferAllFills(cfg: Config, queue: seq<DeliveryJob>, js: seq<DeliveryJob>)
    requires |queue| <= Capacity(cfg)
    ensures OfferAll(cfg, queue, js) == queue + js[..Min(|js|, Capacity(cfg) - |queue|)]
    decreases |js|
  {
    if js == [] {
    } else {
      OfferAllFills(cfg, Offer(cfg, queue, js[0]), js[1..]);
      if |queue| < Capacity(cfg) {
        var m := Min(|js| - 1, Capacity(cfg) - |queue| - 1);
        assert js[..m + 1] == [js[0]] + js[1..][..m];
      }
    }
  }

  class Dispatcher {
    const cfg: Config
    const store: Store
    var clock: int
    var handlers: seq<DeliveryJob>
    var queue: seq<DeliveryJob>
    var sweep: seq<DeliveryJob>
    var workers: seq<Worker>
    var stopClosed: bool
    ghost var calls: map<Key, seq<Outcome>>
    ghost var lastPost: map<Key, int>

    ghost function View(): State
      reads this, store
    {
      State(cfg, clock, store.deliveryJobs, handlers, queue, sweep, workers, stopClosed, calls, lastPost)
    }

    ghost predicate Valid()
      reads this, store
    {
      store.Valid() && Inv(View())
    }

    /** A dispatcher may be opened over a store that earlier processes left
        behind; `history` and `times` are what they posted and when. */
    constructor (c: Config, s: Store, now: int, ghost history: map<Key, seq<Outcome>>,
                 ghost times: map<Key, int>)
      requires s.Valid() && Inv(Initial(c, now).(records := s.deliveryJobs, calls := history, lastPost := times))
      ensures Valid() && store == s
      ensures View() == Initial(c, now).(records := s.deliveryJobs, calls := history, lastPost := times)
    {
      cfg, store, clock := c, s, now;
      handlers, queue, sweep, stopClosed, calls, lastPost := [], [], [], false, history, times;
      workers := seq(c.workers, _ => Idle);
    }

    /** onMessageReceived up to the save; the copy then waits to be sent to the
        channel. Only a failing lookup is reported to the caller. */
    method OnMessageReceived(messageId: string, recipientId: string, user: Lookup) returns (ok: bool)
      requires Valid()
      modifies this`handlers, store`deliveryJobs
      ensures Valid()
      ensures ok == !user.LookupFailed?
      ensures View() == if user.UserFound? && user.endpoint != ""
                        then Next(old(View()), Arrive((messageId, recipientId), user.endpoint))
                        else old(View())
      ensures user.UserFound? && user.endpoint != "" ==>
                var key := (messageId, recipientId);
                var job := DeliveryJob(messageId, recipientId, user.endpoint, Pending, 0, cfg.maxAttempts, NoError,
                                       clock, None, clock, 0);
                && handlers == old(handlers) + [job]
                && store.deliveryJobs == (if key in old(store.deliveryJobs) then old(store.deliveryJobs)
                                          else old(store.deliveryJobs)[key := job.(updatedAt := clock)])
    {
      if user.UserUnknown? {
        return true;
      }
      if user.LookupFailed? {
        return false;
      }
      if user.endpoint == "" {
        return true;
      }
      StepKeepsInv(View(), Arrive((messageId, recipientId), user.endpoint));
      var job := DeliveryJob(messageId, recipientId, user.endpoint, Pending, 0, cfg.maxAttempts, NoError, clock,
                             None, clock, 0);
      store.SaveDeliveryJob(job, clock);
      handlers := handlers + [job];
      ok := true;
    }

    /** The handler's non-blocking send; a full channel drops the copy. */
    method HandlerOffer(i: nat)
      requires Valid() && i < |handlers|
      modifies this`handlers, this`queue
      ensures Valid() && View() == Next(old(View()), HandlerSend(i))
      ensures handlers == old(handlers)[..i] + old(handlers)[i + 1..]
      ensures queue == if |old(queue)| < cfg.workers * 10 then old(queue) + [old(handlers)[i]] else old(queue)
    {
      StepKeepsInv(View(), HandlerSend(i));
      var job := handlers[i];
      handlers := handlers[..i] + handlers[i + 1..];
      if |queue| < cfg.workers * 10 {
        queue := queue + [job];
      }
    }

    /** The sweeper's tick: lists what is due. */
    method SweepTick()
      requires Valid() && sweep == []
      modifies this`sweep
      ensures Valid()
      ensures IsDueList(store.deliveryJobs, clock, cfg.workers * 10, sweep)
      ensures View() == Next(old(View()), SweepList(sweep))
    {
      var due := store.ListPendingDeliveryJobs(clock, cfg.workers * 10);
      StepKeepsInv(View(), SweepList(due));
      sweep := due;
    }

    /** One round of the sweeper's inner loop. */
    method SweepOffer()
      requires Valid() && sweep != []
      modifies this`sweep, this`queue
      ensures Valid() && View() == Next(old(View()), SweepSend)
      ensures sweep == old(sweep)[1..]
      ensures queue == if |old(queue)| < cfg.workers * 10 then old(queue) + [old(sweep)[0]] else old(queue)
    {
      StepKeepsInv(View(), SweepSend);
      var job := sweep[0];
      sweep := sweep[1..];
      if |queue| < cfg.workers * 10 {
        queue := queue + [job];
      }
    }

    /** The whole inner loop, when no worker takes a job meanwhile: the channel
        is filled in due order up to its capacity, and the rest is dropped. */
    method SweepAll()
      requires Valid() && |queue| <= cfg.workers * 10
      modifies this`sweep, this`queue
      ensures Valid() && sweep == []
      ensures queue == old(queue) + old(sweep)[..Min(|old(sweep)|, cfg.workers * 10 - |old(queue)|)]
    {
      OfferAllFills(cfg, queue, sweep);
      while sweep != []
        invariant Valid() && OfferAll(cfg, queue, sweep) == OfferAll(cfg, old(queue), old(sweep))
        decreases |sweep|
      {
        SweepOffer();
      }
    }

    method TakeJob(w: nat)
      requires Valid() && Enabled(View(), Take(w))
      modifies this`queue, this`workers
      ensures Valid() && View() == Next(old(View()), Take(w))
      ensures queue == old(queue)[1..] && workers == old(workers)[w := Attempting(old(queue)[0])]
    {
      StepKeepsInv(View(), Take(w));
      workers := workers[w := Attempting(queue[0])];
      queue := queue[1..];
    }

    /** The message cannot be fetched or marshalled: the attempt ends silently. */
    method DropAttempt(w: nat)
      requires Valid() && Enabled(View(), FetchFails(w))
      modifies this`workers
      ensures Valid() && View() == Next(old(View()), FetchFails(w)) && workers == old(workers)[w := Idle]
    {
      StepKeepsInv(View(), FetchFails(w));
      workers := workers[w := Idle];
    }

    /** The first half of `fail`, on the worker's own copy. */
    static method RecordFailure(copy: DeliveryJob, err: ErrorText, permanent: bool, now: int, u: real)
      returns (r: DeliveryJob)
      requires copy.attempts >= 0
      ensures r == Fail(copy, err, permanent, now, u)
      ensures r.status == if permanent || copy.attempts >= copy.maxAttempts then Dead else Failed
      ensures r.lastError == err && r.attempts == copy.attempts
      ensures r == copy.(status := r.status, lastError := err, nextRetryAt := r.nextRetryAt)
      ensures Draw(u) && r.status == Failed ==>
                now + 8_000_000_000 <= r.nextRetryAt <= now + 4_320_000_000_000
      ensures r.status == Dead ==> r.nextRetryAt == copy.nextRetryAt
    {
      var job := copy.(lastError := err);
      if permanent || job.attempts >= job.maxAttempts {
        job := job.(status := Dead);
      } else {
        job := job.(status := Failed);
        job := job.(nextRetryAt := NextRetryAt(now, job.attempts, u));
        if Draw(u) {
          RetryIsLater(now, job.attempts, u);
        }
      }
      r := job;
    }

    /** http.NewRequest fails: no POST, and the attempt is not counted. */
    method FailToBuild(w: nat, text: string, u: real)
      requires Valid() && Enabled(View(), BuildFails(w, text, u))
      modifies this`workers
      ensures Valid() && View() == Next(old(View()), BuildFails(w, text, u))
    {
      StepKeepsInv(View(), BuildFails(w, text, u));
      var job := RecordFailure(workers[w].job, Other(text), false, clock, u);
      workers := workers[w := Updating(job, false)];
    }

    /** What `attempt` makes of the outcome of client.Do: the attempt counts,
        whatever came back. */
    static method ApplyOutcome(copy: DeliveryJob, o: Outcome, now: int, u: real) returns (r: DeliveryJob)
      requires copy.attempts >= 0
      ensures r == AfterPost(copy, o, now, u)
      ensures Draw(u) ==> Concludes(copy, copy, o, now, r.(updatedAt := now))
    {
      var job := copy.(attempts := copy.attempts + 1);
      if o.NetworkError? {
        job := RecordFailure(job, Other(o.text), false, now, u);
      } else if o.status >= 200 && o.status < 300 {
        job := job.(status := Delivered);
        job := job.(deliveredAt := Some(now));
        job := job.(lastError := NoError);
      } else {
        job := RecordFailure(job, HttpStatus(o.status), IsPermanentFailure(o.status), now, u);
      }
      r := job;
      if Draw(u) {
        OutcomeConcludes(copy, copy, o, now, u);
      }
    }

    method FinishPost(w: nat, o: Outcome, u: real)
      requires Valid() && Enabled(View(), Post(w, o, u))
      modifies this`workers, this`calls, this`lastPost
      ensures Valid() && View() == Next(old(View()), Post(w, o, u))
    {
      StepKeepsInv(View(), Post(w, o, u));
      ghost var key := KeyOf(workers[w].job);
      calls := calls[key := Calls(View(), key) + [o]];
      lastPost := lastPost[key := clock];
      var job := ApplyOutcome(workers[w].job, o, clock, u);
      workers := workers[w := Updating(job, true)];
    }

    /** The attempt's write to the store; it never reports a missing record. */
    method WriteBack(w: nat) returns (found: bool)
      requires Valid() && Enabled(View(), Commit(w))
      modifies this`workers, store`deliveryJobs
      ensures Valid() && found && View() == Next(old(View()), Commit(w)) && workers == old(workers)[w := Idle]
      ensures var j := old(workers[w]).job;
        var k := (j.messageId, j.recipientId);
        && k in store.deliveryJobs && store.deliveryJobs[k].status == j.status
        && store.deliveryJobs[k].attempts == j.attempts && store.deliveryJobs[k].nextRetryAt == j.nextRetryAt
        && store.deliveryJobs == old(store.deliveryJobs)[k := store.deliveryJobs[k]]
    {
      StepKeepsInv(View(), Commit(w));
      assert WorkerOk(View(), workers[w]);
      found := store.UpdateDeliveryJob(workers[w].job, clock);
      workers := workers[w := Idle];
    }
  }
}
