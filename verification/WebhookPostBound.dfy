/** What bounds the POSTs of a job in every run: not MaxAttempts, but the number of
    copies made of its record. */
module WebhookPostBound {
  import opened MemStore
  import opened WebhookModel
  import opened WebhookTheorems
  import opened WebhookSingleCopy

  ghost predicate Attempts(x: Worker, k: Key) {
    x.Attempting? && KeyOf(x.job) == k
  }

  ghost function CopiesAttempted(ws: seq<Worker>, k: Key): nat {
    if ws == [] then 0 else (if Attempts(ws[0], k) then 1 else 0) + CopiesAttempted(ws[1..], k)
  }

  /** The copies of k that may still be posted. */
  ghost function Unposted(s: State, k: Key): nat {
    CopiesIn(s.handlers, k) + CopiesIn(s.queue, k) + CopiesIn(s.sweep, k) + CopiesAttempted(s.workers, k)
  }

  /** The copies one event makes: an arriving event one, a listing one for k. */
  ghost function Made(e: Event, k: Key): nat {
    if e.Arrive? && e.key == k then 1
    else if e.SweepList? then CopiesIn(e.due, k)
    else 0
  }

  ghost function MadeIn(es: seq<Event>, k: Key): nat {
    if es == [] then 0 else Made(es[0], k) + MadeIn(es[1..], k)
  }

  // ---- Counting ----

  lemma {:induction false} CountAppend(a: seq<DeliveryJob>, b: seq<DeliveryJob>, k: Key)
    ensures CopiesIn(a + b, k) == CopiesIn(a, k) + CopiesIn(b, k)
  {
    if a == [] {
      assert a + b == b;
    } else {
      CountAppend(a[1..], b, k);
      assert (a + b)[1..] == a[1..] + b;
    }
  }

  lemma CountSingle(j: DeliveryJob, k: Key)
    ensures CopiesIn([j], k) == if KeyOf(j) == k then 1 else 0
  {
    assert [j][1..] == [];
  }

  lemma CountRemove(js: seq<DeliveryJob>, i: nat, k: Key)
    requires i < |js|
    ensures CopiesIn(js, k) == CopiesIn(js[..i] + js[i + 1..], k) + (if KeyOf(js[i]) == k then 1 else 0)
  {
    CountAppend(js[..i], js[i + 1..], k);
    CountAppend(js[..i], js[i..], k);
    assert js[..i] + js[i..] == js && js[i..][0] == js[i] && js[i..][1..] == js[i + 1..];
  }

  lemma CountOffer(cfg: Config, queue: seq<DeliveryJob>, j: DeliveryJob, k: Key)
    ensures CopiesIn(Offer(cfg, queue, j), k) <= CopiesIn(queue, k) + (if KeyOf(j) == k then 1 else 0)
  {
    CountAppend(queue, [j], k);
    CountSingle(j, k);
  }

  lemma {:induction false} CountWorker(ws: seq<Worker>, w: nat, x: Worker, k: Key)
    requires w < |ws|
    ensures CopiesAttempted(ws[w := x], k) + (if Attempts(ws[w], k) then 1 else 0)
         == CopiesAttempted(ws, k) + (if Attempts(x, k) then 1 else 0)
  {
    if w == 0 {
      assert ws[w := x][1..] == ws[1..];
    } else {
      CountWorker(ws[1..], w - 1, x, k);
      assert ws[w := x][1..] == ws[1..][w - 1 := x];
    }
  }

  lemma {:induction false} NoneAttempted(ws: seq<Worker>, k: Key)
    requires forall w :: 0 <= w < |ws| ==> ws[w].Idle?
    ensures CopiesAttempted(ws, k) == 0
  {
    if ws == [] {
    } else {
      NoneAttempted(ws[1..], k);
    }
  }

  // ---- The bound ----

  /** No event leaves more posted and postable copies than there were and it made. */
  ghost predicate Bounded(s: State, s': State, e: Event, k: Key) {
    |Calls(s', k)| + Unposted(s', k) <= |Calls(s, k)| + Unposted(s, k) + Made(e, k)
  }

  lemma MoveBounded(s: State, e: Event, k: Key)
    requires Enabled(s, e) && (e.Arrive? || e.HandlerSend? || e.SweepList? || e.SweepSend?)
    ensures Bounded(s, Next(s, e), e, k)
  {
    if e.Arrive? {
      var job := NewJob(s.cfg, s.now, e.key, e.endpoint);
      CountAppend(s.handlers, [job], k);
      CountSingle(job, k);
    } else if e.HandlerSend? {
      CountRemove(s.handlers, e.i, k);
      CountOffer(s.cfg, s.queue, s.handlers[e.i], k);
    } else if e.SweepSend? {
      CountOffer(s.cfg, s.queue, s.sweep[0], k);
    }
  }

  lemma WorkBounded(s: State, e: Event, k: Key)
    requires Enabled(s, e)
    requires e.Take? || e.FetchFails? || e.BuildFails? || e.Post? || e.Commit? || e.Leave?
    ensures Bounded(s, Next(s, e), e, k)
  {
    CountWorker(s.workers, e.w, Next(s, e).workers[e.w], k);
  }

  lemma StepBounded(s: State, e: Event, k: Key)
    requires Enabled(s, e)
    ensures Bounded(s, Next(s, e), e, k)
  {
    if e.Arrive? || e.HandlerSend? || e.SweepList? || e.SweepSend? {
      MoveBounded(s, e, k);
    } else if e.Take? || e.FetchFails? || e.BuildFails? || e.Post? || e.Commit? || e.Leave? {
      WorkBounded(s, e, k);
    } else if e.Crash? {
      NoneAttempted(Next(s, e).workers, k);
    }
  }

  lemma {:induction false} RunBounded(s: State, es: seq<Event>, k: Key)
    requires Legal(s, es)
    ensures |Calls(Run(s, es), k)| + Unposted(Run(s, es), k) <= |Calls(s, k)| + Unposted(s, k) + MadeIn(es, k)
    decreases |es|
  {
    if es == [] {
    } else {
      StepBounded(s, es[0], k);
      RunBounded(Next(s, es[0]), es[1..], k);
    }
  }

  /** In every run, crashes and duplicates included, a job is posted at most once per
      arrival of its event and per sweep that listed it. */
  lemma PostsAtMostCopies(cfg: Config, start: int, es: seq<Event>, k: Key)
    requires Reachable(cfg, start, es)
    ensures |Calls(At(cfg, start, es), k)| <= MadeIn(es, k)
  {
    var s := Initial(cfg, start);
    NoneAttempted(s.workers, k);
    RunBounded(s, es, k);
  }
}
