/** The relay node's SendMessage (internal/relay/relay.go) in front of the relay
    queue. */
module RelayServer {
  import opened Common
  import opened RelayQueueModel
  import RelayQueue

  /** The SendMessage request of the mailbox service. */
  datatype Request = Request(userId: string, recipientIds: seq<string>, deliverTo: seq<string>, subject: string,
                             body: string, headers: map<string, string>)

  const MAX_BODY_BYTES: int := 25 * 1024 * 1024

  /** deliver_to wins when it is set. */
  function Recipients(req: Request): seq<string> {
    if req.deliverTo != [] then req.deliverTo else req.recipientIds
  }

  function Outbound(req: Request): Message {
    Message(req.userId, Recipients(req), req.subject, req.body, req.headers)
  }

  /** SendMessage with a queue: the new queue state, and whether the RPC succeeds. */
  function Relayed(q: State, req: Request, ctxDone: bool, takeDone: bool): (State, bool) {
    if |req.body| > MAX_BODY_BYTES then (q, false)
    else if Recipients(req) == [] then (q, true)
    else (Next(q, Enqueue(Outbound(req), ctxDone, takeDone)), EnqueueOutcome(q, ctxDone, takeDone).Accepted?)
  }

  class Server {
    const queue: RelayQueue.Queue?

    constructor (q: RelayQueue.Queue?)
      ensures queue == q
    {
      queue := q;
    }

    /** Without a queue the backend is called inline and `sent` is its result. */
    method SendMessage(req: Request, ctxDone: bool, takeDone: bool, sent: bool) returns (ok: bool)
      requires queue != null ==> queue.Valid()
      modifies queue
      ensures queue != null ==> queue.Valid() && (queue.View(), ok) == Relayed(old(queue.View()), req, ctxDone, takeDone)
      ensures queue == null ==>
                ok == (|req.body| <= 26_214_400
                       && ((req.deliverTo == [] && req.recipientIds == []) || sent))
      ensures queue != null ==>
                var to := if req.deliverTo != [] then req.deliverTo else req.recipientIds;
                var accepted := |req.body| <= 26_214_400 && to != []
                                && |old(queue.jobs)| < Max(queue.cfg.workers * 8, 64) && !(ctxDone && takeDone);
                && ok == (|req.body| <= 26_214_400 && (to == [] || accepted))
                && (!accepted ==> queue.View() == old(queue.View()))
                && (accepted ==>
                      var msg := Message(req.userId, to, req.subject, req.body, req.headers);
                      && queue.jobs == old(queue.jobs) + [Job(|old(queue.log)|, msg, 0, 0)]
                      && |queue.log| == |old(queue.log)| + 1
                      && queue.log[|old(queue.log)|].msg == msg)
    {
      if |req.body| > MAX_BODY_BYTES {
        return false;
      }
      var recipients := req.deliverTo;
      if |recipients| == 0 {
        recipients := req.recipientIds;
      }
      if |recipients| == 0 {
        return true;
      }
      var headers := CopyHeaders(req.headers);
      if queue != null {
        var r := queue.Enqueue(Message(req.userId, recipients, req.subject, req.body, headers), ctxDone, takeDone);
        return r.Accepted?;
      }
      ok := sent;
    }
  }

  method CopyHeaders(h: map<string, string>) returns (r: map<string, string>)
    ensures r == h
  {
    r := map[];
    var todo := h.Keys;
    while todo != {}
      invariant todo <= h.Keys && r.Keys == h.Keys - todo
      invariant forall k :: k in r ==> r[k] == h[k]
      decreases |todo|
    {
      var k :| k in todo;
      todo := todo - {k};
      r := r[k := h[k]];
    }
  }
}
