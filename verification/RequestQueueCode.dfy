/**
  The queue as an object. Its fields are those of the state machine, and every method, loops
  included, takes exactly the step of the same name.
 */
module RequestQueueCode {
  import opened Wire
  import opened RequestQueues

  class RequestQueue {
    const maxInFlightRequests: Option<nat>
    var inflight: map<int, Request>
    var pending: seq<Request>
    var throttledUntil: int
    var phases: map<nat, Phase> // the private state field of each socket request
    var guardThrew: bool
    ghost var pushed: seq<Request>
    ghost var settled: multiset<nat>
    ghost var sent: seq<nat>
    ghost var dequeued: seq<nat>

    ghost function View(): State
      reads this
    {
      State(pushed, phases, settled, inflight, pending, throttledUntil, sent, dequeued, guardThrew)
    }

    constructor (max: Option<nat>)
      ensures View() == Empty && maxInFlightRequests == max
    {
      maxInFlightRequests := max;
      inflight, pending, throttledUntil, phases, guardThrew := map[], [], -1, map[], false;
      pushed, settled, sent, dequeued := [], multiset{}, [], [];
    }

    predicate CanSendSocketRequestImmediately(now: nat)
      reads this
      ensures CanSendSocketRequestImmediately(now) == CanSend(View(), maxInFlightRequests, now)
    {
      var shouldEnqueue := (maxInFlightRequests.Some? && |inflight| >= maxInFlightRequests.value) || throttledUntil > now;
      !shouldEnqueue
    }

    /** completed and rejected of a socket request, with their state guard. */
    method SettleRequest(id: nat, accepted: set<Phase>, next: Phase)
      modifies this
      ensures View() == Settle(old(View()), id, accepted, next)
    {
      if id in phases && phases[id] in accepted {
        phases := phases[id := next];
        settled := settled + multiset{id};
      } else {
        guardThrew := true;
      }
    }

    method SendSocketRequest(r: Request)
      modifies this
      ensures View() == Send(old(View()), r)
    {
      if !(r.id in phases && phases[r.id] == Pending) || r.correlationId in inflight {
        guardThrew := true;
        return;
      }
      inflight := inflight[r.correlationId := r];
      phases := phases[r.id := Sent];
      sent := sent + [r.id];
      if !r.expectResponse {
        inflight := inflight - {r.correlationId};
        assert inflight == old(inflight);
        SettleRequest(r.id, {Sent}, Completed);
      }
    }

    method CheckPendingRequests(now: nat)
      modifies this
      ensures View() == CheckPending(old(View()), maxInFlightRequests, now)
    {
      hide Send;
      while pending != [] && CanSendSocketRequestImmediately(now)
        invariant CheckPending(View(), maxInFlightRequests, now) == CheckPending(old(View()), maxInFlightRequests, now)
        decreases |pending|
      {
        SendFirstShrinks(View());
        var pendingRequest := pending[0];
        pending := pending[1..];
        dequeued := dequeued + [pendingRequest.id];
        SendSocketRequest(pendingRequest);
      }
    }

    method PushRequest(r: Request, now: nat)
      modifies this
      ensures View() == Push(old(View()), r, maxInFlightRequests, now)
    {
      hide Send;
      pushed := pushed + [r];
      phases := phases[r.id := Pending];
      if CanSendSocketRequestImmediately(now) {
        SendSocketRequest(r);
        return;
      }
      pending := pending + [r];
    }

    method FulfillRequest(correlationId: int, now: nat)
      modifies this
      ensures View() == Fulfill(old(View()), correlationId, maxInFlightRequests, now)
    {
      hide CheckPending, Settle;
      var socketRequest := if correlationId in inflight then Some(inflight[correlationId]) else None;
      inflight := inflight - {correlationId};
      CheckPendingRequests(now);
      if socketRequest.Some? {
        SettleRequest(socketRequest.value.id, {Sent}, Completed);
      }
    }

    method TimeoutRequest(correlationId: int, now: nat)
      modifies this
      ensures View() == TimeOut(old(View()), correlationId, maxInFlightRequests, now)
    {
      hide CheckPending, Settle;
      if correlationId in inflight {
        var socketRequest := inflight[correlationId];
        inflight := inflight - {correlationId};
        CheckPendingRequests(now);
        SettleRequest(socketRequest.id, {Pending, Sent}, Rejected);
      }
    }

    /** `order` lists the values of the in-flight map as its iterator yields them. */
    method RejectAllRequests(order: seq<Request>)
      modifies this
      ensures View() == RejectAll(old(View()), order)
    {
      hide Settle;
      var requests := order + pending;
      ghost var start := View();
      ghost var model := start;
      for i := 0 to |requests|
        invariant View() == model.(inflight := inflight) && model.inflight == start.inflight && pending == start.pending
        invariant RejectEach(start, requests) == RejectEach(model, requests[i..])
      {
        RejectOne(model, requests[i..]);
        SettleIgnoresInFlight(model, requests[i].id, inflight);
        PhaseChangeFields(model, requests[i].id, {Pending, Sent}, Rejected);
        model := Settle(model, requests[i].id, {Pending, Sent}, Rejected);
        SettleRequest(requests[i].id, {Pending, Sent}, Rejected);
        inflight := inflight - {requests[i].correlationId};
        assert requests[i..][1..] == requests[i + 1..];
      }
      pending := [];
      inflight := map[];
    }

    method MaybeThrottle(clientSideThrottleTime: Option<int>, now: nat)
      modifies this
      ensures View() ==
        if clientSideThrottleTime.Some? && clientSideThrottleTime.value > 0
        then Throttle(old(View()), now + clientSideThrottleTime.value) else old(View())
    {
      if clientSideThrottleTime.Some? && clientSideThrottleTime.value > 0 {
        var minimumThrottledUntil := now + clientSideThrottleTime.value;
        throttledUntil := if minimumThrottledUntil > throttledUntil then minimumThrottledUntil else throttledUntil;
      }
    }
  }

  lemma RejectOne(s: State, rs: seq<Request>)
    requires rs != []
    ensures RejectEach(s, rs) == RejectEach(Settle(s, rs[0].id, {Pending, Sent}, Rejected), rs[1..])
  {}

  lemma SettleIgnoresInFlight(s: State, id: nat, inflight: map<int, Request>)
    ensures Settle(s.(inflight := inflight), id, {Pending, Sent}, Rejected)
      == Settle(s, id, {Pending, Sent}, Rejected).(inflight := inflight)
  {}
}
