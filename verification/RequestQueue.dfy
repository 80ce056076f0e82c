/**
  The request queue of a connection as a state machine: requests wait, are in flight, or
  are settled, under an in-flight limit, throttling, timeouts and mass rejection.
 */
module RequestQueues {
  import opened Wire

  /** The life cycle kept by a socket request. */
  datatype Phase = Pending | Sent | Completed | Rejected

  /** Requests are numbered in the order they are pushed. */
  datatype Request = Request(id: nat, correlationId: int, expectResponse: bool)

  /**
    `settled` counts calls of resolve or reject, `sent` and `dequeued` record the order of
    socket writes (of all requests, and of those that had to wait), and `guardThrew`
    remembers whether a state guard or the duplicate-id check ever threw.
   */
  datatype State = State(
    pushed: seq<Request>, phases: map<nat, Phase>, settled: multiset<nat>,
    inflight: map<int, Request>, pending: seq<Request>, throttledUntil: int,
    sent: seq<nat>, dequeued: seq<nat>, guardThrew: bool)

  const Empty := State([], map[], multiset{}, map[], [], -1, [], [], false)

  // ------------------------------------------------------------------ operations

  predicate CanSend(s: State, max: Option<nat>, now: nat) {
    !((max.Some? && |s.inflight| >= max.value) || s.throttledUntil > now)
  }

  function MarkSent(s: State, id: nat): State {
    s.(phases := s.phases[id := Sent], sent := s.sent + [id])
  }

  /** completed() and rejected(): a guarded last phase change that resolves or rejects the caller. */
  function Settle(s: State, id: nat, accepted: set<Phase>, next: Phase): State {
    if !(id in s.phases && s.phases[id] in accepted) then s.(guardThrew := true)
    else s.(phases := s.phases[id := next], settled := s.settled + multiset{id})
  }

  /**
    sendSocketRequest: behind the state guard and the duplicate-id check, write, and settle
    at once when no response is expected.
   */
  function Send(s: State, r: Request): State {
    if !(r.id in s.phases && s.phases[r.id] == Pending) || r.correlationId in s.inflight then s.(guardThrew := true)
    else
      var s := MarkSent(s, r.id);
      if r.expectResponse then s.(inflight := s.inflight[r.correlationId := r])
      else Settle(s, r.id, {Sent}, Completed)
  }

  /** checkPendingRequests: first in, first out, while sending is possible. */
  function CheckPending(s: State, max: Option<nat>, now: nat): State
    decreases |s.pending|
  {
    if s.pending == [] || !CanSend(s, max, now) then s
    else CheckPending(SendFirst(s), max, now)
  }

  function SendFirst(s: State): State
    requires s.pending != []
  {
    Send(s.(pending := s.pending[1..], dequeued := s.dequeued + [s.pending[0].id]), s.pending[0])
  }

  function Arrive(s: State, r: Request): State {
    s.(pushed := s.pushed + [r], phases := s.phases[r.id := Pending])
  }

  function Push(s: State, r: Request, max: Option<nat>, now: nat): State {
    var s := Arrive(s, r);
    if CanSend(s, max, now) then Send(s, r) else s.(pending := s.pending + [r])
  }

  function Release(s: State, correlationId: int): State { s.(inflight := s.inflight - {correlationId}) }

  /** fulfillRequest: take the request out, let others go, then complete it. */
  function Fulfill(s: State, correlationId: int, max: Option<nat>, now: nat): State {
    var after := CheckPending(Release(s, correlationId), max, now);
    if correlationId in s.inflight then Settle(after, s.inflight[correlationId].id, {Sent}, Completed) else after
  }

  /** The timeout of a request that is in flight. */
  function TimeOut(s: State, correlationId: int, max: Option<nat>, now: nat): State {
    if correlationId !in s.inflight then s
    else
      var after := CheckPending(Release(s, correlationId), max, now);
      Settle(after, s.inflight[correlationId].id, {Pending, Sent}, Rejected)
  }

  function RejectEach(s: State, rs: seq<Request>): State
    decreases |rs|
  {
    if rs == [] then s else RejectEach(Settle(s, rs[0].id, {Pending, Sent}, Rejected), rs[1..])
  }

  /** rejectAll: the requests in flight, in map order, then the waiting ones. */
  function RejectAll(s: State, order: seq<Request>): State {
    RejectEach(s, order + s.pending).(pending := [], inflight := map[])
  }

  function Throttle(s: State, until: int): State {
    s.(throttledUntil := if until > s.throttledUntil then until else s.throttledUntil)
  }

  // ------------------------------------------------------------------ runs

  datatype Event =
    | DoPush(request: Request, now: nat)
    | DoRespond(correlationId: int, now: nat)
    | DoTimeOut(correlationId: int, now: nat)
    | DoRejectAll(order: seq<Request>)
    | DoCheck(now: nat)
    | DoThrottle(until: int)

  function Step(s: State, e: Event, max: Option<nat>): State {
    match e
    case DoPush(r, now) => Push(s, r, max, now)
    case DoRespond(c, now) => Fulfill(s, c, max, now)
    case DoTimeOut(c, now) => TimeOut(s, c, max, now)
    case DoRejectAll(order) => RejectAll(s, order)
    case DoCheck(now) => CheckPending(s, max, now)
    case DoThrottle(until) => Throttle(s, until)
  }

  /** A new request's correlation id differs from those of all live requests. */
  ghost predicate Fresh(s: State, r: Request) {
    && r.id == |s.pushed| && r.correlationId !in s.inflight
    && forall i | 0 <= i < |s.pending| :: s.pending[i].correlationId != r.correlationId
  }

  /** The values of the in-flight map, each once. */
  ghost predicate IsOrder(s: State, order: seq<Request>) {
    && (forall i | 0 <= i < |order| :: order[i].correlationId in s.inflight && s.inflight[order[i].correlationId] == order[i])
    && (forall c | c in s.inflight :: s.inflight[c] in order)
    && (forall i, j | 0 <= i < j < |order| :: order[i] != order[j])
  }

  ghost predicate Allowed(s: State, e: Event) {
    match e
    case DoPush(r, now) => Fresh(s, r)
    case DoRejectAll(order) => IsOrder(s, order)
    case _ => true
  }

  ghost predicate IsRun(s: State, es: seq<Event>, max: Option<nat>)
    decreases |es|
  {
    es == [] || (Allowed(s, es[0]) && IsRun(Step(s, es[0], max), es[1..], max))
  }

  function Run(s: State, es: seq<Event>, max: Option<nat>): State
    decreases |es|
  {
    if es == [] then s else Run(Step(s, es[0], max), es[1..], max)
  }

  // ------------------------------------------------------------------ what every run keeps

  ghost predicate IsInFlight(s: State, r: Request) {
    r.correlationId in s.inflight && s.inflight[r.correlationId] == r
  }

  ghost predicate Numbered(s: State) {
    && (forall i | 0 <= i < |s.pushed| :: s.pushed[i].id == i && i in s.phases)
    && (forall id | id in s.phases :: id < |s.pushed|)
  }

  ghost predicate Rooted(s: State) {
    && (forall c | c in s.inflight :: s.inflight[c] in s.pushed && s.inflight[c].correlationId == c)
    && (forall r | r in s.pending :: r in s.pushed)
  }

  /** `out` holds a request that was taken out of the in-flight map and is about to be settled. */
  ghost predicate SentIsInFlight(s: State, out: set<Request>) {
    && (forall r | r in s.pushed :: r.id in s.phases && (s.phases[r.id] == Sent <==> (IsInFlight(s, r) || r in out)))
    && (forall r | r in out :: r in s.pushed && !IsInFlight(s, r))
  }

  ghost predicate PendingIsWaiting(s: State) {
    forall r | r in s.pushed :: r.id in s.phases && (s.phases[r.id] == Pending <==> r in s.pending)
  }

  ghost predicate SettledOnce(s: State) {
    && (forall id | id in s.phases :: s.settled[id] == if s.phases[id] in {Completed, Rejected} then 1 else 0)
    && (forall id | id in s.settled :: id in s.phases)
  }

  /** Each request is waiting, in flight or settled, as its phase says, and settled at most once. */
  ghost predicate Placed(s: State, out: set<Request>) {
    Rooted(s) && SentIsInFlight(s, out) && PendingIsWaiting(s) && SettledOnce(s)
  }

  ghost predicate Distinct(s: State) {
    && (forall i | 0 <= i < |s.pending| :: s.pending[i].correlationId !in s.inflight)
    && (forall i, j | 0 <= i < j < |s.pending| ::
          s.pending[i].correlationId != s.pending[j].correlationId && s.pending[i].id < s.pending[j].id)
  }

  ghost predicate Inv(s: State, max: Option<nat>, out: set<Request> := {}) {
    && Numbered(s) && Placed(s, out) && Distinct(s)
    && (max.Some? ==> |s.inflight| <= max.value)
    && !s.guardThrew
  }

  lemma SameId(s: State, q: Request, r: Request)
    requires Numbered(s) && q in s.pushed && r in s.pushed && q.id == r.id
    ensures q == r
  {}

  /** A request out of the queue and not yet anywhere else. */
  ghost predicate Between(s: State, r: Request, out: set<Request>) {
    && Numbered(s) && Rooted(s) && SentIsInFlight(s, out) && SettledOnce(s)
    && r in s.pushed && r.id in s.phases && s.phases[r.id] == Pending && r.correlationId !in s.inflight
    && (forall q | q in s.pushed :: q.id in s.phases && (s.phases[q.id] == Pending <==> (q == r || q in s.pending)))
    && r !in s.pending
  }

  lemma SendPlaces(s: State, r: Request, out: set<Request>)
    requires Between(s, r, out)
    ensures Placed(Send(s, r), out) && Numbered(Send(s, r)) && Send(s, r).guardThrew == s.guardThrew
  {
    hide Send, Rooted, SentIsInFlight, PendingIsWaiting, SettledOnce, Numbered;
    SendRooted(s, r, out);
    SendPhases(s, r, out);
    SendSettles(s, r, out);
  }

  lemma SendRooted(s: State, r: Request, out: set<Request>)
    requires Between(s, r, out)
    ensures Rooted(Send(s, r))
  {
    hide SentIsInFlight, SettledOnce, Numbered;
  }

  lemma SendSettles(s: State, r: Request, out: set<Request>)
    requires Between(s, r, out)
    ensures SettledOnce(Send(s, r)) && Numbered(Send(s, r)) && Send(s, r).guardThrew == s.guardThrew
  {
    hide SentIsInFlight, Rooted, SettledOnce, MarkSent, Settle;
    var marked := MarkSent(s, r.id);
    MarkSettles(s, r.id);
    SettleSettles(marked, r.id, {Sent}, Completed);
    SameSettlements(marked, marked.(inflight := marked.inflight[r.correlationId := r]));
    SameNumbers(s, Send(s, r));
  }

  lemma MarkSettles(s: State, id: nat)
    requires SettledOnce(s) && id in s.phases && s.phases[id] == Pending
    ensures
      var t := MarkSent(s, id);
      && SettledOnce(t) && t.phases.Keys == s.phases.Keys && t.phases[id] == Sent
      && t == s.(phases := t.phases, sent := t.sent)
  {}

  /** A phase change to a last phase counts one settlement. */
  lemma SettleSettles(s: State, id: nat, accepted: set<Phase>, next: Phase)
    requires SettledOnce(s) && id in s.phases && s.phases[id] in accepted && accepted <= {Pending, Sent} && next in {Completed, Rejected}
    ensures
      var t := Settle(s, id, accepted, next);
      && SettledOnce(t) && t.phases.Keys == s.phases.Keys && t.phases == s.phases[id := next]
      && t == s.(phases := t.phases, settled := t.settled)
  {
    var t := Settle(s, id, accepted, next);
    forall i | i in t.phases ensures t.settled[i] == if t.phases[i] in {Completed, Rejected} then 1 else 0 {
      assert t.settled[i] == s.settled[i] + if i == id then 1 else 0;
    }
  }

  lemma SendPhases(s: State, r: Request, out: set<Request>)
    requires Between(s, r, out)
    ensures SentIsInFlight(Send(s, r), out) && PendingIsWaiting(Send(s, r))
  {
    hide Rooted, SettledOnce;
    var t := Send(s, r);
    forall q | q in s.pushed
      ensures q.id in t.phases && (t.phases[q.id] == Sent <==> (IsInFlight(t, q) || q in out))
      ensures t.phases[q.id] == Pending <==> q in t.pending
    {
      if q.id == r.id { SameId(s, q, r); }
    }
  }

  lemma PhaseChangeFields(s: State, id: nat, accepted: set<Phase>, next: Phase)
    ensures MarkSent(s, id) == s.(phases := MarkSent(s, id).phases, sent := MarkSent(s, id).sent)
    ensures
      var t := Settle(s, id, accepted, next);
      t == s.(phases := t.phases, settled := t.settled, guardThrew := t.guardThrew)
  {}

  lemma SendSizes(s: State, r: Request)
    ensures Send(s, r).pushed == s.pushed && Send(s, r).pending == s.pending && Send(s, r).throttledUntil == s.throttledUntil
    ensures |Send(s, r).inflight| <= |s.inflight| + 1
    ensures s.inflight.Keys <= Send(s, r).inflight.Keys <= s.inflight.Keys + {r.correlationId}
    ensures Send(s, r).dequeued == s.dequeued
  {
    hide MarkSent, Settle;
    PhaseChangeFields(s, r.id, {Sent}, Completed);
    PhaseChangeFields(MarkSent(s, r.id), r.id, {Sent}, Completed);
    if r.correlationId !in s.inflight && r.expectResponse {
      assert s.inflight[r.correlationId := r].Keys == s.inflight.Keys + {r.correlationId};
    }
  }

  /** Sending the head of the queue keeps the invariant. */
  lemma SendFirstKeeps(s: State, max: Option<nat>, out: set<Request>)
    requires Inv(s, max, out) && s.pending != [] && (max.Some? ==> |s.inflight| < max.value)
    ensures Inv(SendFirst(s), max, out)
  {
    hide Send, Numbered, SettledOnce, Placed;
    var r := s.pending[0];
    var t := s.(pending := s.pending[1..], dequeued := s.dequeued + [r.id]);
    HeadLeaves(s, t, r, out);
    SendPlaces(t, r, out);
    SendSizes(t, r);
  }

  lemma HeadLeaves(s: State, t: State, r: Request, out: set<Request>)
    requires Numbered(s) && Placed(s, out) && Distinct(s) && s.pending != [] && r == s.pending[0]
    requires t == s.(pending := s.pending[1..], dequeued := t.dequeued)
    ensures Between(t, r, out)
  {
    assert r in s.pending;
    assert s.pending == [r] + t.pending;
    forall q | q in s.pushed ensures s.phases[q.id] == Pending <==> (q == r || q in t.pending) {
      assert q in s.pending <==> (q == r || q in t.pending);
    }
  }

  lemma {:induction false} CheckPendingKeeps(s: State, max: Option<nat>, now: nat, out: set<Request>)
    requires Inv(s, max, out)
    ensures Inv(CheckPending(s, max, now), max, out)
    ensures CheckPending(s, max, now).pushed == s.pushed
    decreases |s.pending|
  {
    hide Inv, SendFirst;
    if s.pending != [] && CanSend(s, max, now) {
      SendFirstKeeps(s, max, out);
      SendFirstShrinks(s);
      CheckPendingKeeps(SendFirst(s), max, now, out);
    }
  }

  lemma SendFirstShrinks(s: State)
    requires s.pending != []
    ensures SendFirst(s).pending == s.pending[1..] && SendFirst(s).pushed == s.pushed
    ensures SendFirst(s).throttledUntil == s.throttledUntil
  {
    SendSizes(s.(pending := s.pending[1..], dequeued := s.dequeued + [s.pending[0].id]), s.pending[0]);
  }

  lemma PushKeeps(s: State, r: Request, max: Option<nat>, now: nat)
    requires Inv(s, max) && Fresh(s, r)
    ensures Inv(Push(s, r, max, now), max)
  {
    hide Numbered, Rooted, SentIsInFlight, SettledOnce, PendingIsWaiting, Between, Send;
    var t := Arrive(s, r);
    ArriveBetween(s, r);
    if CanSend(t, max, now) {
      SendPlaces(t, r, {});
      SendSizes(t, r);
    } else {
      EnqueuePlaces(t, r);
      EnqueueDistinct(s, r);
    }
  }

  lemma EnqueuePlaces(t: State, r: Request)
    requires Between(t, r, {})
    ensures Placed(t.(pending := t.pending + [r]), {}) && Numbered(t.(pending := t.pending + [r]))
  {
    assert forall q | q in t.pushed :: q in t.pending + [r] <==> q == r || q in t.pending;
  }

  lemma EnqueueDistinct(s: State, r: Request)
    requires Numbered(s) && Rooted(s) && Distinct(s) && Fresh(s, r)
    ensures Distinct(s.(pending := s.pending + [r]))
  {
    forall i | 0 <= i < |s.pending| ensures s.pending[i].id < r.id {
      assert s.pending[i] in s.pending;
    }
  }

  lemma ArriveBetween(s: State, r: Request)
    requires Numbered(s) && Placed(s, {}) && Fresh(s, r)
    ensures Between(Arrive(s, r), r, {})
  {
    hide Numbered, SentIsInFlight, PendingIsWaiting, SettledOnce, Rooted;
    var t := Arrive(s, r);
    ArriveNumbered(s, r);
    ArriveSettled(s, r);
    ArriveRooted(s, r);
    ArriveSent(s, r);
    ArriveWaiting(s, r);
    assert t.pushed[|s.pushed|] == r;
  }

  lemma ArriveNumbered(s: State, r: Request)
    requires Numbered(s) && r.id == |s.pushed|
    ensures Numbered(Arrive(s, r))
  {}

  lemma ArriveSettled(s: State, r: Request)
    requires Numbered(s) && SettledOnce(s) && r.id == |s.pushed|
    ensures SettledOnce(Arrive(s, r))
  {}

  lemma ArriveRooted(s: State, r: Request)
    requires Rooted(s)
    ensures Rooted(Arrive(s, r))
  {
    assert forall q | q in s.pushed :: q in s.pushed + [r];
  }

  lemma ArriveSent(s: State, r: Request)
    requires Numbered(s) && SentIsInFlight(s, {}) && Fresh(s, r)
    ensures SentIsInFlight(Arrive(s, r), {})
  {
    var t := Arrive(s, r);
    forall q | q in t.pushed ensures q.id in t.phases && (t.phases[q.id] == Sent <==> IsInFlight(t, q)) {
      assert q == r || q in s.pushed;
    }
  }

  lemma ArriveWaiting(s: State, r: Request)
    requires Numbered(s) && Rooted(s) && PendingIsWaiting(s) && r.id == |s.pushed|
    ensures var t := Arrive(s, r);
      forall q | q in t.pushed :: q.id in t.phases && (t.phases[q.id] == Pending <==> (q == r || q in t.pending))
    ensures r !in s.pending
  {
    var t := Arrive(s, r);
    forall q | q in t.pushed
      ensures q.id in t.phases && (t.phases[q.id] == Pending <==> (q == r || q in t.pending))
    {
      assert q == r || q in s.pushed;
    }
  }

  lemma ReleaseKeeps(s: State, c: int, max: Option<nat>)
    requires Inv(s, max) && c in s.inflight
    ensures Inv(Release(s, c), max, {s.inflight[c]})
  {
    var t := Release(s, c);
    assert t.inflight.Keys <= s.inflight.Keys;
    assert |t.inflight.Keys| <= |s.inflight.Keys| by { SubsetSize(t.inflight.Keys, s.inflight.Keys); }
    forall r | r in s.pushed ensures IsInFlight(s, r) <==> (IsInFlight(t, r) || r == s.inflight[c]) {}
  }

  lemma SubsetSize(a: set<int>, b: set<int>)
    requires a <= b
    ensures |a| <= |b|
  {
    assert b == a + (b - a);
  }

  lemma SettleKeeps(s: State, r: Request, max: Option<nat>, accepted: set<Phase>, next: Phase)
    requires Inv(s, max, {r}) && Sent in accepted && next in {Completed, Rejected}
    ensures Inv(Settle(s, r.id, accepted, next), max)
  {
    var t := Settle(s, r.id, accepted, next);
    assert r in {r};
    forall q | q in s.pushed
      ensures q.id in t.phases && (t.phases[q.id] == Sent <==> IsInFlight(t, q))
      ensures t.phases[q.id] == Pending <==> q in t.pending
    {
      if q.id == r.id { SameId(s, q, r); }
    }
  }

  lemma FulfillKeeps(s: State, c: int, max: Option<nat>, now: nat)
    requires Inv(s, max)
    ensures Inv(Fulfill(s, c, max, now), max)
  {
    hide Inv, CheckPending, Settle;
    if c in s.inflight {
      ReleaseKeeps(s, c, max);
      CheckPendingKeeps(Release(s, c), max, now, {s.inflight[c]});
      SettleKeeps(CheckPending(Release(s, c), max, now), s.inflight[c], max, {Sent}, Completed);
    } else {
      assert Release(s, c) == s;
      CheckPendingKeeps(s, max, now, {});
    }
  }

  lemma TimeOutKeeps(s: State, c: int, max: Option<nat>, now: nat)
    requires Inv(s, max)
    ensures Inv(TimeOut(s, c, max, now), max)
  {
    hide Inv, CheckPending, Settle;
    if c in s.inflight {
      ReleaseKeeps(s, c, max);
      CheckPendingKeeps(Release(s, c), max, now, {s.inflight[c]});
      SettleKeeps(CheckPending(Release(s, c), max, now), s.inflight[c], max, {Pending, Sent}, Rejected);
    }
  }

  ghost predicate Unsettled(s: State, rs: seq<Request>) {
    && (forall i | 0 <= i < |rs| :: rs[i].id in s.phases && s.phases[rs[i].id] in {Pending, Sent})
    && (forall i, j | 0 <= i < j < |rs| :: rs[i].id != rs[j].id)
  }

  /** What rejecting a list of unsettled requests does: exactly those become rejected, once. */
  lemma {:induction false} RejectEachEffect(s: State, rs: seq<Request>)
    requires Unsettled(s, rs) && !s.guardThrew && SettledOnce(s)
    ensures
      var t := RejectEach(s, rs);
      t == s.(phases := t.phases, settled := t.settled) && t.phases.Keys == s.phases.Keys && SettledOnce(t)
      && (forall i | 0 <= i < |rs| :: t.phases[rs[i].id] == Rejected)
      && (forall id | id in s.phases :: t.phases[id] == s.phases[id] || (t.phases[id] == Rejected && exists i :: 0 <= i < |rs| && rs[i].id == id))
    decreases |rs|
  {
    hide SettledOnce, Settle;
    if rs != [] {
      var u := Settle(s, rs[0].id, {Pending, Sent}, Rejected);
      SettleSettles(s, rs[0].id, {Pending, Sent}, Rejected);
      assert Unsettled(u, rs[1..]) by {
        forall i | 0 <= i < |rs[1..]| ensures rs[1..][i].id in u.phases && u.phases[rs[1..][i].id] in {Pending, Sent} {
          assert rs[1..][i] == rs[i + 1];
        }
      }
      RejectEachEffect(u, rs[1..]);
      var t := RejectEach(u, rs[1..]);
      assert t.phases[rs[0].id] == Rejected;
      forall i | 0 <= i < |rs| ensures t.phases[rs[i].id] == Rejected {
        if i > 0 { assert rs[1..][i - 1] == rs[i]; }
      }
      forall id | id in s.phases
        ensures t.phases[id] == s.phases[id] || (t.phases[id] == Rejected && exists i :: 0 <= i < |rs| && rs[i].id == id)
      {
        if id != rs[0].id && t.phases[id] != u.phases[id] {
          var i :| 0 <= i < |rs[1..]| && rs[1..][i].id == id;
          assert rs[i + 1].id == id;
        }
      }
    }
  }

  lemma AllUnsettled(s: State, order: seq<Request>)
    requires Numbered(s) && Placed(s, {}) && Distinct(s) && IsOrder(s, order)
    ensures Unsettled(s, order + s.pending)
  {
    var rs := order + s.pending;
    forall i | 0 <= i < |rs| ensures rs[i] in s.pushed && rs[i].id in s.phases && s.phases[rs[i].id] == if i < |order| then Sent else Pending {
      if i < |order| { assert IsInFlight(s, rs[i]); } else { assert rs[i] in s.pending; }
    }
    forall i, j | 0 <= i < j < |rs| ensures rs[i].id != rs[j].id {
      if j < |order| && rs[i].id == rs[j].id { SameId(s, rs[i], rs[j]); }
    }
  }

  lemma RejectAllKeeps(s: State, order: seq<Request>, max: Option<nat>)
    requires Inv(s, max) && IsOrder(s, order)
    ensures Inv(RejectAll(s, order), max)
  {
    hide RejectEach, IsOrder, SentIsInFlight, PendingIsWaiting, Distinct, Rooted, SettledOnce, Numbered, Unsettled;
    var u := RejectEach(s, order + s.pending);
    AllUnsettled(s, order);
    RejectEachEffect(s, order + s.pending);
    forall r | r in s.pushed ensures r.id in u.phases && u.phases[r.id] !in {Pending, Sent} {
      AllRejected(s, order, r);
      assert r.id in s.phases.Keys;
    }
    var t := u.(pending := [], inflight := map[]);
    NothingLive(t);
    assert Numbered(t) by { SameNumbers(s, t); }
    assert SettledOnce(t) by { SameSettlements(u, t); }
  }

  lemma SameNumbers(s: State, t: State)
    requires Numbered(s) && t.pushed == s.pushed && t.phases.Keys == s.phases.Keys
    ensures Numbered(t)
  {
    assert forall id :: id in t.phases <==> id in t.phases.Keys;
    assert forall id :: id in s.phases <==> id in s.phases.Keys;
  }

  lemma SameSettlements(s: State, t: State)
    requires SettledOnce(s) && t.phases == s.phases && t.settled == s.settled
    ensures SettledOnce(t)
  {}

  lemma NothingLive(t: State)
    requires t.pending == [] && t.inflight == map[]
    requires forall r | r in t.pushed :: r.id in t.phases && t.phases[r.id] !in {Pending, Sent}
    ensures Rooted(t) && SentIsInFlight(t, {}) && PendingIsWaiting(t) && Distinct(t)
  {}

  /** Whoever was waiting or in flight is in the list that gets rejected. */
  lemma AllRejected(s: State, order: seq<Request>, r: Request)
    requires Placed(s, {}) && IsOrder(s, order) && r in s.pushed
    ensures r.id in s.phases
    ensures s.phases[r.id] in {Pending, Sent} ==> exists i :: 0 <= i < |order + s.pending| && (order + s.pending)[i] == r
  {
    var rs := order + s.pending;
    if s.phases[r.id] == Sent {
      assert IsInFlight(s, r);
      assert r in order;
      assert r in rs;
    } else if s.phases[r.id] == Pending {
      assert r in s.pending;
      assert r in rs;
    }
  }

  lemma StepKeeps(s: State, e: Event, max: Option<nat>)
    requires Inv(s, max) && Allowed(s, e)
    ensures Inv(Step(s, e, max), max)
  {
    hide Push, Fulfill, TimeOut, RejectAll, CheckPending, Throttle, Inv, Fresh, IsOrder;
    match e
    case DoPush(r, now) => PushKeeps(s, r, max, now);
    case DoRespond(c, now) => FulfillKeeps(s, c, max, now);
    case DoTimeOut(c, now) => TimeOutKeeps(s, c, max, now);
    case DoRejectAll(order) => RejectAllKeeps(s, order, max);
    case DoCheck(now) => CheckPendingKeeps(s, max, now, {});
    case DoThrottle(until) => ThrottleKeeps(s, until, max);
  }

  lemma ThrottleKeeps(s: State, until: int, max: Option<nat>)
    requires Inv(s, max)
    ensures Inv(Throttle(s, until), max)
  {}

  /**
    In every run each request is in exactly one of waiting, in flight and settled, in
    agreement with its phase, settles at most once, the in-flight limit holds and no guard
    ever throws.
   */
  lemma {:induction false} RunKeeps(s: State, es: seq<Event>, max: Option<nat>)
    requires Inv(s, max) && IsRun(s, es, max)
    ensures Inv(Run(s, es, max), max)
    decreases |es|
  {
    hide Inv, Step, Allowed;
    if es != [] {
      StepKeeps(s, es[0], max);
      RunKeeps(Step(s, es[0], max), es[1..], max);
    }
  }

  lemma EmptyHolds(max: Option<nat>)
    ensures Inv(Empty, max)
  {}

  // ------------------------------------------------------------------ order of sending

  ghost predicate Increasing(ids: seq<nat>) {
    forall i, j | 0 <= i < j < |ids| :: ids[i] < ids[j]
  }

  ghost predicate Ahead(ids: seq<nat>, rs: seq<Request>) {
    forall i, j | 0 <= i < |ids| && 0 <= j < |rs| :: ids[i] < rs[j].id
  }

  /** Requests leave the queue in the order they entered it. */
  ghost predicate QueueOrder(s: State) {
    Increasing(s.dequeued) && Ahead(s.dequeued, s.pending) && forall i | 0 <= i < |s.dequeued| :: s.dequeued[i] < |s.pushed|
  }

  /** Everything sent so far was pushed in this order, and before anything that waits. */
  ghost predicate SendOrder(s: State) {
    Increasing(s.sent) && Ahead(s.sent, s.pending) && forall i | 0 <= i < |s.sent| :: s.sent[i] < |s.pushed|
  }

  /** Requests wait only while the in-flight map is full. */
  ghost predicate Backlogged(s: State, max: Option<nat>) {
    s.pending != [] ==> max.Some? && |s.inflight| >= max.value
  }

  /** What sending the head of the queue does to the fields that record order. */
  lemma SendFirstRecords(s: State, out: set<Request>)
    requires Numbered(s) && Placed(s, out) && Distinct(s) && s.pending != []
    ensures
      var t := SendFirst(s);
      && t.sent == s.sent + [s.pending[0].id] && t.dequeued == s.dequeued + [s.pending[0].id]
      && t.pending == s.pending[1..] && t.pushed == s.pushed
  {
    assert s.pending[0] in s.pending;
  }

  lemma SendFirstOrders(s: State, max: Option<nat>, out: set<Request>)
    requires Inv(s, max, out) && s.pending != []
    ensures QueueOrder(s) ==> QueueOrder(SendFirst(s))
    ensures SendOrder(s) ==> SendOrder(SendFirst(s))
  {
    hide SendFirst, Placed, Numbered, Distinct;
    SendFirstRecords(s, out);
    HeadPrecedes(s, out);
  }

  lemma HeadPrecedes(s: State, out: set<Request>)
    requires Numbered(s) && Placed(s, out) && Distinct(s) && s.pending != []
    ensures Ahead([s.pending[0].id], s.pending[1..]) && s.pending[0].id < |s.pushed|
  {
    assert s.pending[0] in s.pending;
  }

  lemma {:induction false} CheckPendingOrders(s: State, max: Option<nat>, now: nat, out: set<Request>)
    requires Inv(s, max, out)
    ensures QueueOrder(s) ==> QueueOrder(CheckPending(s, max, now))
    ensures SendOrder(s) ==> SendOrder(CheckPending(s, max, now))
    ensures CheckPending(s, max, now).throttledUntil == s.throttledUntil
    ensures s.throttledUntil <= now ==> Backlogged(CheckPending(s, max, now), max)
    decreases |s.pending|
  {
    hide Inv, SendFirst, QueueOrder, SendOrder;
    if s.pending != [] && CanSend(s, max, now) {
      SendFirstKeeps(s, max, out);
      SendFirstOrders(s, max, out);
      SendFirstShrinks(s);
      CheckPendingOrders(SendFirst(s), max, now, out);
    }
  }

  /** What a push does to the fields that record order. */
  lemma PushRecords(s: State, r: Request, max: Option<nat>, now: nat)
    requires Inv(s, max) && Fresh(s, r)
    ensures
      var t := Push(s, r, max, now);
      && t.pushed == s.pushed + [r] && t.dequeued == s.dequeued && t.throttledUntil == s.throttledUntil
      && (if CanSend(s, max, now) then t.sent == s.sent + [r.id] && t.pending == s.pending
          else t.sent == s.sent && t.pending == s.pending + [r])
  {
    hide Placed, Distinct, Numbered;
  }

  lemma PushOrders(s: State, r: Request, max: Option<nat>, now: nat)
    requires Inv(s, max) && Fresh(s, r)
    ensures QueueOrder(s) ==> QueueOrder(Push(s, r, max, now))
    ensures SendOrder(s) ==> (SendOrder(Push(s, r, max, now)) <==> (s.pending == [] || !CanSend(s, max, now)))
    ensures Push(s, r, max, now).throttledUntil == s.throttledUntil
  {
    hide Push, Placed, Distinct, Numbered, CanSend;
    PushRecords(s, r, max, now);
    WaitingAreOlder(s, r);
    var t := Push(s, r, max, now);
    if CanSend(s, max, now) && s.pending != [] { assert t.sent[|s.sent|] > t.pending[0].id; }
  }

  lemma WaitingAreOlder(s: State, r: Request)
    requires Numbered(s) && Placed(s, {}) && r.id == |s.pushed|
    ensures forall i | 0 <= i < |s.pending| :: s.pending[i].id < r.id
  {
    assert forall i | 0 <= i < |s.pending| :: s.pending[i] in s.pending;
  }

  lemma PushBacklogs(s: State, r: Request, max: Option<nat>, now: nat)
    requires Inv(s, max) && Fresh(s, r) && Backlogged(s, max) && s.throttledUntil <= now
    ensures Backlogged(Push(s, r, max, now), max)
  {}

  lemma TakeOutOrders(s: State, c: int, max: Option<nat>, now: nat)
    requires Inv(s, max)
    ensures
      var t := CheckPending(Release(s, c), max, now);
      && (QueueOrder(s) ==> QueueOrder(t)) && (SendOrder(s) ==> SendOrder(t))
      && t.throttledUntil == s.throttledUntil && (s.throttledUntil <= now ==> Backlogged(t, max))
  {
    hide Inv, CheckPending;
    if c in s.inflight {
      ReleaseKeeps(s, c, max);
      CheckPendingOrders(Release(s, c), max, now, {s.inflight[c]});
    } else {
      assert Release(s, c) == s;
      CheckPendingOrders(s, max, now, {});
    }
  }

  lemma {:induction false} RejectEachOrders(s: State, rs: seq<Request>)
    ensures RejectEach(s, rs).sent == s.sent && RejectEach(s, rs).dequeued == s.dequeued
    ensures RejectEach(s, rs).pushed == s.pushed && RejectEach(s, rs).throttledUntil == s.throttledUntil
    decreases |rs|
  {
    if rs != [] { RejectEachOrders(Settle(s, rs[0].id, {Pending, Sent}, Rejected), rs[1..]); }
  }

  lemma SettleOrders(s: State, id: nat, accepted: set<Phase>, next: Phase, max: Option<nat>)
    ensures
      var t := Settle(s, id, accepted, next);
      && (QueueOrder(s) ==> QueueOrder(t)) && (SendOrder(s) ==> SendOrder(t))
      && (Backlogged(s, max) ==> Backlogged(t, max)) && t.throttledUntil == s.throttledUntil
  {}

  lemma RejectAllOrders(s: State, order: seq<Request>, max: Option<nat>)
    ensures
      var t := RejectAll(s, order);
      && (QueueOrder(s) ==> QueueOrder(t)) && (SendOrder(s) ==> SendOrder(t))
      && Backlogged(t, max) && t.throttledUntil == s.throttledUntil
  {
    RejectEachOrders(s, order + s.pending);
  }

  /** Each step keeps the order of the queue; without throttling it keeps the order of sending too. */
  lemma StepOrders(s: State, e: Event, max: Option<nat>)
    requires Inv(s, max) && Allowed(s, e)
    ensures QueueOrder(s) ==> QueueOrder(Step(s, e, max))
    ensures SendOrder(s) && Backlogged(s, max) && s.throttledUntil < 0 && !e.DoThrottle? ==>
      SendOrder(Step(s, e, max)) && Backlogged(Step(s, e, max), max) && Step(s, e, max).throttledUntil < 0
  {
    hide Inv, CheckPending, RejectAll, QueueOrder, SendOrder, Backlogged, Settle, Push, Release;
    match e
    case DoPush(r, now) =>
      PushOrders(s, r, max, now);
      if Backlogged(s, max) && s.throttledUntil < 0 {
        PushBacklogs(s, r, max, now);
        UnblockedIsEmpty(s, max, now);
      }
    case DoRespond(c, now) =>
      TakeOutOrders(s, c, max, now);
      if c in s.inflight {
        SettleOrders(CheckPending(Release(s, c), max, now), s.inflight[c].id, {Sent}, Completed, max);
      }
    case DoTimeOut(c, now) =>
      TakeOutOrders(s, c, max, now);
      if c in s.inflight {
        SettleOrders(CheckPending(Release(s, c), max, now), s.inflight[c].id, {Pending, Sent}, Rejected, max);
      }
    case DoRejectAll(order) => RejectAllOrders(s, order, max);
    case DoCheck(now) => CheckPendingOrders(s, max, now, {});
    case DoThrottle(until) => ThrottleOrders(s, until);
  }

  lemma ThrottleOrders(s: State, until: int)
    ensures QueueOrder(s) ==> QueueOrder(Throttle(s, until))
  {}

  lemma UnblockedIsEmpty(s: State, max: Option<nat>, now: nat)
    requires Backlogged(s, max)
    ensures s.pending == [] || !CanSend(s, max, now)
  {}

  /** Requests that had to wait are sent in the order they were enqueued, in every run. */
  lemma {:induction false} QueueIsFifo(s: State, es: seq<Event>, max: Option<nat>)
    requires Inv(s, max) && IsRun(s, es, max) && QueueOrder(s)
    ensures QueueOrder(Run(s, es, max))
    decreases |es|
  {
    hide Inv, Step, Allowed, QueueOrder;
    if es != [] {
      StepKeeps(s, es[0], max);
      StepOrders(s, es[0], max);
      QueueIsFifo(Step(s, es[0], max), es[1..], max);
    }
  }

  ghost predicate NeverThrottled(es: seq<Event>) { forall e | e in es :: !e.DoThrottle? }

  /** In a run that is never throttled, requests are sent in the order they were pushed. */
  lemma {:induction false} UnthrottledSendsInPushOrder(s: State, es: seq<Event>, max: Option<nat>)
    requires Inv(s, max) && IsRun(s, es, max) && NeverThrottled(es)
    requires SendOrder(s) && Backlogged(s, max) && s.throttledUntil < 0
    ensures SendOrder(Run(s, es, max)) && Backlogged(Run(s, es, max), max)
    decreases |es|
  {
    hide Inv, Step, Allowed, SendOrder, Backlogged;
    if es != [] {
      StepKeeps(s, es[0], max);
      StepOrders(s, es[0], max);
      UnthrottledSendsInPushOrder(Step(s, es[0], max), es[1..], max);
    }
  }

  /** Where a request is, as its phase says: waiting, in flight, or settled exactly once. */
  ghost predicate InOnePlace(s: State, r: Request) {
    && r.id in s.phases
    && (r in s.pending <==> s.phases[r.id] == Pending)
    && (IsInFlight(s, r) <==> s.phases[r.id] == Sent)
    && s.settled[r.id] == if s.phases[r.id] in {Completed, Rejected} then 1 else 0
  }

  /**
    Over every run of an empty queue: each request is in exactly one place and settles at most
    once, the guards never throw, the in-flight limit holds, requests that had to wait are sent
    in the order they were enqueued, and without throttling all requests are sent in the order
    they were pushed, before anything that still waits, and nothing waits unless the in-flight
    map is full.
   */
  lemma QueueRuns(es: seq<Event>, max: Option<nat>)
    requires IsRun(Empty, es, max)
    ensures
      var s := Run(Empty, es, max);
      && !s.guardThrew && (max.Some? ==> |s.inflight| <= max.value)
      && (forall r | r in s.pushed :: InOnePlace(s, r))
      && Increasing(s.dequeued)
      && (NeverThrottled(es) ==>
            && Increasing(s.sent) && Ahead(s.sent, s.pending)
            && (s.pending != [] ==> max.Some? && |s.inflight| == max.value))
  {
    hide Run, IsRun;
    EmptyHolds(max);
    RunKeeps(Empty, es, max);
    QueueIsFifo(Empty, es, max);
    if NeverThrottled(es) { UnthrottledSendsInPushOrder(Empty, es, max); }
    var s := Run(Empty, es, max);
    forall r | r in s.pushed ensures InOnePlace(s, r) { PlacedInOne(s, r); }
  }

  /** While the throttle lasts nothing is sent, and the throttle itself never moves back. */
  lemma ThrottleHolds(s: State, e: Event, max: Option<nat>)
    requires Inv(s, max) && Allowed(s, e)
    requires e.DoPush? || e.DoRespond? || e.DoTimeOut? || e.DoCheck? ==> e.now < s.throttledUntil
    ensures
      var t := Step(s, e, max);
      && t.sent == s.sent && t.throttledUntil >= s.throttledUntil
      && (e.DoThrottle? ==> t.throttledUntil >= e.until && t.throttledUntil in {s.throttledUntil, e.until})
      && (!e.DoThrottle? ==> t.throttledUntil == s.throttledUntil)
  {
    hide Inv, IsOrder, RejectEach;
    match e
    case DoPush(r, now) => PushRecords(s, r, max, now);
    case DoRejectAll(order) => RejectEachOrders(s, order + s.pending);
    case _ =>
  }

  lemma PlacedInOne(s: State, r: Request)
    requires Placed(s, {}) && r in s.pushed
    ensures InOnePlace(s, r)
  {}

  lemma RunCons(s: State, e: Event, es: seq<Event>, max: Option<nat>)
    ensures Run(s, [e] + es, max) == Run(Step(s, e, max), es, max)
    ensures IsRun(s, [e] + es, max) <==> (Allowed(s, e) && IsRun(Step(s, e, max), es, max))
  {
    assert ([e] + es)[1..] == es;
  }

  /**
    Throttling breaks that order: a request pushed once the throttle has expired, but before
    the scheduled check, overtakes one that waits.
   */
  lemma ThrottledOvertakes()
    ensures
      var a, b := Request(0, 10, true), Request(1, 11, true);
      var es := [DoThrottle(100)] + ([DoPush(a, 50)] + ([DoPush(b, 100)] + ([DoCheck(110)] + [])));
      IsRun(Empty, es, None) && Run(Empty, es, None).sent == [1, 0]
  {
    hide Run, IsRun;
    var a, b := Request(0, 10, true), Request(1, 11, true);
    var s1 := Step(Empty, DoThrottle(100), None);
    var s2 := Step(s1, DoPush(a, 50), None);
    assert s2.pending == [a] && s2.sent == [] && s2.inflight == map[];
    var s3 := Step(s2, DoPush(b, 100), None);
    assert s3.sent == [1] && s3.pending == [a] && s3.inflight == map[11 := b] && s3.phases[0] == Pending;
    var s4 := Step(s3, DoCheck(110), None);
    FlushOne(s3, a);
    RunCons(Empty, DoThrottle(100), [DoPush(a, 50)] + ([DoPush(b, 100)] + ([DoCheck(110)] + [])), None);
    RunCons(s1, DoPush(a, 50), [DoPush(b, 100)] + ([DoCheck(110)] + []), None);
    RunCons(s2, DoPush(b, 100), [DoCheck(110)] + [], None);
    RunCons(s3, DoCheck(110), [], None);
    RunNil(s4);
  }

  lemma RunNil(s: State)
    ensures Run(s, [], None) == s && IsRun(s, [], None)
  {}

  lemma FlushOne(s: State, a: Request)
    requires s.pending == [a] && a.correlationId !in s.inflight && a.id in s.phases && s.phases[a.id] == Pending
    requires s.throttledUntil <= 110
    ensures CheckPending(s, None, 110).sent == s.sent + [a.id]
  {
    assert SendFirst(s).pending == [] && SendFirst(s).sent == s.sent + [a.id];
    assert CheckPending(s, None, 110) == CheckPending(SendFirst(s), None, 110);
  }
}
