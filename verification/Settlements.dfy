/**
  Why a request of the queue settles, over whole runs: it is completed by its response, or by
  being sent when it expects none, and rejected by its timeout or by a mass rejection.
 */
module Settlements {
  import opened Wire
  import opened RequestQueues

  ghost predicate WasSent(s: State, q: Request) { q.id in s.sent }

  /** Sending what may be sent: a pending request stays, or goes out and is in flight or done. */
  ghost predicate Advanced(s: State, t: State, q: Request) {
    q.id in s.phases && q.id in t.phases &&
    if s.phases[q.id] == Pending && t.phases[q.id] != Pending
    then t.phases[q.id] == (if q.expectResponse then Sent else Completed) && WasSent(t, q)
    else t.phases[q.id] == s.phases[q.id] && (WasSent(t, q) <==> WasSent(s, q))
  }

  lemma SendAdvances(s: State, r: Request, out: set<Request>)
    requires Between(s, r, out)
    ensures forall q | q in s.pushed :: Advanced(s, Send(s, r), q)
    ensures Send(s, r).pushed == s.pushed
  {
    hide Rooted, SettledOnce, SentIsInFlight;
    forall q | q in s.pushed ensures Advanced(s, Send(s, r), q) {
      if q.id == r.id { SameId(s, q, r); }
    }
  }

  lemma {:induction false} CheckAdvances(s: State, max: Option<nat>, now: nat, out: set<Request>)
    requires Inv(s, max, out)
    ensures forall q | q in s.pushed :: Advanced(s, CheckPending(s, max, now), q)
    decreases |s.pending|
  {
    hide Inv, SendFirst, Advanced;
    if s.pending != [] && CanSend(s, max, now) {
      var t := SendFirst(s);
      SendFirstKeeps(s, max, out);
      SendFirstShrinks(s);
      SendFirstAdvances(s, max, out);
      CheckAdvances(t, max, now, out);
      forall q | q in s.pushed ensures Advanced(s, CheckPending(s, max, now), q) {
        AdvancedTwice(s, t, CheckPending(t, max, now), q);
      }
    } else {
      forall q | q in s.pushed ensures Advanced(s, s, q) { Unmoved(s, max, out, q); }
    }
  }

  lemma Unmoved(s: State, max: Option<nat>, out: set<Request>, q: Request)
    requires Inv(s, max, out) && q in s.pushed
    ensures Advanced(s, s, q)
  {}

  lemma AdvancedTwice(s: State, t: State, u: State, q: Request)
    requires Advanced(s, t, q) && Advanced(t, u, q)
    ensures Advanced(s, u, q)
  {}

  lemma SendFirstAdvances(s: State, max: Option<nat>, out: set<Request>)
    requires Inv(s, max, out) && s.pending != []
    ensures forall q | q in s.pushed :: Advanced(s, SendFirst(s), q)
  {
    hide Send, Numbered, SettledOnce, Placed, Distinct;
    var r := s.pending[0];
    var t := s.(pending := s.pending[1..], dequeued := s.dequeued + [r.id]);
    HeadLeaves(s, t, r, out);
    SendAdvances(t, r, out);
    forall q | q in s.pushed ensures Advanced(s, SendFirst(s), q) { SameFields(s, t, SendFirst(s), q); }
  }

  lemma SameFields(s: State, t: State, u: State, q: Request)
    requires Advanced(t, u, q) && t.phases == s.phases && t.sent == s.sent
    ensures Advanced(s, u, q)
  {}

  // ------------------------------------------------------------------ one step

  /** The response of a request that is in flight arrives. */
  ghost predicate Answers(s: State, e: Event, q: Request) {
    e.DoRespond? && e.correlationId == q.correlationId && IsInFlight(s, q)
  }

  /** The request times out in flight, or is waiting or in flight at a mass rejection. */
  ghost predicate Drops(s: State, e: Event, q: Request) {
    (e.DoTimeOut? && e.correlationId == q.correlationId && IsInFlight(s, q))
    || (e.DoRejectAll? && (IsInFlight(s, q) || q in s.pending))
  }

  ghost predicate Explained(s: State, e: Event, t: State, q: Request) {
    if Answers(s, e, q) then Became(s, t, q, Completed)
    else if Drops(s, e, q) then Became(s, t, q, Rejected)
    else Advanced(s, t, q)
  }

  ghost predicate Became(s: State, t: State, q: Request, phase: Phase) {
    q.id in t.phases && t.phases[q.id] == phase && (WasSent(t, q) <==> WasSent(s, q))
  }

  /** Taking a request out of flight, sending others, and settling it. */
  lemma TakenOut(s: State, c: int, max: Option<nat>, now: nat, accepted: set<Phase>, next: Phase)
    requires Inv(s, max) && c in s.inflight && Sent in accepted && next in {Completed, Rejected}
    ensures
      var r := s.inflight[c];
      var t := Settle(CheckPending(Release(s, c), max, now), r.id, accepted, next);
      && (forall q | q in s.pushed && q != r :: Advanced(s, t, q))
      && r in s.pushed && r.id in t.phases && t.phases[r.id] == next && (WasSent(t, r) <==> WasSent(s, r))
  {
    hide Inv, CheckPending, Advanced;
    var r := s.inflight[c];
    var released := Release(s, c);
    var after := CheckPending(released, max, now);
    ReleaseKeeps(s, c, max);
    CheckPendingKeeps(released, max, now, {r});
    CheckAdvances(released, max, now, {r});
    OutIsSent(released, max, r);
    OutIsSent(after, max, r);
    forall q | q in s.pushed && q != r ensures Advanced(s, Settle(after, r.id, accepted, next), q) {
      OutIsAlone(after, max, r, q);
      SameFields(s, released, after, q);
      SettleOther(s, after, r.id, accepted, next, q);
    }
    assert Advanced(released, after, r);
    SentStays(released, after, r);
  }

  lemma SentStays(s: State, t: State, r: Request)
    requires Advanced(s, t, r) && s.phases[r.id] == Sent
    ensures WasSent(t, r) <==> WasSent(s, r)
  {}

  lemma OutIsSent(s: State, max: Option<nat>, r: Request)
    requires Inv(s, max, {r})
    ensures r in s.pushed && r.id in s.phases && s.phases[r.id] == Sent
  {
    assert r in {r};
  }

  lemma OutIsAlone(s: State, max: Option<nat>, r: Request, q: Request)
    requires Inv(s, max, {r}) && q in s.pushed && q != r
    ensures q.id != r.id
  {
    assert r in {r};
    if q.id == r.id { SameId(s, q, r); }
  }

  lemma SettleOther(s: State, t: State, id: nat, accepted: set<Phase>, next: Phase, q: Request)
    requires Advanced(s, t, q) && q.id != id
    ensures Advanced(s, Settle(t, id, accepted, next), q)
  {}

  lemma AnswerExplained(s: State, c: int, max: Option<nat>, now: nat, q: Request)
    requires Inv(s, max) && q in s.pushed
    ensures Explained(s, DoRespond(c, now), Fulfill(s, c, max, now), q)
  {
    hide Inv, CheckPending, Advanced, Settle;
    if c in s.inflight {
      TakenOut(s, c, max, now, {Sent}, Completed);
      HeldUnder(s, max, c, q);
    } else {
      assert Release(s, c) == s;
      CheckAdvances(s, max, now, {});
    }
  }

  lemma TimeOutExplained(s: State, c: int, max: Option<nat>, now: nat, q: Request)
    requires Inv(s, max) && q in s.pushed
    ensures Explained(s, DoTimeOut(c, now), TimeOut(s, c, max, now), q)
  {
    hide Inv, CheckPending, Advanced, Settle;
    if c in s.inflight {
      TakenOut(s, c, max, now, {Pending, Sent}, Rejected);
      HeldUnder(s, max, c, q);
    } else {
      Unmoved(s, max, {}, q);
    }
  }

  /** The request found under a correlation id is the one in flight with that id. */
  lemma HeldUnder(s: State, max: Option<nat>, c: int, q: Request)
    requires Inv(s, max) && c in s.inflight
    ensures q == s.inflight[c] <==> q.correlationId == c && IsInFlight(s, q)
  {}

  lemma PushExplained(s: State, r: Request, max: Option<nat>, now: nat, q: Request)
    requires Inv(s, max) && Fresh(s, r) && q in s.pushed
    ensures Explained(s, DoPush(r, now), Push(s, r, max, now), q)
  {
    hide Send, CanSend, SettledOnce, Rooted, SentIsInFlight, PendingIsWaiting, Distinct;
    var t := Arrive(s, r);
    ArriveBetween(s, r);
    OldIsNotNew(s, max, r, q);
    if CanSend(t, max, now) { SendAdvances(t, r, {}); SameForOld(s, t, Send(t, r), r, q); }
  }

  lemma OldIsNotNew(s: State, max: Option<nat>, r: Request, q: Request)
    requires Inv(s, max) && q in s.pushed && r.id == |s.pushed|
    ensures q.id != r.id && q.id in s.phases
  {}

  lemma SameForOld(s: State, t: State, u: State, r: Request, q: Request)
    requires t == Arrive(s, r) && q.id != r.id && q.id in s.phases && Advanced(t, u, q)
    ensures Advanced(s, u, q)
  {}

  /** A new request waits, or goes out at once. */
  lemma PushedExplained(s: State, r: Request, max: Option<nat>, now: nat)
    requires Inv(s, max) && Fresh(s, r)
    ensures
      var t := Push(s, r, max, now);
      && r.id in t.phases && t.pushed == s.pushed + [r]
      && (t.phases[r.id] == Pending || (t.phases[r.id] == (if r.expectResponse then Sent else Completed) && WasSent(t, r)))
      && (t.phases[r.id] == Pending ==> t.sent == s.sent)
  {
    hide SettledOnce, Rooted, SentIsInFlight, PendingIsWaiting, Distinct;
  }

  lemma RejectExplained(s: State, order: seq<Request>, max: Option<nat>, q: Request)
    requires Inv(s, max) && IsOrder(s, order) && q in s.pushed
    ensures Explained(s, DoRejectAll(order), RejectAll(s, order), q)
  {
    hide RejectEach, SettledOnce, Unsettled;
    AllUnsettled(s, order);
    RejectEachEffect(s, order + s.pending);
    RejectEachOrders(s, order + s.pending);
    AllRejected(s, order, q);
    if !(IsInFlight(s, q) || q in s.pending) { NotListed(s, order, q); }
  }

  lemma NotListed(s: State, order: seq<Request>, q: Request)
    requires Numbered(s) && Rooted(s) && IsOrder(s, order) && q in s.pushed && !IsInFlight(s, q) && q !in s.pending
    ensures forall i | 0 <= i < |order + s.pending| :: (order + s.pending)[i].id != q.id
  {
    var rs := order + s.pending;
    forall i | 0 <= i < |rs| ensures rs[i].id != q.id {
      if i < |order| { assert s.inflight[rs[i].correlationId] == rs[i]; } else { assert rs[i] in s.pending; }
      if rs[i].id == q.id { SameId(s, rs[i], q); }
    }
  }

  lemma StepExplained(s: State, e: Event, max: Option<nat>, q: Request)
    requires Inv(s, max) && Allowed(s, e) && q in s.pushed
    ensures Explained(s, e, Step(s, e, max), q)
  {
    hide Push, Fulfill, TimeOut, RejectAll, CheckPending, Inv, Fresh, IsOrder, Advanced;
    match e
    case DoPush(r, now) => PushExplained(s, r, max, now, q);
    case DoRespond(c, now) => AnswerExplained(s, c, max, now, q);
    case DoTimeOut(c, now) => TimeOutExplained(s, c, max, now, q);
    case DoRejectAll(order) => RejectExplained(s, order, max, q);
    case DoCheck(now) => CheckAdvances(s, max, now, {});
    case DoThrottle(until) =>
      Unmoved(s, max, {}, q);
      SameAfter(s, Throttle(s, until), q);
  }

  lemma SameAfter(s: State, t: State, q: Request)
    requires Advanced(s, s, q) && t.phases == s.phases && t.sent == s.sent
    ensures Advanced(s, t, q)
  {}

  // ------------------------------------------------------------------ whole runs

  lemma {:induction false} RunNext(s: State, es: seq<Event>, e: Event, max: Option<nat>)
    requires IsRun(s, es + [e], max)
    ensures IsRun(s, es, max) && Allowed(Run(s, es, max), e) && Run(s, es + [e], max) == Step(Run(s, es, max), e, max)
    decreases |es|
  {
    hide Step, Allowed;
    if es == [] {
      assert [] + [e] == [e] && [e][1..] == [];
    } else {
      assert (es + [e])[1..] == es[1..] + [e];
      RunNext(Step(s, es[0], max), es[1..], e, max);
    }
  }

  /** Somewhere in the run the request's response arrived while it was in flight. */
  ghost predicate WasAnswered(es: seq<Event>, max: Option<nat>, q: Request) {
    exists k :: 0 <= k < |es| && Answers(Run(Empty, es[..k], max), es[k], q)
  }

  /** Somewhere in the run it timed out in flight, or was waiting or in flight at a mass rejection. */
  ghost predicate WasDropped(es: seq<Event>, max: Option<nat>, q: Request) {
    exists k :: 0 <= k < |es| && Drops(Run(Empty, es[..k], max), es[k], q)
  }

  lemma OneMore(es: seq<Event>, e: Event, max: Option<nat>, q: Request)
    ensures WasAnswered(es + [e], max, q) <==> WasAnswered(es, max, q) || Answers(Run(Empty, es, max), e, q)
    ensures WasDropped(es + [e], max, q) <==> WasDropped(es, max, q) || Drops(Run(Empty, es, max), e, q)
  {
    hide Run, Answers, Drops;
    var all := es + [e];
    assert all[..|es|] == es && all[|es|] == e;
    forall k | 0 <= k < |es| ensures all[..k] == es[..k] && all[k] == es[k] {}
    if WasAnswered(es, max, q) {
      var k :| 0 <= k < |es| && Answers(Run(Empty, es[..k], max), es[k], q);
      assert Answers(Run(Empty, all[..k], max), all[k], q);
    }
    if WasDropped(es, max, q) {
      var k :| 0 <= k < |es| && Drops(Run(Empty, es[..k], max), es[k], q);
      assert Drops(Run(Empty, all[..k], max), all[k], q);
    }
    if Answers(Run(Empty, es, max), e, q) { assert Answers(Run(Empty, all[..|es|], max), all[|es|], q); }
    if Drops(Run(Empty, es, max), e, q) { assert Drops(Run(Empty, all[..|es|], max), all[|es|], q); }
  }

  /** The request's phase, by what happened to it. */
  ghost predicate Reasoned(es: seq<Event>, max: Option<nat>, s: State, q: Request) {
    && q.id in s.phases
    && (s.phases[q.id] == Completed <==> WasAnswered(es, max, q) || (!q.expectResponse && WasSent(s, q)))
    && (s.phases[q.id] == Rejected <==> WasDropped(es, max, q))
    && (s.phases[q.id] == Sent ==> q.expectResponse && WasSent(s, q))
    && (s.phases[q.id] == Pending ==> !WasSent(s, q))
  }

  /** Only pushed requests were sent, answered or dropped. */
  ghost predicate OnlyPushed(es: seq<Event>, max: Option<nat>, s: State) {
    && (forall id | id in s.sent :: id < |s.pushed|)
    && (forall q | WasAnswered(es, max, q) || WasDropped(es, max, q) :: q.id < |s.pushed|)
  }

  lemma ReasonStep(es: seq<Event>, e: Event, max: Option<nat>, s: State, t: State, q: Request)
    requires s == Run(Empty, es, max) && Inv(s, max) && q in s.pushed && Reasoned(es, max, s, q) && Explained(s, e, t, q)
    ensures Reasoned(es + [e], max, t, q)
  {
    hide Run, WasAnswered, WasDropped;
    OneMore(es, e, max, q);
  }

  lemma ReasonPush(es: seq<Event>, r: Request, now: nat, max: Option<nat>, s: State)
    requires s == Run(Empty, es, max) && Inv(s, max) && Fresh(s, r) && OnlyPushed(es, max, s)
    ensures Reasoned(es + [DoPush(r, now)], max, Push(s, r, max, now), r)
  {
    hide Run, WasAnswered, WasDropped, Push, Inv;
    OneMore(es, DoPush(r, now), max, r);
    PushedExplained(s, r, max, now);
  }

  lemma {:induction false} CheckSends(s: State, max: Option<nat>, now: nat, out: set<Request>)
    requires Inv(s, max, out) && forall id | id in s.sent :: id < |s.pushed|
    ensures forall id | id in CheckPending(s, max, now).sent :: id < |s.pushed|
    ensures CheckPending(s, max, now).pushed == s.pushed
    decreases |s.pending|
  {
    hide Inv, SendFirst;
    if s.pending != [] && CanSend(s, max, now) {
      SendFirstKeeps(s, max, out);
      SendFirstShrinks(s);
      FirstIsPushed(s, max, out);
      CheckSends(SendFirst(s), max, now, out);
    }
  }

  lemma FirstIsPushed(s: State, max: Option<nat>, out: set<Request>)
    requires Inv(s, max, out) && s.pending != []
    ensures SendFirst(s).sent == s.sent + [s.pending[0].id] && s.pending[0].id < |s.pushed|
  {
    SendFirstRecords(s, out);
    assert s.pending[0] in s.pending;
  }

  lemma StepSends(s: State, e: Event, max: Option<nat>)
    requires Inv(s, max) && Allowed(s, e) && forall id | id in s.sent :: id < |s.pushed|
    ensures forall id | id in Step(s, e, max).sent :: id < |Step(s, e, max).pushed|
    ensures |s.pushed| <= |Step(s, e, max).pushed|
  {
    hide Inv, CheckPending, IsOrder, Push;
    match e
    case DoPush(r, now) => PushRecords(s, r, max, now);
    case DoRespond(c, now) => TakeOutSends(s, c, max, now);
    case DoTimeOut(c, now) => TakeOutSends(s, c, max, now);
    case DoRejectAll(order) => RejectEachOrders(s, order + s.pending);
    case DoCheck(now) => CheckSends(s, max, now, {});
    case DoThrottle(_) =>
  }

  lemma TakeOutSends(s: State, c: int, max: Option<nat>, now: nat)
    requires Inv(s, max) && forall id | id in s.sent :: id < |s.pushed|
    ensures var t := CheckPending(Release(s, c), max, now); t.pushed == s.pushed && forall id | id in t.sent :: id < |s.pushed|
  {
    hide Inv, CheckPending;
    if c in s.inflight {
      ReleaseKeeps(s, c, max);
      CheckSends(Release(s, c), max, now, {s.inflight[c]});
    } else {
      assert Release(s, c) == s;
      CheckSends(s, max, now, {});
    }
  }

  lemma OnlyPushedStep(es: seq<Event>, e: Event, max: Option<nat>, s: State)
    requires s == Run(Empty, es, max) && Inv(s, max) && Allowed(s, e) && OnlyPushed(es, max, s)
    ensures OnlyPushed(es + [e], max, Step(s, e, max))
  {
    hide Run, WasAnswered, WasDropped, Step, Inv;
    StepSends(s, e, max);
    forall q | WasAnswered(es + [e], max, q) || WasDropped(es + [e], max, q) ensures q.id < |Step(s, e, max).pushed| {
      OneMore(es, e, max, q);
      if Answers(s, e, q) || Drops(s, e, q) { LiveIsPushed(s, max, q); }
    }
  }

  lemma LiveIsPushed(s: State, max: Option<nat>, q: Request)
    requires Inv(s, max) && (IsInFlight(s, q) || q in s.pending)
    ensures q.id < |s.pushed|
  {}

  lemma StepPushes(s: State, e: Event, max: Option<nat>)
    requires Inv(s, max) && Allowed(s, e)
    ensures Step(s, e, max).pushed == if e.DoPush? then s.pushed + [e.request] else s.pushed
  {
    hide Inv, CheckPending, IsOrder, Push, Settle;
    match e
    case DoPush(r, now) => PushRecords(s, r, max, now);
    case DoRespond(c, now) => TakeOutPushes(s, c, max, now);
    case DoTimeOut(c, now) => TakeOutPushes(s, c, max, now);
    case DoRejectAll(order) => RejectEachOrders(s, order + s.pending);
    case DoCheck(now) => CheckPendingKeeps(s, max, now, {});
    case DoThrottle(_) =>
  }

  lemma TakeOutPushes(s: State, c: int, max: Option<nat>, now: nat)
    requires Inv(s, max)
    ensures CheckPending(Release(s, c), max, now).pushed == s.pushed
    ensures forall t: State, id: nat, accepted, next :: Settle(t, id, accepted, next).pushed == t.pushed
  {
    hide Inv, CheckPending;
    if c in s.inflight {
      ReleaseKeeps(s, c, max);
      CheckPendingKeeps(Release(s, c), max, now, {s.inflight[c]});
    } else {
      assert Release(s, c) == s;
      CheckPendingKeeps(s, max, now, {});
    }
  }

  lemma {:induction false} RunReasoned(es: seq<Event>, max: Option<nat>)
    requires IsRun(Empty, es, max)
    ensures
      var s := Run(Empty, es, max);
      OnlyPushed(es, max, s) && forall q | q in s.pushed :: Reasoned(es, max, s, q)
    decreases |es|
  {
    hide Inv, Step, Allowed, IsRun, Reasoned, OnlyPushed;
    if es == [] {
      NothingYet(max);
    } else {
      var k := |es| - 1;
      var front, e := es[..k], es[k];
      assert es == front + [e];
      RunNext(Empty, front, e, max);
      RunReasoned(front, max);
      EmptyHolds(max);
      RunKeeps(Empty, front, max);
      var s := Run(Empty, front, max);
      StepReasoned(front, e, max, s);
    }
  }

  lemma NothingYet(max: Option<nat>)
    ensures OnlyPushed([], max, Run(Empty, [], max)) && Run(Empty, [], max).pushed == []
  {}

  lemma StepReasoned(es: seq<Event>, e: Event, max: Option<nat>, s: State)
    requires s == Run(Empty, es, max) && Inv(s, max) && Allowed(s, e) && OnlyPushed(es, max, s)
    requires forall q | q in s.pushed :: Reasoned(es, max, s, q)
    ensures OnlyPushed(es + [e], max, Step(s, e, max))
    ensures forall q | q in Step(s, e, max).pushed :: Reasoned(es + [e], max, Step(s, e, max), q)
  {
    hide Inv, Run, Reasoned, OnlyPushed, Explained, Push, Fulfill, TimeOut, RejectAll, CheckPending, Fresh;
    OnlyPushedStep(es, e, max, s);
    StepPushes(s, e, max);
    forall q | q in Step(s, e, max).pushed ensures Reasoned(es + [e], max, Step(s, e, max), q) {
      if q in s.pushed {
        StepExplained(s, e, max, q);
        ReasonStep(es, e, max, s, Step(s, e, max), q);
      } else {
        ReasonPush(es, e.request, e.now, max, s);
      }
    }
  }

  /**
    Over every run of an empty queue: a request is completed exactly when its response arrived
    while it was in flight, or it was sent and expects none; it is rejected exactly when it timed
    out in flight, or was waiting or in flight at a mass rejection.
   */
  lemma SettledForAReason(es: seq<Event>, max: Option<nat>, q: Request)
    requires IsRun(Empty, es, max) && q in Run(Empty, es, max).pushed
    ensures
      var s := Run(Empty, es, max);
      && q.id in s.phases
      && (s.phases[q.id] == Completed <==> WasAnswered(es, max, q) || (!q.expectResponse && WasSent(s, q)))
      && (s.phases[q.id] == Rejected <==> WasDropped(es, max, q))
  {
    hide Run, IsRun, WasAnswered, WasDropped, OnlyPushed;
    RunReasoned(es, max);
  }
}
