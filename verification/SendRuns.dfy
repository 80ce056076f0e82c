/**
  One call of sendMessages over its retries: every attempt looks up the leaders' brokers, sends
  to those without a response, and requests of earlier attempts may still be answered later.
 */
module SendRuns {
  import opened Wire
  import opened Grouping

  /** A broker object; a node reconnected after a removal is a new object. */
  datatype Broker = Broker(node: int, instance: nat)

  datatype Request = Request(attempt: nat, broker: Broker)

  /** NoLock: the broker's lock timed out, which is thrown outside the request's own handler. */
  datatype Outcome = Acknowledged | Failed | NoLock

  datatype Phase =
    | Between
    | Preparing(todo: seq<int>)
    | Awaiting(pending: set<Request>)
    | Resolved
    | Rejected

  /** `responses` is responsePerBroker, false for null; `delivered` the nodes with a successful produce. */
  datatype State = State(
    leaders: seq<int>, responses: map<Broker, bool>, inflight: set<Request>,
    attempt: nat, delivered: set<int>, phase: Phase)

  function Fresh(leaders: seq<int>): State { State(leaders, map[], {}, 0, {}, Between) }

  // ------------------------------------------------------------------ steps

  /** All brokers without a response get a request; no request at all resolves at once. */
  function Launched(s: State): State {
    var requests := set b | b in s.responses && !s.responses[b] :: Request(s.attempt, b);
    s.(inflight := s.inflight + requests, phase := if requests == {} then Resolved else Awaiting(requests))
  }

  function AttemptStarted(s: State): State {
    if !s.phase.Between? then s
    else
      var next := s.(attempt := s.attempt + 1);
      if s.leaders == [] then Launched(next) else next.(phase := Preparing(s.leaders))
  }

  /** findBroker answered for the next leader; the last one launches the requests. */
  function BrokerFound(s: State, broker: Broker): State {
    if !s.phase.Preparing? || s.phase.todo == [] || broker.node != s.phase.todo[0] then s
    else
      var next := s.(responses := if broker in s.responses then s.responses else s.responses[broker := false]);
      if |s.phase.todo| == 1 then Launched(next) else next.(phase := Preparing(s.phase.todo[1..]))
  }

  function PreparationFailed(s: State): State { if s.phase.Preparing? then s.(phase := Between) else s }

  function Recorded(s: State, r: Request, outcome: Outcome): State {
    var next := s.(inflight := s.inflight - {r});
    match outcome
    case Acknowledged => next.(responses := s.responses[r.broker := true], delivered := s.delivered + {r.broker.node})
    case Failed => next.(responses := s.responses - {r.broker})
    case NoLock => next
  }

  /** Promise.all over the attempt's requests: the first failure ends the attempt. */
  function PhaseAfter(phase: Phase, r: Request, outcome: Outcome): Phase {
    if !phase.Awaiting? || r !in phase.pending then phase
    else if outcome != Acknowledged then Between
    else if phase.pending == {r} then Resolved
    else Awaiting(phase.pending - {r})
  }

  function Answered(s: State, r: Request, outcome: Outcome): State {
    if r !in s.inflight then s else Recorded(s, r, outcome).(phase := PhaseAfter(s.phase, r, outcome))
  }

  function GivenUp(s: State): State { if s.phase.Between? then s.(phase := Rejected) else s }

  datatype Event =
    | Attempt
    | Found(broker: Broker)
    | CannotPrepare
    | Answer(request: Request, outcome: Outcome)
    | GiveUp

  function Step(s: State, e: Event): State {
    match e
    case Attempt => AttemptStarted(s)
    case Found(broker) => BrokerFound(s, broker)
    case CannotPrepare => PreparationFailed(s)
    case Answer(r, outcome) => Answered(s, r, outcome)
    case GiveUp => GivenUp(s)
  }

  function Run(s: State, es: seq<Event>): State
    decreases |es|
  {
    if es == [] then s else Run(Step(s, es[0]), es[1..])
  }

  // ------------------------------------------------------------------ what every run keeps

  ghost predicate Listed(responses: map<Broker, bool>, node: int) { exists b :: b in responses && b.node == node }

  ghost predicate Asked(pending: set<Request>, node: int) { exists r :: r in pending && r.broker.node == node }

  /** Delivered already, or certain to be collected for a request. */
  ghost predicate Covered(s: State, node: int) { node in s.delivered || Listed(s.responses, node) }

  ghost predicate PhaseOk(s: State) {
    match s.phase
    case Preparing(todo) => todo != [] && forall n | n in s.leaders :: n in todo || Covered(s, n)
    case Awaiting(pending) =>
      pending != {} && pending <= s.inflight && forall n | n in s.leaders :: n in s.delivered || Asked(pending, n)
    case Resolved => forall n | n in s.leaders :: n in s.delivered
    case _ => true
  }

  ghost predicate Inv(s: State) {
    PhaseOk(s) && forall b | b in s.responses && s.responses[b] :: b.node in s.delivered
  }

  /**
    A failure that arrives while the next attempt looks up its brokers removes the broker from
    the map. That is harmless when the node is still to be looked up, was delivered to, leads
    nothing, or stands in the map as another object.
   */
  ghost predicate Harmless(s: State, e: Event) {
    e.Answer? && e.outcome == Failed && e.request in s.inflight && s.phase.Preparing? ==>
      var broker := e.request.broker;
      || broker.node !in s.leaders || broker.node in s.phase.todo || broker.node in s.delivered
      || Listed(s.responses - {broker}, broker.node)
  }

  ghost predicate HarmlessRun(s: State, es: seq<Event>)
    decreases |es|
  {
    es != [] ==> Harmless(s, es[0]) && HarmlessRun(Step(s, es[0]), es[1..])
  }

  lemma LaunchedKeeps(s: State)
    requires forall b | b in s.responses && s.responses[b] :: b.node in s.delivered
    requires forall n | n in s.leaders :: Covered(s, n)
    ensures Inv(Launched(s))
  {
    var requests := set b | b in s.responses && !s.responses[b] :: Request(s.attempt, b);
    forall n | n in s.leaders && n !in s.delivered ensures Asked(requests, n) {
      var b :| b in s.responses && b.node == n;
      assert Request(s.attempt, b) in requests;
    }
    assert requests == {} ==> forall n :: !Asked(requests, n);
  }

  lemma FoundKeeps(s: State, broker: Broker)
    requires Inv(s)
    ensures Inv(BrokerFound(s, broker))
  {
    if s.phase.Preparing? && s.phase.todo != [] && broker.node == s.phase.todo[0] {
      var todo := s.phase.todo;
      var next := s.(responses := if broker in s.responses then s.responses else s.responses[broker := false]);
      assert todo == [todo[0]] + todo[1..];
      forall n | n in s.leaders ensures n in todo[1..] || Covered(next, n) {
        if n == broker.node {
          assert broker in next.responses;
        } else if Listed(s.responses, n) {
          var b :| b in s.responses && b.node == n;
          assert b in next.responses;
        }
      }
      if |todo| == 1 { LaunchedKeeps(next); }
    }
  }

  /** What an answer does to the map, node by node. */
  lemma ListedAfter(s: State, r: Request, outcome: Outcome, node: int)
    requires Listed(s.responses, node)
    ensures Listed(Recorded(s, r, outcome).responses, node) || (outcome == Failed && node == r.broker.node)
  {
    var b :| b in s.responses && b.node == node;
    assert b in Recorded(s, r, outcome).responses || b == r.broker;
    if outcome != Failed { assert b in Recorded(s, r, outcome).responses; }
  }

  lemma AnsweredKeeps(s: State, r: Request, outcome: Outcome)
    requires Inv(s) && r in s.inflight && Harmless(s, Answer(r, outcome))
    ensures Inv(Answered(s, r, outcome))
  {
    hide Listed, Asked;
    var next := Answered(s, r, outcome);
    match s.phase
    case Preparing(todo) =>
      forall n | n in s.leaders ensures n in todo || Covered(next, n) {
        if n !in todo && n !in s.delivered { ListedAfter(s, r, outcome, n); }
      }
    case Awaiting(pending) =>
      if r in pending && outcome == Acknowledged { PendingAfter(s, r); }
    case _ =>
  }

  lemma PendingAfter(s: State, r: Request)
    requires Inv(s) && s.phase.Awaiting? && r in s.phase.pending && r in s.inflight
    ensures PhaseOk(Answered(s, r, Acknowledged))
  {
    var pending := s.phase.pending;
    forall n | n in s.leaders && n !in s.delivered && n != r.broker.node ensures Asked(pending - {r}, n) {
      var q :| q in pending && q.broker.node == n;
      assert q in pending - {r};
    }
    if pending == {r} { assert forall n :: !Asked(pending - {r}, n); }
    assert pending != {r} ==> pending - {r} != {};
  }

  lemma StepKeeps(s: State, e: Event)
    requires Inv(s) && Harmless(s, e)
    ensures Inv(Step(s, e))
  {
    hide Answered, BrokerFound;
    match e
    case Attempt => if s.phase.Between? && s.leaders == [] { LaunchedKeeps(s.(attempt := s.attempt + 1)); }
    case Found(broker) => FoundKeeps(s, broker);
    case CannotPrepare =>
    case Answer(r, outcome) => if r in s.inflight { AnsweredKeeps(s, r, outcome); } else { NotInFlight(s, r, outcome); }
    case GiveUp =>
  }

  lemma NotInFlight(s: State, r: Request, outcome: Outcome)
    requires r !in s.inflight
    ensures Answered(s, r, outcome) == s
  {}

  lemma {:induction false} RunKeeps(s: State, es: seq<Event>)
    requires Inv(s) && HarmlessRun(s, es)
    ensures Inv(Run(s, es)) && Run(s, es).leaders == s.leaders
    decreases |es|
  {
    hide Inv, Step, Harmless;
    if es != [] {
      StepKeeps(s, es[0]);
      SameLeaders(s, es[0]);
      RunKeeps(Step(s, es[0]), es[1..]);
    }
  }

  lemma SameLeaders(s: State, e: Event)
    ensures Step(s, e).leaders == s.leaders
  {}

  // ------------------------------------------------------------------ delivery

  /**
    Whenever a send resolves after harmless failures only, in whatever order they and the
    retries came, every message whose partition has a leader was in a successful produce to
    that leader, among its partition's messages in input order.
   */
  lemma ResolvedIsDelivered<M(!new)>(sending: Sending<M>, es: seq<Event>, k: nat, i: nat, leader: int)
    returns (batch: PartitionData<M>)
    requires DistinctTopics(sending.topics) && HarmlessRun(Fresh(sending.Lookups(|sending.topics|)), es)
    requires Run(Fresh(sending.Lookups(|sending.topics|)), es).phase == Resolved
    requires k < |sending.topics| && i < |sending.topics[k].items|
    requires
      var topic := sending.topics[k].topic;
      Leads(sending.MetadataOf(topic), sending.partitioner(topic, sending.topics[k].items[i]), Some(leader))
    ensures leader in Run(Fresh(sending.Lookups(|sending.topics|)), es).delivered
    ensures Carries(sending.DataFor(leader, |sending.topics|), sending.topics[k].topic, batch)
    ensures
      var topic, messages := sending.topics[k].topic, sending.topics[k].items;
      IsBatchOf(sending, k, sending.partitioner(topic, messages[i]), batch) && messages[i] in batch.messages
  {
    hide Run, HarmlessRun, Carries, Of, Sending.Lookups, Sending.DataFor, Leads, IsBatchOf;
    RunKeeps(Fresh(sending.Lookups(|sending.topics|)), es);
    batch := MessagePlaced(sending, k, i, leader);
  }

  /** A node counts as delivered to exactly once a request to it that is in flight is acknowledged. */
  lemma DeliveredByAnswer(s: State, e: Event, node: int)
    ensures node in Step(s, e).delivered <==>
      node in s.delivered || (e.Answer? && e.outcome == Acknowledged && e.request in s.inflight && e.request.broker.node == node)
  {}

  // ------------------------------------------------------------------ nobody is asked twice

  /** What the last look-up launches: requests to all brokers in the map without a response, the new one included. */
  lemma LaunchAsks(s: State, broker: Broker, b: Broker)
    requires s.phase.Preparing? && s.phase.todo == [broker.node]
    requires forall r | r in s.inflight :: r.attempt != s.attempt
    ensures
      var next := Step(s, Found(broker));
      Request(s.attempt, b) in next.inflight <==> if b in s.responses then !s.responses[b] else b == broker
  {}

  lemma StepAsksOthers(s: State, e: Event, b: Broker)
    requires b in s.responses && s.responses[b]
    requires !(e.Answer? && e.outcome == Failed && e.request.broker == b)
    ensures b in Step(s, e).responses && Step(s, e).responses[b]
    ensures forall r | r in Step(s, e).inflight && r.broker == b :: r in s.inflight
  {}

  ghost predicate FailsFor(es: seq<Event>, b: Broker) {
    exists e :: e in es && e.Answer? && e.outcome == Failed && e.request.broker == b
  }

  lemma {:induction false} RunAsksOthers(s: State, es: seq<Event>, b: Broker)
    requires b in s.responses && s.responses[b] && !FailsFor(es, b)
    ensures b in Run(s, es).responses && Run(s, es).responses[b]
    ensures forall r | r in Run(s, es).inflight && r.broker == b :: r in s.inflight
    decreases |es|
  {
    hide Step;
    if es != [] {
      assert es[0] in es && forall e | e in es[1..] :: e in es;
      StepAsksOthers(s, es[0], b);
      RunAsksOthers(Step(s, es[0]), es[1..], b);
    }
  }

  /**
    Once a broker has acknowledged, no later attempt asks it again, however many retries there
    are, unless another request to the same broker fails late.
   */
  lemma AcknowledgedIsNotAskedAgain(s: State, r: Request, es: seq<Event>)
    requires r in s.inflight && !FailsFor(es, r.broker)
    ensures forall q | q in Run(Step(s, Answer(r, Acknowledged)), es).inflight && q.broker == r.broker :: q in s.inflight && q != r
  {
    hide Run;
    RunAsksOthers(Step(s, Answer(r, Acknowledged)), es, r.broker);
  }

  // ------------------------------------------------------------------ the late failure

  /** A node that this attempt will neither ask nor has delivered to. */
  ghost predicate Lost(s: State, node: int) {
    node in s.leaders && node !in s.delivered && !Listed(s.responses, node)
  }

  lemma {:induction false} RunAppend(s: State, xs: seq<Event>, ys: seq<Event>)
    ensures Run(s, xs + ys) == Run(Run(s, xs), ys)
    ensures HarmlessRun(s, xs) && HarmlessRun(Run(s, xs), ys) ==> HarmlessRun(s, xs + ys)
    decreases |xs|
  {
    hide Step, Harmless;
    if xs == [] {
      assert xs + ys == ys;
    } else {
      assert (xs + ys)[1..] == xs[1..] + ys;
      RunAppend(Step(s, xs[0]), xs[1..], ys);
    }
  }

  lemma OneStep(s: State, e: Event)
    requires Harmless(s, e)
    ensures Run(s, [e]) == Step(s, e) && HarmlessRun(s, [e])
  {
    assert [e][1..] == [];
  }

  /** All requests of the attempt succeed: the send resolves without the lost node. */
  lemma {:induction false} ResolvesWithout(s: State, node: int) returns (es: seq<Event>)
    requires s.phase == Resolved || (s.phase.Awaiting? && s.phase.pending != {} && s.phase.pending <= s.inflight)
    requires node in s.leaders && node !in s.delivered && (s.phase.Awaiting? ==> !Asked(s.phase.pending, node))
    ensures HarmlessRun(s, es) && Run(s, es).phase == Resolved && node !in Run(s, es).delivered && node in Run(s, es).leaders
    decreases if s.phase.Awaiting? then |s.phase.pending| else 0
  {
    hide Step;
    es := [];
    if s.phase.Awaiting? {
      var pending := s.phase.pending;
      assert (forall r :: r !in pending) ==> pending == {};
      var r :| r in pending;
      AckStep(s, r, node);
      OneStep(s, Answer(r, Acknowledged));
      var rest := ResolvesWithout(Step(s, Answer(r, Acknowledged)), node);
      RunAppend(s, [Answer(r, Acknowledged)], rest);
      es := [Answer(r, Acknowledged)] + rest;
    }
  }

  lemma AckStep(s: State, r: Request, node: int)
    requires s.phase.Awaiting? && r in s.phase.pending && s.phase.pending <= s.inflight
    requires node in s.leaders && node !in s.delivered && !Asked(s.phase.pending, node)
    ensures
      var next := Step(s, Answer(r, Acknowledged));
      && node in next.leaders && node !in next.delivered
      && (next.phase == Resolved || (next.phase.Awaiting? && next.phase.pending != {} && next.phase.pending <= next.inflight))
      && (next.phase.Awaiting? ==> !Asked(next.phase.pending, node) && |next.phase.pending| < |s.phase.pending|)
  {
    assert r.broker.node != node;
    var pending := s.phase.pending;
    if pending != {r} {
      assert pending - {r} != {};
      assert forall q | q in pending - {r} :: q in pending;
    }
  }

  lemma LaunchedWithout(s: State, node: int)
    requires Lost(s, node)
    ensures
      var next := Launched(s);
      && node in next.leaders && node !in next.delivered
      && (next.phase == Resolved || (next.phase.Awaiting? && next.phase.pending != {} && next.phase.pending <= next.inflight))
      && (next.phase.Awaiting? ==> !Asked(next.phase.pending, node))
  {
    var requests := set b | b in s.responses && !s.responses[b] :: Request(s.attempt, b);
    forall r | r in requests ensures r.broker.node != node {}
  }

  /** Once a node is lost during preparation, the attempt can resolve without it. */
  lemma {:induction false} LostResolves(s: State, node: int) returns (es: seq<Event>)
    requires s.phase.Preparing? && s.phase.todo != [] && node !in s.phase.todo && Lost(s, node)
    ensures HarmlessRun(s, es) && Run(s, es).phase == Resolved && node !in Run(s, es).delivered && node in Run(s, es).leaders
    decreases |s.phase.todo|
  {
    hide Run, HarmlessRun;
    var todo := s.phase.todo;
    var broker := Broker(todo[0], 0);
    assert todo[0] in todo;
    var looked := s.(responses := if broker in s.responses then s.responses else s.responses[broker := false]);
    assert Lost(looked, node);
    var next, rest := BrokerFound(s, broker), [];
    OneStep(s, Found(broker));
    if |todo| == 1 {
      LaunchedWithout(looked, node);
      rest := ResolvesWithout(next, node);
    } else {
      assert node !in todo[1..];
      rest := LostResolves(next, node);
    }
    RunAppend(s, [Found(broker)], rest);
    es := [Found(broker)] + rest;
  }

  /** A failure during preparation is safe for every later run exactly when it is harmless. */
  lemma LateFailureExact(s: State, r: Request)
    requires Inv(s) && s.phase.Preparing? && r in s.inflight
    ensures
      var next := Step(s, Answer(r, Failed));
      Harmless(s, Answer(r, Failed)) <==>
      forall es | HarmlessRun(next, es) && Run(next, es).phase == Resolved ::
        forall n | n in s.leaders :: n in Run(next, es).delivered
  {
    hide Run, HarmlessRun;
    var next := Step(s, Answer(r, Failed));
    if Harmless(s, Answer(r, Failed)) {
      StepKeeps(s, Answer(r, Failed));
      forall es | HarmlessRun(next, es) && Run(next, es).phase == Resolved
        ensures forall n | n in s.leaders :: n in Run(next, es).delivered
      {
        RunKeeps(next, es);
      }
    } else {
      var es := LostResolves(next, r.broker.node);
    }
  }

  /**
    Such a failure can happen: both brokers are asked, the second fails, the next attempt finds
    the first broker still without response, its first request fails, and the attempt resolves
    having delivered to the second broker only.
   */
  lemma LateFailureLoses()
    ensures
      var one, two := Broker(1, 0), Broker(2, 0);
      var es := [Attempt, Found(one), Found(two), Answer(Request(1, two), Failed), Attempt, Found(one),
                 Answer(Request(1, one), Failed), Found(two), Answer(Request(2, two), Acknowledged)];
      Run(Fresh([1, 2]), es).phase == Resolved && 1 !in Run(Fresh([1, 2]), es).delivered
  {
    hide Run;
    var one, two := Broker(1, 0), Broker(2, 0);
    var es := [Attempt, Found(one), Found(two), Answer(Request(1, two), Failed), Attempt, Found(one),
               Answer(Request(1, one), Failed), Found(two), Answer(Request(2, two), Acknowledged)];
    var s3 := State([1, 2], map[one := false, two := false], {Request(1, one), Request(1, two)}, 1, {},
                    Awaiting({Request(1, one), Request(1, two)}));
    var s6 := State([1, 2], map[one := false], {Request(1, one)}, 2, {}, Preparing([2]));
    RunFirst3(one, two);
    RunNext3(s3, s6, one, two);
    RunLast3(s6, one, two);
    RunAppend(Fresh([1, 2]), es[..3], es[3..]);
    RunAppend(s3, es[3..][..3], es[3..][3..]);
    assert es == es[..3] + es[3..] && es[3..] == es[3..][..3] + es[3..][3..];
    assert es[..3] == [Attempt, Found(one), Found(two)];
    assert es[3..][..3] == [Answer(Request(1, two), Failed), Attempt, Found(one)];
    assert es[3..][3..] == [Answer(Request(1, one), Failed), Found(two), Answer(Request(2, two), Acknowledged)];
  }

  lemma ThreeSteps(s: State, a: Event, b: Event, c: Event)
    ensures Run(s, [a, b, c]) == Step(Step(Step(s, a), b), c)
  {
    hide Step;
    assert [a, b, c][1..] == [b, c] && [b, c][1..] == [c] && [c][1..] == [];
    assert Run(Step(Step(s, a), b), [c]) == Step(Step(Step(s, a), b), c);
    assert Run(Step(s, a), [b, c]) == Run(Step(Step(s, a), b), [c]);
  }

  lemma RunFirst3(one: Broker, two: Broker)
    requires one == Broker(1, 0) && two == Broker(2, 0)
    ensures Run(Fresh([1, 2]), [Attempt, Found(one), Found(two)])
      == State([1, 2], map[one := false, two := false], {Request(1, one), Request(1, two)}, 1, {},
               Awaiting({Request(1, one), Request(1, two)}))
  {
    hide Run;
    ThreeSteps(Fresh([1, 2]), Attempt, Found(one), Found(two));
    var s1 := Step(Fresh([1, 2]), Attempt);
    assert s1 == State([1, 2], map[], {}, 1, {}, Preparing([1, 2]));
    var s2 := Step(s1, Found(one));
    assert s2 == State([1, 2], map[one := false], {}, 1, {}, Preparing([2])) by { assert [1, 2][1..] == [2]; }
    var responses := map[one := false, two := false];
    assert s2.responses[two := false] == responses;
    var requests := set b | b in responses && !responses[b] :: Request(1, b);
    assert Request(1, one) in requests && Request(1, two) in requests;
    assert requests == {Request(1, one), Request(1, two)};
  }

  lemma RunNext3(s: State, t: State, one: Broker, two: Broker)
    requires one == Broker(1, 0) && two == Broker(2, 0)
    requires s == State([1, 2], map[one := false, two := false], {Request(1, one), Request(1, two)}, 1, {},
                        Awaiting({Request(1, one), Request(1, two)}))
    requires t == State([1, 2], map[one := false], {Request(1, one)}, 2, {}, Preparing([2]))
    ensures Run(s, [Answer(Request(1, two), Failed), Attempt, Found(one)]) == t
  {
    hide Run;
    ThreeSteps(s, Answer(Request(1, two), Failed), Attempt, Found(one));
    var s1 := Step(s, Answer(Request(1, two), Failed));
    assert s1.responses == map[one := false] && s1.inflight == {Request(1, one)};
    assert [1, 2][1..] == [2];
  }

  lemma RunLast3(s: State, one: Broker, two: Broker)
    requires one == Broker(1, 0) && two == Broker(2, 0)
    requires s == State([1, 2], map[one := false], {Request(1, one)}, 2, {}, Preparing([2]))
    ensures
      var end := Run(s, [Answer(Request(1, one), Failed), Found(two), Answer(Request(2, two), Acknowledged)]);
      end.phase == Resolved && 1 !in end.delivered
  {
    hide Run;
    ThreeSteps(s, Answer(Request(1, one), Failed), Found(two), Answer(Request(2, two), Acknowledged));
    var s1 := Step(s, Answer(Request(1, one), Failed));
    assert s1.responses == map[];
    var responses := map[two := false];
    assert s1.responses[two := false] == responses;
    var requests := set b | b in responses && !responses[b] :: Request(2, b);
    assert Request(2, two) in requests;
    assert requests == {Request(2, two)};
  }

  // ------------------------------------------------------------------ the call's own state

  /** The state that one call updates between its awaits. */
  class SendCall {
    const leaders: seq<int>
    var responsePerBroker: map<Broker, bool>
    var inflight: set<Request>
    var attempt: nat
    var delivered: set<int>
    var phase: Phase

    function View(): State
      reads this
    {
      State(leaders, responsePerBroker, inflight, attempt, delivered, phase)
    }

    constructor (leaders: seq<int>)
      ensures View() == Fresh(leaders)
    {
      this.leaders := leaders;
      responsePerBroker, inflight, attempt, delivered, phase := map[], {}, 0, {}, Between;
    }

    method CreateRequests()
      modifies this
      ensures View() == Launched(old(View()))
    {
      var requests := set b | b in responsePerBroker && !responsePerBroker[b] :: Request(attempt, b);
      inflight := inflight + requests;
      phase := if requests == {} then Resolved else Awaiting(requests);
    }

    method StartAttempt()
      modifies this
      ensures View() == Step(old(View()), Attempt)
    {
      if !phase.Between? { return; }
      attempt := attempt + 1;
      if leaders == [] { CreateRequests(); } else { phase := Preparing(leaders); }
    }

    method OnBrokerFound(broker: Broker)
      modifies this
      ensures View() == Step(old(View()), Found(broker))
    {
      if !phase.Preparing? || phase.todo == [] || broker.node != phase.todo[0] { return; }
      if broker !in responsePerBroker { responsePerBroker := responsePerBroker[broker := false]; }
      if |phase.todo| == 1 { CreateRequests(); } else { phase := Preparing(phase.todo[1..]); }
    }

    /** The request's own handler, then the attempt's Promise.all. */
    method OnAnswer(r: Request, outcome: Outcome)
      modifies this
      ensures View() == Step(old(View()), Answer(r, outcome))
    {
      if r !in inflight { return; }
      inflight := inflight - {r};
      match outcome {
        case Acknowledged =>
          responsePerBroker := responsePerBroker[r.broker := true];
          delivered := delivered + {r.broker.node};
        case Failed => responsePerBroker := responsePerBroker - {r.broker};
        case NoLock =>
      }
      if phase.Awaiting? && r in phase.pending {
        if outcome != Acknowledged {
          phase := Between;
        } else if phase.pending == {r} {
          phase := Resolved;
        } else {
          phase := Awaiting(phase.pending - {r});
        }
      }
    }
  }
}
