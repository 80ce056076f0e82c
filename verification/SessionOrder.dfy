/**
  The order of successful handler calls within one session. An answer asked for before other
  messages were handled may be handed over after them, so order is not a property of all runs.
 */
module SessionOrder {
  import opened Wire
  import opened AbortedFilter
  import opened Batches
  import opened Offsets
  import opened ConsumerRuns

  ghost predicate Increasing(session: seq<int>) { forall i, j | 0 <= i < j < |session| :: session[i] < session[j] }

  /** Everything handled in the session lies below an offset. */
  predicate Above(session: seq<int>, offset: int) { session == [] || session[|session| - 1] < offset }

  /** The batch handed over goes on after the session: its first message, or the offset it resolves. */
  predicate InOrder(session: seq<int>, b: Batch) {
    if b.IsEmptyDueToFiltering() then Above(session, b.LastOffset() + 1)
    else b.Messages() == [] || Above(session, b.Messages()[0].offset)
  }

  ghost predicate Ordered(s: State) {
    && Increasing(s.session)
    && (s.session != [] ==> s.resolved.Some? && Above(s.session, s.resolved.value))
    && (HasMessage(s.hand) ==> Above(s.session, s.hand.remaining[0].offset))
  }

  predicate HandsOver(s: State, e: Event) { e.Take? && e.running && s.hand.Queued? }

  ghost predicate InOrderRun(s: State, es: seq<Event>)
    decreases |es|
  {
    es != [] ==> (HandsOver(s, es[0]) ==> InOrder(s.session, s.hand.batch)) && InOrderRun(Step(s, es[0]), es[1..])
  }

  // ------------------------------------------------------------------ hand-overs in order keep order

  lemma TakeOrders(log: seq<Message>, wanted: Message -> bool, initial: int, s: State)
    requires Inv(log, wanted, initial, s) && Ordered(s) && s.hand.Queued? && InOrder(s.session, s.hand.batch)
    ensures Ordered(Taken(s, true))
  {
    hide Inv, Batch.Messages, Batch.LastOffset, Batch.IsEmptyDueToFiltering;
  }

  lemma HandledOrders(log: seq<Message>, wanted: Message -> bool, initial: int, s: State)
    requires Inv(log, wanted, initial, s) && Ordered(s) && HasMessage(s.hand)
    ensures Ordered(Handled(s))
  {
    hide OffsetsOk;
    assert ByOffset(s.hand.remaining);
  }

  lemma StepOrders(log: seq<Message>, wanted: Message -> bool, initial: int, s: State, e: Event)
    requires Inv(log, wanted, initial, s) && Ordered(s) && (HandsOver(s, e) ==> InOrder(s.session, s.hand.batch))
    ensures Ordered(Step(s, e))
  {
    hide Inv, InOrder, RemoveAt, Taken, Handled;
    match e
    case Take(running) =>
      if HandsOver(s, e) { TakeOrders(log, wanted, initial, s); } else { NotHandedOver(s, running); }
    case HandlerSucceeds => if HasMessage(s.hand) { HandledOrders(log, wanted, initial, s); }
    case _ =>
  }

  lemma NotHandedOver(s: State, running: bool)
    requires !HandsOver(s, Take(running)) && Ordered(s)
    ensures Ordered(Taken(s, running))
  {}

  /** In every run whose hand-overs are in order, the offsets handled in a session increase. */
  lemma {:induction false} RunOrders(log: seq<Message>, wanted: Message -> bool, initial: int, s: State, es: seq<Event>)
    requires Inv(log, wanted, initial, s) && IsRun(log, wanted, s, es) && Ordered(s) && InOrderRun(s, es)
    requires forall m | m in log && wanted(m) :: !m.isControlRecord
    ensures Ordered(Run(s, es))
    decreases |es|
  {
    hide Inv, Step, Allowed, Ordered, HandsOver, InOrder;
    if es != [] {
      StepKeeps(log, wanted, initial, s, es[0]);
      StepOrders(log, wanted, initial, s, es[0]);
      RunOrders(log, wanted, initial, Step(s, es[0]), es[1..]);
    }
  }

  lemma SessionInOrder(log: seq<Message>, initial: nat, es: seq<Event>)
    requires IsConsumption(log, Start(initial), es) && InOrderRun(Start(initial), es)
    ensures Increasing(Run(Start(initial), es).session)
  {
    hide Run, IsConsumption, InOrderRun;
    ConsumptionIsRun(log, Start(initial), es);
    RunOrders(log, IsPlain, initial, Start(initial), es);
  }

  // ------------------------------------------------------------------ the claim decides

  /** A batch asked for above everything handled since is in order. */
  lemma AskedAboveIsInOrder(log: seq<Message>, wanted: Message -> bool, b: Batch, session: seq<int>)
    requires Covering(log, b) && Spares(b, wanted) && Above(session, b.fetchedOffset)
    requires forall m | m in log && wanted(m) :: !m.isControlRecord
    ensures InOrder(session, b)
  {
    hide Covering, Spares, Batch.Messages, Batch.LastOffset, Batch.IsEmptyDueToFiltering;
    if b.IsEmptyDueToFiltering() { FilteredIsSafe(log, wanted, b); }
    else if b.Messages() != [] { ExposedIsComplete(log, wanted, b); }
  }

  /** An answer that finds the partition free was asked for above everything handled in the session. */
  ghost predicate ClaimsInOrder(s: State, es: seq<Event>)
    decreases |es|
  {
    es != [] ==>
      && (es[0].Answer? && es[0].node in s.asked && s.hand.Free? ==> Above(s.session, s.asked[es[0].node]))
      && ClaimsInOrder(Step(s, es[0]), es[1..])
  }

  ghost predicate ClaimOk(s: State) { s.hand.Queued? ==> Above(s.session, s.hand.batch.fetchedOffset) }

  /** Claims in order give hand-overs in order: nothing is handled while a claimed batch waits. */
  lemma {:induction false} ClaimsGiveOrder(log: seq<Message>, wanted: Message -> bool, initial: int, s: State, es: seq<Event>)
    requires Inv(log, wanted, initial, s) && IsRun(log, wanted, s, es) && ClaimOk(s) && ClaimsInOrder(s, es)
    requires forall m | m in log && wanted(m) :: !m.isControlRecord
    ensures InOrderRun(s, es)
    decreases |es|
  {
    hide Step, Allowed, InOrder, OffsetsOk, Covering, Spares;
    if es != [] {
      if HandsOver(s, es[0]) { AskedAboveIsInOrder(log, wanted, s.hand.batch, s.session); }
      ClaimStays(log, wanted, s, es[0]);
      StepKeeps(log, wanted, initial, s, es[0]);
      ClaimsGiveOrder(log, wanted, initial, Step(s, es[0]), es[1..]);
    }
  }

  lemma ClaimStays(log: seq<Message>, wanted: Message -> bool, s: State, e: Event)
    requires ClaimOk(s) && Allowed(log, wanted, s, e)
    requires e.Answer? && e.node in s.asked && s.hand.Free? ==> Above(s.session, s.asked[e.node])
    ensures ClaimOk(Step(s, e))
  {
    hide Covering, Spares, Batch.Messages, Batch.LastOffset, Batch.IsEmptyDueToFiltering, RemoveAt;
  }

  // ------------------------------------------------------------------ one fetcher

  ghost predicate AskedBy(es: seq<Event>, node: int) { forall e | e in es && e.Ask? :: e.node == node }

  /** While its only fetcher asks, nothing of the partition is in hand. */
  ghost predicate Sole(s: State, node: int) {
    && (forall n | n in s.asked :: n == node && s.hand.Free? && Above(s.session, s.asked[n]))
    && (!s.hand.Free? ==> s.hand.node == node)
  }

  lemma SoleStays(s: State, e: Event, node: int)
    requires Sole(s, node) && Ordered(s) && (e.Ask? ==> e.node == node) && (s.resolved.Some? ==> s.resolved.value >= 0)
    ensures Sole(Step(s, e), node)
  {
    hide Batch.Messages, Batch.LastOffset, Batch.IsEmptyDueToFiltering, RemoveAt, Increasing;
  }

  lemma {:induction false} SoleClaims(log: seq<Message>, wanted: Message -> bool, initial: int, s: State, es: seq<Event>, node: int)
    requires Inv(log, wanted, initial, s) && IsRun(log, wanted, s, es) && AskedBy(es, node)
    requires Sole(s, node) && Ordered(s) && ClaimOk(s)
    requires forall m | m in log && wanted(m) :: !m.isControlRecord
    ensures ClaimsInOrder(s, es)
    decreases |es|
  {
    hide Step, Allowed, InOrder, Ordered, Covering, Spares;
    if es != [] {
      if HandsOver(s, es[0]) { AskedAboveIsInOrder(log, wanted, s.hand.batch, s.session); }
      ClaimStays(log, wanted, s, es[0]);
      SoleStays(s, es[0], node);
      StepOrders(log, wanted, initial, s, es[0]);
      StepKeeps(log, wanted, initial, s, es[0]);
      SoleClaims(log, wanted, initial, Step(s, es[0]), es[1..], node);
    }
  }

  /** A partition that stays with one fetcher is handled in strictly increasing offset order in every session. */
  lemma OneFetcherKeepsOrder(log: seq<Message>, initial: nat, es: seq<Event>, node: int)
    requires IsConsumption(log, Start(initial), es) && AskedBy(es, node)
    ensures Increasing(Run(Start(initial), es).session)
  {
    hide Run, IsConsumption, ClaimsInOrder;
    ConsumptionIsRun(log, Start(initial), es);
    SoleClaims(log, IsPlain, initial, Start(initial), es, node);
    ClaimsGiveOrder(log, IsPlain, initial, Start(initial), es);
    SessionInOrder(log, initial, es);
  }

  // ------------------------------------------------------------------ a hand-over out of order

  lemma RunCons(log: seq<Message>, wanted: Message -> bool, s: State, e: Event, es: seq<Event>)
    ensures Run(s, [e] + es) == Run(Step(s, e), es)
    ensures IsRun(log, wanted, s, [e] + es) <==> Allowed(log, wanted, s, e) && IsRun(log, wanted, Step(s, e), es)
    ensures IsConsumption(log, s, [e] + es) <==>
      IsConsumption(log, Step(s, e), es)
      && (e.Answer? && e.node in s.asked ==> e.batch.fetchedOffset == s.asked[e.node] && Covering(log, e.batch))
    ensures FreshRun(s, [e] + es) <==> (HandsOver(s, e) ==> s.hand.batch.fetchedOffset == Position(s)) && FreshRun(Step(s, e), es)
  {
    hide Step, Covering, Spares;
    assert ([e] + es)[1..] == es;
  }

  lemma RunNil(log: seq<Message>, wanted: Message -> bool, s: State)
    ensures Run(s, []) == s && IsRun(log, wanted, s, []) && FreshRun(s, []) && IsConsumption(log, s, [])
  {}

  /** Every batch handed over was asked for at the position that the consumer still has. */
  ghost predicate FreshRun(s: State, es: seq<Event>)
    decreases |es|
  {
    es != [] ==> (HandsOver(s, es[0]) ==> s.hand.batch.fetchedOffset == Position(s)) && FreshRun(Step(s, es[0]), es[1..])
  }

  lemma {:induction false} FreshRunOrders(log: seq<Message>, wanted: Message -> bool, initial: int, s: State, es: seq<Event>)
    requires Inv(log, wanted, initial, s) && IsRun(log, wanted, s, es) && Ordered(s) && FreshRun(s, es)
    requires forall m | m in log && wanted(m) :: !m.isControlRecord
    ensures InOrderRun(s, es)
    decreases |es|
  {
    hide Step, Allowed, InOrder, Covering, Spares, DoneUpTo, RestOk;
    if es != [] {
      if HandsOver(s, es[0]) { AskedAboveIsInOrder(log, wanted, s.hand.batch, s.session); }
      StepOrders(log, wanted, initial, s, es[0]);
      StepKeeps(log, wanted, initial, s, es[0]);
      FreshRunOrders(log, wanted, initial, Step(s, es[0]), es[1..]);
    }
  }

  /** What was handled in the session are records of the log. */
  ghost predicate SessionInLog(log: seq<Message>, s: State) {
    forall i | 0 <= i < |s.session| :: Logged(log, s.session[i])
  }

  ghost predicate Logged(log: seq<Message>, offset: int) { exists m :: m in log && m.offset == offset && !m.isControlRecord }

  lemma StepInLog(log: seq<Message>, wanted: Message -> bool, initial: int, s: State, e: Event)
    requires Inv(log, wanted, initial, s) && SessionInLog(log, s)
    ensures SessionInLog(log, Step(s, e))
  {
    hide OffsetsOk, Batch.Messages, Batch.LastOffset, Batch.IsEmptyDueToFiltering, RemoveAt;
    var t := Step(s, e);
    if e.HandlerSucceeds? && HasMessage(s.hand) {
      var first := s.hand.remaining[0];
      assert first in s.hand.remaining && first in log;
      forall i | 0 <= i < |t.session| ensures Logged(log, t.session[i]) {
        assert i < |s.session| ==> t.session[i] == s.session[i];
      }
    } else {
      assert t.session == s.session || t.session == [];
    }
  }

  lemma {:induction false} RunInLog(log: seq<Message>, wanted: Message -> bool, initial: int, s: State, es: seq<Event>)
    requires Inv(log, wanted, initial, s) && IsRun(log, wanted, s, es) && SessionInLog(log, s)
    requires forall m | m in log && wanted(m) :: !m.isControlRecord
    ensures SessionInLog(log, Run(s, es))
    decreases |es|
  {
    hide Inv, Step, Allowed, SessionInLog;
    if es != [] {
      StepKeeps(log, wanted, initial, s, es[0]);
      StepInLog(log, wanted, initial, s, es[0]);
      RunInLog(log, wanted, initial, Step(s, es[0]), es[1..]);
    }
  }

  /** The answer that gives back a stretch of the log. */
  function Refetch(log: seq<Message>, from: int, last: int): Batch {
    Batch(from, last + 1, Where((m: Message) => from <= m.offset <= last, log), [])
  }

  lemma RefetchAnswers(log: seq<Message>, wanted: Message -> bool, from: int, m: Message)
    requires ByOffset(log) && m in log && from <= m.offset && !m.isControlRecord
    ensures
      var b := Refetch(log, from, m.offset);
      Covering(log, b) && Spares(b, wanted) && b.Messages() != [] && b.Messages()[0].offset <= m.offset
  {
    hide Batch.Messages, Batch.MessagesWithinOffset, Batch.LastOffset, FilterAborted;
    var b, f := Refetch(log, from, m.offset), (x: Message) => from <= x.offset <= m.offset;
    WhereByOffset(f, log);
    forall x ensures x in b.rawMessages <==> x in log && from <= x.offset <= m.offset { WhereMembers(f, log, x); }
    assert IsWindow(log, b.rawMessages, from, m.offset + 1);
    forall i | 0 <= i < |b.MessagesWithinOffset()| ensures !Drops(b.MessagesWithinOffset(), [], i) {
      NothingDropped(b.MessagesWithinOffset(), i);
    }
    MessagesComplete(b, m);
    MessagesInOrder(b);
    FirstIsLeast(b.Messages(), m);
  }

  lemma NothingDropped(ms: seq<Message>, i: nat)
    requires i < |ms|
    ensures !Drops(ms, [], i)
  {
    NothingAborted(ms, i);
  }

  /** A filtered batch that moves the position back is followed by a fetch that repeats a message. */
  lemma MovedBackRepeats(log: seq<Message>, wanted: Message -> bool, initial: int, s: State, m: Message) returns (es: seq<Event>)
    requires Inv(log, wanted, initial, s) && ByOffset(log) && s.hand.Working? && s.hand.remaining == []
    requires s.session != [] && m in log && !m.isControlRecord && m.offset == s.session[|s.session| - 1]
    requires s.resolved.Some? && s.resolved.value <= m.offset
    ensures IsRun(log, wanted, s, es) && FreshRun(s, es) && !Increasing(Run(s, es).session)
  {
    hide Inv, Covering, Spares, Batch.Messages, Batch.LastOffset, Batch.IsEmptyDueToFiltering, Run, IsRun, FreshRun, IsConsumption;
    var node, b := s.hand.node, Refetch(log, s.resolved.value, m.offset);
    RefetchAnswers(log, wanted, s.resolved.value, m);
    AskIsFree(log, wanted, initial, s);
    var s1 := Step(s, Settle);
    var s2 := Step(s1, Release);
    var s3 := Step(s2, Ask(node));
    var s4 := Step(s3, Answer(node, b));
    var s5 := Step(s4, Take(true));
    var s6 := Step(s5, HandlerSucceeds);
    assert s4.hand == Queued(node, b) && Position(s4) == b.fetchedOffset;
    NotEmptied(b);
    assert s5.hand == Working(node, b.Messages());
    assert s6.session[|s.session| - 1] == m.offset && s6.session[|s.session|] == b.Messages()[0].offset;
    es := [Settle] + ([Release] + ([Ask(node)] + ([Answer(node, b)] + ([Take(true)] + ([HandlerSucceeds] + [])))));
    RunCons(log, wanted, s, Settle, [Release] + ([Ask(node)] + ([Answer(node, b)] + ([Take(true)] + ([HandlerSucceeds] + [])))));
    RunCons(log, wanted, s1, Release, [Ask(node)] + ([Answer(node, b)] + ([Take(true)] + ([HandlerSucceeds] + []))));
    RunCons(log, wanted, s2, Ask(node), [Answer(node, b)] + ([Take(true)] + ([HandlerSucceeds] + [])));
    RunCons(log, wanted, s3, Answer(node, b), [Take(true)] + ([HandlerSucceeds] + []));
    RunCons(log, wanted, s4, Take(true), [HandlerSucceeds] + []);
    RunCons(log, wanted, s5, HandlerSucceeds, []);
    RunNil(log, wanted, s6);
  }

  lemma NotEmptied(b: Batch)
    requires b.Messages() != []
    ensures !b.IsEmptyDueToFiltering()
  {}

  lemma AskIsFree(log: seq<Message>, wanted: Message -> bool, initial: int, s: State)
    requires Inv(log, wanted, initial, s) && !s.hand.Free?
    ensures s.hand.node !in s.asked && (s.resolved.Some? ==> s.resolved.value >= 0)
  {}

  /**
    Exactly when a hand-over keeps the session in order: order holds in every continuation that
    hands over only fresh batches if and only if the batch goes on after the session.
   */
  lemma HandOverExact(log: seq<Message>, wanted: Message -> bool, initial: int, s: State)
    requires Inv(log, wanted, initial, s) && Ordered(s) && SessionInLog(log, s) && s.hand.Queued?
    requires ByOffset(log) && forall m | m in log && wanted(m) :: !m.isControlRecord
    ensures InOrder(s.session, s.hand.batch) <==>
      forall es | IsRun(log, wanted, Taken(s, true), es) && FreshRun(Taken(s, true), es) :: Increasing(Run(Taken(s, true), es).session)
  {
    hide Run, IsRun, FreshRun, InOrderRun, Inv, Batch.Messages, Batch.LastOffset, Batch.IsEmptyDueToFiltering;
    var next, b := Taken(s, true), s.hand.batch;
    TakeKeeps(log, wanted, initial, s, true);
    if InOrder(s.session, b) {
      TakeOrders(log, wanted, initial, s);
      forall es | IsRun(log, wanted, next, es) && FreshRun(next, es) ensures Increasing(Run(next, es).session) {
        FreshRunOrders(log, wanted, initial, next, es);
        RunOrders(log, wanted, initial, next, es);
      }
    } else if b.IsEmptyDueToFiltering() {
      assert Logged(log, s.session[|s.session| - 1]);
      var m :| m in log && m.offset == s.session[|s.session| - 1] && !m.isControlRecord;
      var es := MovedBackRepeats(log, wanted, initial, next, m);
    } else {
      var end := Step(next, HandlerSucceeds);
      assert end.session[|s.session| - 1] >= end.session[|s.session|];
      RunCons(log, wanted, next, HandlerSucceeds, []);
      RunNil(log, wanted, end);
    }
  }

  /** So it is after every run whose hand-overs were in order. */
  lemma NextHandOver(log: seq<Message>, initial: nat, es: seq<Event>)
    requires ByOffset(log) && IsConsumption(log, Start(initial), es) && InOrderRun(Start(initial), es)
    requires Run(Start(initial), es).hand.Queued?
    ensures
      var s := Run(Start(initial), es);
      InOrder(s.session, s.hand.batch) <==>
      forall more | IsRun(log, IsPlain, Taken(s, true), more) && FreshRun(Taken(s, true), more) ::
        Increasing(Run(Taken(s, true), more).session)
  {
    hide Run, IsConsumption, IsRun, FreshRun, InOrderRun, InOrder, Taken;
    ConsumptionIsRun(log, Start(initial), es);
    RunKeeps(log, IsPlain, initial, Start(initial), es);
    RunOrders(log, IsPlain, initial, Start(initial), es);
    RunInLog(log, IsPlain, initial, Start(initial), es);
    HandOverExact(log, IsPlain, initial, Run(Start(initial), es));
  }

  // ------------------------------------------------------------------ a run out of order

  lemma {:induction false} WhereAll<T>(f: T -> bool, s: seq<T>)
    requires forall x | x in s :: f(x)
    ensures Where(f, s) == s
  {
    if s != [] { WhereAll(f, s[1..]); }
  }

  lemma PlainBatch(b: Batch)
    requires b.aborted == [] && b.rawMessages != []
    requires forall m | m in b.rawMessages :: m.offset >= b.fetchedOffset && !m.isControlRecord
    ensures b.Messages() == b.rawMessages && !b.IsEmptyDueToFiltering()
  {
    WhereAll((m: Message) => m.offset >= b.fetchedOffset, b.rawMessages);
    assert b.MessagesWithinOffset() == b.rawMessages;
    NothingAborted(b.rawMessages, |b.rawMessages|);
    assert b.rawMessages[..|b.rawMessages|] == b.rawMessages;
    WhereAll((m: Message) => !m.isControlRecord, b.rawMessages);
  }

  function Plain(offset: int): Message { Message(offset, None, -1, false, false) }

  /** The first fetcher's batch, and what the second one asked for while message 6 was in hand. */
  const FIRST: Batch := Batch(5, 7, [Plain(5), Plain(6)], [])
  const SECOND: Batch := Batch(6, 7, [Plain(6)], [])

  /**
    The partition moves to another node while its batch is in hand: the second fetcher asks at
    6, the first one handles 6 and releases the partition, and the late answer is claimed,
    handed over and handled, so that 6 is handled twice in one session.
   */
  lemma StaleAnswerRepeats()
    ensures
      var before := [Ask(1)] + ([Answer(1, FIRST)] + ([Take(true)] + ([HandlerSucceeds] + ([Ask(2)] + ([HandlerSucceeds] + [])))));
      var after := [Settle] + ([Release] + ([Answer(2, SECOND)] + ([Take(true)] + ([HandlerSucceeds] + []))));
      var log, s := [Plain(5), Plain(6)], Run(Start(5), before);
      && IsConsumption(log, Start(5), before) && IsConsumption(log, s, after)
      && Run(s, after).session == [5, 6, 6]
  {
    hide Run, IsConsumption, IsRun, FreshRun, Batch.Messages, Batch.IsEmptyDueToFiltering, Covering;
    var log := [Plain(5), Plain(6)];
    assert Covering(log, FIRST) by { WindowCovers(log, FIRST, 5, 7); }
    assert Covering(log, SECOND) by { WindowCovers(log, SECOND, 6, 7); }
    PlainBatch(FIRST);
    PlainBatch(SECOND);
    var s := FirstHalf(log);
    SecondHalf(log, s);
  }

  lemma WindowCovers(log: seq<Message>, b: Batch, from: int, to: int)
    requires IsWindow(log, b.rawMessages, from, to) && from <= b.fetchedOffset < to
    ensures Covering(log, b)
  {}

  lemma FirstHalf(log: seq<Message>) returns (s: State)
    requires Covering(log, FIRST) && FIRST.Messages() == [Plain(5), Plain(6)] && !FIRST.IsEmptyDueToFiltering()
    ensures
      var before := [Ask(1)] + ([Answer(1, FIRST)] + ([Take(true)] + ([HandlerSucceeds] + ([Ask(2)] + ([HandlerSucceeds] + [])))));
      s == Run(Start(5), before) && IsConsumption(log, Start(5), before)
    ensures s == State(5, 5, Some(7), map[2 := 6], Working(1, []), [], {5, 6}, [5, 6])
  {
    hide Run, IsConsumption, IsRun, FreshRun, Batch.Messages, Batch.IsEmptyDueToFiltering, Covering;
    var s1 := Step(Start(5), Ask(1));
    var s2 := Step(s1, Answer(1, FIRST));
    var s3 := Step(s2, Take(true));
    var s4 := Step(s3, HandlerSucceeds);
    assert s4.hand == Working(1, [Plain(6)]) && s4.session == [5] && s4.asked == map[];
    var s5 := Step(s4, Ask(2));
    s := Step(s5, HandlerSucceeds);
    assert s.handled == {5, 6} && s.session == [5, 6] && s.asked == map[2 := 6] && s.hand.remaining == [];
    RunCons(log, IsPlain, Start(5), Ask(1), [Answer(1, FIRST)] + ([Take(true)] + ([HandlerSucceeds] + ([Ask(2)] + ([HandlerSucceeds] + [])))));
    RunCons(log, IsPlain, s1, Answer(1, FIRST), [Take(true)] + ([HandlerSucceeds] + ([Ask(2)] + ([HandlerSucceeds] + []))));
    RunCons(log, IsPlain, s2, Take(true), [HandlerSucceeds] + ([Ask(2)] + ([HandlerSucceeds] + [])));
    RunCons(log, IsPlain, s3, HandlerSucceeds, [Ask(2)] + ([HandlerSucceeds] + []));
    RunCons(log, IsPlain, s4, Ask(2), [HandlerSucceeds] + []);
    RunCons(log, IsPlain, s5, HandlerSucceeds, []);
    RunNil(log, IsPlain, s);
  }

  lemma SecondHalf(log: seq<Message>, s: State)
    requires Covering(log, SECOND) && SECOND.Messages() == [Plain(6)] && !SECOND.IsEmptyDueToFiltering()
    requires s == State(5, 5, Some(7), map[2 := 6], Working(1, []), [], {5, 6}, [5, 6])
    ensures
      var after := [Settle] + ([Release] + ([Answer(2, SECOND)] + ([Take(true)] + ([HandlerSucceeds] + []))));
      IsConsumption(log, s, after) && Run(s, after).session == [5, 6, 6]
  {
    hide Run, IsConsumption, IsRun, FreshRun, Batch.Messages, Batch.IsEmptyDueToFiltering, Covering;
    var s1 := Step(s, Settle);
    var s2 := Step(s1, Release);
    var s3 := Step(s2, Answer(2, SECOND));
    var s4 := Step(s3, Take(true));
    var s5 := Step(s4, HandlerSucceeds);
    RunCons(log, IsPlain, s, Settle, [Release] + ([Answer(2, SECOND)] + ([Take(true)] + ([HandlerSucceeds] + []))));
    RunCons(log, IsPlain, s1, Release, [Answer(2, SECOND)] + ([Take(true)] + ([HandlerSucceeds] + [])));
    RunCons(log, IsPlain, s2, Answer(2, SECOND), [Take(true)] + ([HandlerSucceeds] + []));
    RunCons(log, IsPlain, s3, Take(true), [HandlerSucceeds] + []);
    RunCons(log, IsPlain, s4, HandlerSucceeds, []);
    RunNil(log, IsPlain, s5);
  }
}
