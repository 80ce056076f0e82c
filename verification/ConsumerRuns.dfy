/**
  One partition consumed in eachMessage mode with auto-commit. Fetchers of several nodes ask
  with the offset they read, answers are claimed, queued, handed over and released, messages
  are handled, commits are in flight to the coordinator, handlers fail, and the consumer
  re-joins or restarts from the committed offset.
 */
module ConsumerRuns {
  import opened Wire
  import opened AbortedFilter
  import opened Batches
  import opened Offsets
  import Places

  /** The claim on the partition: its fetcher, and the batch that waits or what is left of it. */
  datatype Hand =
    | Free
    | Queued(node: int, batch: Batch)
    | Working(node: int, remaining: seq<Message>)
    | Done(node: int)

  /**
    `coordinator` is the offset stored by the group coordinator and `committed` the local copy
    of it; `asked` holds, per node, the offset that a fetch under way asked for; `sending` the
    offsets of commits under way. `handled` are the offsets with a successful handler call,
    `session` those since the offsets were last read from the coordinator, in call order.
   */
  datatype State = State(
    coordinator: int, committed: int, resolved: Option<int>, asked: map<int, int>, hand: Hand,
    sending: seq<int>, handled: set<int>, session: seq<int>)

  function Start(initial: int): State { State(initial, initial, None, map[], Free, [], {}, []) }

  datatype Event =
    | Ask(node: int)
    | NoAnswer(node: int) // the fetch failed, or its answer leaves the partition out
    | Answer(node: int, batch: Batch)
    | Take(running: bool)
    | HandlerSucceeds
    | StopBatch // the handler failed, or the loop was left because of a pause, a seek or a stop
    | Settle
    | Release
    | SendCommit
    | CoordinatorStores(k: nat)
    | CommitSucceeds(k: nat)
    | CommitFails(k: nat) // or its answer came after a re-join, to an offset manager no longer in use
    | Rejoin // a new offset manager while fetches and handlers go on
    | Restart

  function Position(s: State): int { FetchOffset(s.resolved, Some(s.committed)) }

  predicate HeldBy(hand: Hand, node: int) { !hand.Free? && hand.node == node }

  /** nextOffset, before the request goes out; a fetcher that waits for its push does not ask. */
  function Asked(s: State, node: int): State {
    if node in s.asked || HeldBy(s.hand, node) then s
    else s.(asked := s.asked[node := Position(s)], resolved := if s.resolved.None? then Some(s.committed) else s.resolved)
  }

  /** The answer is claimed and queued, or dropped while another fetcher holds the partition. */
  function Answered(s: State, node: int, b: Batch): State {
    if node !in s.asked then s
    else s.(asked := s.asked - {node}, hand := if s.hand.Free? then Queued(node, b) else s.hand)
  }

  /** handleBatch up to its first await: a batch emptied by filtering is resolved at once. */
  function Taken(s: State, running: bool): State {
    if !s.hand.Queued? then s
    else
      var node, b := s.hand.node, s.hand.batch;
      if !running then s.(hand := Working(node, []))
      else if b.IsEmptyDueToFiltering() then s.(resolved := Some(b.LastOffset() + 1), hand := Working(node, []))
      else s.(hand := Working(node, b.Messages()))
  }

  predicate HasMessage(hand: Hand) { hand.Working? && hand.remaining != [] }

  /** One turn of the loop of processEachMessage. */
  function Handled(s: State): State
    requires HasMessage(s.hand)
  {
    var offset := s.hand.remaining[0].offset;
    s.(handled := s.handled + {offset}, session := s.session + [offset], resolved := Some(offset + 1),
       hand := Working(s.hand.node, s.hand.remaining[1..]))
  }

  function RemoveAt(xs: seq<int>, k: nat): seq<int>
    requires k < |xs|
  {
    xs[..k] + xs[k + 1..]
  }

  function Rejoined(s: State): State { s.(committed := s.coordinator, resolved := None, session := []) }

  function Step(s: State, e: Event): State {
    match e
    case Ask(node) => Asked(s, node)
    case NoAnswer(node) => s.(asked := s.asked - {node})
    case Answer(node, b) => Answered(s, node, b)
    case Take(running) => Taken(s, running)
    case HandlerSucceeds => if HasMessage(s.hand) then Handled(s) else s
    case StopBatch => if s.hand.Working? then s.(hand := Working(s.hand.node, [])) else s
    case Settle => if s.hand.Working? && s.hand.remaining == [] then s.(hand := Done(s.hand.node)) else s
    case Release => if s.hand.Done? then s.(hand := Free) else s
    case SendCommit =>
      var offset := ToCommit(s.resolved, Some(s.committed));
      if offset.Some? then s.(sending := s.sending + [offset.value]) else s
    case CoordinatorStores(k) => if k < |s.sending| then s.(coordinator := s.sending[k]) else s
    case CommitSucceeds(k) =>
      if k < |s.sending| then s.(committed := s.sending[k], sending := RemoveAt(s.sending, k)) else s
    case CommitFails(k) => if k < |s.sending| then s.(sending := RemoveAt(s.sending, k)) else s
    case Rejoin => Rejoined(s)
    case Restart => Rejoined(s).(asked := map[], hand := Free)
  }

  function Run(s: State, es: seq<Event>): State
    decreases |es|
  {
    if es == [] then s else Run(Step(s, es[0]), es[1..])
  }

  /**
    What a handled message brings. The next fetch asks for the offset after it; a commit that is
    sent, stored and acknowledged brings the coordinator and its local copy there, unless the
    copy is there already; a restarted consumer goes on from it.
   */
  lemma HandledIsCommitted(s: State, node: int)
    requires HasMessage(s.hand) && s.hand.remaining[0].offset >= 0
    ensures
      var next, k := s.hand.remaining[0].offset + 1, |s.sending|;
      var t := Step(s, HandlerSucceeds);
      var u := Step(t, SendCommit);
      var v := Step(Step(u, CoordinatorStores(k)), CommitSucceeds(k));
      && t.handled == s.handled + {next - 1}
      && (node !in s.asked && node != s.hand.node ==> Step(t, Ask(node)).asked == s.asked[node := next])
      && (s.committed == next ==> u == t)
      && (s.committed != next ==>
            && u.sending == s.sending + [next] && v.sending == s.sending
            && v.coordinator == v.committed == next && Step(v, SendCommit) == v
            && Step(Step(v, Restart), Ask(node)).asked == map[node := next])
  {}

  // ------------------------------------------------------------------ the claim map

  /** The partition's place in the fetch scheduler. */
  function PlaceOf(hand: Hand): Places.Place {
    match hand
    case Free => Places.Free
    case Queued(node, _) => Places.Queued(node)
    case Working(node, _) => Places.Working(node)
    case Done(node) => Places.Done(node)
  }

  function MoveOf(s: State, e: Event): Places.Move {
    match e
    case Answer(node, _) => if node in s.asked then Places.Claim(node) else Places.Stay
    case Take(_) => Places.Take
    case Settle => if s.hand.Working? && s.hand.remaining != [] then Places.Stay else Places.Settle
    case Release => Places.Release
    case _ => Places.Stay
  }

  /** The place after the move that the scheduler makes. */
  function ScheduledPlace(s: State, e: Event): Places.Place { Places.Moved(PlaceOf(s.hand), MoveOf(s, e)) }

  /** The hand moves exactly as the claim map, queue and workers of the scheduler move a partition. */
  lemma HandMoves(s: State, e: Event)
    requires !e.Restart?
    ensures PlaceOf(Step(s, e).hand) == ScheduledPlace(s, e)
  {
    hide Batch.Messages, Batch.LastOffset, Batch.IsEmptyDueToFiltering;
  }

  // ------------------------------------------------------------------ what fetches return

  /** The records of the log in [from, to). */
  ghost predicate IsWindow(log: seq<Message>, raw: seq<Message>, from: int, to: int) {
    && ByOffset(raw) && (forall m | m in raw :: m in log && from <= m.offset < to)
    && (forall m | m in log && from <= m.offset < to :: m in raw)
  }

  /** A response to a fetch: nothing, or a stretch of the log that covers the requested offset. */
  ghost predicate Covering(log: seq<Message>, b: Batch) {
    b.rawMessages == [] || exists from: int, to: int :: IsWindow(log, b.rawMessages, from, to) && from <= b.fetchedOffset < to
  }

  /** No wanted record is filtered out as aborted. */
  ghost predicate Spares(b: Batch, wanted: Message -> bool) {
    forall i | 0 <= i < |b.MessagesWithinOffset()| && wanted(b.MessagesWithinOffset()[i]) ::
      !Drops(b.MessagesWithinOffset(), b.aborted, i)
  }

  /** An answer belongs to its fetch, however long ago that was sent. */
  ghost predicate Allowed(log: seq<Message>, wanted: Message -> bool, s: State, e: Event) {
    e.Answer? && e.node in s.asked ==>
      e.batch.fetchedOffset == s.asked[e.node] && Covering(log, e.batch) && Spares(e.batch, wanted)
  }

  ghost predicate IsRun(log: seq<Message>, wanted: Message -> bool, s: State, es: seq<Event>)
    decreases |es|
  {
    es == [] || (Allowed(log, wanted, s, es[0]) && IsRun(log, wanted, Step(s, es[0]), es[1..]))
  }

  // ------------------------------------------------------------------ what every run keeps

  /** Every wanted record from the start up to an offset has been handled. */
  ghost predicate DoneUpTo(log: seq<Message>, wanted: Message -> bool, handled: set<int>, initial: int, offset: int) {
    forall m | m in log && wanted(m) && initial <= m.offset < offset :: m.offset in handled
  }

  ghost predicate Reached(log: seq<Message>, wanted: Message -> bool, handled: set<int>, initial: int, offset: int) {
    offset >= 0 && DoneUpTo(log, wanted, handled, initial, offset)
  }

  ghost predicate OffsetsOk(log: seq<Message>, wanted: Message -> bool, initial: int, s: State) {
    && Reached(log, wanted, s.handled, initial, s.coordinator) && Reached(log, wanted, s.handled, initial, s.committed)
    && (s.resolved.Some? ==> Reached(log, wanted, s.handled, initial, s.resolved.value))
    && (forall offset | offset in s.sending :: Reached(log, wanted, s.handled, initial, offset))
    && (forall node | node in s.asked :: Reached(log, wanted, s.handled, initial, s.asked[node]))
  }

  /** What is left of the batch in hand is ordered and misses no wanted record that is not handled yet. */
  ghost predicate RestOk(log: seq<Message>, wanted: Message -> bool, initial: int, handled: set<int>, rest: seq<Message>) {
    && ByOffset(rest) && (forall m | m in rest :: m in log && m.offset >= 0 && !m.isControlRecord)
    && (rest != [] ==> forall m | m in log && wanted(m) && initial <= m.offset <= rest[|rest| - 1].offset ::
                         m.offset in handled || m in rest)
  }

  ghost predicate HandOk(log: seq<Message>, wanted: Message -> bool, initial: int, s: State) {
    match s.hand
    case Queued(_, b) =>
      Reached(log, wanted, s.handled, initial, b.fetchedOffset) && Covering(log, b) && Spares(b, wanted)
    case Working(_, rest) => RestOk(log, wanted, initial, s.handled, rest)
    case _ => true
  }

  ghost predicate Inv(log: seq<Message>, wanted: Message -> bool, initial: int, s: State) {
    && OffsetsOk(log, wanted, initial, s) && HandOk(log, wanted, initial, s)
    && forall node | node in s.asked :: !HeldBy(s.hand, node)
  }

  /** A wanted record covered by the response and not below the fetch offset is exposed. */
  lemma WantedIsExposed(log: seq<Message>, wanted: Message -> bool, b: Batch, m: Message)
    requires Covering(log, b) && Spares(b, wanted) && m in log && wanted(m) && !m.isControlRecord
    requires b.rawMessages != [] && b.fetchedOffset <= m.offset <= b.LastOffset()
    ensures m in b.Messages()
  {
    var from: int, to: int :| IsWindow(log, b.rawMessages, from, to) && from <= b.fetchedOffset < to;
    MessagesInOrder(b);
    assert b.LastOffset() < to by { LastOffsetInWindow(log, b, from, to); }
    MessagesComplete(b, m);
  }

  lemma LastOffsetInWindow(log: seq<Message>, b: Batch, from: int, to: int)
    requires b.rawMessages != [] && IsWindow(log, b.rawMessages, from, to) && b.fetchedOffset < to
    ensures b.fetchedOffset <= b.LastOffset() < to
  {
    if !b.IsEmptyIncludingFiltered() {
      var last := b.MessagesWithinOffset()[|b.MessagesWithinOffset()| - 1];
      WhereMembers((m: Message) => m.offset >= b.fetchedOffset, b.rawMessages, last);
    }
  }

  /** A batch emptied by filtering holds no wanted record up to the offset it resolves. */
  lemma FilteredIsSafe(log: seq<Message>, wanted: Message -> bool, b: Batch)
    requires Covering(log, b) && Spares(b, wanted) && b.IsEmptyDueToFiltering()
    requires forall m | m in log && wanted(m) :: !m.isControlRecord
    ensures b.fetchedOffset <= b.LastOffset()
    ensures forall m | m in log && wanted(m) && b.fetchedOffset <= m.offset :: m.offset > b.LastOffset()
  {
    var from: int, to: int :| IsWindow(log, b.rawMessages, from, to) && from <= b.fetchedOffset < to;
    LastOffsetInWindow(log, b, from, to);
    forall m | m in log && wanted(m) && b.fetchedOffset <= m.offset ensures m.offset > b.LastOffset() {
      if m.offset <= b.LastOffset() { WantedIsExposed(log, wanted, b, m); }
    }
  }

  lemma ExposedIsComplete(log: seq<Message>, wanted: Message -> bool, b: Batch)
    requires Covering(log, b) && Spares(b, wanted) && b.Messages() != []
    requires forall m | m in log && wanted(m) :: !m.isControlRecord
    ensures ByOffset(b.Messages()) && b.fetchedOffset <= b.Messages()[0].offset
    ensures forall m | m in log && wanted(m) && b.fetchedOffset <= m.offset <= b.Messages()[|b.Messages()| - 1].offset :: m in b.Messages()
  {
    SomethingWasFetched(b);
    var from: int, to: int :| IsWindow(log, b.rawMessages, from, to) && from <= b.fetchedOffset < to;
    MessagesInOrder(b);
    var ms := b.Messages();
    assert ms[0] in ms && ms[|ms| - 1] in ms;
    MessageWithin(b, ms[|ms| - 1]);
    forall m | m in log && wanted(m) && b.fetchedOffset <= m.offset <= ms[|ms| - 1].offset ensures m in ms {
      WantedIsExposed(log, wanted, b, m);
    }
  }

  lemma SomethingWasFetched(b: Batch)
    ensures b.rawMessages == [] ==> b.Messages() == []
  {
    if b.rawMessages == [] {
      assert b.MessagesWithinOffset() == [];
      assert FilterAborted([], b.aborted) == [];
    }
  }

  lemma MessageWithin(b: Batch, m: Message)
    requires ByOffset(b.rawMessages) && m in b.Messages()
    ensures m.offset <= b.LastOffset()
  {
    MessagesInOrder(b);
    WhereMembers((m: Message) => m.offset >= b.fetchedOffset, b.rawMessages, m);
  }

  lemma TakeKeeps(log: seq<Message>, wanted: Message -> bool, initial: int, s: State, running: bool)
    requires Inv(log, wanted, initial, s) && forall m | m in log && wanted(m) :: !m.isControlRecord
    ensures Inv(log, wanted, initial, Taken(s, running))
  {
    hide Covering, Spares, Batch.Messages, Batch.LastOffset, Batch.MessagesWithinOffset, Batch.IsEmptyDueToFiltering;
    if s.hand.Queued? && running {
      var b := s.hand.batch;
      if b.IsEmptyDueToFiltering() {
        FilteredIsSafe(log, wanted, b);
      } else {
        ExposedIsRest(log, wanted, initial, s.handled, b);
      }
    }
  }

  lemma ExposedIsRest(log: seq<Message>, wanted: Message -> bool, initial: int, handled: set<int>, b: Batch)
    requires Covering(log, b) && Spares(b, wanted) && Reached(log, wanted, handled, initial, b.fetchedOffset)
    requires forall m | m in log && wanted(m) :: !m.isControlRecord
    ensures RestOk(log, wanted, initial, handled, b.Messages())
  {
    hide Spares, Batch.Messages, Batch.LastOffset, Batch.MessagesWithinOffset;
    var rest := b.Messages();
    if rest != [] {
      ExposedIsComplete(log, wanted, b);
      SomethingWasFetched(b);
      assert ByOffset(b.rawMessages);
      MessagesInOrder(b);
    }
  }

  lemma HandledKeeps(log: seq<Message>, wanted: Message -> bool, initial: int, s: State)
    requires Inv(log, wanted, initial, s) && HasMessage(s.hand)
    ensures Inv(log, wanted, initial, Handled(s))
  {
    hide OffsetsOk, RestOk;
    var t, rest := Handled(s), s.hand.remaining;
    RestShrinks(log, wanted, initial, s.handled, rest);
    MoreHandled(log, wanted, initial, s, t);
  }

  lemma RestShrinks(log: seq<Message>, wanted: Message -> bool, initial: int, handled: set<int>, rest: seq<Message>)
    requires RestOk(log, wanted, initial, handled, rest) && rest != []
    ensures Reached(log, wanted, handled + {rest[0].offset}, initial, rest[0].offset + 1)
    ensures RestOk(log, wanted, initial, handled + {rest[0].offset}, rest[1..])
  {
    hide ByOffset;
    var first, later := rest[0], rest[1..];
    TailByOffset(rest);
    assert rest == [first] + later;
    assert first in rest;
    forall m | m in rest ensures first.offset <= m.offset && (m.offset == first.offset ==> m == first) { FirstIsLeast(rest, m); }
    assert later != [] ==> later[|later| - 1] == rest[|rest| - 1];
    assert rest[|rest| - 1] in rest;
  }

  lemma TailByOffset(ms: seq<Message>)
    requires ByOffset(ms) && ms != []
    ensures ByOffset(ms[1..])
  {
    assert forall i | 0 <= i < |ms[1..]| :: ms[1..][i] == ms[i + 1];
  }

  lemma FirstIsLeast(ms: seq<Message>, m: Message)
    requires ByOffset(ms) && m in ms
    ensures ms[0].offset <= m.offset && (m.offset == ms[0].offset ==> m == ms[0])
  {}

  /** More handled offsets keep every offset reached. */
  lemma MoreHandled(log: seq<Message>, wanted: Message -> bool, initial: int, s: State, t: State)
    requires OffsetsOk(log, wanted, initial, s) && s.handled <= t.handled
    requires t.coordinator == s.coordinator && t.committed == s.committed && t.sending == s.sending && t.asked == s.asked
    requires t.resolved == s.resolved || (t.resolved.Some? && Reached(log, wanted, t.handled, initial, t.resolved.value))
    ensures OffsetsOk(log, wanted, initial, t)
  {
    forall offset | Reached(log, wanted, s.handled, initial, offset) ensures Reached(log, wanted, t.handled, initial, offset) {}
  }

  lemma AnswerKeeps(log: seq<Message>, wanted: Message -> bool, initial: int, s: State, node: int, b: Batch)
    requires Inv(log, wanted, initial, s) && Allowed(log, wanted, s, Answer(node, b))
    ensures Inv(log, wanted, initial, Answered(s, node, b))
  {
    hide Covering, Spares, DoneUpTo;
  }

  lemma AskKeeps(log: seq<Message>, wanted: Message -> bool, initial: int, s: State, node: int)
    requires Inv(log, wanted, initial, s)
    ensures Inv(log, wanted, initial, Asked(s, node))
  {
    hide HandOk, DoneUpTo;
    SameHand(log, wanted, initial, s, Asked(s, node));
  }

  lemma SameHand(log: seq<Message>, wanted: Message -> bool, initial: int, s: State, t: State)
    requires HandOk(log, wanted, initial, s) && t.hand == s.hand && t.handled == s.handled
    ensures HandOk(log, wanted, initial, t)
  {
    hide Covering, Spares, DoneUpTo;
  }

  lemma CommitKeeps(log: seq<Message>, wanted: Message -> bool, initial: int, s: State, e: Event)
    requires Inv(log, wanted, initial, s)
    requires e.SendCommit? || e.CoordinatorStores? || e.CommitSucceeds? || e.CommitFails? || e.NoAnswer?
    ensures Inv(log, wanted, initial, Step(s, e))
  {
    hide HandOk, DoneUpTo, RemoveAt;
    var t := Step(s, e);
    SameHand(log, wanted, initial, s, t);
    forall k: nat, offset | k < |s.sending| && offset in RemoveAt(s.sending, k) ensures offset in s.sending {
      RemoveAtMembers(s.sending, k, offset);
    }
  }

  lemma RemoveAtMembers(xs: seq<int>, k: nat, x: int)
    requires k < |xs| && x in RemoveAt(xs, k)
    ensures x in xs
  {}

  /** Leaving a batch, settling, releasing and starting over. */
  lemma LeaveKeeps(log: seq<Message>, wanted: Message -> bool, initial: int, s: State, e: Event)
    requires Inv(log, wanted, initial, s) && (e.StopBatch? || e.Settle? || e.Release? || e.Rejoin? || e.Restart?)
    ensures Inv(log, wanted, initial, Step(s, e))
  {
    hide Covering, Spares, DoneUpTo;
    var t := Step(s, e);
    if t.hand == s.hand { SameHand(log, wanted, initial, s, t); }
  }

  lemma StepKeeps(log: seq<Message>, wanted: Message -> bool, initial: int, s: State, e: Event)
    requires Inv(log, wanted, initial, s) && Allowed(log, wanted, s, e)
    requires forall m | m in log && wanted(m) :: !m.isControlRecord
    ensures Inv(log, wanted, initial, Step(s, e))
  {
    hide Asked, Answered, Taken, Handled, Rejoined, Inv, Allowed;
    match e
    case Ask(node) => AskKeeps(log, wanted, initial, s, node);
    case Answer(node, b) => AnswerKeeps(log, wanted, initial, s, node, b);
    case Take(running) => TakeKeeps(log, wanted, initial, s, running);
    case HandlerSucceeds => if HasMessage(s.hand) { HandledKeeps(log, wanted, initial, s); }
    case NoAnswer(_) => CommitKeeps(log, wanted, initial, s, e);
    case SendCommit => CommitKeeps(log, wanted, initial, s, e);
    case CoordinatorStores(_) => CommitKeeps(log, wanted, initial, s, e);
    case CommitSucceeds(_) => CommitKeeps(log, wanted, initial, s, e);
    case CommitFails(_) => CommitKeeps(log, wanted, initial, s, e);
    case _ => LeaveKeeps(log, wanted, initial, s, e);
  }

  lemma {:induction false} RunKeeps(log: seq<Message>, wanted: Message -> bool, initial: int, s: State, es: seq<Event>)
    requires Inv(log, wanted, initial, s) && IsRun(log, wanted, s, es)
    requires forall m | m in log && wanted(m) :: !m.isControlRecord
    ensures Inv(log, wanted, initial, Run(s, es))
    decreases |es|
  {
    hide Inv, Step, Allowed;
    if es != [] {
      StepKeeps(log, wanted, initial, s, es[0]);
      RunKeeps(log, wanted, initial, Step(s, es[0]), es[1..]);
    }
  }

  // ------------------------------------------------------------------ delivery

  /** Records that are neither control records nor part of a transaction. */
  predicate IsPlain(m: Message) { !m.isControlRecord && !m.inTransaction }

  /** Every answer goes to a fetch that asked for its offset, and is a covering stretch of the log. */
  ghost predicate IsConsumption(log: seq<Message>, s: State, es: seq<Event>)
    decreases |es|
  {
    es == [] ||
    ((es[0].Answer? && es[0].node in s.asked ==> es[0].batch.fetchedOffset == s.asked[es[0].node] && Covering(log, es[0].batch))
     && IsConsumption(log, Step(s, es[0]), es[1..]))
  }

  lemma {:induction false} ConsumptionIsRun(log: seq<Message>, s: State, es: seq<Event>)
    requires IsConsumption(log, s, es)
    ensures IsRun(log, IsPlain, s, es)
    decreases |es|
  {
    hide Covering, Step, Spares;
    if es != [] {
      if es[0].Answer? { PlainIsSpared(es[0].batch); }
      ConsumptionIsRun(log, Step(s, es[0]), es[1..]);
    }
  }

  lemma PlainIsSpared(b: Batch)
    ensures Spares(b, IsPlain)
  {
    hide Drops, Batch.MessagesWithinOffset;
    var within := b.MessagesWithinOffset();
    forall i | 0 <= i < |within| && IsPlain(within[i]) ensures !Drops(within, b.aborted, i) {
      PlainMessagesPass(within, b.aborted, i);
    }
  }

  /**
    At-least-once delivery: over every interleaving of fetches under way, answers, hand-overs,
    handler calls, commits, failures, re-joins and restarts, every plain record between the
    initial offset and the offset stored by the coordinator has had a successful handler call.
   */
  lemma Delivery(log: seq<Message>, initial: nat, es: seq<Event>)
    requires IsConsumption(log, Start(initial), es)
    ensures
      var s := Run(Start(initial), es);
      forall m | m in log && IsPlain(m) && initial <= m.offset < s.coordinator :: m.offset in s.handled
  {
    hide Run, IsConsumption;
    ConsumptionIsRun(log, Start(initial), es);
    RunKeeps(log, IsPlain, initial, Start(initial), es);
  }

  /**
    Where a fetch is answered only with records below the requested offset, the code resolves
    past the requested offset; that is safe exactly when no unhandled wanted record sits there.
   */
  lemma UncoveredFetch(log: seq<Message>, wanted: Message -> bool, initial: int, s: State)
    requires s.hand.Queued? && DoneUpTo(log, wanted, s.handled, initial, s.hand.batch.fetchedOffset)
    requires initial <= s.hand.batch.fetchedOffset
    requires s.hand.batch.rawMessages != [] && forall m | m in s.hand.batch.rawMessages :: m.offset < s.hand.batch.fetchedOffset
    ensures
      var t, offset := Taken(s, true), s.hand.batch.fetchedOffset;
      && t.resolved == Some(offset + 1)
      && (DoneUpTo(log, wanted, t.handled, initial, t.resolved.value) <==>
          forall m | m in log && wanted(m) && m.offset == offset :: m.offset in s.handled)
  {
    hide Batch.Messages, Batch.LastOffset, Batch.MessagesWithinOffset;
    NothingWithin(s.hand.batch);
  }

  lemma NothingWithin(b: Batch)
    requires b.rawMessages != [] && forall m | m in b.rawMessages :: m.offset < b.fetchedOffset
    ensures b.IsEmptyDueToFiltering() && b.LastOffset() == b.fetchedOffset
  {
    var within := b.MessagesWithinOffset();
    if within != [] { WhereMembers((m: Message) => m.offset >= b.fetchedOffset, b.rawMessages, within[0]); }
    assert within == [];
    assert FilterAborted([], b.aborted) == [];
  }

  /** Such an answer loses a record: it is committed past without ever being handled. */
  lemma UncoveredFetchLoses()
    ensures
      var a, b := Message(0, None, -1, false, false), Message(1, None, -1, false, false);
      var s3 := Step(Step(Step(Start(1), Ask(7)), Answer(7, Batch(1, 2, [a], []))), Take(true));
      var s5 := Step(Step(s3, SendCommit), CoordinatorStores(0));
      IsPlain(b) && s5.coordinator == 2 && b.offset !in s5.handled
  {
    hide Batch.Messages, Batch.LastOffset, Batch.MessagesWithinOffset, Batch.IsEmptyDueToFiltering;
    NothingWithin(Batch(1, 2, [Message(0, None, -1, false, false)], []));
  }

  // ------------------------------------------------------------------ the loop

  datatype Outcome = Succeeds | Throws | LeavesLoop

  /** How many messages are handled before one fails or the loop is left. */
  function Successes(outcomes: seq<Outcome>): (n: nat)
    ensures n <= |outcomes|
  {
    if outcomes == [] || !outcomes[0].Succeeds? then 0 else 1 + Successes(outcomes[1..])
  }

  lemma {:induction false} SuccessesPrefix(outcomes: seq<Outcome>, i: nat)
    requires i <= Successes(outcomes)
    ensures i < |outcomes| ==> (outcomes[i].Succeeds? <==> i < Successes(outcomes))
    ensures i == |outcomes| ==> Successes(outcomes) == i
  {
    if i > 0 { SuccessesPrefix(outcomes[1..], i - 1); }
  }

  /**
    processEachMessage: the partition's resolved offset ends one past the last message whose
    handler succeeded, nothing after the first failure is handled, and no other partition moves.
   */
  method ProcessEachMessage(om: OffsetManager, tp: TopicPartition, messages: seq<Message>, outcomes: seq<Outcome>)
    returns (handled: seq<int>, failed: bool)
    requires |outcomes| == |messages|
    modifies om`resolvedOffsets
    ensures
      var n := Successes(outcomes);
      && |handled| == n && (forall i | 0 <= i < n :: handled[i] == messages[i].offset)
      && failed == (n < |outcomes| && outcomes[n].Throws?)
      && om.resolvedOffsets == if n == 0 then old(om.resolvedOffsets) else old(om.resolvedOffsets)[tp := messages[n - 1].offset + 1]
  {
    handled, failed := [], false;
    for i := 0 to |messages|
      invariant i <= Successes(outcomes) && |handled| == i && !failed
      invariant forall k | 0 <= k < i :: handled[k] == messages[k].offset
      invariant om.resolvedOffsets == if i == 0 then old(om.resolvedOffsets) else old(om.resolvedOffsets)[tp := messages[i - 1].offset + 1]
    {
      SuccessesPrefix(outcomes, i);
      match outcomes[i] {
        case LeavesLoop => return;
        case Throws => return handled, true;
        case Succeeds =>
          om.ResolveOffset(tp, messages[i].offset);
          handled := handled + [messages[i].offset];
      }
    }
    SuccessesPrefix(outcomes, |messages|);
  }
}
