/** Sequence numbers over whole runs: acknowledged batches of a partition tile [0, n). */
module SequenceRuns {
  import opened Offsets
  import opened Eos
  import opened ProducerRuns

  type Leader = TopicPartition -> int

  /** Acknowledged messages of a partition. */
  function Total(log: seq<Ack>, tp: TopicPartition): nat {
    if log == [] then 0
    else Total(log[..|log| - 1], tp) + (if log[|log| - 1].tp == tp then log[|log| - 1].count else 0)
  }

  /** Every batch starts where the partition's earlier batches end. */
  ghost predicate Tiled(log: seq<Ack>) {
    forall i | 0 <= i < |log| :: log[i].first == Total(log[..i], log[i].tp)
  }

  ghost predicate Covers(a: Ack, tp: TopicPartition, k: int) { a.tp == tp && a.first <= k < a.first + a.count }

  ghost predicate Used(log: seq<Ack>, tp: TopicPartition, k: int) {
    exists i :: 0 <= i < |log| && Covers(log[i], tp, k)
  }

  ghost predicate UsedTwice(log: seq<Ack>, tp: TopicPartition, k: int) {
    exists i, j :: 0 <= i < j < |log| && Covers(log[i], tp, k) && Covers(log[j], tp, k)
  }

  ghost predicate ProducingAt(tasks: Tasks, t: nat, node: int) {
    t in tasks && tasks[t].node == node && tasks[t].phase.Producing?
  }

  /** The fixed leader serves all of a request's partitions. */
  ghost predicate Led(entries: seq<Entry>, node: int, leader: Leader) {
    forall i | 0 <= i < |entries| :: leader(entries[i].tp) == node
  }

  /** A request in flight holds the numbers that follow the acknowledged ones. */
  ghost predicate InFlight(m: Manager, log: seq<Ack>, task: Task, leader: Leader) {
    task.phase.Producing? ==>
      var entries, batches := task.entries, task.phase.batches;
      && |batches| == |entries|
      && (forall i | 0 <= i < |entries| ::
            batches[i] == Ack(entries[i].tp, Total(log, entries[i].tp) + CountOf(entries[..i], entries[i].tp), entries[i].count))
      && (forall tp | leader(tp) == task.node :: m.Sequence(tp) == Total(log, tp) + CountOf(entries, tp))
      && (forall i | 0 <= i < |entries| :: m.Sequence(entries[i].tp) < INT_32_MAX_VALUE)
  }

  ghost predicate Settled(m: Manager, log: seq<Ack>, tasks: Tasks, tp: TopicPartition, leader: Leader) {
    (forall t :: !ProducingAt(tasks, t, leader(tp))) ==> m.Sequence(tp) == Total(log, tp)
  }

  ghost predicate Sequenced(m: Manager, log: seq<Ack>, tasks: Tasks, leader: Leader) {
    && Tiled(log)
    && (forall t | t in tasks :: Led(tasks[t].entries, tasks[t].node, leader) && InFlight(m, log, tasks[t], leader))
    && (forall tp :: Settled(m, log, tasks, tp, leader))
  }

  ghost predicate Inv(s: State, leader: Leader) {
    LocksOk(s.m, s.tasks) && Sequenced(s.m, s.log, s.tasks, leader) && s.initCalls == 0
  }

  /** One producer id, fixed leaders, and fewer than 2^31 - 1 acknowledged messages per partition, this request's included. */
  ghost predicate AllowedStep(s: State, e: Event, leader: Leader) {
    && !e.Init? && (e.Send? ==> Led(e.entries, e.node, leader))
    && (e.Produce? && e.t in s.tasks ==>
          var entries := s.tasks[e.t].entries;
          forall i | 0 <= i < |entries| :: Total(s.log, entries[i].tp) + CountOf(entries, entries[i].tp) < INT_32_MAX_VALUE)
  }

  ghost predicate Allowed(s: State, es: seq<Event>, leader: Leader)
    decreases |es|
  {
    es != [] ==> AllowedStep(s, es[0], leader) && Allowed(Step(s, es[0]), es[1..], leader)
  }

  // ------------------------------------------------------------------ the log

  lemma {:induction false} TotalAppend(log: seq<Ack>, more: seq<Ack>, tp: TopicPartition)
    ensures Total(log + more, tp) == Total(log, tp) + Total(more, tp)
  {
    if more == [] {
      assert log + more == log;
    } else {
      assert (log + more)[..|log + more| - 1] == log + more[..|more| - 1];
      TotalAppend(log, more[..|more| - 1], tp);
    }
  }

  lemma {:induction false} TotalOfBatches(batches: seq<Ack>, entries: seq<Entry>, tp: TopicPartition)
    requires |batches| == |entries|
    requires forall i | 0 <= i < |entries| :: batches[i].tp == entries[i].tp && batches[i].count == entries[i].count
    ensures Total(batches, tp) == CountOf(entries, tp)
  {
    if entries != [] { TotalOfBatches(batches[..|entries| - 1], entries[..|entries| - 1], tp); }
  }

  lemma TiledAppend(log: seq<Ack>, batches: seq<Ack>, entries: seq<Entry>)
    requires Tiled(log) && |batches| == |entries|
    requires forall i | 0 <= i < |entries| ::
      batches[i] == Ack(entries[i].tp, Total(log, entries[i].tp) + CountOf(entries[..i], entries[i].tp), entries[i].count)
    ensures Tiled(log + batches)
  {
    var all := log + batches;
    forall i | 0 <= i < |all| ensures all[i].first == Total(all[..i], all[i].tp) {
      if i < |log| {
        assert all[..i] == log[..i];
      } else {
        var k := i - |log|;
        assert all[..i] == log + batches[..k];
        TotalAppend(log, batches[..k], all[i].tp);
        TotalOfBatches(batches[..k], entries[..k], all[i].tp);
      }
    }
  }

  lemma {:induction false} TotalGrows(log: seq<Ack>, i: nat, j: nat, tp: TopicPartition)
    requires i <= j <= |log|
    ensures Total(log[..i], tp) <= Total(log[..j], tp)
  {
    if i < j {
      TotalGrows(log, i, j - 1, tp);
      assert log[..j][..j - 1] == log[..j - 1];
    }
  }

  /** A batch covers exactly the numbers between the totals before and after it. */
  lemma CoversBetween(log: seq<Ack>, i: nat, tp: TopicPartition, k: int)
    requires Tiled(log) && i < |log|
    ensures Covers(log[i], tp, k) <==> Total(log[..i], tp) <= k < Total(log[..i + 1], tp)
  {
    assert log[..i + 1][..i] == log[..i];
  }

  lemma {:induction false} SomeBatch(log: seq<Ack>, n: nat, tp: TopicPartition, k: int) returns (i: nat)
    requires n <= |log| && 0 <= k < Total(log[..n], tp)
    ensures i < n && Total(log[..i], tp) <= k < Total(log[..i + 1], tp)
  {
    assert n > 0 && log[..n][..n - 1] == log[..n - 1];
    if k < Total(log[..n - 1], tp) { i := SomeBatch(log, n - 1, tp, k); } else { i := n - 1; }
  }

  /** What tiling means: each number below the total is used exactly once, and no other is. */
  lemma TiledCovers(log: seq<Ack>, tp: TopicPartition, k: int)
    requires Tiled(log)
    ensures !UsedTwice(log, tp, k) && (Used(log, tp, k) <==> 0 <= k < Total(log, tp))
  {
    hide Total, Tiled, Covers;
    assert log[..|log|] == log;
    forall i, j | 0 <= i < j < |log| ensures !(Covers(log[i], tp, k) && Covers(log[j], tp, k)) {
      CoversBetween(log, i, tp, k);
      CoversBetween(log, j, tp, k);
      TotalGrows(log, i + 1, j, tp);
    }
    forall i | 0 <= i < |log| && Covers(log[i], tp, k) ensures 0 <= k < Total(log, tp) {
      CoversBetween(log, i, tp, k);
      TotalGrows(log, i + 1, |log|, tp);
    }
    if 0 <= k < Total(log, tp) {
      var i := SomeBatch(log, |log|, tp, k);
      CoversBetween(log, i, tp, k);
    }
  }

  // ------------------------------------------------------------------ steps

  /** Requests in flight, the log and the counters are as before. */
  lemma SameRequests(s: State, next: State, leader: Leader)
    requires Sequenced(s.m, s.log, s.tasks, leader) && next.log == s.log
    requires next.m.producerId == s.m.producerId && next.m.sequences == s.m.sequences
    requires forall t | t in next.tasks ::
      && Led(next.tasks[t].entries, next.tasks[t].node, leader)
      && (next.tasks[t].phase.Producing? ==> t in s.tasks && s.tasks[t] == next.tasks[t])
    requires forall t | t in s.tasks && s.tasks[t].phase.Producing? :: t in next.tasks && next.tasks[t] == s.tasks[t]
    ensures Sequenced(next.m, next.log, next.tasks, leader)
  {
    hide Tiled, Led;
    assert forall tp :: next.m.Sequence(tp) == s.m.Sequence(tp);
    forall tp ensures Settled(next.m, next.log, next.tasks, tp, leader) {
      forall t ensures ProducingAt(s.tasks, t, leader(tp)) <==> ProducingAt(next.tasks, t, leader(tp)) {}
      assert Settled(s.m, s.log, s.tasks, tp, leader);
    }
  }

  /** Unchanged, or moved to a phase other than producing. */
  ghost predicate SameRequest(task: Task, next: Task) {
    next == task || (!next.phase.Producing? && next.entries == task.entries && next.node == task.node)
  }

  /** Once a task has left, nobody produces at its broker. */
  lemma FinishedTasks(s: State, t: nat)
    requires LocksOk(s.m, s.tasks) && t in s.tasks && Critical(s.tasks[t].phase)
    ensures
      var next := Finished(s, t);
      && next.log == s.log && next.initCalls == s.initCalls && next.m == s.m.(locks := next.m.locks)
      && (forall u :: u in next.tasks <==> u in s.tasks)
      && (forall u | u in s.tasks :: SameRequest(s.tasks[u], next.tasks[u]))
      && (forall u | u in s.tasks && u != t && s.tasks[u].phase.Producing? :: next.tasks[u] == s.tasks[u])
      && (forall u :: !ProducingAt(next.tasks, u, s.tasks[t].node))
  {
    var node, next := s.tasks[t].node, Finished(s, t);
    assert Inside(s.tasks, t, node);
    assert LockOk(s.m.Lock(node), s.tasks, node);
    FinishedKeepsLocks(s, t);
    FirstIsQueued(s.m.Lock(node), s.tasks, node);
    forall u ensures !ProducingAt(next.tasks, u, node) {
      if u in s.tasks && u != t && s.tasks[u].node == node { assert !Inside(s.tasks, u, node); }
    }
  }

  lemma FinishedKeeps(s: State, t: nat, leader: Leader)
    requires Inv(s, leader) && t in s.tasks && Critical(s.tasks[t].phase) && !s.tasks[t].phase.Producing?
    ensures Inv(Finished(s, t), leader)
  {
    hide LocksOk, Sequenced, Finished;
    FinishedTasks(s, t);
    FinishedKeepsLocks(s, t);
    TasksLed(s, leader);
    SameRequests(s, Finished(s, t), leader);
  }

  lemma TasksLed(s: State, leader: Leader)
    requires Inv(s, leader)
    ensures forall t | t in s.tasks :: Led(s.tasks[t].entries, s.tasks[t].node, leader)
  {}

  /** Moving a task between phases other than producing. */
  lemma MovedKeeps(s: State, next: State, t: nat, phase: Phase, leader: Leader)
    requires Sequenced(s.m, s.log, s.tasks, leader) && t in s.tasks && !s.tasks[t].phase.Producing? && !phase.Producing?
    requires next.log == s.log && next.m.producerId == s.m.producerId && next.m.sequences == s.m.sequences
    requires next.tasks == Moved(s.tasks, t, phase)
    ensures Sequenced(next.m, next.log, next.tasks, leader)
  {
    hide InFlight, Tiled, Settled;
    SameRequests(s, next, leader);
  }

  /** Before a task at the leader takes its numbers, the counter is the number acknowledged. */
  lemma NobodyProducing(s: State, t: nat, tp: TopicPartition, leader: Leader)
    requires Inv(s, leader) && t in s.tasks && Critical(s.tasks[t].phase) && !s.tasks[t].phase.Producing?
    requires leader(tp) == s.tasks[t].node
    ensures s.m.Sequence(tp) == Total(s.log, tp)
  {
    var node := s.tasks[t].node;
    assert Inside(s.tasks, t, node);
    assert LockOk(s.m.Lock(node), s.tasks, node);
    forall u ensures !ProducingAt(s.tasks, u, node) {
      assert ProducingAt(s.tasks, u, node) ==> Inside(s.tasks, u, node);
    }
    assert Settled(s.m, s.log, s.tasks, tp, leader);
  }

  lemma ProduceSentKeeps(s: State, t: nat, leader: Leader)
    requires Inv(s, leader) && AllowedStep(s, Produce(t), leader)
    requires At(s, t, Registered) || (At(s, t, Holding) && !s.m.transactional)
    ensures Sequenced(ProduceSent(s, t).m, s.log, ProduceSent(s, t).tasks, leader)
  {
    hide Tiled, LocksOk, Total, CountOf, Assigned;
    var next, entries, node := ProduceSent(s, t), s.tasks[t].entries, s.tasks[t].node;
    assert Led(entries, node, leader);
    forall tp | leader(tp) == node ensures s.m.Sequence(tp) == Total(s.log, tp) { NobodyProducing(s, t, tp, leader); }
    assert s.m.Initialized() by { Producer(s, leader); }
    assert Fits(s.m, entries);
    forall tp ensures next.m.Sequence(tp) == s.m.Sequence(tp) + CountOf(entries, tp) { AssignedAdds(s.m, entries, tp); }
    forall tp | leader(tp) != node ensures CountOf(entries, tp) == 0 { CountOfNone(entries, tp); }
    forall i | 0 <= i < |entries|
      ensures Firsts(s.m, entries)[i] == Total(s.log, entries[i].tp) + CountOf(entries[..i], entries[i].tp)
    {
      FirstsAre(s.m, entries, i);
    }
    assert InFlight(next.m, s.log, next.tasks[t], leader);
    forall u | u in next.tasks && u != t ensures InFlight(next.m, s.log, next.tasks[u], leader) {
      OtherInFlight(s, next.m, u, t, leader);
    }
    forall tp ensures Settled(next.m, s.log, next.tasks, tp, leader) {
      if leader(tp) == node {
        assert ProducingAt(next.tasks, t, node);
      } else {
        forall u ensures ProducingAt(next.tasks, u, leader(tp)) <==> ProducingAt(s.tasks, u, leader(tp)) {}
        assert Settled(s.m, s.log, s.tasks, tp, leader);
      }
    }
  }

  lemma Producer(s: State, leader: Leader)
    requires Inv(s, leader)
    ensures s.m.Initialized()
  {}

  /** Counters of one broker's partitions do not matter to a request at another broker. */
  lemma OtherInFlight(s: State, m: Manager, u: nat, t: nat, leader: Leader)
    requires Inv(s, leader) && u in s.tasks && t in s.tasks && u != t && Critical(s.tasks[t].phase)
    requires forall tp | leader(tp) != s.tasks[t].node :: m.Sequence(tp) == s.m.Sequence(tp)
    ensures InFlight(m, s.log, s.tasks[u], leader)
  {
    assert InFlight(s.m, s.log, s.tasks[u], leader);
    if s.tasks[u].phase.Producing? {
      OthersElsewhere(s, u, t, leader);
      assert Led(s.tasks[u].entries, s.tasks[u].node, leader);
    }
  }

  lemma OthersElsewhere(s: State, u: nat, t: nat, leader: Leader)
    requires Inv(s, leader) && u in s.tasks && t in s.tasks && u != t
    requires Critical(s.tasks[t].phase) && Critical(s.tasks[u].phase)
    ensures s.tasks[u].node != s.tasks[t].node
  {
    var node := s.tasks[t].node;
    assert LockOk(s.m.Lock(node), s.tasks, node);
    assert Inside(s.tasks, t, node);
    assert s.tasks[u].node == node ==> Inside(s.tasks, u, node);
  }

  /** A request ends: its broker's counters equal the new totals, nothing changes for the others. */
  lemma EndedKeeps(s: State, next: State, t: nat, leader: Leader)
    requires Inv(s, leader) && t in s.tasks && s.tasks[t].phase.Producing? && Tiled(next.log)
    requires forall u :: u in next.tasks <==> u in s.tasks
    requires forall u | u in s.tasks :: SameRequest(s.tasks[u], next.tasks[u])
    requires forall u | u in s.tasks && u != t && s.tasks[u].phase.Producing? :: next.tasks[u] == s.tasks[u]
    requires forall u :: !ProducingAt(next.tasks, u, s.tasks[t].node)
    requires forall tp | leader(tp) == s.tasks[t].node :: next.m.Sequence(tp) == Total(next.log, tp)
    requires forall tp | leader(tp) != s.tasks[t].node ::
      next.m.Sequence(tp) == s.m.Sequence(tp) && Total(next.log, tp) == Total(s.log, tp)
    ensures Sequenced(next.m, next.log, next.tasks, leader)
  {
    hide Tiled, Total, CountOf, LocksOk;
    var node := s.tasks[t].node;
    forall u | u in next.tasks
      ensures Led(next.tasks[u].entries, next.tasks[u].node, leader) && InFlight(next.m, next.log, next.tasks[u], leader)
    {
      assert Led(s.tasks[u].entries, s.tasks[u].node, leader);
      if next.tasks[u].phase.Producing? {
        assert next.tasks[u].node != node by { assert !ProducingAt(next.tasks, u, node); }
        assert InFlight(s.m, s.log, s.tasks[u], leader);
      }
    }
    forall tp ensures Settled(next.m, next.log, next.tasks, tp, leader) {
      if leader(tp) != node {
        forall u ensures ProducingAt(s.tasks, u, leader(tp)) <==> ProducingAt(next.tasks, u, leader(tp)) {}
        assert Settled(s.m, s.log, s.tasks, tp, leader);
      }
    }
  }

  lemma AckedKeeps(s: State, t: nat, leader: Leader)
    requires Inv(s, leader) && t in s.tasks && s.tasks[t].phase.Producing?
    ensures Inv(ProduceAnswered(s, t, true), leader)
  {
    hide Tiled, Total, CountOf, LocksOk, Settled;
    var entries, batches, node := s.tasks[t].entries, s.tasks[t].phase.batches, s.tasks[t].node;
    var logged := s.(log := s.log + batches);
    assert InFlight(s.m, s.log, s.tasks[t], leader) && Led(entries, node, leader);
    forall tp ensures Total(logged.log, tp) == Total(s.log, tp) + CountOf(entries, tp) {
      TotalAppend(s.log, batches, tp);
      TotalOfBatches(batches, entries, tp);
    }
    forall tp | leader(tp) != node ensures CountOf(entries, tp) == 0 { CountOfNone(entries, tp); }
    TiledAppend(s.log, batches, entries);
    FinishedTasks(logged, t);
    FinishedKeepsLocks(logged, t);
    EndedKeeps(s, Finished(logged, t), t, leader);
  }

  lemma FailedKeeps(s: State, t: nat, leader: Leader)
    requires Inv(s, leader) && t in s.tasks && s.tasks[t].phase.Producing?
    ensures Inv(ProduceAnswered(s, t, false), leader)
  {
    hide Tiled, Total, CountOf, LocksOk, Settled;
    var entries, node := s.tasks[t].entries, s.tasks[t].node;
    var undone := s.(m := RolledBack(s.m, entries));
    assert InFlight(s.m, s.log, s.tasks[t], leader) && Led(entries, node, leader);
    Producer(s, leader);
    forall tp ensures undone.m.Sequence(tp) == s.m.Sequence(tp) - CountOf(entries, tp) {
      RolledBackSubtracts(s.m, entries, tp);
    }
    forall tp | leader(tp) != node ensures CountOf(entries, tp) == 0 { CountOfNone(entries, tp); }
    AssignedLocks(s.m, entries);
    SameLocks(s, undone);
    FinishedTasks(undone, t);
    FinishedKeepsLocks(undone, t);
    EndedKeeps(s, Finished(undone, t), t, leader);
  }

  lemma AddAnsweredKeeps(s: State, t: nat, ok: bool, order: seq<TopicPartition>, leader: Leader)
    requires Inv(s, leader)
    ensures Inv(AddAnswered(s, t, ok, order), leader)
  {
    hide LocksOk, Sequenced, Finished, Marked;
    AddAnswerKeepsLocks(s, t, ok, order);
    if t in s.tasks && s.tasks[t].phase.Adding? {
      if !ok {
        FinishedKeeps(s, t, leader);
      } else if SameMembers(order, s.tasks[t].phase.missing) {
        var marked := Marked(s.m.registered, order);
        var next := s.(m := s.m.(registered := marked.0), trace := s.trace + [Added(s.tasks[t].phase.no, order)]);
        if marked.1 {
          MovedKeeps(s, AddAnswered(s, t, ok, order), t, Registered, leader);
        } else {
          SameLocks(s, next);
          TasksLed(s, leader);
          SameRequests(s, next, leader);
          FinishedKeeps(next, t, leader);
        }
      }
    }
  }

  lemma RegisteringKeeps(s: State, t: nat, leader: Leader)
    requires Inv(s, leader)
    ensures Inv(Registering(s, t), leader)
  {
    hide LocksOk, Sequenced, Finished, WithTopics, Unregistered;
    StepKeepsLocks(s, Register(t));
    if At(s, t, Holding) && s.m.transactional {
      match StartAdd(s.m, s.tasks[t].entries)
      case None => FinishedKeeps(s, t, leader);
      case Some((m, missing)) =>
        MovedKeeps(s, Registering(s, t), t, if missing == [] then Registered else Adding(missing, s.no), leader);
    }
  }

  lemma StepKeeps(s: State, e: Event, leader: Leader)
    requires Inv(s, leader) && AllowedStep(s, e, leader)
    ensures Inv(Step(s, e), leader)
  {
    hide LocksOk, Sequenced, Finished, Registering, AddAnswered, Assigned, RolledBack, BeginCalled, EndCalled,
      EndFoundOut, EndAnswered, OffsetsCalled, OffsetsAnswered, InitCalled, InitAnswered;
    StepKeepsLocks(s, e);
    NoInitStays(s, e);
    match e
    case Send(t, node, entries) => SentKeeps(s, t, node, entries, leader);
    case LockTimeout(t) => if At(s, t, Waiting) { MovedKeeps(s, Step(s, e), t, Done, leader); }
    case Register(t) => RegisteringKeeps(s, t, leader);
    case AddAnswer(t, ok, order) => AddAnsweredKeeps(s, t, ok, order, leader);
    case Produce(t) =>
      if At(s, t, Registered) || (At(s, t, Holding) && !s.m.transactional) { ProduceSentKeeps(s, t, leader); }
    case ProduceAnswer(t, ok) =>
      if t in s.tasks && s.tasks[t].phase.Producing? {
        if ok { AckedKeeps(s, t, leader); } else { FailedKeeps(s, t, leader); }
      }
    case _ =>
      TransactionStep(s, e);
      TasksLed(s, leader);
      SameRequests(s, Step(s, e), leader);
  }

  lemma SentKeeps(s: State, t: nat, node: int, entries: seq<Entry>, leader: Leader)
    requires Inv(s, leader) && AllowedStep(s, Send(t, node, entries), leader)
    ensures Inv(Started(s, t, node, entries), leader)
  {
    hide LocksOk, Sequenced;
    StartedKeepsLocks(s, t, node, entries);
    TasksLed(s, leader);
    if t !in s.tasks { SameRequests(s, Started(s, t, node, entries), leader); }
  }

  lemma {:induction false} RunKeeps(s: State, es: seq<Event>, leader: Leader)
    requires Inv(s, leader) && Allowed(s, es, leader)
    ensures Inv(Run(s, es), leader)
    decreases |es|
  {
    hide Inv, Step, AllowedStep;
    if es != [] {
      StepKeeps(s, es[0], leader);
      RunKeeps(Step(s, es[0]), es[1..], leader);
    }
  }

  lemma InitialHolds(transactional: bool, producerId: int, leader: Leader)
    requires producerId != NO_PRODUCER_ID
    ensures Inv(Initial(transactional, producerId), leader)
  {}

  /**
    Over every interleaving of sends, answers and lock timeouts: one task per broker holds its
    lock, each sequence number of a partition below its acknowledged count is used by exactly
    one acknowledged batch and no other number is, and whenever no request of the partition's
    leader is out the counter is that count, so failed requests leave it unchanged.
   */
  lemma SequencesTile(transactional: bool, producerId: int, es: seq<Event>, leader: Leader)
    requires producerId != NO_PRODUCER_ID && Allowed(Initial(transactional, producerId), es, leader)
    ensures
      var s := Run(Initial(transactional, producerId), es);
      && (forall node, t, u | Inside(s.tasks, t, node) && Inside(s.tasks, u, node) :: t == u)
      && (forall tp, k :: !UsedTwice(s.log, tp, k) && (Used(s.log, tp, k) <==> 0 <= k < Total(s.log, tp)))
      && (forall tp | forall t :: !ProducingAt(s.tasks, t, leader(tp)) :: s.m.Sequence(tp) == Total(s.log, tp))
  {
    hide Used, UsedTwice, Total, Run, Initial, Allowed;
    InitialHolds(transactional, producerId, leader);
    RunKeeps(Initial(transactional, producerId), es, leader);
    var s := Run(Initial(transactional, producerId), es);
    forall tp, k ensures !UsedTwice(s.log, tp, k) && (Used(s.log, tp, k) <==> 0 <= k < Total(s.log, tp)) {
      TiledCovers(s.log, tp, k);
    }
    forall node, t, u | Inside(s.tasks, t, node) && Inside(s.tasks, u, node) ensures t == u {
      assert LockOk(s.m.Lock(node), s.tasks, node);
    }
    forall tp | forall t :: !ProducingAt(s.tasks, t, leader(tp)) ensures s.m.Sequence(tp) == Total(s.log, tp) {
      assert Settled(s.m, s.log, s.tasks, tp, leader);
    }
  }
}
