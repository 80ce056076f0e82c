/**
  Interleaved runs of one producer: per-broker send tasks that take the broker's lock, register
  partitions, take sequence numbers and produce, and transactions that begin and end around them.
  Each step is the code between two awaits; the brokers' answers are events.
 */
module ProducerRuns {
  import opened Wire
  import opened Offsets
  import opened Locks
  import opened Eos

  datatype Phase =
    | Waiting
    | Holding
    | Adding(missing: seq<TopicPartition>, no: nat)
    | Registered
    | Producing(batches: seq<Ack>)
    | Done

  datatype Task = Task(node: int, entries: seq<Entry>, phase: Phase)

  /** A batch with its sequence numbers, first up to first + count. */
  datatype Ack = Ack(tp: TopicPartition, first: int, count: nat)

  /** What the brokers saw, each with the number of its transaction. */
  datatype Happened =
    | Began(no: nat)
    | Added(no: nat, tps: seq<TopicPartition>)
    | OffsetsAdded(no: nat)
    | Produced(no: nat, tps: seq<TopicPartition>)
    | EndSent(no: nat, commit: bool)
    | Ended(no: nat)

  datatype State = State(
    m: Manager, tasks: map<nat, Task>, log: seq<Ack>, no: nat,
    offsetCalls: seq<nat>, ending: Ending, initCalls: nat, trace: seq<Happened>)

  /** Where a commit or abort stands: nowhere, looking for the coordinator, or waiting for EndTxn's answer. */
  datatype Ending = NotEnding | Finding(commit: bool) | Waits

  /** An initialised producer before its first send. */
  function Initial(transactional: bool, producerId: int): State {
    State(Manager(transactional, producerId, READY, map[], map[], map[], false), map[], [], 0, [], NotEnding, 0, [])
  }

  // ------------------------------------------------------------------ send tasks

  function Moved(tasks: map<nat, Task>, t: nat, phase: Phase): map<nat, Task>
    requires t in tasks
  {
    tasks[t := tasks[t].(phase := phase)]
  }

  predicate At(s: State, t: nat, phase: Phase) { t in s.tasks && s.tasks[t].phase == phase }

  /** A finished send releases its broker's lock, which wakes the first waiter. */
  function Finished(s: State, t: nat): State
    requires t in s.tasks
  {
    var node, tasks := s.tasks[t].node, Moved(s.tasks, t, Done);
    var woken := if s.m.Initialized() then Woken(s.m.Lock(node)) else None;
    s.(m := s.m.ReleaseLock(node),
       tasks := if woken.Some? && woken.value in tasks then Moved(tasks, woken.value, Holding) else tasks)
  }

  function Started(s: State, t: nat, node: int, entries: seq<Entry>): State {
    if t in s.tasks then s
    else
      var granted := !s.m.Initialized() || !s.m.Lock(node).locked;
      s.(m := s.m.AcquireLock(node, t), tasks := s.tasks[t := Task(node, entries, if granted then Holding else Waiting)])
  }

  function WaitTimedOut(s: State, t: nat): State {
    if !At(s, t, Waiting) then s
    else
      var node := s.tasks[t].node;
      s.(m := s.m.(locks := s.m.locks[node := GivenUp(s.m.Lock(node), t)]), tasks := Moved(s.tasks, t, Done))
  }

  function Registering(s: State, t: nat): State {
    if !At(s, t, Holding) || !s.m.transactional then s
    else
      match StartAdd(s.m, s.tasks[t].entries)
      case None => Finished(s, t)
      case Some((m, missing)) =>
        s.(m := m, tasks := Moved(s.tasks, t, if missing == [] then Registered else Adding(missing, s.no)))
  }

  predicate SameMembers(a: seq<TopicPartition>, b: seq<TopicPartition>) {
    (forall tp | tp in a :: tp in b) && (forall tp | tp in b :: tp in a)
  }

  /** The partitions are marked in whatever order the keys of the request object come. */
  function AddAnswered(s: State, t: nat, ok: bool, order: seq<TopicPartition>): State {
    if t !in s.tasks || !s.tasks[t].phase.Adding? then s
    else if !ok then Finished(s, t)
    else if !SameMembers(order, s.tasks[t].phase.missing) then s
    else
      var marked := Marked(s.m.registered, order);
      var next := s.(m := s.m.(registered := marked.0), trace := s.trace + [Added(s.tasks[t].phase.no, order)]);
      if marked.1 then next.(tasks := Moved(s.tasks, t, Registered)) else Finished(next, t)
  }

  function TpsOf(entries: seq<Entry>): (r: seq<TopicPartition>)
    ensures |r| == |entries| && forall i | 0 <= i < |r| :: r[i] == entries[i].tp
  {
    seq(|entries|, i requires 0 <= i < |entries| => entries[i].tp)
  }

  /** Sequence numbers are taken and the produce request goes out. */
  function ProduceSent(s: State, t: nat): State {
    if !(At(s, t, Registered) || (At(s, t, Holding) && !s.m.transactional)) then s
    else
      var entries := s.tasks[t].entries;
      s.(m := Assigned(s.m, entries), tasks := Moved(s.tasks, t, Producing(BatchesOf(s.m, entries))),
         trace := s.trace + [Produced(s.no, TpsOf(entries))])
  }

  /** The request's batches with the first sequence numbers they take. */
  function BatchesOf(m: Manager, entries: seq<Entry>): (r: seq<Ack>)
    ensures |r| == |entries|
    ensures forall i | 0 <= i < |r| :: r[i] == Ack(entries[i].tp, Firsts(m, entries)[i], entries[i].count)
  {
    seq(|entries|, i requires 0 <= i < |entries| => Ack(entries[i].tp, Firsts(m, entries)[i], entries[i].count))
  }

  function ProduceAnswered(s: State, t: nat, ok: bool): State {
    if t !in s.tasks || !s.tasks[t].phase.Producing? then s
    else
      if ok then Finished(s.(log := s.log + s.tasks[t].phase.batches), t)
      else Finished(s.(m := RolledBack(s.m, s.tasks[t].entries)), t)
  }

  // ------------------------------------------------------------------ transactions

  function BeginCalled(s: State): State {
    match Begun(s.m)
    case None => s
    case Some(m) => s.(m := m, no := s.no + 1, trace := s.trace + [Began(s.no + 1)])
  }

  function EndCalled(s: State, commit: bool): State {
    var (m, outcome) := StartEnd(s.m, commit);
    match outcome
    case Rejected => s
    case Closed => s.(m := m, trace := s.trace + [Ended(s.no)])
    case EndTxnDue => s.(m := m, ending := Finding(commit))
  }

  /** Only once the coordinator is found does the EndTxn request go out. */
  function EndFoundOut(s: State, ok: bool): State {
    if !s.ending.Finding? then s
    else if !ok then s.(ending := NotEnding)
    else s.(ending := Waits, trace := s.trace + [EndSent(s.no, s.ending.commit)])
  }

  /** A failed EndTxn leaves the manager where it is. */
  function EndAnswered(s: State, ok: bool): State {
    if !s.ending.Waits? then s
    else if !ok || !ValidTransition(s.m.txn, READY) then s.(ending := NotEnding)
    else s.(m := s.m.Enter(READY), ending := NotEnding, trace := s.trace + [Ended(s.no)])
  }

  /** initProducerId behind its guard. */
  function InitCalled(s: State): State {
    if s.m.txn == UNINITIALIZED || s.m.txn == READY then s.(initCalls := s.initCalls + 1) else s
  }

  /** The producer id arrives: a valid transition to READY starts the manager afresh. */
  function InitAnswered(s: State, ok: bool, id: int): State {
    if s.initCalls == 0 then s
    else if !ok || !ValidTransition(s.m.txn, READY) then s.(initCalls := s.initCalls - 1)
    else s.(initCalls := s.initCalls - 1, m := Manager(s.m.transactional, id, READY, map[], map[], map[], false))
  }

  function OffsetsCalled(s: State): State {
    if s.m.txn != TRANSACTING then s else s.(offsetCalls := s.offsetCalls + [s.no])
  }

  function OffsetsAnswered(s: State, i: nat, ok: bool): State {
    if i >= |s.offsetCalls| then s
    else
      var rest := s.(offsetCalls := s.offsetCalls[..i] + s.offsetCalls[i + 1..]);
      if !ok then rest
      else rest.(m := s.m.(offsetsAdded := true), trace := s.trace + [OffsetsAdded(s.offsetCalls[i])])
  }

  datatype Event =
    | Send(t: nat, node: int, entries: seq<Entry>)
    | LockTimeout(t: nat)
    | Register(t: nat)
    | AddAnswer(t: nat, ok: bool, order: seq<TopicPartition>)
    | Produce(t: nat)
    | ProduceAnswer(t: nat, ok: bool)
    | Begin
    | End(commit: bool)
    | EndFound(ok: bool)
    | EndAnswer(ok: bool)
    | Init
    | InitAnswer(ok: bool, id: int)
    | SendOffsets
    | OffsetsAnswer(i: nat, ok: bool)

  function Step(s: State, e: Event): State {
    match e
    case Send(t, node, entries) => Started(s, t, node, entries)
    case LockTimeout(t) => WaitTimedOut(s, t)
    case Register(t) => Registering(s, t)
    case AddAnswer(t, ok, order) => AddAnswered(s, t, ok, order)
    case Produce(t) => ProduceSent(s, t)
    case ProduceAnswer(t, ok) => ProduceAnswered(s, t, ok)
    case Begin => BeginCalled(s)
    case End(commit) => EndCalled(s, commit)
    case EndFound(ok) => EndFoundOut(s, ok)
    case EndAnswer(ok) => EndAnswered(s, ok)
    case Init => InitCalled(s)
    case InitAnswer(ok, id) => InitAnswered(s, ok, id)
    case SendOffsets => OffsetsCalled(s)
    case OffsetsAnswer(i, ok) => OffsetsAnswered(s, i, ok)
  }

  function Run(s: State, es: seq<Event>): State
    decreases |es|
  {
    if es == [] then s else Run(Step(s, es[0]), es[1..])
  }

  // ------------------------------------------------------------------ one holder per broker

  predicate Critical(phase: Phase) { !phase.Waiting? && !phase.Done? }

  type Tasks = map<nat, Task>

  ghost predicate Inside(tasks: Tasks, t: nat, node: int) {
    t in tasks && tasks[t].node == node && Critical(tasks[t].phase)
  }

  ghost predicate Queued(tasks: Tasks, t: nat, node: int) {
    t in tasks && tasks[t].node == node && tasks[t].phase == Waiting
  }

  /** One broker's lock: taken exactly while one task is inside, its waiters are the waiting tasks. */
  ghost predicate LockOk(lock: LockState, tasks: Tasks, node: int) {
    && (lock.locked <==> exists t :: Inside(tasks, t, node))
    && (forall t, u | Inside(tasks, t, node) && Inside(tasks, u, node) :: t == u)
    && Distinct(lock.waiting) && (lock.waiting != [] ==> lock.locked)
    && (forall t :: t in lock.waiting <==> Queued(tasks, t, node))
  }

  ghost predicate LocksOk(m: Manager, tasks: Tasks) {
    m.Initialized() && forall node :: LockOk(m.Lock(node), tasks, node)
  }

  /** A task at another broker does not matter for this one. */
  lemma OtherNode(lock: LockState, tasks: Tasks, t: nat, task: Task, node: int)
    requires LockOk(lock, tasks, node) && task.node != node && (t in tasks ==> tasks[t].node != node)
    ensures LockOk(lock, tasks[t := task], node)
  {
    var next := tasks[t := task];
    forall u ensures Inside(next, u, node) <==> Inside(tasks, u, node) {}
    forall u ensures Queued(next, u, node) <==> Queued(tasks, u, node) {}
  }

  /** A task that stays inside. */
  lemma StaysInside(m: Manager, n: Manager, tasks: Tasks, t: nat, phase: Phase)
    requires LocksOk(m, tasks) && t in tasks && Critical(tasks[t].phase) && Critical(phase)
    requires n.locks == m.locks && n.producerId == m.producerId
    ensures LocksOk(n, Moved(tasks, t, phase))
  {
    var next := Moved(tasks, t, phase);
    forall node ensures LockOk(n.Lock(node), next, node) {
      forall u ensures Inside(next, u, node) <==> Inside(tasks, u, node) {}
      forall u ensures Queued(next, u, node) <==> Queued(tasks, u, node) {}
      assert LockOk(m.Lock(node), tasks, node);
    }
  }

  lemma StartedOk(lock: LockState, tasks: Tasks, t: nat, entries: seq<Entry>, node: int)
    requires LockOk(lock, tasks, node) && t !in tasks
    ensures LockOk(Acquired(lock, t), tasks[t := Task(node, entries, if lock.locked then Waiting else Holding)], node)
  {
    var next := tasks[t := Task(node, entries, if lock.locked then Waiting else Holding)];
    forall u ensures Inside(next, u, node) <==> (Inside(tasks, u, node) || (u == t && !lock.locked)) {}
    forall u ensures Queued(next, u, node) <==> (Queued(tasks, u, node) || (u == t && lock.locked)) {}
    if lock.locked {
      assert !Queued(tasks, t, node);
      DistinctAppend(lock.waiting, t);
    } else {
      assert Inside(next, t, node);
    }
  }

  lemma TimedOutOk(lock: LockState, tasks: Tasks, t: nat, node: int)
    requires LockOk(lock, tasks, node) && Queued(tasks, t, node)
    ensures LockOk(GivenUp(lock, t), Moved(tasks, t, Done), node)
  {
    var next := Moved(tasks, t, Done);
    forall u ensures Inside(next, u, node) <==> Inside(tasks, u, node) {}
    forall u ensures Queued(next, u, node) <==> (Queued(tasks, u, node) && u != t) {}
    WithoutOthers(lock.waiting, t);
  }

  /** Who is inside once t has left: the first waiter, or nobody. */
  function Next(tasks: Tasks, lock: LockState, t: nat): Tasks
    requires t in tasks
  {
    var done := Moved(tasks, t, Done);
    if lock.waiting != [] && lock.waiting[0] in done then Moved(done, lock.waiting[0], Holding) else done
  }

  lemma ReleasedOk(lock: LockState, tasks: Tasks, t: nat, node: int)
    requires LockOk(lock, tasks, node) && Inside(tasks, t, node)
    ensures LockOk(Released(lock), Next(tasks, lock, t), node)
  {
    var next := Next(tasks, lock, t);
    assert forall u | Inside(tasks, u, node) :: u == t;
    if lock.waiting == [] {
      assert next == Moved(tasks, t, Done);
      forall u ensures !Inside(next, u, node) { assert u != t ==> !Inside(tasks, u, node); }
      forall u ensures !Queued(next, u, node) { assert u !in lock.waiting; assert !Queued(tasks, u, node); }
    } else {
      var w := lock.waiting[0];
      assert w in lock.waiting && Queued(tasks, w, node);
      WithoutFirst(lock.waiting);
      forall u ensures Inside(next, u, node) <==> u == w { assert u != t ==> !Inside(tasks, u, node); }
      forall u ensures Queued(next, u, node) <==> (Queued(tasks, u, node) && u != w) {}
      assert lock.waiting == [w] + lock.waiting[1..];
      assert Inside(next, w, node);
    }
  }

  lemma FinishedKeepsLocks(s: State, t: nat)
    requires LocksOk(s.m, s.tasks) && t in s.tasks && Critical(s.tasks[t].phase)
    ensures LocksOk(Finished(s, t).m, Finished(s, t).tasks)
    ensures Finished(s, t).tasks == Next(s.tasks, s.m.Lock(s.tasks[t].node), t)
  {
    hide LockOk;
    var home, next := s.tasks[t].node, Finished(s, t);
    var lock, done := s.m.Lock(home), Moved(s.tasks, t, Done);
    assert Inside(s.tasks, t, home);
    ReleasedOk(lock, s.tasks, t, home);
    FirstIsQueued(lock, s.tasks, home);
    forall node ensures LockOk(next.m.Lock(node), next.tasks, node) {
      if node != home {
        OtherNode(s.m.Lock(node), s.tasks, t, done[t], node);
        if lock.waiting != [] {
          var w := lock.waiting[0];
          OtherNode(s.m.Lock(node), done, w, next.tasks[w], node);
        }
      }
    }
  }

  lemma FirstIsQueued(lock: LockState, tasks: Tasks, node: int)
    requires LockOk(lock, tasks, node)
    ensures lock.waiting != [] ==> Queued(tasks, lock.waiting[0], node)
  {
    if lock.waiting != [] { assert lock.waiting[0] in lock.waiting; }
  }

  lemma StartedKeepsLocks(s: State, t: nat, node: int, entries: seq<Entry>)
    requires LocksOk(s.m, s.tasks)
    ensures LocksOk(Started(s, t, node, entries).m, Started(s, t, node, entries).tasks)
  {
    hide LockOk;
    if t !in s.tasks {
      var next := Started(s, t, node, entries);
      forall n ensures LockOk(next.m.Lock(n), next.tasks, n) {
        if n == node { StartedOk(s.m.Lock(n), s.tasks, t, entries, n); }
        else { OtherNode(s.m.Lock(n), s.tasks, t, next.tasks[t], n); }
      }
    }
  }

  lemma TimedOutKeepsLocks(s: State, t: nat)
    requires LocksOk(s.m, s.tasks)
    ensures LocksOk(WaitTimedOut(s, t).m, WaitTimedOut(s, t).tasks)
  {
    hide LockOk;
    if At(s, t, Waiting) {
      var next, node := WaitTimedOut(s, t), s.tasks[t].node;
      forall n ensures LockOk(next.m.Lock(n), next.tasks, n) {
        if n == node { TimedOutOk(s.m.Lock(n), s.tasks, t, n); }
        else { OtherNode(s.m.Lock(n), s.tasks, t, next.tasks[t], n); }
      }
    }
  }

  /** The operations in between touch neither locks nor the producer id. */
  lemma {:induction false} AssignedLocks(m: Manager, entries: seq<Entry>)
    ensures Assigned(m, entries) == m.(sequences := Assigned(m, entries).sequences)
    ensures RolledBack(m, entries) == m.(sequences := RolledBack(m, entries).sequences)
  {
    if entries != [] { AssignedLocks(m, entries[..|entries| - 1]); }
  }

  predicate OfTransaction(e: Event) {
    e.Begin? || e.End? || e.EndFound? || e.EndAnswer? || e.SendOffsets? || e.OffsetsAnswer? || e.Init? || e.InitAnswer?
  }

  /** No answer to initProducerId arrives. */
  ghost predicate NoInit(s: State, e: Event) { !e.Init? && s.initCalls == 0 }

  lemma NoInitStays(s: State, e: Event)
    requires NoInit(s, e)
    ensures Step(s, e).initCalls == 0
  {
    hide Moved, Marked, Assigned, RolledBack, Firsts, BatchesOf, WithTopics, Unregistered, Manager.IsOngoing, Manager.AcquireLock, Manager.ReleaseLock;
  }

  lemma EndCalledStep(s: State, commit: bool)
    ensures
      var next := EndCalled(s, commit);
      && next.tasks == s.tasks && next.log == s.log && next.m.locks == s.m.locks
      && next.m.producerId == s.m.producerId && next.m.sequences == s.m.sequences
  {
    hide Manager.IsOngoing;
  }

  lemma OffsetsAnsweredStep(s: State, i: nat, ok: bool)
    ensures
      var next := OffsetsAnswered(s, i, ok);
      && next.tasks == s.tasks && next.log == s.log && next.m.locks == s.m.locks
      && next.m.producerId == s.m.producerId && next.m.sequences == s.m.sequences
  {}

  /** Transaction calls leave tasks, locks, sequences and the log alone. */
  lemma TransactionStep(s: State, e: Event)
    requires OfTransaction(e) && s.initCalls == 0
    ensures
      var next := Step(s, e);
      && next.tasks == s.tasks && next.log == s.log && next.m.locks == s.m.locks
      && next.m.producerId == s.m.producerId && next.m.sequences == s.m.sequences
  {
    hide Started, WaitTimedOut, Registering, AddAnswered, ProduceSent, ProduceAnswered, Manager.IsOngoing, OffsetsAnswered, EndCalled;
    match e
    case End(commit) => EndCalledStep(s, commit);
    case OffsetsAnswer(i, ok) => OffsetsAnsweredStep(s, i, ok);
    case _ =>
  }

  lemma StepKeepsLocks(s: State, e: Event)
    requires LocksOk(s.m, s.tasks) && s.initCalls == 0
    ensures LocksOk(Step(s, e).m, Step(s, e).tasks)
  {
    hide LocksOk, Finished, Moved, Started, WaitTimedOut, Marked, Assigned, RolledBack, BatchesOf, WithTopics, Unregistered;
    match e
    case Send(t, node, entries) => StartedKeepsLocks(s, t, node, entries);
    case LockTimeout(t) => TimedOutKeepsLocks(s, t);
    case Register(t) =>
      if At(s, t, Holding) && s.m.transactional {
        match StartAdd(s.m, s.tasks[t].entries)
        case None => FinishedKeepsLocks(s, t);
        case Some((m, missing)) =>
          StaysInside(s.m, m, s.tasks, t, if missing == [] then Registered else Adding(missing, s.no));
      }
    case AddAnswer(t, ok, order) => AddAnswerKeepsLocks(s, t, ok, order);
    case Produce(t) =>
      if t in s.tasks && (At(s, t, Registered) || (At(s, t, Holding) && !s.m.transactional)) {
        AssignedLocks(s.m, s.tasks[t].entries);
        StaysInside(s.m, Assigned(s.m, s.tasks[t].entries), s.tasks, t, Producing(BatchesOf(s.m, s.tasks[t].entries)));
      }
    case ProduceAnswer(t, ok) => ProduceAnswerKeepsLocks(s, t, ok);
    case _ =>
      TransactionStep(s, e);
      SameLocks(s, Step(s, e));
  }

  lemma SameLocks(s: State, next: State)
    requires LocksOk(s.m, s.tasks)
    requires next.tasks == s.tasks && next.m.locks == s.m.locks && next.m.producerId == s.m.producerId
    ensures LocksOk(next.m, next.tasks)
  {
    forall node ensures next.m.Lock(node) == s.m.Lock(node) {}
  }

  lemma AddAnswerKeepsLocks(s: State, t: nat, ok: bool, order: seq<TopicPartition>)
    requires LocksOk(s.m, s.tasks)
    ensures LocksOk(AddAnswered(s, t, ok, order).m, AddAnswered(s, t, ok, order).tasks)
  {
    hide LocksOk, Finished, Moved, Marked;
    if t in s.tasks && s.tasks[t].phase.Adding? {
      if !ok {
        FinishedKeepsLocks(s, t);
      } else if SameMembers(order, s.tasks[t].phase.missing) {
        var marked := Marked(s.m.registered, order);
        var next := s.(m := s.m.(registered := marked.0), trace := s.trace + [Added(s.tasks[t].phase.no, order)]);
        SameLocks(s, next);
        if marked.1 { StaysInside(next.m, next.m, s.tasks, t, Registered); } else { FinishedKeepsLocks(next, t); }
      }
    }
  }

  lemma ProduceAnswerKeepsLocks(s: State, t: nat, ok: bool)
    requires LocksOk(s.m, s.tasks)
    ensures LocksOk(ProduceAnswered(s, t, ok).m, ProduceAnswered(s, t, ok).tasks)
  {
    hide LocksOk, Finished, RolledBack;
    if t in s.tasks && s.tasks[t].phase.Producing? {
      if ok {
        FinishedKeepsLocks(s.(log := s.log + s.tasks[t].phase.batches), t);
      } else {
        AssignedLocks(s.m, s.tasks[t].entries);
        var next := s.(m := RolledBack(s.m, s.tasks[t].entries));
        SameLocks(s, next);
        FinishedKeepsLocks(next, t);
      }
    }
  }
}
