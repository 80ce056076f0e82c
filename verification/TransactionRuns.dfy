/**
  Transactions over whole runs: what the brokers see of each transaction, whatever the order of
  sends, answers and failures inside it.
 */
module TransactionRuns {
  import opened Offsets
  import opened Eos
  import opened ProducerRuns

  // ------------------------------------------------------------------ what a legal history is

  ghost predicate PartitionAdded(trace: seq<Happened>, no: nat, tp: TopicPartition) {
    exists h :: h in trace && h.Added? && h.no == no && tp in h.tps
  }

  /** A registration of the transaction was acknowledged. */
  ghost predicate SomethingAdded(trace: seq<Happened>, no: nat) {
    exists h :: h in trace && h.no == no && (h.OffsetsAdded? || (h.Added? && h.tps != []))
  }

  ghost predicate EndWasSent(trace: seq<Happened>, no: nat) { exists h :: h in trace && h.EndSent? && h.no == no }

  ghost predicate HasEnded(trace: seq<Happened>, no: nat) { exists h :: h in trace && h.Ended? && h.no == no }

  ghost predicate HasBegun(trace: seq<Happened>, no: nat) { exists h :: h in trace && h.Began? && h.no == no }

  /** What may follow a history. */
  ghost predicate MayFollow(trace: seq<Happened>, h: Happened) {
    match h
    case Began(no) => !HasBegun(trace, no)
    case Added(no, tps) => HasBegun(trace, no) && !EndWasSent(trace, no) && !HasEnded(trace, no)
    case OffsetsAdded(no) => HasBegun(trace, no) && !EndWasSent(trace, no) && !HasEnded(trace, no)
    case Produced(no, tps) =>
      && HasBegun(trace, no) && !EndWasSent(trace, no) && !HasEnded(trace, no)
      && forall tp | tp in tps :: PartitionAdded(trace, no, tp)
    case EndSent(no, _) => !EndWasSent(trace, no) && !HasEnded(trace, no) && SomethingAdded(trace, no)
    case Ended(no) => !HasEnded(trace, no) && (EndWasSent(trace, no) <==> SomethingAdded(trace, no))
  }

  /**
    Every produce request goes to partitions registered in its own open transaction; a
    transaction has at most one EndTxn, and it ends with one exactly when one of its
    registrations was acknowledged.
   */
  ghost predicate Legal(trace: seq<Happened>) {
    trace != [] ==> Legal(trace[..|trace| - 1]) && MayFollow(trace[..|trace| - 1], trace[|trace| - 1])
  }

  // ------------------------------------------------------------------ which runs

  ghost predicate Outstanding(phase: Phase) { phase.Adding? || phase.Registered? }

  /** No send is between asking for its registration and producing, and no sendOffsets is out. */
  ghost predicate Quiet(s: State) {
    s.offsetCalls == [] && forall t | t in s.tasks :: !Outstanding(s.tasks[t].phase)
  }

  /** The producer id is asked for once, and commit and abort do not overlap the transaction's registrations. */
  ghost predicate AllowedStep(s: State, e: Event) { !e.Init? && (e.End? ==> Quiet(s)) }

  ghost predicate Allowed(s: State, es: seq<Event>)
    decreases |es|
  {
    es != [] ==> AllowedStep(s, es[0]) && Allowed(Step(s, es[0]), es[1..])
  }

  // ------------------------------------------------------------------ what every run keeps

  /** The registry is what the open transaction's acknowledgements say. */
  ghost predicate Agrees(m: Manager, trace: seq<Happened>, no: nat) {
    && (forall tp :: IsRegistered(m.registered, tp) ==> PartitionAdded(trace, no, tp))
    && (m.IsOngoing() <==> SomethingAdded(trace, no))
  }

  ghost predicate StateOk(m: Manager, trace: seq<Happened>, no: nat, ending: Ending) {
    match m.txn
    case UNINITIALIZED => false
    case READY => m.registered == map[] && !m.offsetsAdded && ending == NotEnding
    case TRANSACTING => ending == NotEnding && HasBegun(trace, no) && Agrees(m, trace, no) && !EndWasSent(trace, no) && !HasEnded(trace, no)
    case _ =>
      && HasBegun(trace, no) && Agrees(m, trace, no) && m.IsOngoing() && !HasEnded(trace, no)
      && (ending.Finding? ==> !EndWasSent(trace, no)) && (ending.Waits? ==> EndWasSent(trace, no))
  }

  ghost predicate TaskOk(m: Manager, no: nat, task: Task) {
    && (Outstanding(task.phase) ==> m.txn == TRANSACTING)
    && (task.phase.Adding? ==> task.phase.no == no && Pending(m.registered, task.entries, task.phase.missing))
    && (task.phase.Registered? ==> AllRegistered(m.registered, task.entries))
  }

  ghost predicate AllRegistered(r: Registry, entries: seq<Entry>) { forall e | e in entries :: IsRegistered(r, e.tp) }

  /** Once the missing partitions are marked, all of the request's partitions are registered. */
  ghost predicate Pending(r: Registry, entries: seq<Entry>, missing: seq<TopicPartition>) {
    && missing != [] && (forall tp | tp in missing :: tp.topic in r)
    && (forall e | e in entries :: IsRegistered(r, e.tp) || e.tp in missing)
  }

  ghost predicate Inv(s: State) {
    && s.m.transactional && s.initCalls == 0 && Legal(s.trace) && StateOk(s.m, s.trace, s.no, s.ending)
    && (forall h | h in s.trace :: h.no <= s.no)
    && (forall t | t in s.tasks :: TaskOk(s.m, s.no, s.tasks[t]))
    && (forall i | 0 <= i < |s.offsetCalls| :: s.offsetCalls[i] == s.no)
    && (s.offsetCalls != [] ==> s.m.txn == TRANSACTING)
  }

  // ------------------------------------------------------------------ histories

  lemma LegalAppend(trace: seq<Happened>, h: Happened)
    requires Legal(trace) && MayFollow(trace, h)
    ensures Legal(trace + [h])
  {
    assert (trace + [h])[..|trace|] == trace;
  }

  /** How one more entry changes what the history says. */
  lemma Appended(trace: seq<Happened>, h: Happened, no: nat)
    ensures EndWasSent(trace + [h], no) <==> EndWasSent(trace, no) || (h.EndSent? && h.no == no)
    ensures HasEnded(trace + [h], no) <==> HasEnded(trace, no) || (h.Ended? && h.no == no)
    ensures HasBegun(trace + [h], no) <==> HasBegun(trace, no) || (h.Began? && h.no == no)
    ensures SomethingAdded(trace + [h], no) <==>
      SomethingAdded(trace, no) || (h.no == no && (h.OffsetsAdded? || (h.Added? && h.tps != [])))
    ensures forall tp :: PartitionAdded(trace + [h], no, tp) <==>
      PartitionAdded(trace, no, tp) || (h.Added? && h.no == no && tp in h.tps)
  {
    var next := trace + [h];
    assert h in next;
    assert forall x :: x in next <==> x in trace || x == h;
  }

  /** A transaction that has not begun has no history. */
  lemma Untouched(trace: seq<Happened>, no: nat)
    requires forall h | h in trace :: h.no < no
    ensures !EndWasSent(trace, no) && !HasEnded(trace, no) && !HasBegun(trace, no) && !SomethingAdded(trace, no)
    ensures forall tp :: !PartitionAdded(trace, no, tp)
  {}

  lemma OngoingIff(m: Manager)
    ensures m.IsOngoing() <==> m.offsetsAdded || exists tp :: IsRegistered(m.registered, tp)
  {
    if t :| t in m.registered && m.registered[t] != {} {
      var partitions := m.registered[t];
      assert (forall p :: p !in partitions) ==> partitions == {};
      var p :| p in partitions;
      assert IsRegistered(m.registered, TopicPartition(t, p));
    }
    if tp :| IsRegistered(m.registered, tp) {
      assert m.registered[tp.topic] != {};
    }
  }

  // ------------------------------------------------------------------ steps

  /** Locks, sequences and tasks that are not outstanding do not matter. */
  ghost predicate Calm(s: State, next: State) {
    && next.m == s.m.(locks := next.m.locks, sequences := next.m.sequences)
    && next.trace == s.trace && next.no == s.no && next.ending == s.ending && next.offsetCalls == s.offsetCalls
    && next.initCalls == s.initCalls
    && forall t | t in next.tasks && Outstanding(next.tasks[t].phase) :: t in s.tasks && next.tasks[t] == s.tasks[t]
  }

  lemma CalmKeeps(s: State, next: State)
    requires Inv(s) && Calm(s, next)
    ensures Inv(next)
  {
    hide Legal, HasBegun, EndWasSent, HasEnded, PartitionAdded, SomethingAdded, Manager.IsOngoing;
    assert next.m.IsOngoing() <==> s.m.IsOngoing() by { OngoingIff(s.m); OngoingIff(next.m); }
  }

  lemma FinishedCalm(s: State, t: nat)
    requires t in s.tasks
    ensures Calm(s, Finished(s, t))
  {}

  /** More topics, the same or more registrations. */
  lemma TaskStillOk(m: Manager, next: Manager, no: nat, task: Task)
    requires TaskOk(m, no, task) && next.txn == m.txn
    requires forall topic | topic in m.registered :: topic in next.registered
    requires forall tp | IsRegistered(m.registered, tp) :: IsRegistered(next.registered, tp)
    ensures TaskOk(next, no, task)
  {}

  lemma RegisteringKeeps(s: State, t: nat)
    requires Inv(s)
    ensures Inv(Registering(s, t))
  {
    hide Legal, HasBegun, EndWasSent, HasEnded, PartitionAdded, SomethingAdded, Manager.IsOngoing, TaskOk, WithTopics, Unregistered, Finished, Calm;
    if At(s, t, Holding) {
      if StartAdd(s.m, s.tasks[t].entries).None? {
        FinishedCalm(s, t);
        CalmKeeps(s, Finished(s, t));
      } else {
        var next := Registering(s, t);
        WithTopicsKeeps(s.m.registered, s.tasks[t].entries);
        OngoingIff(s.m);
        OngoingIff(next.m);
        forall u | u in next.tasks ensures TaskOk(next.m, next.no, next.tasks[u]) {
          if u == t { RegisteringTask(s, t); } else { TaskStillOk(s.m, next.m, s.no, s.tasks[u]); }
        }
      }
    }
  }

  lemma RegisteringTask(s: State, t: nat)
    requires Inv(s) && At(s, t, Holding) && s.m.txn == TRANSACTING
    ensures TaskOk(Registering(s, t).m, s.no, Registering(s, t).tasks[t])
  {
    hide Legal, StateOk, WithTopics, Unregistered;
    var entries := s.tasks[t].entries;
    var known := WithTopics(s.m.registered, entries);
    WithTopicsKeeps(s.m.registered, entries);
    forall tp ensures tp in Unregistered(known, entries) <==> !IsRegistered(known, tp) && exists e :: e in entries && e.tp == tp {
      UnregisteredAre(known, entries, tp);
    }
    forall e | e in entries && !IsRegistered(known, e.tp) ensures e.tp in Unregistered(known, entries) {}
  }

  lemma AddAnsweredKeeps(s: State, t: nat, ok: bool, order: seq<TopicPartition>)
    requires Inv(s)
    ensures Inv(AddAnswered(s, t, ok, order))
  {
    hide Legal, HasBegun, EndWasSent, HasEnded, PartitionAdded, SomethingAdded, Manager.IsOngoing, Marked, Finished, Calm;
    if t in s.tasks && s.tasks[t].phase.Adding? {
      if !ok {
        FinishedCalm(s, t);
        CalmKeeps(s, Finished(s, t));
      } else if SameMembers(order, s.tasks[t].phase.missing) {
        var next, missing := AddAnswered(s, t, ok, order), s.tasks[t].phase.missing;
        assert TaskOk(s.m, s.no, s.tasks[t]);
        assert missing[0] in missing && order != [];
        MarkedAdds(s.m.registered, order);
        Appended(s.trace, Added(s.no, order), s.no);
        LegalAppend(s.trace, Added(s.no, order));
        OngoingIff(s.m);
        OngoingIff(next.m);
        assert IsRegistered(next.m.registered, missing[0]);
        forall u | u in next.tasks ensures TaskOk(next.m, next.no, next.tasks[u]) {
          if u != t { TaskStillOk(s.m, next.m, s.no, s.tasks[u]); }
        }
      }
    }
  }

  lemma ProduceSentKeeps(s: State, t: nat)
    requires Inv(s)
    ensures Inv(ProduceSent(s, t))
  {
    hide Legal, HasBegun, EndWasSent, HasEnded, PartitionAdded, SomethingAdded, Manager.IsOngoing, Assigned, Firsts;
    if At(s, t, Registered) {
      var next, entries := ProduceSent(s, t), s.tasks[t].entries;
      var h := Produced(s.no, TpsOf(entries));
      assert TaskOk(s.m, s.no, s.tasks[t]);
      forall tp | tp in TpsOf(entries) ensures PartitionAdded(s.trace, s.no, tp) {
        var i :| 0 <= i < |entries| && entries[i].tp == tp;
        assert entries[i] in entries;
      }
      Appended(s.trace, h, s.no);
      LegalAppend(s.trace, h);
      AssignedLocks(s.m, entries);
      OngoingIff(s.m);
      OngoingIff(next.m);
      forall u | u in next.tasks ensures TaskOk(next.m, next.no, next.tasks[u]) {
        if u != t { TaskStillOk(s.m, next.m, s.no, s.tasks[u]); }
      }
    }
  }

  lemma ProduceAnsweredKeeps(s: State, t: nat, ok: bool)
    requires Inv(s)
    ensures Inv(ProduceAnswered(s, t, ok))
  {
    hide Inv, Finished, RolledBack;
    if t in s.tasks && s.tasks[t].phase.Producing? {
      var answered := if ok then s.(log := s.log + s.tasks[t].phase.batches) else s.(m := RolledBack(s.m, s.tasks[t].entries));
      AssignedLocks(s.m, s.tasks[t].entries);
      CalmKeeps(s, answered);
      FinishedCalm(answered, t);
      CalmKeeps(answered, Finished(answered, t));
    }
  }

  lemma BeginKeeps(s: State)
    requires Inv(s)
    ensures Inv(BeginCalled(s))
  {
    hide Legal, HasBegun, EndWasSent, HasEnded, PartitionAdded, SomethingAdded, Manager.IsOngoing;
    if s.m.txn == READY {
      Untouched(s.trace, s.no + 1);
      Appended(s.trace, Began(s.no + 1), s.no + 1);
      LegalAppend(s.trace, Began(s.no + 1));
      OngoingIff(BeginCalled(s).m);
    }
  }

  /** A send that is not outstanding constrains nothing. */
  lemma IdleTaskOk(m: Manager, no: nat, task: Task)
    requires !Outstanding(task.phase)
    ensures TaskOk(m, no, task)
  {}

  lemma EndKeeps(s: State, commit: bool)
    requires Inv(s) && Quiet(s)
    ensures Inv(EndCalled(s, commit))
  {
    hide Legal, HasBegun, EndWasSent, HasEnded, PartitionAdded, SomethingAdded, Manager.IsOngoing, TaskOk, IsRegistered;
    if s.m.txn == TRANSACTING {
      var next := EndCalled(s, commit);
      forall t | t in next.tasks ensures TaskOk(next.m, next.no, next.tasks[t]) { IdleTaskOk(next.m, next.no, next.tasks[t]); }
      SameOngoing(s.m, s.m.Enter(if commit then COMMITTING else ABORTING));
      if next.ending == NotEnding {
        Appended(s.trace, Ended(s.no), s.no);
        LegalAppend(s.trace, Ended(s.no));
      }
    }
  }

  lemma SameOngoing(m: Manager, n: Manager)
    requires n.registered == m.registered && n.offsetsAdded == m.offsetsAdded
    ensures n.IsOngoing() <==> m.IsOngoing()
  {
    OngoingIff(m);
    OngoingIff(n);
  }

  lemma EndFoundKeeps(s: State, ok: bool)
    requires Inv(s)
    ensures Inv(EndFoundOut(s, ok))
  {
    hide Legal, HasBegun, EndWasSent, HasEnded, PartitionAdded, SomethingAdded, Manager.IsOngoing;
    if s.ending.Finding? && ok {
      var h := EndSent(s.no, s.ending.commit);
      Appended(s.trace, h, s.no);
      LegalAppend(s.trace, h);
    }
  }

  lemma EndAnsweredKeeps(s: State, ok: bool)
    requires Inv(s)
    ensures Inv(EndAnswered(s, ok))
  {
    hide Legal, HasBegun, EndWasSent, HasEnded, PartitionAdded, SomethingAdded, Manager.IsOngoing;
    if s.ending.Waits? && ok {
      Appended(s.trace, Ended(s.no), s.no);
      LegalAppend(s.trace, Ended(s.no));
    }
  }

  lemma OffsetsAnsweredKeeps(s: State, i: nat, ok: bool)
    requires Inv(s)
    ensures Inv(OffsetsAnswered(s, i, ok))
  {
    hide Legal, HasBegun, EndWasSent, HasEnded, PartitionAdded, SomethingAdded, Manager.IsOngoing;
    if i < |s.offsetCalls| && ok {
      Appended(s.trace, OffsetsAdded(s.no), s.no);
      LegalAppend(s.trace, OffsetsAdded(s.no));
      OngoingIff(OffsetsAnswered(s, i, ok).m);
    }
  }

  lemma StepKeeps(s: State, e: Event)
    requires Inv(s) && AllowedStep(s, e)
    ensures Inv(Step(s, e))
  {
    hide Inv, Registering, AddAnswered, ProduceSent, ProduceAnswered, BeginCalled, EndCalled, EndFoundOut, EndAnswered, OffsetsAnswered, InitAnswered;
    match e
    case Send(t, node, entries) => CalmKeeps(s, Step(s, e));
    case LockTimeout(t) => CalmKeeps(s, Step(s, e));
    case Register(t) => RegisteringKeeps(s, t);
    case AddAnswer(t, ok, order) => AddAnsweredKeeps(s, t, ok, order);
    case Produce(t) => ProduceSentKeeps(s, t);
    case ProduceAnswer(t, ok) => ProduceAnsweredKeeps(s, t, ok);
    case Begin => BeginKeeps(s);
    case End(commit) => EndKeeps(s, commit);
    case EndFound(ok) => EndFoundKeeps(s, ok);
    case EndAnswer(ok) => EndAnsweredKeeps(s, ok);
    case InitAnswer(ok, id) => NothingAsked(s, ok, id);
    case SendOffsets => OffsetsCalledKeeps(s);
    case OffsetsAnswer(i, ok) => OffsetsAnsweredKeeps(s, i, ok);
  }

  lemma NothingAsked(s: State, ok: bool, id: int)
    requires Inv(s)
    ensures InitAnswered(s, ok, id) == s
  {}

  lemma OffsetsCalledKeeps(s: State)
    requires Inv(s)
    ensures Inv(OffsetsCalled(s))
  {
    hide Legal, StateOk, TaskOk;
  }

  lemma {:induction false} RunKeeps(s: State, es: seq<Event>)
    requires Inv(s) && Allowed(s, es)
    ensures Inv(Run(s, es))
    decreases |es|
  {
    hide Inv, Step, AllowedStep;
    if es != [] {
      StepKeeps(s, es[0]);
      RunKeeps(Step(s, es[0]), es[1..]);
    }
  }

  /**
    Over every run whose commits and aborts do not overlap registrations: the history is legal,
    READY means that nothing is registered, and no registration is out while no transaction is open.
   */
  lemma Transactions(producerId: int, es: seq<Event>)
    requires Allowed(Initial(true, producerId), es)
    ensures
      var s := Run(Initial(true, producerId), es);
      && Legal(s.trace)
      && (s.m.txn == READY ==> s.m.registered == map[] && !s.m.offsetsAdded)
      && (s.m.txn != TRANSACTING ==> Quiet(s))
  {
    hide Legal, Run, Allowed;
    assert Inv(Initial(true, producerId)) by { EmptyIsLegal(); }
    RunKeeps(Initial(true, producerId), es);
  }

  lemma EmptyIsLegal()
    ensures Legal([])
  {}

  // ------------------------------------------------------------------ overlapping calls

  /** Some call registers or produces only after commit or abort was called. */
  lemma LateCall(s: State, commit: bool) returns (es: seq<Event>)
    requires Inv(s) && s.m.txn == TRANSACTING && !Quiet(s)
    ensures Allowed(EndCalled(s, commit), es) && !Legal(Run(EndCalled(s, commit), es).trace)
  {
    hide Legal, HasBegun, EndWasSent, HasEnded, PartitionAdded, SomethingAdded, Manager.IsOngoing, Marked, Finished, Assigned, Firsts,
      EndCalled, EndFoundOut, EndAnswered;
    var last: Event;
    if s.offsetCalls != [] {
      last := OffsetsAnswer(0, true);
    } else {
      var t :| t in s.tasks && Outstanding(s.tasks[t].phase);
      assert TaskOk(s.m, s.no, s.tasks[t]);
      last := if s.tasks[t].phase.Adding? then AddAnswer(t, true, s.tasks[t].phase.missing) else Produce(t);
    }
    var called := EndCalled(s, commit);
    var ended := EndAnswered(EndFoundOut(called, true), true);
    es := [EndFound(true), EndAnswer(true), last];
    EndedBy(s, commit);
    ThreeSteps(called, EndFound(true), EndAnswer(true), last);
    var h := LateEntry(ended, last);
    assert !MayFollow(ended.trace, h);
    IllegalNext(ended.trace, h);
  }

  lemma EndedBy(s: State, commit: bool)
    requires Inv(s) && s.m.txn == TRANSACTING
    ensures
      var ended := EndAnswered(EndFoundOut(EndCalled(s, commit), true), true);
      ended.tasks == s.tasks && ended.offsetCalls == s.offsetCalls && ended.no == s.no && HasEnded(ended.trace, s.no)
  {
    hide Legal, HasBegun, EndWasSent, HasEnded, PartitionAdded, SomethingAdded, Manager.IsOngoing;
    var found := EndFoundOut(EndCalled(s, commit), true);
    Appended(s.trace, Ended(s.no), s.no);
    Appended(found.trace, Ended(s.no), s.no);
  }

  lemma ThreeSteps(s: State, a: Event, b: Event, c: Event)
    requires forall e | e in {a, b, c} :: !e.End? && !e.Init?
    ensures Run(s, [a, b, c]) == Step(Step(Step(s, a), b), c) && Allowed(s, [a, b, c])
  {
    hide Step;
    var s1 := Step(s, a);
    var s2 := Step(s1, b);
    assert [a, b, c][1..] == [b, c] && [b, c][1..] == [c] && [c][1..] == [];
    assert Run(s2, [c]) == Step(s2, c) && Allowed(s2, [c]);
    assert Run(s1, [b, c]) == Step(s2, c) && Allowed(s1, [b, c]);
  }

  /** The entry that a late answer adds to the history. */
  lemma LateEntry(s: State, e: Event) returns (h: Happened)
    requires e == OffsetsAnswer(0, true) || (e.AddAnswer? && e.ok) || e.Produce?
    requires e.AddAnswer? && e.t in s.tasks && s.tasks[e.t].phase.Adding? ==> e.order == s.tasks[e.t].phase.missing
    requires e.OffsetsAnswer? ==> s.offsetCalls != [] && s.offsetCalls[0] == s.no
    requires e.AddAnswer? ==> e.t in s.tasks && s.tasks[e.t].phase.Adding? && s.tasks[e.t].phase.no == s.no
    requires e.Produce? ==> At(s, e.t, Registered)
    ensures Step(s, e).trace == s.trace + [h] && h.no == s.no && (h.OffsetsAdded? || h.Added? || h.Produced?)
  {
    h := match e
      case AddAnswer(t, _, order) => Added(s.no, order)
      case Produce(t) => Produced(s.no, TpsOf(s.tasks[t].entries))
      case _ => OffsetsAdded(s.no);
  }

  lemma IllegalNext(trace: seq<Happened>, h: Happened)
    requires !MayFollow(trace, h)
    ensures !Legal(trace + [h])
  {
    assert (trace + [h])[..|trace|] == trace;
  }

  /** Ending a transaction is safe for every continuation exactly when no registration is out. */
  lemma EndIsSafe(s: State, commit: bool)
    requires Inv(s) && s.m.txn == TRANSACTING
    ensures Quiet(s) <==>
      forall es | Allowed(EndCalled(s, commit), es) :: Legal(Run(EndCalled(s, commit), es).trace)
  {
    hide Legal, EndCalled, Allowed, Run, Quiet;
    var called := EndCalled(s, commit);
    if Quiet(s) {
      EndKeeps(s, commit);
      forall es | Allowed(called, es) ensures Legal(Run(called, es).trace) { RunKeeps(called, es); }
    } else {
      var es := LateCall(s, commit);
    }
  }

  /** A commit or abort that failed, in its look-up or its request. */
  ghost predicate Stranded(s: State) { (s.m.txn == COMMITTING || s.m.txn == ABORTING) && s.ending == NotEnding }

  lemma {:induction false} StrandedStays(s: State, es: seq<Event>)
    requires Stranded(s) && s.initCalls == 0
    ensures Run(s, es).m.txn == s.m.txn
    decreases |es|
  {
    hide Step;
    if es != [] {
      StepSticks(s, es[0]);
      StrandedStays(Step(s, es[0]), es[1..]);
    }
  }

  /**
    A commit or abort that failed strands the manager: no later call, not even initProducerId,
    changes its state again, exactly when no initProducerId was already under way.
   */
  lemma FailedEndSticks(s: State)
    requires Stranded(s)
    ensures s.initCalls == 0 <==> forall es :: Run(s, es).m.txn == s.m.txn
  {
    hide Run;
    if s.initCalls == 0 {
      forall es ensures Run(s, es).m.txn == s.m.txn { StrandedStays(s, es); }
    } else {
      var e := InitAnswer(true, 0);
      OneStep(s, e);
      assert Run(s, [e]).m.txn == READY;
    }
  }

  lemma OneStep(s: State, e: Event)
    ensures Run(s, [e]) == Step(s, e)
  {
    assert [e][1..] == [];
  }

  lemma StepSticks(s: State, e: Event)
    requires Stranded(s) && s.initCalls == 0
    ensures Step(s, e).m.txn == s.m.txn && Stranded(Step(s, e)) && Step(s, e).initCalls == 0
  {
    hide Registering, AddAnswered, ProduceAnswered, ProduceSent, Moved, Manager.IsOngoing;
    if !e.Init? { NoInitStays(s, e); }
    match e
    case Register(t) => RegisterSticks(s, t);
    case AddAnswer(t, ok, order) => AddAnswerSticks(s, t, ok, order);
    case ProduceAnswer(t, ok) => ProduceAnswerSticks(s, t, ok);
    case Produce(t) => ProduceSticks(s, t);
    case _ =>
  }

  lemma ProduceSticks(s: State, t: nat)
    ensures ProduceSent(s, t).m.txn == s.m.txn && ProduceSent(s, t).ending == s.ending
  {
    hide Assigned, BatchesOf;
    if t in s.tasks { AssignedLocks(s.m, s.tasks[t].entries); }
  }

  lemma RegisterSticks(s: State, t: nat)
    requires s.m.txn != TRANSACTING
    ensures Registering(s, t).m.txn == s.m.txn && Registering(s, t).ending == s.ending
  {
    hide Finished, WithTopics, Unregistered;
    if t in s.tasks { FinishedTxn(s, t); }
  }

  lemma AddAnswerSticks(s: State, t: nat, ok: bool, order: seq<TopicPartition>)
    ensures AddAnswered(s, t, ok, order).m.txn == s.m.txn && AddAnswered(s, t, ok, order).ending == s.ending
  {
    hide Finished, Marked;
    if t in s.tasks && s.tasks[t].phase.Adding? {
      FinishedTxn(s, t);
      FinishedTxn(s.(m := s.m.(registered := Marked(s.m.registered, order).0),
                     trace := s.trace + [Added(s.tasks[t].phase.no, order)]), t);
    }
  }

  lemma ProduceAnswerSticks(s: State, t: nat, ok: bool)
    ensures ProduceAnswered(s, t, ok).m.txn == s.m.txn && ProduceAnswered(s, t, ok).ending == s.ending
  {
    hide Finished, RolledBack;
    if t in s.tasks && s.tasks[t].phase.Producing? {
      AssignedLocks(s.m, s.tasks[t].entries);
      FinishedTxn(s.(log := s.log + s.tasks[t].phase.batches), t);
      FinishedTxn(s.(m := RolledBack(s.m, s.tasks[t].entries)), t);
    }
  }

  lemma FinishedTxn(s: State, t: nat)
    requires t in s.tasks
    ensures Finished(s, t).m.txn == s.m.txn && Finished(s, t).ending == s.ending
  {}
}
