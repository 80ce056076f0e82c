/** What the brokers are told, event by event: the flags of EndTxn requests, and what explains each entry of the history. */
module TransactionHistory {
  import opened Offsets
  import opened Eos
  import opened ProducerRuns
  import opened TransactionRuns

  // ------------------------------------------------------------------ what commit and abort ask for

  /** A partition or an offset is registered. */
  ghost predicate Something(m: Manager) {
    m.offsetsAdded || exists topic: string, partition: int :: topic in m.registered && partition in m.registered[topic]
  }

  /**
    commit asks for a commit and abort for an abort: with something registered, the one entry
    the brokers see is an EndTxn with the caller's flag; with nothing registered the transaction
    is over without one.
   */
  lemma EndAsksFor(s: State, c: bool)
    requires s.m.transactional && s.m.txn == TRANSACTING
    ensures
      var called := Step(s, End(c));
      var sent := Step(called, EndFound(true));
      if Something(s.m) then
        && called.trace == s.trace && called.m == s.m.(txn := if c then COMMITTING else ABORTING)
        && sent.m == called.m && sent.trace == s.trace + [EndSent(s.no, c)]
      else
        && called.trace == s.trace + [Ended(s.no)] && called.m.txn == READY
        && called.m.registered == map[] && !called.m.offsetsAdded && called.ending == s.ending
  {
    hide Manager.IsOngoing, Something;
    var ending := s.m.(txn := if c then COMMITTING else ABORTING);
    SomethingIff(ending);
    SomethingIff(s.m);
    assert s.m.Enter(if c then COMMITTING else ABORTING) == ending;
    assert Something(ending) == Something(s.m) by { SameSomething(s.m, ending); }
  }

  lemma SameSomething(m: Manager, n: Manager)
    requires n.registered == m.registered && n.offsetsAdded == m.offsetsAdded
    ensures Something(m) == Something(n)
  {}

  lemma SomethingIff(m: Manager)
    ensures m.IsOngoing() <==> Something(m)
  {
    hide Manager.IsOngoing;
    OngoingIff(m);
    if topic: string, partition: int :| topic in m.registered && partition in m.registered[topic] {
      assert IsRegistered(m.registered, TopicPartition(topic, partition));
    }
    if tp :| IsRegistered(m.registered, tp) {
      assert tp.topic in m.registered && tp.partition in m.registered[tp.topic];
    }
  }

  lemma {:induction false} RunNext(s: State, es: seq<Event>, e: Event)
    ensures Run(s, es + [e]) == Step(Run(s, es), e)
    decreases |es|
  {
    hide Step;
    if es == [] {
      assert [] + [e] == [e] && [e][1..] == [];
    } else {
      assert (es + [e])[1..] == es[1..] + [e];
      RunNext(Step(s, es[0]), es[1..], e);
    }
  }

  /** The call of commit (or abort) in transaction `no`, somewhere in the run. */
  ghost predicate CalledIn(start: State, es: seq<Event>, no: nat, c: bool) {
    exists k :: 0 <= k < |es| && CalledAt(start, es, k, no, c)
  }

  ghost predicate CalledAt(start: State, es: seq<Event>, k: nat, no: nat, c: bool)
    requires k < |es|
  {
    es[k] == End(c) && Run(start, es[..k]).m.txn == TRANSACTING && Run(start, es[..k]).no == no
  }

  lemma CalledLater(start: State, es: seq<Event>, e: Event, no: nat, c: bool)
    requires CalledIn(start, es, no, c)
    ensures CalledIn(start, es + [e], no, c)
  {
    var k :| 0 <= k < |es| && CalledAt(start, es, k, no, c);
    assert (es + [e])[..k] == es[..k];
    assert CalledAt(start, es + [e], k, no, c);
  }

  /** State and history name calls that were made. */
  ghost predicate FlagsOk(start: State, es: seq<Event>, s: State) {
    && s.initCalls == 0
    && (s.m.txn == COMMITTING ==> CalledIn(start, es, s.no, true))
    && (s.m.txn == ABORTING ==> CalledIn(start, es, s.no, false))
    && (s.ending.Finding? ==> s.m.txn == if s.ending.commit then COMMITTING else ABORTING)
    && (forall h | h in s.trace && h.EndSent? :: CalledIn(start, es, h.no, h.commit))
  }

  lemma FlagStep(start: State, es: seq<Event>, e: Event)
    requires FlagsOk(start, es, Run(start, es)) && !e.Init?
    ensures FlagsOk(start, es + [e], Step(Run(start, es), e))
  {
    hide Run, CalledIn, Step;
    if OfTransaction(e) {
      CallFlags(start, es, Run(start, es), e);
    } else {
      SendLeavesTransaction(Run(start, es), e);
      forall no, c | CalledIn(start, es, no, c) ensures CalledIn(start, es + [e], no, c) { CalledLater(start, es, e, no, c); }
    }
  }

  lemma CallFlags(start: State, es: seq<Event>, s: State, e: Event)
    requires s == Run(start, es) && FlagsOk(start, es, s) && !e.Init? && OfTransaction(e)
    ensures FlagsOk(start, es + [e], Step(s, e))
  {
    hide Run, CalledIn, Manager.IsOngoing, Finished, Started, WaitTimedOut, Registering, AddAnswered, ProduceSent, ProduceAnswered;
    forall no, c | CalledIn(start, es, no, c) ensures CalledIn(start, es + [e], no, c) { CalledLater(start, es, e, no, c); }
    if e.End? && s.m.txn == TRANSACTING { CalledNow(start, es, e.commit); }
  }

  lemma CalledNow(start: State, es: seq<Event>, c: bool)
    requires Run(start, es).m.txn == TRANSACTING
    ensures CalledIn(start, es + [End(c)], Run(start, es).no, c)
  {
    assert (es + [End(c)])[..|es|] == es;
    assert CalledAt(start, es + [End(c)], |es|, Run(start, es).no, c);
  }

  /** Sends do not touch the transaction's state, and never record an EndTxn. */
  lemma SendLeavesTransaction(s: State, e: Event)
    requires !OfTransaction(e)
    ensures
      var t := Step(s, e);
      && t.m.txn == s.m.txn && t.no == s.no && t.ending == s.ending && t.initCalls == s.initCalls
      && forall h | h in t.trace && h.EndSent? :: h in s.trace
  {
    hide Finished, Marked, Assigned, RolledBack, Firsts, BatchesOf, WithTopics, Unregistered;
    forall z: State, t: nat | t in z.tasks
      ensures var f := Finished(z, t);
        f.m.txn == z.m.txn && f.no == z.no && f.ending == z.ending && f.initCalls == z.initCalls && f.trace == z.trace
    {
      FinishedLeaves(z, t);
    }
    forall entries ensures Assigned(s.m, entries).txn == s.m.txn && RolledBack(s.m, entries).txn == s.m.txn { AssignedLocks(s.m, entries); }
  }

  lemma FinishedLeaves(s: State, t: nat)
    requires t in s.tasks
    ensures
      var f := Finished(s, t);
      f.m.txn == s.m.txn && f.no == s.no && f.ending == s.ending && f.initCalls == s.initCalls && f.trace == s.trace
  {}

  lemma NoFlags(transactional: bool, producerId: int)
    ensures FlagsOk(Initial(transactional, producerId), [], Run(Initial(transactional, producerId), []))
  {}

  /**
    Over every run: each EndTxn carries the flag of the commit or abort call of its transaction,
    and the state is COMMITTING only after a commit call, ABORTING only after an abort call.
   */
  lemma {:induction false} EndCarriesFlag(transactional: bool, producerId: int, es: seq<Event>)
    requires forall e | e in es :: !e.Init?
    ensures FlagsOk(Initial(transactional, producerId), es, Run(Initial(transactional, producerId), es))
    decreases |es|
  {
    hide Step, CalledIn;
    if es != [] {
      var k := |es| - 1;
      var front, e := es[..k], es[k];
      assert es == front + [e] && e in es && forall x | x in front :: x in es;
      EndCarriesFlag(transactional, producerId, front);
      FlagStep(Initial(transactional, producerId), front, e);
      RunNext(Initial(transactional, producerId), front, e);
    } else {
      NoFlags(transactional, producerId);
    }
  }

  // ------------------------------------------------------------------ what the history records

  /** The event that explains an entry of the history. */
  predicate Explains(e: Event, h: Happened) {
    match h
    case Began(_) => e.Begin?
    case Added(_, tps) => e.AddAnswer? && e.ok && tps == e.order
    case OffsetsAdded(_) => e.OffsetsAnswer? && e.ok
    case Produced(_, _) => e.Produce?
    case EndSent(_, _) => e.EndFound? && e.ok
    case Ended(_) => e.End? || (e.EndAnswer? && e.ok)
  }

  /** Entries are made one at a time, and only by a positive answer, a call, or a request going out. */
  lemma HistoryGrows(s: State, e: Event)
    ensures Step(s, e).trace == s.trace || exists h :: Step(s, e).trace == s.trace + [h] && Explains(e, h)
  {
    hide Finished, Marked, Assigned, RolledBack, Firsts, BatchesOf, WithTopics, Unregistered, Manager.IsOngoing, Moved;
    forall z: State, t: nat | t in z.tasks ensures Finished(z, t).trace == z.trace { FinishedLeaves(z, t); }
    var n := |Step(s, e).trace|;
    if n > |s.trace| { assert Step(s, e).trace == s.trace + [Step(s, e).trace[n - 1]]; }
  }

  /** The log of acknowledged batches grows by a request's batches when its positive answer arrives, and only then. */
  lemma LogGrows(s: State, e: Event)
    ensures Step(s, e).log == s.log +
      if e.ProduceAnswer? && e.ok && e.t in s.tasks && s.tasks[e.t].phase.Producing? then s.tasks[e.t].phase.batches else []
  {
    hide Finished, Marked, Assigned, RolledBack, Firsts, BatchesOf, WithTopics, Unregistered, Manager.IsOngoing, Moved;
    forall z: State, t: nat | t in z.tasks ensures Finished(z, t).log == z.log { FinishedLog(z, t); }
    assert s.log + [] == s.log;
  }

  lemma FinishedLog(s: State, t: nat)
    requires t in s.tasks
    ensures Finished(s, t).log == s.log
  {}

  /** A positive answer to a registration is recorded and makes the transaction ongoing. */
  lemma AnswersCount(s: State, i: nat)
    requires i < |s.offsetCalls|
    ensures
      var t := Step(s, OffsetsAnswer(i, true));
      t.trace == s.trace + [OffsetsAdded(s.offsetCalls[i])] && t.m.offsetsAdded
    ensures
      var t := Step(s, OffsetsAnswer(i, false));
      t.trace == s.trace && t.m == s.m
  {}
}
