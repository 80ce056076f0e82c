/**
  The exactly-once manager of src/producer/eosManager: transaction states, sequence numbers
  per partition, partitions registered in the transaction, one lock per broker.
 */
module Eos {
  import opened Wire
  import opened Offsets
  import opened Locks

  datatype TxnState = UNINITIALIZED | READY | TRANSACTING | COMMITTING | ABORTING

  /** The table by the state left; the ensures is the same table by the state entered. */
  predicate ValidTransition(from: TxnState, to: TxnState)
    ensures ValidTransition(from, to) <==>
      match to
      case UNINITIALIZED => false
      case READY => from != TRANSACTING
      case TRANSACTING => from == READY
      case COMMITTING => from == TRANSACTING
      case ABORTING => from == TRANSACTING
  {
    match from
    case UNINITIALIZED => to == READY
    case READY => to == READY || to == TRANSACTING
    case TRANSACTING => to == COMMITTING || to == ABORTING
    case COMMITTING => to == READY
    case ABORTING => to == READY
  }

  const NO_PRODUCER_ID := -1
  const SEQUENCE_START := 0
  const INT_32_MAX_VALUE: int := 0x7fff_ffff

  type Registry = map<string, set<int>>

  datatype Manager = Manager(
    transactional: bool, producerId: int, txn: TxnState, sequences: map<TopicPartition, int>,
    locks: map<int, LockState>, registered: Registry, offsetsAdded: bool)
  {
    predicate Initialized() { producerId != NO_PRODUCER_ID }

    /** transitionTo with its listener: entering READY clears the registrations. */
    function Enter(to: TxnState): Manager {
      if to == READY then this.(txn := to, registered := map[], offsetsAdded := false) else this.(txn := to)
    }

    predicate IsOngoing() { offsetsAdded || exists t | t in registered :: registered[t] != {} }

    function Sequence(tp: TopicPartition): int {
      if Initialized() && tp in sequences then sequences[tp] else SEQUENCE_START
    }

    /** Reading a counter fills in the start value. */
    function Filled(tp: TopicPartition): Manager {
      if !Initialized() then this else this.(sequences := sequences[tp := Sequence(tp)])
    }

    lemma AdvanceFilled(tp: TopicPartition, increment: int)
      ensures Filled(tp).Advance(tp, increment) == Advance(tp, increment)
    {
      assert sequences[tp := Sequence(tp)][tp := Advance(tp, increment).Sequence(tp)]
        == sequences[tp := Advance(tp, increment).Sequence(tp)];
    }

    function Advance(tp: TopicPartition, increment: int): Manager {
      if !Initialized() then this
      else
        var next := Sequence(tp) + increment;
        this.(sequences := sequences[tp := if next >= INT_32_MAX_VALUE then 0 else next])
    }

    function Lock(node: int): LockState { if node in locks then locks[node] else Unlocked }

    function AcquireLock(node: int, id: nat): Manager {
      if !Initialized() then this else this.(locks := locks[node := Acquired(Lock(node), id)])
    }

    function ReleaseLock(node: int): Manager {
      if !Initialized() then this else this.(locks := locks[node := Released(Lock(node))])
    }
  }

  // ------------------------------------------------------------------ a produce request's partitions

  /** What a request sends to one partition. */
  datatype Entry = Entry(tp: TopicPartition, count: nat)

  function CountOf(entries: seq<Entry>, tp: TopicPartition): nat {
    if entries == [] then 0
    else CountOf(entries[..|entries| - 1], tp)
         + (if entries[|entries| - 1].tp == tp then entries[|entries| - 1].count else 0)
  }

  /** The sequence counters after a request took its sequence numbers. */
  function Assigned(m: Manager, entries: seq<Entry>): Manager {
    if entries == [] then m
    else
      var last := entries[|entries| - 1];
      Assigned(m, entries[..|entries| - 1]).Advance(last.tp, last.count)
  }

  /** The first sequence number of each of the request's partitions. */
  function Firsts(m: Manager, entries: seq<Entry>): (r: seq<int>)
    ensures |r| == |entries|
  {
    if entries == [] then []
    else
      var front := entries[..|entries| - 1];
      Firsts(m, front) + [Assigned(m, front).Sequence(entries[|entries| - 1].tp)]
  }

  lemma AssignedNone(m: Manager)
    ensures Assigned(m, []) == m && Firsts(m, []) == []
  {}

  lemma AssignedNext(m: Manager, entries: seq<Entry>, i: nat)
    requires i < |entries|
    ensures Assigned(m, entries[..i + 1]) == Assigned(m, entries[..i]).Advance(entries[i].tp, entries[i].count)
    ensures Firsts(m, entries[..i + 1]) == Firsts(m, entries[..i]) + [Assigned(m, entries[..i]).Sequence(entries[i].tp)]
  {
    assert entries[..i + 1][..i] == entries[..i];
  }

  /** A failed request gives its sequence numbers back. */
  function RolledBack(m: Manager, entries: seq<Entry>): Manager {
    if entries == [] then m
    else
      var last := entries[|entries| - 1];
      RolledBack(m, entries[..|entries| - 1]).Advance(last.tp, 0 - last.count)
  }

  /** Only the sequence counters differ. */
  ghost predicate SameButSequences(m: Manager, n: Manager) { n == m.(sequences := n.sequences) }

  /** The request's counters stay below the rotation point. */
  ghost predicate Fits(m: Manager, entries: seq<Entry>) {
    forall i | 0 <= i < |entries| :: m.Sequence(entries[i].tp) + CountOf(entries, entries[i].tp) < INT_32_MAX_VALUE
  }

  lemma {:induction false} CountOfNone(entries: seq<Entry>, tp: TopicPartition)
    requires forall i | 0 <= i < |entries| :: entries[i].tp != tp
    ensures CountOf(entries, tp) == 0
  {
    if entries != [] { CountOfNone(entries[..|entries| - 1], tp); }
  }

  lemma {:induction false} CountOfPrefix(entries: seq<Entry>, k: nat, tp: TopicPartition)
    requires k <= |entries|
    ensures CountOf(entries[..k], tp) <= CountOf(entries, tp)
    decreases |entries|
  {
    if k < |entries| {
      CountOfPrefix(entries[..|entries| - 1], k, tp);
      assert entries[..|entries| - 1][..k] == entries[..k];
    } else {
      assert entries[..k] == entries;
    }
  }

  lemma FitsFront(m: Manager, entries: seq<Entry>)
    requires entries != [] && Fits(m, entries)
    ensures Fits(m, entries[..|entries| - 1])
  {
    hide CountOf;
    var front := entries[..|entries| - 1];
    forall i | 0 <= i < |front| ensures m.Sequence(front[i].tp) + CountOf(front, front[i].tp) < INT_32_MAX_VALUE {
      CountOfPrefix(entries, |front|, entries[i].tp);
    }
  }

  /** Without rotation, assigning adds each partition's message count to its counter. */
  lemma {:induction false} AssignedAdds(m: Manager, entries: seq<Entry>, tp: TopicPartition)
    requires m.Initialized() && Fits(m, entries)
    ensures SameButSequences(m, Assigned(m, entries))
    ensures Assigned(m, entries).Sequence(tp) == m.Sequence(tp) + CountOf(entries, tp)
  {
    if entries != [] {
      var front, last := entries[..|entries| - 1], entries[|entries| - 1];
      FitsFront(m, entries);
      AssignedAdds(m, front, tp);
      AssignedAdds(m, front, last.tp);
    }
  }

  lemma {:induction false} FirstsAre(m: Manager, entries: seq<Entry>, i: nat)
    requires m.Initialized() && Fits(m, entries) && i < |entries|
    ensures Firsts(m, entries)[i] == m.Sequence(entries[i].tp) + CountOf(entries[..i], entries[i].tp)
  {
    var front := entries[..|entries| - 1];
    FitsFront(m, entries);
    if i < |front| {
      FirstsAre(m, front, i);
      assert front[..i] == entries[..i];
    } else {
      AssignedAdds(m, front, entries[i].tp);
      assert entries[..i] == front;
    }
  }

  lemma {:induction false} RolledBackSubtracts(m: Manager, entries: seq<Entry>, tp: TopicPartition)
    requires m.Initialized() && forall i | 0 <= i < |entries| :: m.Sequence(entries[i].tp) < INT_32_MAX_VALUE
    ensures SameButSequences(m, RolledBack(m, entries))
    ensures RolledBack(m, entries).Sequence(tp) == m.Sequence(tp) - CountOf(entries, tp)
  {
    if entries != [] {
      var front, last := entries[..|entries| - 1], entries[|entries| - 1];
      RolledBackSubtracts(m, front, tp);
      RolledBackSubtracts(m, front, last.tp);
    }
  }

  // ------------------------------------------------------------------ rotation

  ghost predicate DistinctPartitions(entries: seq<Entry>) {
    forall i, j | 0 <= i < j < |entries| :: entries[i].tp != entries[j].tp
  }

  ghost predicate InRange(m: Manager) {
    forall tp | tp in m.sequences :: 0 <= m.sequences[tp] < INT_32_MAX_VALUE
  }

  /** The counters that producing and then failing leaves behind, partition by partition. */
  lemma {:induction false} RollbackOf(m: Manager, entries: seq<Entry>, tp: TopicPartition)
    requires m.Initialized() && DistinctPartitions(entries) && InRange(m)
    ensures
      var after := Assigned(m, entries);
      && after.Initialized() && InRange(after)
      && (forall i | 0 <= i < |entries| && entries[i].tp == tp ::
            var next := m.Sequence(tp) + entries[i].count;
            after.Sequence(tp) == if next >= INT_32_MAX_VALUE then 0 else next)
      && ((forall i | 0 <= i < |entries| :: entries[i].tp != tp) ==> after.Sequence(tp) == m.Sequence(tp))
  {
    if entries != [] {
      RollbackOf(m, entries[..|entries| - 1], tp);
      RollbackOf(m, entries[..|entries| - 1], entries[|entries| - 1].tp);
    }
  }

  /**
    Giving the sequence numbers back restores every counter exactly when none of them rotated
    to 0 while it was advanced.
   */
  lemma RollbackRestores(m: Manager, entries: seq<Entry>)
    requires m.Initialized() && DistinctPartitions(entries) && InRange(m)
    ensures
      var after := RolledBack(Assigned(m, entries), entries);
      (forall tp :: after.Sequence(tp) == m.Sequence(tp))
      <==> forall i | 0 <= i < |entries| :: m.Sequence(entries[i].tp) + entries[i].count < INT_32_MAX_VALUE
  {
    hide CountOf, Assigned, RolledBack;
    var n := Assigned(m, entries);
    forall tp ensures RolledBack(n, entries).Sequence(tp) == n.Sequence(tp) - CountOf(entries, tp) {
      RollbackOf(m, entries, tp);
      RolledBackSubtracts(n, entries, tp);
    }
    forall tp
      ensures (forall i | 0 <= i < |entries| :: entries[i].tp != tp) ==>
        n.Sequence(tp) == m.Sequence(tp) && CountOf(entries, tp) == 0
    {
      RollbackOf(m, entries, tp);
      if forall i | 0 <= i < |entries| :: entries[i].tp != tp { CountOfNone(entries, tp); }
    }
    forall i | 0 <= i < |entries|
      ensures CountOf(entries, entries[i].tp) == entries[i].count
      ensures RolledBack(n, entries).Sequence(entries[i].tp) == m.Sequence(entries[i].tp)
        <==> m.Sequence(entries[i].tp) + entries[i].count < INT_32_MAX_VALUE
    {
      RollbackOf(m, entries, entries[i].tp);
      CountOfDistinct(entries, i);
    }
  }

  lemma {:induction false} CountOfDistinct(entries: seq<Entry>, i: nat)
    requires DistinctPartitions(entries) && i < |entries|
    ensures CountOf(entries, entries[i].tp) == entries[i].count
  {
    var front := entries[..|entries| - 1];
    if i < |front| { CountOfDistinct(front, i); } else { CountOfNone(front, entries[i].tp); }
  }

  // ------------------------------------------------------------------ registrations

  predicate IsRegistered(r: Registry, tp: TopicPartition) { tp.topic in r && tp.partition in r[tp.topic] }

  /** Every topic of the request gets an entry. */
  function WithTopics(r: Registry, entries: seq<Entry>): Registry {
    if entries == [] then r
    else
      var known, topic := WithTopics(r, entries[..|entries| - 1]), entries[|entries| - 1].tp.topic;
      if topic in known then known else known[topic := {}]
  }

  /** The request's partitions that the transaction does not hold yet. */
  function Unregistered(r: Registry, entries: seq<Entry>): seq<TopicPartition> {
    if entries == [] then []
    else
      var tp := entries[|entries| - 1].tp;
      Unregistered(r, entries[..|entries| - 1]) + if IsRegistered(r, tp) then [] else [tp]
  }

  /** Marks acknowledged partitions; a topic whose entry is gone stops it with a TypeError. */
  function Marked(r: Registry, tps: seq<TopicPartition>): (Registry, bool)
    decreases |tps|
  {
    if tps == [] then (r, true)
    else if tps[0].topic !in r then (r, false)
    else Marked(r[tps[0].topic := r[tps[0].topic] + {tps[0].partition}], tps[1..])
  }

  lemma {:induction false} WithTopicsKeeps(r: Registry, entries: seq<Entry>)
    ensures forall tp :: IsRegistered(WithTopics(r, entries), tp) <==> IsRegistered(r, tp)
    ensures forall topic | topic in r :: topic in WithTopics(r, entries)
    ensures forall e | e in entries :: e.tp.topic in WithTopics(r, entries)
  {
    if entries != [] {
      var front, last := entries[..|entries| - 1], entries[|entries| - 1];
      WithTopicsKeeps(r, front);
      assert entries == front + [last];
    }
  }

  /** Exactly the partitions still to register. */
  lemma {:induction false} UnregisteredAre(r: Registry, entries: seq<Entry>, tp: TopicPartition)
    ensures tp in Unregistered(r, entries) <==> !IsRegistered(r, tp) && exists e :: e in entries && e.tp == tp
  {
    if entries != [] {
      var front, last := entries[..|entries| - 1], entries[|entries| - 1];
      UnregisteredAre(r, front, tp);
      assert entries == front + [last];
      if last.tp == tp { assert last in entries; }
    }
  }

  lemma {:induction false} MarkedAdds(r: Registry, tps: seq<TopicPartition>)
    requires forall tp | tp in tps :: tp.topic in r
    ensures Marked(r, tps).1
    ensures forall tp :: IsRegistered(Marked(r, tps).0, tp) <==> IsRegistered(r, tp) || tp in tps
    ensures forall topic :: topic in Marked(r, tps).0 <==> topic in r
    decreases |tps|
  {
    if tps != [] {
      MarkedAdds(r[tps[0].topic := r[tps[0].topic] + {tps[0].partition}], tps[1..]);
      assert tps == [tps[0]] + tps[1..];
    }
  }

  // ------------------------------------------------------------------ guarded operations

  /** beginTransaction; None is the guard's exception. */
  function Begun(m: Manager): Option<Manager> {
    if m.transactional && m.txn == READY then Some(m.Enter(TRANSACTING)) else None
  }

  datatype Outcome = Rejected | Closed | EndTxnDue

  /** commit or abort up to its request, if it sends one. */
  function StartEnd(m: Manager, commit: bool): (Manager, Outcome) {
    if !m.transactional || m.txn != TRANSACTING then (m, Rejected)
    else
      var ending := m.Enter(if commit then COMMITTING else ABORTING);
      if !ending.IsOngoing() then (ending.Enter(READY), Closed) else (ending, EndTxnDue)
  }

  /** addPartitionsToTransaction up to its request; None is the guard's exception. */
  function StartAdd(m: Manager, entries: seq<Entry>): Option<(Manager, seq<TopicPartition>)> {
    if !m.transactional || m.txn != TRANSACTING then None
    else
      var known := WithTopics(m.registered, entries);
      Some((m.(registered := known), Unregistered(known, entries)))
  }
}
