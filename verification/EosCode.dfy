/** The exactly-once manager as an object whose fields the operations update. */
module EosCode {
  import opened Wire
  import opened Offsets
  import opened Locks
  import opened Eos

  class EosManager {
    const transactional: bool
    var producerId: int
    var currentState: TxnState
    var producerSequence: map<TopicPartition, int>
    var brokerMutexLocks: map<int, Lock>
    var transactionTopicPartitions: Registry
    var hasOffsetsAddedToTransaction: bool

    ghost predicate Valid()
      reads this, brokerMutexLocks.Values
    {
      && (forall n, k | n in brokerMutexLocks && k in brokerMutexLocks && n != k :: brokerMutexLocks[n] != brokerMutexLocks[k])
      && (forall n | n in brokerMutexLocks :: Distinct(brokerMutexLocks[n].waiting))
    }

    ghost function View(): Manager
      reads this, brokerMutexLocks.Values
    {
      Manager(transactional, producerId, currentState, producerSequence,
              map n | n in brokerMutexLocks :: brokerMutexLocks[n].View(),
              transactionTopicPartitions, hasOffsetsAddedToTransaction)
    }

    constructor (transactional: bool)
      ensures Valid() && View() == Manager(transactional, NO_PRODUCER_ID, UNINITIALIZED, map[], map[], map[], false)
    {
      this.transactional := transactional;
      producerId, currentState, producerSequence, brokerMutexLocks := NO_PRODUCER_ID, UNINITIALIZED, map[], map[];
      transactionTopicPartitions, hasOffsetsAddedToTransaction := map[], false;
    }

    /** False when the transition is not in the table: the source throws and changes nothing. */
    method TransitionTo(to: TxnState) returns (ok: bool)
      modifies this`currentState, this`transactionTopicPartitions, this`hasOffsetsAddedToTransaction
      ensures ok == ValidTransition(old(currentState), to)
      ensures View() == if ok then old(View()).Enter(to) else old(View())
    {
      ok := ValidTransition(currentState, to);
      if !ok { return; }
      if to == READY {
        transactionTopicPartitions, hasOffsetsAddedToTransaction := map[], false;
      }
      currentState := to;
    }

    /** The broker answered InitProducerId: the manager starts afresh. */
    method Initialize(id: int) returns (ok: bool)
      requires Valid()
      modifies this
      ensures Valid() && ok == ValidTransition(old(currentState), READY)
      ensures View() == if ok then Manager(transactional, id, READY, map[], map[], map[], false) else old(View())
    {
      ok := TransitionTo(READY);
      if ok { producerId, producerSequence, brokerMutexLocks := id, map[], map[]; }
    }

    // ---------------------------------------------------------------- sequences

    /** Also fills in the start value; what any partition's counter reads as does not change. */
    method GetSequence(tp: TopicPartition) returns (sequence: int)
      modifies this`producerSequence
      ensures sequence == old(View()).Sequence(tp) && View() == old(View()).Filled(tp)
    {
      if producerId == NO_PRODUCER_ID { return SEQUENCE_START; }
      if tp !in producerSequence { producerSequence := producerSequence[tp := SEQUENCE_START]; }
      sequence := producerSequence[tp];
    }

    method UpdateSequence(tp: TopicPartition, increment: int)
      modifies this`producerSequence
      ensures View() == old(View()).Advance(tp, increment)
    {
      if producerId == NO_PRODUCER_ID { return; }
      var previous := GetSequence(tp);
      var sequence := previous + increment;
      if sequence >= INT_32_MAX_VALUE { sequence := 0; }
      producerSequence := producerSequence[tp := sequence];
    }

    /** The loop before a produce request: each partition gets its first sequence number. */
    method AssignSequences(entries: seq<Entry>) returns (firsts: seq<int>)
      modifies this`producerSequence
      ensures View() == Assigned(old(View()), entries) && firsts == Firsts(old(View()), entries)
    {
      hide Assigned, Firsts, Manager.Advance, Manager.Filled, Manager.Sequence;
      firsts := [];
      AssignedNone(View());
      assert entries[..0] == [];
      for i := 0 to |entries|
        invariant View() == Assigned(old(View()), entries[..i]) && firsts == Firsts(old(View()), entries[..i])
      {
        ghost var m := View();
        var first := GetSequence(entries[i].tp);
        firsts := firsts + [first];
        UpdateSequence(entries[i].tp, entries[i].count);
        AssignedNext(old(View()), entries, i);
        m.AdvanceFilled(entries[i].tp, entries[i].count);
      }
      assert entries[..|entries|] == entries;
    }

    /** The loop after a failed produce request. */
    method RollBack(entries: seq<Entry>)
      modifies this`producerSequence
      ensures View() == RolledBack(old(View()), entries)
    {
      for i := 0 to |entries|
        invariant View() == RolledBack(old(View()), entries[..i])
      {
        assert entries[..i + 1][..i] == entries[..i];
        UpdateSequence(entries[i].tp, 0 - entries[i].count);
      }
      assert entries[..|entries|] == entries;
    }

    // ---------------------------------------------------------------- transactions

    method BeginTransaction() returns (ok: bool)
      modifies this`currentState, this`transactionTopicPartitions, this`hasOffsetsAddedToTransaction
      ensures ok == Begun(old(View())).Some?
      ensures View() == if ok then Begun(old(View())).value else old(View())
    {
      if currentState != READY || !transactional { return false; }
      ok := TransitionTo(TRANSACTING);
    }

    /** commit and abort: guard, transition, and whether an EndTxn request goes out. */
    method EndTransaction(commit: bool) returns (outcome: Outcome)
      modifies this`currentState, this`transactionTopicPartitions, this`hasOffsetsAddedToTransaction
      ensures (View(), outcome) == StartEnd(old(View()), commit)
    {
      if currentState != TRANSACTING || !transactional { return Rejected; }
      var ok := TransitionTo(if commit then COMMITTING else ABORTING);
      if !hasOffsetsAddedToTransaction
        && !exists t | t in transactionTopicPartitions :: transactionTopicPartitions[t] != {}
      {
        ok := TransitionTo(READY);
        return Closed;
      }
      return EndTxnDue;
    }

    /** Guard, entries for the request's topics, and the partitions to register; None when refused. */
    method StartAddPartitions(entries: seq<Entry>) returns (missing: Option<seq<TopicPartition>>)
      modifies this`transactionTopicPartitions
      ensures
        var started := StartAdd(old(View()), entries);
        if started.None? then missing == None && View() == old(View())
        else missing == Some(started.value.1) && View() == started.value.0
    {
      if currentState != TRANSACTING || !transactional { return None; }
      for i := 0 to |entries|
        invariant View() == old(View()).(registered := WithTopics(old(transactionTopicPartitions), entries[..i]))
      {
        assert entries[..i + 1][..i] == entries[..i];
        if entries[i].tp.topic !in transactionTopicPartitions {
          transactionTopicPartitions := transactionTopicPartitions[entries[i].tp.topic := {}];
        }
      }
      assert entries[..|entries|] == entries;
      var todo := [];
      for i := 0 to |entries|
        invariant todo == Unregistered(transactionTopicPartitions, entries[..i])
      {
        assert entries[..i + 1][..i] == entries[..i];
        if !IsRegistered(transactionTopicPartitions, entries[i].tp) { todo := todo + [entries[i].tp]; }
      }
      return Some(todo);
    }

    /** Marks the acknowledged partitions in the order the request object's keys come; false stands for the TypeError on a missing topic. */
    method PartitionsAdded(order: seq<TopicPartition>) returns (ok: bool)
      modifies this`transactionTopicPartitions
      ensures View() == old(View()).(registered := Marked(old(transactionTopicPartitions), order).0)
      ensures ok == Marked(old(transactionTopicPartitions), order).1
    {
      for i := 0 to |order|
        invariant Marked(transactionTopicPartitions, order[i..]) == Marked(old(transactionTopicPartitions), order)
        invariant View() == old(View()).(registered := transactionTopicPartitions)
      {
        assert order[i..][1..] == order[i + 1..];
        var tp := order[i];
        if tp.topic !in transactionTopicPartitions { return false; }
        transactionTopicPartitions :=
          transactionTopicPartitions[tp.topic := transactionTopicPartitions[tp.topic] + {tp.partition}];
      }
      return true;
    }

    /** sendOffsets after addOffsetsToTxn was acknowledged. */
    method OffsetsAcknowledged()
      modifies this`hasOffsetsAddedToTransaction
      ensures View() == old(View()).(offsetsAdded := true)
    {
      hasOffsetsAddedToTransaction := true;
    }

    // ---------------------------------------------------------------- broker locks

    /** A broker's lock is created when it is first asked for. */
    method EnsureLock(node: int)
      requires Valid()
      modifies this`brokerMutexLocks
      ensures Valid() && node in brokerMutexLocks
      ensures View() == old(View()).(locks := old(View()).locks[node := old(View()).Lock(node)])
      ensures forall n | n in old(brokerMutexLocks) :: n in brokerMutexLocks && brokerMutexLocks[n] == old(brokerMutexLocks)[n]
      ensures node !in old(brokerMutexLocks) ==> fresh(brokerMutexLocks[node])
    {
      if node !in brokerMutexLocks {
        var lock := new Lock();
        brokerMutexLocks := brokerMutexLocks[node := lock];
      }
      assert View().locks == old(View()).locks[node := old(View()).Lock(node)];
    }

    method AcquireLock(node: int, id: nat) returns (granted: bool)
      requires Valid() && node in brokerMutexLocks && id !in brokerMutexLocks[node].waiting && producerId != NO_PRODUCER_ID
      modifies brokerMutexLocks[node]
      ensures Valid() && View() == old(View()).AcquireLock(node, id)
      ensures granted == !old(View()).Lock(node).locked
    {
      var lock := brokerMutexLocks[node];
      granted := lock.Acquire(id);
      assert forall n | n in brokerMutexLocks && n != node :: brokerMutexLocks[n] != lock;
      assert Distinct(lock.waiting) by { DistinctAppend(old(lock.waiting), id); }
      assert View().locks == old(View()).AcquireLock(node, id).locks;
    }

    method AcquireBrokerLock(node: int, id: nat) returns (granted: bool)
      requires Valid() && (node in brokerMutexLocks ==> id !in brokerMutexLocks[node].waiting)
      modifies this`brokerMutexLocks, brokerMutexLocks.Values
      ensures Valid() && View() == old(View()).AcquireLock(node, id)
      ensures granted == (!old(View()).Initialized() || !old(View()).Lock(node).locked)
    {
      if producerId == NO_PRODUCER_ID { return true; }
      EnsureLock(node);
      ghost var ready := View();
      assert ready.locks[node] == brokerMutexLocks[node].View();
      granted := AcquireLock(node, id);
      assert ready.AcquireLock(node, id).locks == old(View()).AcquireLock(node, id).locks;
    }

    /** Releasing a lock that does not exist throws in the source: callers acquired it first. */
    method ReleaseBrokerLock(node: int) returns (woken: Option<nat>)
      requires Valid() && (producerId != NO_PRODUCER_ID ==> node in brokerMutexLocks)
      modifies brokerMutexLocks.Values
      ensures Valid() && View() == old(View()).ReleaseLock(node)
      ensures woken == if old(View()).Initialized() then Woken(old(View()).Lock(node)) else None
    {
      if producerId == NO_PRODUCER_ID { return None; }
      var lock := brokerMutexLocks[node];
      woken := lock.Release();
      assert forall n | n in brokerMutexLocks && n != node :: brokerMutexLocks[n] != lock;
      assert Distinct(lock.waiting);
      assert View().locks == old(View()).ReleaseLock(node).locks;
    }
  }
}
