/** The offsets a consumer resolves and commits, per topic-partition. */
module Offsets {
  import opened Wire

  datatype TopicPartition = TopicPartition(topic: string, partition: int)

  type OffsetMap = map<TopicPartition, int>

  predicate IsInvalidOffset(offset: Option<int>) { offset.None? || offset.value < 0 }

  function Lookup(m: OffsetMap, tp: TopicPartition): Option<int> { if tp in m then Some(m[tp]) else None }

  /** Where the next fetch starts: the resolved offset, else the committed one, else zero. */
  function FetchOffset(resolved: Option<int>, committed: Option<int>): int {
    var offset := if resolved.Some? then resolved else committed;
    if IsInvalidOffset(offset) then 0 else offset.value
  }

  /** What a commit without arguments would send for one partition. */
  function ToCommit(resolved: Option<int>, committed: Option<int>): Option<int> {
    if resolved.Some? && resolved != committed && resolved.value >= 0 then resolved else None
  }

  class OffsetManager {
    var resolvedOffsets: OffsetMap
    var committedOffsets: OffsetMap

    constructor (committed: OffsetMap)
      ensures resolvedOffsets == map[] && committedOffsets == committed
    {
      resolvedOffsets := map[];
      committedOffsets := committed;
    }

    /** nextOffset: remembers the committed offset as resolved the first time it is asked. */
    method NextOffset(tp: TopicPartition) returns (offset: int)
      modifies this`resolvedOffsets
      ensures offset == FetchOffset(Lookup(old(resolvedOffsets), tp), Lookup(committedOffsets, tp))
      ensures resolvedOffsets ==
        if tp !in old(resolvedOffsets) && tp in committedOffsets
        then old(resolvedOffsets)[tp := committedOffsets[tp]] else old(resolvedOffsets)
    {
      if tp !in resolvedOffsets && tp in committedOffsets {
        resolvedOffsets := resolvedOffsets[tp := committedOffsets[tp]];
      }
      var resolved := Lookup(resolvedOffsets, tp);
      offset := if IsInvalidOffset(resolved) then 0 else resolved.value;
    }

    method ResolveOffset(tp: TopicPartition, offset: int)
      modifies this`resolvedOffsets
      ensures resolvedOffsets == old(resolvedOffsets)[tp := offset + 1]
    {
      resolvedOffsets := resolvedOffsets[tp := offset + 1];
    }

    /** What a commit without arguments sends. */
    function UncommittedOffsets(): OffsetMap
      reads this
    {
      Uncommitted(resolvedOffsets, committedOffsets)
    }

    /** The end of commitOffsets, once the coordinator has acknowledged the offsets it was sent. */
    method CommitAcknowledged(sent: OffsetMap)
      modifies this`committedOffsets
      ensures committedOffsets == Acknowledged(old(committedOffsets), sent)
    {
      committedOffsets := committedOffsets + sent;
    }
  }

  /** uncommittedOffsets: resolved offsets that are valid and differ from the committed ones. */
  function Uncommitted(resolved: OffsetMap, committed: OffsetMap): (r: OffsetMap)
    ensures forall tp :: tp in r <==> tp in resolved && resolved[tp] >= 0 && !(tp in committed && committed[tp] == resolved[tp])
    ensures forall tp | tp in r :: r[tp] == resolved[tp]
    ensures forall tp :: Lookup(r, tp) == ToCommit(Lookup(resolved, tp), Lookup(committed, tp))
  {
    map tp | tp in resolved && ToCommit(Some(resolved[tp]), Lookup(committed, tp)).Some? :: resolved[tp]
  }

  function Acknowledged(committed: OffsetMap, sent: OffsetMap): OffsetMap { committed + sent }

  lemma SameLookups(a: OffsetMap, b: OffsetMap)
    requires forall tp :: Lookup(a, tp) == Lookup(b, tp)
    ensures a == b
  {
    assert forall tp :: tp in a <==> Lookup(a, tp).Some?;
    assert forall tp :: tp in b <==> Lookup(b, tp).Some?;
    forall tp | tp in a ensures a[tp] == b[tp] { assert Lookup(a, tp) == Lookup(b, tp); }
  }

  /**
    A commit sent at one time and acknowledged at a later one, with offsets resolved and other
    commits acknowledged in between: what was sent is committed, and of the partitions it was
    sent for exactly those are left to commit that were resolved to another offset since.
   */
  lemma CommitLeaves(resolvedThen: OffsetMap, committedThen: OffsetMap, resolvedNow: OffsetMap, committedNow: OffsetMap,
                     tp: TopicPartition)
    ensures
      var sent := Uncommitted(resolvedThen, committedThen);
      var committed := Acknowledged(committedNow, sent);
      var left := Uncommitted(resolvedNow, committed);
      && (tp in sent ==>
            && Lookup(committed, tp) == Lookup(resolvedThen, tp)
            && (tp in left <==> Lookup(resolvedNow, tp) != Lookup(resolvedThen, tp) && !IsInvalidOffset(Lookup(resolvedNow, tp))))
      && (tp !in sent ==> Lookup(left, tp) == Lookup(Uncommitted(resolvedNow, committedNow), tp))
  {
    var sent := Uncommitted(resolvedThen, committedThen);
    var left := Uncommitted(resolvedNow, Acknowledged(committedNow, sent));
    assert tp in sent <==> Lookup(sent, tp).Some?;
    assert tp in left <==> Lookup(left, tp).Some?;
  }

  /** With nothing resolved and no other commit in between, nothing is left to commit. */
  lemma QuietCommitLeavesNothing(resolved: OffsetMap, committed: OffsetMap)
    ensures Uncommitted(resolved, Acknowledged(committed, Uncommitted(resolved, committed))) == map[]
  {
    forall tp
      ensures Lookup(Uncommitted(resolved, Acknowledged(committed, Uncommitted(resolved, committed))), tp) == Lookup(map[], tp)
    {
      CommitLeaves(resolved, committed, resolved, committed, tp);
    }
    SameLookups(Uncommitted(resolved, Acknowledged(committed, Uncommitted(resolved, committed))), map[]);
  }
}
