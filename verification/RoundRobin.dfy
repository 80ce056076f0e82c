/** Round-robin assignment of topic-partitions to the members of a consumer group. */
module RoundRobin {
  import opened Bits
  import opened Wire
  import opened Selections
  import opened Grouping
  import opened AssignerProtocol

  datatype Slot = Slot(topic: bytes, partition: int)

  // ------------------------------------------------------------------ sorting member ids

  /** UTF-16 code units, which is what the default sort compares. */
  type MemberId = seq<int>

  predicate Le(a: MemberId, b: MemberId) {
    a == [] || (b != [] && (a[0] < b[0] || (a[0] == b[0] && Le(a[1..], b[1..]))))
  }

  lemma {:induction false} LeTotal(a: MemberId, b: MemberId)
    ensures Le(a, b) || Le(b, a)
    ensures Le(a, b) && Le(b, a) ==> a == b
    decreases |a|
  {
    if a != [] && b != [] {
      LeTotal(a[1..], b[1..]);
      assert a == [a[0]] + a[1..] && b == [b[0]] + b[1..];
    }
  }

  lemma {:induction false} LeTransitive(a: MemberId, b: MemberId, c: MemberId)
    requires Le(a, b) && Le(b, c)
    ensures Le(a, c)
    decreases |a|
  {
    if a != [] && a[0] == b[0] && b[0] == c[0] { LeTransitive(a[1..], b[1..], c[1..]); }
  }

  function Insert(x: MemberId, ids: seq<MemberId>): seq<MemberId> {
    if ids == [] || Le(x, ids[0]) then [x] + ids else [ids[0]] + Insert(x, ids[1..])
  }

  function Sorted(ids: seq<MemberId>): seq<MemberId> {
    if ids == [] then [] else Insert(ids[0], Sorted(ids[1..]))
  }

  ghost predicate Ordered(ids: seq<MemberId>) { ids != [] ==> (forall x | x in ids :: Le(ids[0], x)) && Ordered(ids[1..]) }

  lemma {:induction false} InsertOrders(x: MemberId, ids: seq<MemberId>)
    requires Ordered(ids)
    ensures Ordered(Insert(x, ids)) && multiset(Insert(x, ids)) == multiset{x} + multiset(ids)
  {
    LeTotal(x, x);
    if ids != [] {
      assert ids == [ids[0]] + ids[1..];
      var result := Insert(x, ids);
      assert result == [result[0]] + result[1..];
      if Le(x, ids[0]) {
        forall y | y in ids ensures Le(x, y) { LeTransitive(x, ids[0], y); }
        assert result[1..] == ids;
      } else {
        LeTotal(x, ids[0]);
        InsertOrders(x, ids[1..]);
        assert result[1..] == Insert(x, ids[1..]);
        forall y | y in result ensures Le(ids[0], y) { assert y in multiset(result); }
      }
    }
  }

  lemma {:induction false} SortedOrders(ids: seq<MemberId>)
    ensures Ordered(Sorted(ids)) && multiset(Sorted(ids)) == multiset(ids) && |Sorted(ids)| == |ids|
  {
    if ids != [] {
      assert ids == [ids[0]] + ids[1..];
      SortedOrders(ids[1..]);
      InsertOrders(ids[0], Sorted(ids[1..]));
    }
    assert |multiset(Sorted(ids))| == |Sorted(ids)| && |multiset(ids)| == |ids|;
  }

  lemma Tail(a: seq<MemberId>)
    requires a != []
    ensures a == [a[0]] + a[1..] && multiset(a[1..]) == multiset(a) - multiset{a[0]}
  {
    assert a == [a[0]] + a[1..];
  }

  lemma {:induction false} OrderedUnique(a: seq<MemberId>, b: seq<MemberId>)
    requires Ordered(a) && Ordered(b) && multiset(a) == multiset(b)
    ensures a == b
    decreases |a|
  {
    hide Le;
    assert |multiset(a)| == |a| && |multiset(b)| == |b|;
    if a != [] {
      assert a[0] in multiset(b) && b[0] in multiset(a);
      LeTotal(a[0], b[0]);
      Tail(a);
      Tail(b);
      OrderedUnique(a[1..], b[1..]);
    }
  }

  /** The order in which the members are listed does not matter. */
  lemma MemberOrderIsIrrelevant(ids: seq<MemberId>, others: seq<MemberId>)
    requires multiset(ids) == multiset(others)
    ensures Sorted(ids) == Sorted(others)
  {
    SortedOrders(ids);
    SortedOrders(others);
    OrderedUnique(Sorted(ids), Sorted(others));
  }

  // ------------------------------------------------------------------ shares

  /** The sorted member that the i-th slot goes to. */
  function Owner(i: nat, n: nat): nat
    requires n > 0
  {
    i % n
  }

  lemma OwnerBelow(i: nat, n: nat)
    requires n > 0
    ensures Owner(i, n) < n
  {}

  /** Every n-th slot from the j-th on. */
  function Dealt(slots: seq<Slot>, n: nat, j: nat): seq<Slot>
    requires j < n
  {
    if slots == [] then []
    else
      var k := |slots| - 1;
      Dealt(slots[..k], n, j) + if Owner(k, n) == j then [slots[k]] else []
  }

  function Copies(slots: seq<Slot>, x: Slot): nat { multiset(slots)[x] }

  lemma CopiesNext(slots: seq<Slot>, more: seq<Slot>, x: Slot)
    ensures Copies(slots + more, x) == Copies(slots, x) + Copies(more, x)
  {}

  lemma DealtCopies(slots: seq<Slot>, n: nat, j: nat, x: Slot)
    requires slots != [] && j < n
    ensures
      var last := |slots| - 1;
      Copies(Dealt(slots, n, j), x)
      == Copies(Dealt(slots[..last], n, j), x) + if Owner(last, n) == j then Copies([slots[last]], x) else 0
  {
    hide Copies, Owner;
    var last := |slots| - 1;
    CopiesNext(Dealt(slots[..last], n, j), [slots[last]], x);
    if Owner(last, n) != j { assert Dealt(slots, n, j) == Dealt(slots[..last], n, j); }
  }

  /** How often the first k members together hold a slot. */
  function HeldBy(slots: seq<Slot>, n: nat, k: nat, x: Slot): nat
    requires k <= n
  {
    if k == 0 then 0 else HeldBy(slots, n, k - 1, x) + Copies(Dealt(slots, n, k - 1), x)
  }

  lemma {:induction false} HeldByNext(slots: seq<Slot>, n: nat, k: nat, x: Slot)
    requires slots != [] && k <= n && n > 0
    ensures
      var last := |slots| - 1;
      HeldBy(slots, n, k, x) == HeldBy(slots[..last], n, k, x) + if Owner(last, n) < k then Copies([slots[last]], x) else 0
  {
    hide Copies, Owner, Dealt;
    if k > 0 {
      HeldByNext(slots, n, k - 1, x);
      DealtCopies(slots, n, k - 1, x);
    }
  }

  /** Every topic-partition goes to exactly one member. */
  lemma {:induction false} EverySlotOnce(slots: seq<Slot>, n: nat, x: Slot)
    requires n > 0
    ensures HeldBy(slots, n, n, x) == multiset(slots)[x]
  {
    hide HeldBy;
    if slots == [] {
      NothingHeld(n, n, x);
    } else {
      var last := |slots| - 1;
      EverySlotOnce(slots[..last], n, x);
      HeldByNext(slots, n, n, x);
      CopiesNext(slots[..last], [slots[last]], x);
      assert slots == slots[..last] + [slots[last]];
    }
  }

  lemma {:induction false} NothingHeld(n: nat, k: nat, x: Slot)
    requires k <= n
    ensures HeldBy([], n, k, x) == 0
  {
    if k > 0 { NothingHeld(n, k - 1, x); }
  }

  lemma {:induction false} DealtSize(slots: seq<Slot>, n: nat, j: nat, q: nat, r: nat)
    requires j < n && r < n && |slots| == n * q + r
    ensures |Dealt(slots, n, j)| == q + if j < r then 1 else 0
    decreases |slots|
  {
    if slots != [] {
      var k := |slots| - 1;
      if r > 0 {
        ModUnique(k, n, q, r - 1);
        DealtSize(slots[..k], n, j, q, r - 1);
      } else {
        assert q > 0;
        assert k == n * (q - 1) + (n - 1);
        ModUnique(k, n, q - 1, n - 1);
        DealtSize(slots[..k], n, j, q - 1, n - 1);
      }
    } else {
      ModUnique(0, n, q, r);
    }
  }

  /** Two members' loads differ by at most one. */
  lemma LoadsBalanced(slots: seq<Slot>, n: nat, i: nat, j: nat)
    requires i < n && j < n
    ensures |Dealt(slots, n, i)| <= |Dealt(slots, n, j)| + 1
  {
    DealtSize(slots, n, i, |slots| / n, |slots| % n);
    DealtSize(slots, n, j, |slots| / n, |slots| % n);
  }

  // ------------------------------------------------------------------ a member's share by topic

  /** The share that the slots build up, one push at a time. */
  function ShareOf(slots: seq<Slot>): Share {
    if slots == [] then []
    else
      var k := |slots| - 1;
      MergedWith(ShareOf(slots[..k]), TopicItems(slots[k].topic, [slots[k].partition]))
  }

  /** The slots' partitions of one topic, in order. */
  function PartitionsFor(slots: seq<Slot>, topic: bytes): seq<int> {
    if slots == [] then []
    else
      var k := |slots| - 1;
      PartitionsFor(slots[..k], topic) + if slots[k].topic == topic then [slots[k].partition] else []
  }

  function SlotTopics(slots: seq<Slot>): set<bytes> { set x | x in slots :: x.topic }

  lemma {:induction false} ShareHas(slots: seq<Slot>)
    ensures DistinctTopics(ShareOf(slots)) && TopicsOf(ShareOf(slots)) == SlotTopics(slots)
    ensures forall t :: ItemsFor(ShareOf(slots), t) == PartitionsFor(slots, t)
  {
    hide MergedWith, DistinctTopics, ItemsFor, TopicsOf;
    if slots == [] {
      EmptyShare();
    } else {
      var k := |slots| - 1;
      var front, more := ShareOf(slots[..k]), TopicItems(slots[k].topic, [slots[k].partition]);
      ShareHas(slots[..k]);
      MergedWithTopics(front, more);
      forall t ensures ItemsFor(ShareOf(slots), t) == PartitionsFor(slots, t) { MergedWithAdds(front, more, t); }
      assert slots == slots[..k] + [slots[k]];
    }
  }

  lemma EmptyShare()
    ensures var none: Share := []; DistinctTopics(none) && TopicsOf(none) == {} && forall t :: ItemsFor(none, t) == []
  {}

  // ------------------------------------------------------------------ the assigner

  function SlotsFor(topic: bytes, metadata: seq<PartitionMetadata>): (r: seq<Slot>)
    ensures |r| == |metadata| && forall i | 0 <= i < |r| :: r[i] == Slot(topic, metadata[i].partitionId)
  {
    seq(|metadata|, i requires 0 <= i < |metadata| => Slot(topic, metadata[i].partitionId))
  }

  /** All partitions of the topics, topic after topic. */
  function SlotsOf(topics: seq<bytes>, metadata: map<bytes, seq<PartitionMetadata>>): seq<Slot> {
    if topics == [] then []
    else
      (if topics[0] in metadata then SlotsFor(topics[0], metadata[topics[0]]) else [])
      + SlotsOf(topics[1..], metadata)
  }

  ghost predicate DistinctIds(ids: seq<MemberId>) { forall i, j | 0 <= i < j < |ids| :: ids[i] != ids[j] }

  lemma DistinctCons(ids: seq<MemberId>)
    requires ids != []
    ensures DistinctIds(ids) <==> DistinctIds(ids[1..]) && ids[0] !in ids[1..]
  {
    var rest := ids[1..];
    assert forall i | 0 <= i < |rest| :: rest[i] == ids[i + 1];
    if DistinctIds(rest) && ids[0] !in rest {
      forall i, j | 0 <= i < j < |ids| ensures ids[i] != ids[j] { assert ids[j] == rest[j - 1]; }
    }
  }

  lemma {:induction false} InsertDistinct(x: MemberId, ids: seq<MemberId>)
    requires DistinctIds(ids) && x !in ids
    ensures DistinctIds(Insert(x, ids)) && forall y :: y in Insert(x, ids) <==> y == x || y in ids
  {
    hide DistinctIds, Le;
    var result := Insert(x, ids);
    DistinctCons(result);
    if ids == [] || Le(x, ids[0]) {
      assert result[1..] == ids;
    } else {
      DistinctCons(ids);
      InsertDistinct(x, ids[1..]);
      assert result[1..] == Insert(x, ids[1..]) && ids == [ids[0]] + ids[1..];
    }
  }

  lemma {:induction false} SortedDistinct(ids: seq<MemberId>)
    requires DistinctIds(ids)
    ensures DistinctIds(Sorted(ids)) && |Sorted(ids)| == |ids| && forall y :: y in Sorted(ids) <==> y in ids
  {
    hide DistinctIds;
    SortedOrders(ids);
    if ids != [] {
      DistinctCons(ids);
      SortedDistinct(ids[1..]);
      InsertDistinct(ids[0], Sorted(ids[1..]));
      assert ids == [ids[0]] + ids[1..];
    }
  }

  function Get(assignment: map<MemberId, Share>, id: MemberId): Share { if id in assignment then assignment[id] else [] }

  /** The members with slots, each with the share of the slots dealt to it. */
  ghost predicate Deals(assignment: map<MemberId, Share>, ids: seq<MemberId>, slots: seq<Slot>) {
    && (forall j | 0 <= j < |ids| ::
          && Get(assignment, ids[j]) == ShareOf(Dealt(slots, |ids|, j))
          && (ids[j] in assignment <==> Dealt(slots, |ids|, j) != []))
    && forall id | id in assignment :: id in ids
  }

  lemma DealtNext(slots: seq<Slot>, n: nat, i: nat, j: nat)
    requires j < n && i < |slots|
    ensures Dealt(slots[..i + 1], n, j) == if Owner(i, n) == j then Dealt(slots[..i], n, j) + [slots[i]] else Dealt(slots[..i], n, j)
  {
    hide Owner;
    assert slots[..i + 1][..i] == slots[..i];
  }

  lemma DealsNext(before: map<MemberId, Share>, ids: seq<MemberId>, slots: seq<Slot>, i: nat)
    requires DistinctIds(ids) && |ids| > 0 && i < |slots| && Deals(before, ids, slots[..i])
    ensures
      var assignee := ids[Owner(i, |ids|)];
      Deals(before[assignee := MergedWith(Get(before, assignee), TopicItems(slots[i].topic, [slots[i].partition]))], ids, slots[..i + 1])
  {
    hide MergedWith, ShareOf, Dealt, Owner;
    var n := |ids|;
    assert 0 <= Owner(i, n) < n by { OwnerBelow(i, n); }
    var assignee := ids[Owner(i, n)];
    var after := before[assignee := MergedWith(Get(before, assignee), TopicItems(slots[i].topic, [slots[i].partition]))];
    forall j | 0 <= j < n
      ensures Get(after, ids[j]) == ShareOf(Dealt(slots[..i + 1], n, j))
      ensures ids[j] in after <==> Dealt(slots[..i + 1], n, j) != []
    {
      DealtNext(slots, n, i, j);
      if j == Owner(i, n) {
        ShareNext(Dealt(slots[..i], n, j), slots[i]);
      } else {
        assert ids[j] != assignee;
      }
    }
  }

  lemma ShareNext(slots: seq<Slot>, slot: Slot)
    ensures ShareOf(slots + [slot]) == MergedWith(ShareOf(slots), TopicItems(slot.topic, [slot.partition]))
  {
    assert (slots + [slot])[..|slots|] == slots;
  }

  /** assign, before encoding: the i-th slot is pushed onto the list of the member it falls to. */
  method Assign(members: seq<MemberId>, topics: seq<bytes>, metadata: map<bytes, seq<PartitionMetadata>>)
    returns (assignment: map<MemberId, Share>)
    requires |members| > 0 && DistinctIds(members)
    ensures Deals(assignment, Sorted(members), SlotsOf(topics, metadata))
  {
    hide MergedWith, ShareOf, Dealt;
    var ids, slots := Sorted(members), SlotsOf(topics, metadata);
    SortedDistinct(members);
    assignment := map[];
    assert slots[..0] == [];
    NothingDeals(ids);
    for i := 0 to |slots|
      invariant Deals(assignment, ids, slots[..i])
    {
      var assignee := ids[Owner(i, |ids|)];
      var share := Get(assignment, assignee);
      DealsNext(assignment, ids, slots, i);
      assignment := assignment[assignee := MergedWith(share, TopicItems(slots[i].topic, [slots[i].partition]))];
    }
    assert slots[..|slots|] == slots;
  }

  lemma NothingDeals(ids: seq<MemberId>)
    ensures Deals(map[], ids, [])
  {}

  // ------------------------------------------------------------------ what a member decodes

  /** A member's slots as it reads them: each topic with its partitions. */
  function Reading(slots: seq<Slot>): map<bytes, seq<int>> {
    map t | t in SlotTopics(slots) :: PartitionsFor(slots, t)
  }

  ghost predicate SlotsFit(slots: seq<Slot>) {
    |slots| < TWO_31 && forall x | x in slots :: |x.topic| < 0x8000 && -TWO_31 <= x.partition < TWO_31
  }

  lemma {:induction false} PartitionsFit(slots: seq<Slot>, topic: bytes)
    ensures |PartitionsFor(slots, topic)| <= |slots|
    ensures forall p | p in PartitionsFor(slots, topic) :: Slot(topic, p) in slots
  {
    if slots != [] {
      var k := |slots| - 1;
      PartitionsFit(slots[..k], topic);
      assert slots == slots[..k] + [slots[k]];
    }
  }

  lemma {:induction false} ShareSize(slots: seq<Slot>)
    ensures |ShareOf(slots)| <= |slots|
  {
    if slots != [] { ShareSize(slots[..|slots| - 1]); }
  }

  lemma ShareFits(slots: seq<Slot>, i: nat)
    requires SlotsFit(slots) && i < |ShareOf(slots)|
    ensures EntryFits(ShareOf(slots)[i])
  {
    hide ShareOf, PartitionsFor, ItemsFor, DistinctTopics, MergedWith;
    var e := ShareOf(slots)[i];
    ShareHas(slots);
    OnePlace(ShareOf(slots), i);
    PartitionsFit(slots, e.topic);
    assert e.topic in TopicsOf(ShareOf(slots));
    assert e.items == PartitionsFor(slots, e.topic);
    forall k | 0 <= k < |e.items| ensures -TWO_31 <= e.items[k] < TWO_31 { assert Slot(e.topic, e.items[k]) in slots; }
  }

  /**
    Each member decodes exactly the slots dealt to it, provided no topic is named "__proto__",
    and always all its slots of other topics.
   */
  lemma MemberDecodesItsShare(slots: seq<Slot>)
    requires SlotsFit(slots)
    ensures
      var b := EncodeAssignment(0, ShareOf(slots), []);
      && DecodeAssignment(b) == Some(Ok(Assignment(0, Reading(slots) - {PROTO}, Some([])), |b|))
      && (DecodeAssignment(b) == Some(Ok(Assignment(0, Reading(slots), Some([])), |b|)) <==> PROTO !in SlotTopics(slots))
  {
    hide ShareOf, PartitionsFor, ItemsFor, DistinctTopics, TopicsOf, SlotTopics, EncodeAssignment, DecodeAssignment, EntryFits;
    ShareHas(slots);
    ShareSize(slots);
    forall i | 0 <= i < |ShareOf(slots)| ensures EntryFits(ShareOf(slots)[i]) { ShareFits(slots, i); }
    assert AsMap(ShareOf(slots)) == Reading(slots);
    AssignmentRoundTrip(0, ShareOf(slots), []);
  }

  // ------------------------------------------------------------------ who gets what

  /** The partitions of a topic follow those of the topics before it, in metadata order. */
  lemma {:induction false} SlotsInOrder(topics: seq<bytes>, metadata: map<bytes, seq<PartitionMetadata>>, k: nat, i: nat)
    requires k < |topics| && topics[k] in metadata && i < |metadata[topics[k]]|
    ensures
      var before := |SlotsOf(topics[..k], metadata)|;
      && before + i < |SlotsOf(topics, metadata)|
      && SlotsOf(topics, metadata)[before + i] == Slot(topics[k], metadata[topics[k]][i].partitionId)
  {
    if k > 0 {
      SlotsInOrder(topics[1..], metadata, k - 1, i);
      assert topics[..k][1..] == topics[1..][..k - 1];
    }
  }

  /** And there is nothing else to deal. */
  lemma {:induction false} SlotFrom(topics: seq<bytes>, metadata: map<bytes, seq<PartitionMetadata>>, at: nat) returns (k: nat, i: nat)
    requires at < |SlotsOf(topics, metadata)|
    ensures k < |topics| && topics[k] in metadata && i < |metadata[topics[k]]| && at == |SlotsOf(topics[..k], metadata)| + i
  {
    var first := if topics[0] in metadata then SlotsFor(topics[0], metadata[topics[0]]) else [];
    if at < |first| {
      k, i := 0, at;
    } else {
      k, i := SlotFrom(topics[1..], metadata, at - |first|);
      k := k + 1;
      assert topics[..k][1..] == topics[1..][..k - 1];
    }
  }

  /** The slots dealt to a member, by position: j, j + n, j + 2n and so on. */
  ghost function DealtTo(slots: seq<Slot>, n: nat, j: nat): set<nat>
    requires n > 0
  {
    set a: nat | a < |slots| && a % n == j
  }

  lemma {:induction false} DealtSelects(slots: seq<Slot>, n: nat, j: nat)
    requires j < n
    ensures Selects(slots, DealtTo(slots, n, j), Dealt(slots, n, j))
  {
    if slots == [] {
      SelectsNone<Slot>();
      assert DealtTo(slots, n, j) == {};
    } else {
      var k := |slots| - 1;
      var front, x := slots[..k], slots[k];
      DealtSelects(front, n, j);
      SelectsNext(front, DealtTo(front, n, j), Dealt(front, n, j), x);
      assert front + [x] == slots;
      if Owner(k, n) == j {
        assert DealtTo(slots, n, j) == DealtTo(front, n, j) + {k};
      } else {
        assert DealtTo(slots, n, j) == DealtTo(front, n, j);
        assert Dealt(slots, n, j) == Dealt(front, n, j);
      }
    }
  }

  lemma DealtMembers(slots: seq<Slot>, n: nat, j: nat, x: Slot)
    requires j < n
    ensures x in Dealt(slots, n, j) <==> exists a :: 0 <= a < |slots| && slots[a] == x && a % n == j
  {
    hide Dealt, Selects;
    DealtSelects(slots, n, j);
    SelectsMembers(slots, DealtTo(slots, n, j), Dealt(slots, n, j), x);
  }

  function Ids(slots: seq<Slot>): (r: seq<int>)
    ensures |r| == |slots| && forall i | 0 <= i < |r| :: r[i] == slots[i].partition
  {
    seq(|slots|, i requires 0 <= i < |slots| => slots[i].partition)
  }

  ghost function OfTopic(slots: seq<Slot>, topic: bytes): set<nat> { set i: nat | i < |slots| && slots[i].topic == topic }

  /** A share lists a topic's partitions in the order in which they were dealt. */
  lemma {:induction false} PartitionsForSelects(slots: seq<Slot>, topic: bytes)
    ensures Selects(Ids(slots), OfTopic(slots, topic), PartitionsFor(slots, topic))
  {
    if slots == [] {
      SelectsNone<int>();
      assert OfTopic(slots, topic) == {};
    } else {
      var k := |slots| - 1;
      var front, x := slots[..k], slots[k];
      PartitionsForSelects(front, topic);
      SelectsNext(Ids(front), OfTopic(front, topic), PartitionsFor(front, topic), x.partition);
      assert Ids(front) + [x.partition] == Ids(slots);
      if x.topic == topic {
        assert OfTopic(slots, topic) == OfTopic(front, topic) + {k};
      } else {
        assert OfTopic(slots, topic) == OfTopic(front, topic);
        assert PartitionsFor(slots, topic) == PartitionsFor(front, topic);
      }
    }
  }

  /** What the assignment gives a member: exactly the partitions at positions j, j + n, j + 2n and so on. */
  lemma AssignmentIs(assignment: map<MemberId, Share>, ids: seq<MemberId>, slots: seq<Slot>, j: nat, topic: bytes, p: int)
    requires Deals(assignment, ids, slots) && j < |ids|
    ensures p in ItemsFor(Get(assignment, ids[j]), topic) <==>
      exists a :: 0 <= a < |slots| && slots[a] == Slot(topic, p) && a % |ids| == j
  {
    hide Dealt, ShareOf, Get;
    var dealt := Dealt(slots, |ids|, j);
    ShareHas(dealt);
    PartitionsForSelects(dealt, topic);
    SelectsMembers(Ids(dealt), OfTopic(dealt, topic), PartitionsFor(dealt, topic), p);
    DealtMembers(slots, |ids|, j, Slot(topic, p));
  }

  /** No topic is listed twice, and no topic's metadata lists a partition twice. */
  ghost predicate EachOnce(topics: seq<bytes>, metadata: map<bytes, seq<PartitionMetadata>>) {
    && (forall i, j | 0 <= i < j < |topics| :: topics[i] != topics[j])
    && (forall t | t in metadata :: forall i, j | 0 <= i < j < |metadata[t]| :: metadata[t][i].partitionId != metadata[t][j].partitionId)
  }

  lemma SlotsAreDistinct(topics: seq<bytes>, metadata: map<bytes, seq<PartitionMetadata>>, a: nat, b: nat)
    requires EachOnce(topics, metadata)
    requires a < |SlotsOf(topics, metadata)| && b < |SlotsOf(topics, metadata)|
    requires SlotsOf(topics, metadata)[a] == SlotsOf(topics, metadata)[b]
    ensures a == b
  {
    hide SlotsOf;
    var k, i := SlotFrom(topics, metadata, a);
    var l, j := SlotFrom(topics, metadata, b);
    SlotsInOrder(topics, metadata, k, i);
    SlotsInOrder(topics, metadata, l, j);
    assert topics[k] == topics[l];
    assert k == l;
    assert i == j;
  }

  /** Every partition of every listed topic belongs to exactly one member. */
  lemma OneMemberEach(members: seq<MemberId>, topics: seq<bytes>, metadata: map<bytes, seq<PartitionMetadata>>,
                      assignment: map<MemberId, Share>, k: nat, i: nat) returns (j: nat)
    requires |members| > 0 && EachOnce(topics, metadata) && Deals(assignment, Sorted(members), SlotsOf(topics, metadata))
    requires k < |topics| && topics[k] in metadata && i < |metadata[topics[k]]|
    ensures |Sorted(members)| == |members| && j < |members|
    ensures forall m | 0 <= m < |members| ::
      metadata[topics[k]][i].partitionId in ItemsFor(Get(assignment, Sorted(members)[m]), topics[k]) <==> m == j
  {
    hide SlotsOf, Deals, EachOnce;
    SortedOrders(members);
    var ids, slots, p := Sorted(members), SlotsOf(topics, metadata), metadata[topics[k]][i].partitionId;
    SlotsInOrder(topics, metadata, k, i);
    var at := |SlotsOf(topics[..k], metadata)| + i;
    j := Owner(at, |ids|);
    OwnerBelow(at, |ids|);
    forall m | 0 <= m < |members| ensures p in ItemsFor(Get(assignment, ids[m]), topics[k]) <==> m == j {
      AssignmentIs(assignment, ids, slots, m, topics[k], p);
      if a :| 0 <= a < |slots| && slots[a] == Slot(topics[k], p) && a % |ids| == m { SlotsAreDistinct(topics, metadata, a, at); }
      assert slots[at] == Slot(topics[k], p);
    }
  }
}
