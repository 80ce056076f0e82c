/**
  How a send splits its messages: topics merged, messages grouped by partition, partitions by
  leader, and the topic data of one broker's produce request.
 */
module Grouping {
  import opened Wire
  import opened Selections

  // ------------------------------------------------------------------ merging topics

  datatype TopicItems<M> = TopicItems(topic: bytes, items: seq<M>)

  /** All messages for a topic, in input order. */
  function ItemsFor<M>(input: seq<TopicItems<M>>, topic: bytes): seq<M> {
    if input == [] then []
    else
      var k := |input| - 1;
      ItemsFor(input[..k], topic) + if input[k].topic == topic then input[k].items else []
  }

  ghost predicate DistinctTopics<M>(input: seq<TopicItems<M>>) {
    forall i, j | 0 <= i < j < |input| :: input[i].topic != input[j].topic
  }

  function IndexOf<M>(input: seq<TopicItems<M>>, topic: bytes): (r: int)
    ensures -1 <= r < |input|
    ensures r >= 0 ==> input[r].topic == topic
    ensures r == -1 ==> forall i | 0 <= i < |input| :: input[i].topic != topic
  {
    if input == [] then -1
    else
      var k := IndexOf(input[..|input| - 1], topic);
      if k >= 0 then k else if input[|input| - 1].topic == topic then |input| - 1 else -1
  }

  lemma {:induction false} NoItems<M>(input: seq<TopicItems<M>>, topic: bytes)
    requires forall i | 0 <= i < |input| :: input[i].topic != topic
    ensures ItemsFor(input, topic) == []
  {
    if input != [] { NoItems(input[..|input| - 1], topic); }
  }

  /** Among distinct topics a topic's messages stand in one place. */
  lemma {:induction false} OnePlace<M>(input: seq<TopicItems<M>>, i: nat)
    requires DistinctTopics(input) && i < |input|
    ensures ItemsFor(input, input[i].topic) == input[i].items
  {
    var front := input[..|input| - 1];
    if i < |front| { OnePlace(front, i); } else { NoItems(front, input[i].topic); }
  }

  /** Each entry's items come right after those of the topic's earlier entries. */
  lemma {:induction false} ItemsInOrder<M>(input: seq<TopicItems<M>>, k: nat, i: nat)
    requires k < |input| && i < |input[k].items|
    ensures
      var topic := input[k].topic;
      var before := |ItemsFor(input[..k], topic)|;
      before + i < |ItemsFor(input, topic)| && ItemsFor(input, topic)[before + i] == input[k].items[i]
  {
    var last := |input| - 1;
    if k < last {
      ItemsInOrder(input[..last], k, i);
      assert input[..last][..k] == input[..k];
    }
  }

  /** And nothing else stands in the list. */
  lemma {:induction false} ItemFrom<M>(input: seq<TopicItems<M>>, topic: bytes, at: nat) returns (k: nat, i: nat)
    requires at < |ItemsFor(input, topic)|
    ensures k < |input| && input[k].topic == topic && i < |input[k].items| && at == |ItemsFor(input[..k], topic)| + i
  {
    var last := |input| - 1;
    if at < |ItemsFor(input[..last], topic)| {
      k, i := ItemFrom(input[..last], topic, at);
      assert input[..last][..k] == input[..k];
    } else {
      k, i := last, at - |ItemsFor(input[..last], topic)|;
    }
  }

  lemma {:induction false} Extended<M>(input: seq<TopicItems<M>>, i: nat, more: seq<M>, topic: bytes)
    requires DistinctTopics(input) && i < |input|
    ensures
      ItemsFor(input[i := TopicItems(input[i].topic, input[i].items + more)], topic)
      == ItemsFor(input, topic) + if input[i].topic == topic then more else []
  {
    var next := input[i := TopicItems(input[i].topic, input[i].items + more)];
    var k := |input| - 1;
    if i < k {
      assert next[..k] == input[..k][i := next[i]];
      Extended(input[..k], i, more, topic);
      if input[i].topic == topic {
        OnePlace(input, i);
        OnePlace(input[..k], i);
      }
    } else {
      assert next[..k] == input[..k];
    }
  }

  function TopicsOf<M>(input: seq<TopicItems<M>>): set<bytes> {
    set i | 0 <= i < |input| :: input[i].topic
  }

  /** One more topic's messages join the merged list. */
  function MergedWith<M>(merged: seq<TopicItems<M>>, more: TopicItems<M>): seq<TopicItems<M>> {
    var index := IndexOf(merged, more.topic);
    if index == -1 then merged + [more]
    else merged[index := TopicItems(more.topic, merged[index].items + more.items)]
  }

  lemma MergedWithAdds<M>(merged: seq<TopicItems<M>>, more: TopicItems<M>, topic: bytes)
    requires DistinctTopics(merged)
    ensures
      var next := MergedWith(merged, more);
      && ItemsFor(next, topic) == ItemsFor(merged, topic) + if more.topic == topic then more.items else []
  {
    var index := IndexOf(merged, more.topic);
    if index >= 0 { Extended(merged, index, more.items, topic); }
    else { assert (merged + [more])[..|merged|] == merged; }
  }

  lemma MergedWithTopics<M>(merged: seq<TopicItems<M>>, more: TopicItems<M>)
    requires DistinctTopics(merged)
    ensures DistinctTopics(MergedWith(merged, more))
    ensures TopicsOf(MergedWith(merged, more)) == TopicsOf(merged) + {more.topic}
  {
    var next, index := MergedWith(merged, more), IndexOf(merged, more.topic);
    forall i | 0 <= i < |merged| ensures next[i].topic == merged[i].topic {}
    if index == -1 { assert next[|merged|] == more; } else { assert next[index].topic == more.topic; }
  }

  /** Repeated topics are merged; every topic keeps its messages in order. */
  method MergeTopics<M>(input: seq<TopicItems<M>>) returns (merged: seq<TopicItems<M>>)
    ensures DistinctTopics(merged) && TopicsOf(merged) == TopicsOf(input)
    ensures forall topic :: ItemsFor(merged, topic) == ItemsFor(input, topic)
  {
    merged := [];
    for n := 0 to |input|
      invariant DistinctTopics(merged) && TopicsOf(merged) == TopicsOf(input[..n])
      invariant forall topic :: ItemsFor(merged, topic) == ItemsFor(input[..n], topic)
    {
      assert input[..n + 1][..n] == input[..n];
      forall topic ensures ItemsFor(MergedWith(merged, input[n]), topic)
        == ItemsFor(merged, topic) + if input[n].topic == topic then input[n].items else []
      {
        MergedWithAdds(merged, input[n], topic);
      }
      MergedWithTopics(merged, input[n]);
      merged := MergedWith(merged, input[n]);
    }
    assert input[..|input|] == input;
  }

  // ------------------------------------------------------------------ messages by partition

  /** The messages that go to a partition, in input order. */
  function Of<M>(messages: seq<M>, partitioner: M -> int, partition: int): seq<M> {
    if messages == [] then []
    else
      var k := |messages| - 1;
      Of(messages[..k], partitioner, partition) + if partitioner(messages[k]) == partition then [messages[k]] else []
  }

  /** The positions of the messages that go to a partition. */
  ghost function Going<M>(messages: seq<M>, partitioner: M -> int, partition: int): set<nat> {
    set i: nat | i < |messages| && partitioner(messages[i]) == partition
  }

  lemma {:induction false} OfSelects<M(!new)>(messages: seq<M>, partitioner: M -> int, partition: int)
    ensures Selects(messages, Going(messages, partitioner, partition), Of(messages, partitioner, partition))
  {
    if messages == [] {
      SelectsNone<M>();
      assert Going(messages, partitioner, partition) == {};
    } else {
      var k := |messages| - 1;
      var front, x := messages[..k], messages[k];
      OfSelects(front, partitioner, partition);
      SelectsNext(front, Going(front, partitioner, partition), Of(front, partitioner, partition), x);
      assert front + [x] == messages;
      assert Going(messages, partitioner, partition)
        == Going(front, partitioner, partition) + if partitioner(x) == partition then {k} else {};
      if partitioner(x) != partition {
        assert Of(messages, partitioner, partition) == Of(front, partitioner, partition);
        assert Going(messages, partitioner, partition) == Going(front, partitioner, partition);
      }
    }
  }

  function PartitionsOf<M>(messages: seq<M>, partitioner: M -> int): set<int> {
    set i | 0 <= i < |messages| :: partitioner(messages[i])
  }

  /** Each partition that some message goes to, with its messages. */
  function Grouped<M>(messages: seq<M>, partitioner: M -> int): map<int, seq<M>> {
    map p | p in PartitionsOf(messages, partitioner) :: Of(messages, partitioner, p)
  }

  lemma {:induction false} OfNone<M>(messages: seq<M>, partitioner: M -> int, p: int)
    requires p !in PartitionsOf(messages, partitioner)
    ensures Of(messages, partitioner, p) == []
  {
    if messages != [] {
      var front := messages[..|messages| - 1];
      assert forall i | 0 <= i < |front| :: partitioner(front[i]) == partitioner(messages[i]);
      OfNone(front, partitioner, p);
    }
  }

  /** One more message: its partition's list grows at the end, the others stay. */
  lemma GroupedNext<M>(messages: seq<M>, n: nat, partitioner: M -> int)
    requires n < |messages|
    ensures
      var before, p := Grouped(messages[..n], partitioner), partitioner(messages[n]);
      Grouped(messages[..n + 1], partitioner) == before[p := (if p in before then before[p] else []) + [messages[n]]]
  {
    var p, now := partitioner(messages[n]), messages[..n + 1];
    assert now[..n] == messages[..n];
    forall q ensures q in PartitionsOf(now, partitioner) <==> q in PartitionsOf(messages[..n], partitioner) || q == p {
      assert now[n] == messages[n];
      assert forall i | 0 <= i < n :: partitioner(now[i]) == partitioner(messages[..n][i]);
    }
    if p !in PartitionsOf(messages[..n], partitioner) { OfNone(messages[..n], partitioner, p); }
    forall q ensures Of(now, partitioner, q) == Of(messages[..n], partitioner, q) + if q == p then [messages[n]] else [] {}
    var before := Grouped(messages[..n], partitioner);
    var after := before[p := (if p in before then before[p] else []) + [messages[n]]];
    assert forall q :: q in Grouped(now, partitioner) <==> q in after;
    assert forall q | q in after :: Grouped(now, partitioner)[q] == after[q];
    assert Grouped(now, partitioner) == after;
  }

  /** groupMessagesPerPartition. */
  method GroupMessages<M(!new)>(messages: seq<M>, partitioner: M -> int) returns (result: map<int, seq<M>>)
    ensures result == Grouped(messages, partitioner)
    ensures forall p :: p in result <==> exists i :: 0 <= i < |messages| && partitioner(messages[i]) == p
    ensures forall p | p in result :: Selects(messages, Going(messages, partitioner, p), result[p])
  {
    hide Of, PartitionsOf;
    result := map[];
    assert messages[..0] == [];
    NothingGrouped(partitioner);
    for n := 0 to |messages|
      invariant result == Grouped(messages[..n], partitioner)
    {
      var partition := partitioner(messages[n]);
      var current := if partition in result then result[partition] else [];
      GroupedNext(messages, n, partitioner);
      result := result[partition := current + [messages[n]]];
    }
    assert messages[..|messages|] == messages;
    GroupedIs(messages, partitioner);
  }

  lemma GroupedIs<M(!new)>(messages: seq<M>, partitioner: M -> int)
    ensures forall p :: p in Grouped(messages, partitioner) <==> exists i :: 0 <= i < |messages| && partitioner(messages[i]) == p
    ensures forall p | p in Grouped(messages, partitioner) ::
      Selects(messages, Going(messages, partitioner, p), Grouped(messages, partitioner)[p])
  {
    forall p ensures Selects(messages, Going(messages, partitioner, p), Of(messages, partitioner, p)) {
      OfSelects(messages, partitioner, p);
    }
  }

  lemma NothingGrouped<M>(partitioner: M -> int)
    ensures Grouped([], partitioner) == map[]
  {}

  /** Every message stands in its own partition's list. */
  lemma {:induction false} MessageGrouped<M>(messages: seq<M>, partitioner: M -> int, i: nat)
    requires i < |messages|
    ensures partitioner(messages[i]) in Grouped(messages, partitioner)
    ensures messages[i] in Of(messages, partitioner, partitioner(messages[i]))
  {
    var k := |messages| - 1;
    assert partitioner(messages[i]) in PartitionsOf(messages, partitioner);
    if i < k {
      assert messages[..k][i] == messages[i];
      MessageGrouped(messages[..k], partitioner, i);
    }
  }

  // ------------------------------------------------------------------ partitions by leader

  datatype PartitionMetadata = PartitionMetadata(partitionId: int, leader: Option<int>)

  function Find(metadata: seq<PartitionMetadata>, id: int): Option<PartitionMetadata> {
    if metadata == [] then None else if metadata[0].partitionId == id then Some(metadata[0]) else Find(metadata[1..], id)
  }

  /** The leader of a partition that the metadata lists. */
  function LeaderOf(metadata: seq<PartitionMetadata>, id: int): Option<int> {
    var found := Find(metadata, id);
    if found.Some? then found.value.leader else None
  }

  predicate Leaderless(metadata: seq<PartitionMetadata>, id: int) {
    var found := Find(metadata, id);
    found.Some? && found.value.leader.None?
  }

  /** The first metadata entry of a partition names this leader, or none. */
  ghost predicate Leads(metadata: seq<PartitionMetadata>, id: int, leader: Option<int>) {
    exists i :: 0 <= i < |metadata| && EntryOf(metadata, id, i) && metadata[i].leader == leader
  }

  ghost predicate EntryOf(metadata: seq<PartitionMetadata>, id: int, i: nat)
    requires i < |metadata|
  {
    metadata[i].partitionId == id && forall j | 0 <= j < i :: metadata[j].partitionId != id
  }

  lemma {:induction false} FindIs(metadata: seq<PartitionMetadata>, id: int)
    ensures Find(metadata, id).None? <==> forall i | 0 <= i < |metadata| :: metadata[i].partitionId != id
    ensures Find(metadata, id).Some? ==> exists i :: 0 <= i < |metadata| && EntryOf(metadata, id, i) && metadata[i] == Find(metadata, id).value
  {
    if metadata != [] {
      var rest := metadata[1..];
      FindIs(rest, id);
      assert forall i | 0 <= i < |rest| :: rest[i] == metadata[i + 1];
      if metadata[0].partitionId == id {
        assert EntryOf(metadata, id, 0);
      } else {
        if Find(rest, id).Some? {
          var i :| 0 <= i < |rest| && EntryOf(rest, id, i) && rest[i] == Find(rest, id).value;
          forall j | 0 <= j < i + 1 ensures metadata[j].partitionId != id { assert j > 0 ==> metadata[j] == rest[j - 1]; }
          assert EntryOf(metadata, id, i + 1);
        }
        if forall i | 0 <= i < |rest| :: rest[i].partitionId != id {
          forall i | 0 <= i < |metadata| ensures metadata[i].partitionId != id { assert i > 0 ==> metadata[i] == rest[i - 1]; }
        }
      }
    }
  }

  lemma OneEntry(metadata: seq<PartitionMetadata>, id: int, i: nat, j: nat)
    requires i < |metadata| && j < |metadata| && EntryOf(metadata, id, i) && EntryOf(metadata, id, j)
    ensures i == j
  {}

  /** The leader that is found is the one that the partition's first metadata entry names. */
  lemma LeaderIs(metadata: seq<PartitionMetadata>, id: int, leader: int)
    ensures LeaderOf(metadata, id) == Some(leader) <==> Leads(metadata, id, Some(leader))
    ensures Leaderless(metadata, id) <==> Leads(metadata, id, None)
  {
    FindIs(metadata, id);
    var found := Find(metadata, id);
    if found.Some? {
      var i :| 0 <= i < |metadata| && EntryOf(metadata, id, i) && metadata[i] == found.value;
      forall j | 0 <= j < |metadata| && EntryOf(metadata, id, j) ensures j == i { OneEntry(metadata, id, j, i); }
    }
  }

  function LedBy(metadata: seq<PartitionMetadata>, partitions: seq<int>, leader: int): seq<int> {
    if partitions == [] then []
    else
      var k := |partitions| - 1;
      LedBy(metadata, partitions[..k], leader)
      + if LeaderOf(metadata, partitions[k]) == Some(leader) then [partitions[k]] else []
  }

  function LeadersOf(metadata: seq<PartitionMetadata>, partitions: seq<int>): set<int> {
    set i | 0 <= i < |partitions| && LeaderOf(metadata, partitions[i]).Some? :: LeaderOf(metadata, partitions[i]).value
  }

  /** Each leader with the partitions it serves; partitions without metadata are in no list. */
  function PerLeader(metadata: seq<PartitionMetadata>, partitions: seq<int>): map<int, seq<int>> {
    map l | l in LeadersOf(metadata, partitions) :: LedBy(metadata, partitions, l)
  }

  lemma {:induction false} LedByNone(metadata: seq<PartitionMetadata>, partitions: seq<int>, l: int)
    requires l !in LeadersOf(metadata, partitions)
    ensures LedBy(metadata, partitions, l) == []
  {
    if partitions != [] {
      var front := partitions[..|partitions| - 1];
      assert forall i | 0 <= i < |front| :: front[i] == partitions[i];
      LedByNone(metadata, front, l);
    }
  }

  lemma PerLeaderNext(metadata: seq<PartitionMetadata>, partitions: seq<int>, n: nat)
    requires n < |partitions|
    ensures
      var before, l := PerLeader(metadata, partitions[..n]), LeaderOf(metadata, partitions[n]);
      PerLeader(metadata, partitions[..n + 1])
      == if l.None? then before
         else before[l.value := (if l.value in before then before[l.value] else []) + [partitions[n]]]
  {
    var l, now := LeaderOf(metadata, partitions[n]), partitions[..n + 1];
    assert now[..n] == partitions[..n] && now[n] == partitions[n];
    forall q ensures q in LeadersOf(metadata, now) <==> q in LeadersOf(metadata, partitions[..n]) || Some(q) == l {
      assert forall i | 0 <= i < n :: now[i] == partitions[..n][i];
    }
    if l.Some? && l.value !in LeadersOf(metadata, partitions[..n]) { LedByNone(metadata, partitions[..n], l.value); }
    forall q ensures
      LedBy(metadata, now, q) == LedBy(metadata, partitions[..n], q) + if Some(q) == l then [partitions[n]] else []
    {}
    var before := PerLeader(metadata, partitions[..n]);
    var after := if l.None? then before
      else before[l.value := (if l.value in before then before[l.value] else []) + [partitions[n]]];
    assert forall q :: q in PerLeader(metadata, now) <==> q in after;
    assert forall q | q in after :: PerLeader(metadata, now)[q] == after[q];
    assert PerLeader(metadata, now) == after;
  }

  /** The positions of the partitions that a broker leads. */
  ghost function Served(metadata: seq<PartitionMetadata>, partitions: seq<int>, leader: int): set<nat> {
    set i: nat | i < |partitions| && Leads(metadata, partitions[i], Some(leader))
  }

  lemma {:induction false} LedBySelects(metadata: seq<PartitionMetadata>, partitions: seq<int>, l: int)
    ensures Selects(partitions, Served(metadata, partitions, l), LedBy(metadata, partitions, l))
  {
    hide LeaderOf, Leads;
    if partitions == [] {
      SelectsNone<int>();
      assert Served(metadata, partitions, l) == {};
    } else {
      var k := |partitions| - 1;
      var front, x := partitions[..k], partitions[k];
      LedBySelects(metadata, front, l);
      LeaderIs(metadata, x, l);
      SelectsNext(front, Served(metadata, front, l), LedBy(metadata, front, l), x);
      assert front + [x] == partitions;
      if Leads(metadata, x, Some(l)) {
        assert Served(metadata, partitions, l) == Served(metadata, front, l) + {k};
      } else {
        assert LedBy(metadata, partitions, l) == LedBy(metadata, front, l);
        assert Served(metadata, partitions, l) == Served(metadata, front, l);
      }
    }
  }

  lemma PerLeaderIs(metadata: seq<PartitionMetadata>, partitions: seq<int>)
    ensures forall l :: l in PerLeader(metadata, partitions) <==> exists i :: 0 <= i < |partitions| && Leads(metadata, partitions[i], Some(l))
    ensures forall l | l in PerLeader(metadata, partitions) ::
      Selects(partitions, Served(metadata, partitions, l), PerLeader(metadata, partitions)[l])
  {
    hide LeaderOf, Leads;
    forall l, p ensures LeaderOf(metadata, p) == Some(l) <==> Leads(metadata, p, Some(l)) { LeaderIs(metadata, p, l); }
    forall l ensures Selects(partitions, Served(metadata, partitions, l), LedBy(metadata, partitions, l)) {
      LedBySelects(metadata, partitions, l);
    }
    forall l ensures l in LeadersOf(metadata, partitions) <==> exists i :: 0 <= i < |partitions| && Leads(metadata, partitions[i], Some(l)) {
      if i :| 0 <= i < |partitions| && Leads(metadata, partitions[i], Some(l)) { assert LeaderOf(metadata, partitions[i]) == Some(l); }
    }
  }

  /** findLeaderForPartitions; None is the exception on a partition whose metadata has no leader. */
  method FindLeaderForPartitions(metadata: seq<PartitionMetadata>, partitions: seq<int>)
    returns (result: Option<map<int, seq<int>>>)
    ensures result.None? <==> exists i :: 0 <= i < |partitions| && Leads(metadata, partitions[i], None)
    ensures result.Some? ==> result.value == PerLeader(metadata, partitions)
    ensures result.Some? ==> forall l :: l in result.value <==> exists i :: 0 <= i < |partitions| && Leads(metadata, partitions[i], Some(l))
    ensures result.Some? ==> forall l | l in result.value :: Selects(partitions, Served(metadata, partitions, l), result.value[l])
  {
    var leaders := map[];
    assert partitions[..0] == [];
    PerLeaderIs(metadata, partitions);
    forall id ensures Leaderless(metadata, id) <==> Leads(metadata, id, None) { LeaderIs(metadata, id, 0); }
    for n := 0 to |partitions|
      invariant forall i | 0 <= i < n :: !Leaderless(metadata, partitions[i])
      invariant leaders == PerLeader(metadata, partitions[..n])
    {
      var found := Find(metadata, partitions[n]);
      PerLeaderNext(metadata, partitions, n);
      if found.Some? {
        if found.value.leader.None? {
          assert Leaderless(metadata, partitions[n]);
          return None;
        }
        var leader := found.value.leader.value;
        var current := if leader in leaders then leaders[leader] else [];
        leaders := leaders[leader := current + [partitions[n]]];
      }
    }
    assert partitions[..|partitions|] == partitions;
    assert !exists i :: 0 <= i < |partitions| && Leaderless(metadata, partitions[i]);
    return Some(leaders);
  }

  lemma {:induction false} LedByMembers(metadata: seq<PartitionMetadata>, partitions: seq<int>, l: int, p: int)
    ensures p in LedBy(metadata, partitions, l) <==> p in partitions && LeaderOf(metadata, p) == Some(l)
  {
    if partitions != [] {
      var k := |partitions| - 1;
      LedByMembers(metadata, partitions[..k], l, p);
      assert partitions == partitions[..k] + [partitions[k]];
    }
  }

  // ------------------------------------------------------------------ one broker's request

  lemma {:induction false} LeastExists(s: set<int>)
    requires s != {}
    ensures exists m :: m in s && forall x | x in s :: m <= x
  {
    assert (forall x :: x !in s) ==> s == {};
    var x :| x in s;
    var rest := s - {x};
    if rest == {} {
      assert forall y | y in s :: y == x || y in rest;
    } else {
      LeastExists(rest);
      var m :| m in rest && forall y | y in rest :: m <= y;
      var least := if x < m then x else m;
      forall y | y in s ensures least <= y { assert y == x || y in rest; }
    }
  }

  /** The keys of an object with integer keys, in ascending order. */
  function Keys(s: set<int>): (r: seq<int>)
    ensures forall x :: x in r <==> x in s
  {
    if s == {} then []
    else
      LeastExists(s);
      var m: int :| m in s && forall x | x in s :: m <= x;
      [m] + Keys(s - {m})
  }

  /** What a send is given: topics to send, cluster metadata, and the partitioner. */
  datatype Sending<!M> = Sending(
    topics: seq<TopicItems<M>>, metadata: map<bytes, seq<PartitionMetadata>>, partitioner: (bytes, M) -> int)
  {
    function MetadataOf(topic: bytes): seq<PartitionMetadata> { if topic in metadata then metadata[topic] else [] }

    function PartitionOf(topic: bytes): M -> int { m => partitioner(topic, m) }

    function Partitions(k: nat): seq<int>
      requires k < |topics|
    {
      Keys(PartitionsOf(topics[k].items, PartitionOf(topics[k].topic)))
    }

    function PerLeaderOf(k: nat): map<int, seq<int>>
      requires k < |topics|
    {
      PerLeader(MetadataOf(topics[k].topic), Partitions(k))
    }

    /** The brokers looked up for the first n topics, in order. */
    function Lookups(n: nat): seq<int>
      requires n <= |topics|
    {
      if n == 0 then [] else Lookups(n - 1) + Keys(PerLeaderOf(n - 1).Keys)
    }

    /** The topic data of the produce request to a broker, from the first n topics. */
    function DataFor(node: int, n: nat): seq<TopicData<M>>
      requires n <= |topics|
    {
      if n == 0 then []
      else DataFor(node, n - 1) + if node in PerLeaderOf(n - 1) then [TopicData(topics[n - 1].topic, BatchesFor(n - 1, PerLeaderOf(n - 1)[node]))] else []
    }

    function BatchesFor(k: nat, partitions: seq<int>): (r: seq<PartitionData<M>>)
      requires k < |topics|
      ensures |r| == |partitions|
      ensures forall i | 0 <= i < |r| ::
        r[i] == PartitionData(partitions[i], Of(topics[k].items, PartitionOf(topics[k].topic), partitions[i]))
    {
      seq(|partitions|, i requires 0 <= i < |partitions| =>
        PartitionData(partitions[i], Of(topics[k].items, PartitionOf(topics[k].topic), partitions[i])))
    }
  }

  datatype PartitionData<M> = PartitionData(partition: int, messages: seq<M>)

  datatype TopicData<M> = TopicData(topic: bytes, partitions: seq<PartitionData<M>>)

  /** The broker's request holds this batch for the topic. */
  ghost predicate Carries<M>(data: seq<TopicData<M>>, topic: bytes, batch: PartitionData<M>) {
    exists d :: d in data && d.topic == topic && batch in d.partitions
  }

  lemma {:induction false} LookupsHave<M>(s: Sending<M>, n: nat, k: nat, node: int)
    requires k < n <= |s.topics| && node in s.PerLeaderOf(k)
    ensures node in s.Lookups(n)
  {
    hide PerLeader, Sending.PerLeaderOf;
    if k < n - 1 { LookupsHave(s, n - 1, k, node); }
  }

  lemma {:induction false} DataHas<M>(s: Sending<M>, n: nat, k: nat, node: int)
    requires k < n <= |s.topics| && node in s.PerLeaderOf(k)
    ensures TopicData(s.topics[k].topic, s.BatchesFor(k, s.PerLeaderOf(k)[node])) in s.DataFor(node, n)
  {
    hide Of, PartitionsOf, Keys, PerLeader, Sending.BatchesFor, Sending.PerLeaderOf;
    if k < n - 1 { DataHas(s, n - 1, k, node); }
  }

  /** A message's batch: its partition's messages of the topic, in input order. */
  ghost predicate IsBatchOf<M(!new)>(s: Sending<M>, k: nat, p: int, batch: PartitionData<M>)
    requires k < |s.topics|
  {
    batch.partition == p && Selects(s.topics[k].items, Going(s.topics[k].items, s.PartitionOf(s.topics[k].topic), p), batch.messages)
  }

  /**
    A message whose partition has a leader, by the partition's first metadata entry, is in that
    leader's request, among its partition's messages in input order.
   */
  lemma MessagePlaced<M(!new)>(s: Sending<M>, k: nat, i: nat, leader: int) returns (batch: PartitionData<M>)
    requires k < |s.topics| && i < |s.topics[k].items|
    requires Leads(s.MetadataOf(s.topics[k].topic), s.partitioner(s.topics[k].topic, s.topics[k].items[i]), Some(leader))
    ensures leader in s.Lookups(|s.topics|)
    ensures Carries(s.DataFor(leader, |s.topics|), s.topics[k].topic, batch)
    ensures IsBatchOf(s, k, s.partitioner(s.topics[k].topic, s.topics[k].items[i]), batch) && s.topics[k].items[i] in batch.messages
  {
    var topic, messages := s.topics[k].topic, s.topics[k].items;
    var p := s.partitioner(topic, messages[i]);
    LeaderIs(s.MetadataOf(topic), p, leader);
    MessageGrouped(messages, s.PartitionOf(topic), i);
    assert p in s.Partitions(k);
    LedByMembers(s.MetadataOf(topic), s.Partitions(k), leader, p);
    assert leader in s.PerLeaderOf(k);
    LookupsHave(s, |s.topics|, k, leader);
    DataHas(s, |s.topics|, k, leader);
    var led := s.PerLeaderOf(k)[leader];
    var j :| 0 <= j < |led| && led[j] == p;
    batch := s.BatchesFor(k, led)[j];
    assert batch in s.BatchesFor(k, led);
    OfSelects(messages, s.PartitionOf(topic), p);
  }

  lemma {:induction false} DataFrom<M>(s: Sending<M>, n: nat, node: int, d: TopicData<M>) returns (k: nat)
    requires n <= |s.topics| && d in s.DataFor(node, n)
    ensures k < n && node in s.PerLeaderOf(k) && d == TopicData(s.topics[k].topic, s.BatchesFor(k, s.PerLeaderOf(k)[node]))
  {
    hide Sending.PerLeaderOf, Sending.BatchesFor;
    if d in s.DataFor(node, n - 1) { k := DataFrom(s, n - 1, node, d); } else { k := n - 1; }
  }

  /**
    A request carries nothing else: each of its batches is the batch of a partition that some
    message of the topic goes to and whose first metadata entry names the request's broker.
   */
  lemma CarriedIsLed<M(!new)>(s: Sending<M>, node: int, topic: bytes, batch: PartitionData<M>) returns (k: nat)
    requires Carries(s.DataFor(node, |s.topics|), topic, batch)
    ensures k < |s.topics| && s.topics[k].topic == topic && IsBatchOf(s, k, batch.partition, batch)
    ensures Leads(s.MetadataOf(topic), batch.partition, Some(node))
    ensures exists i :: 0 <= i < |s.topics[k].items| && s.partitioner(topic, s.topics[k].items[i]) == batch.partition
  {
    var d :| d in s.DataFor(node, |s.topics|) && d.topic == topic && batch in d.partitions;
    k := DataFrom(s, |s.topics|, node, d);
    var led := s.PerLeaderOf(k)[node];
    var j :| 0 <= j < |d.partitions| && d.partitions[j] == batch;
    assert led[j] == batch.partition;
    LedByMembers(s.MetadataOf(topic), s.Partitions(k), node, batch.partition);
    LeaderIs(s.MetadataOf(topic), batch.partition, node);
    OfSelects(s.topics[k].items, s.PartitionOf(topic), batch.partition);
    assert batch.partition in PartitionsOf(s.topics[k].items, s.PartitionOf(topic));
  }

  /** A partition that the metadata does not list is in no request: its messages are dropped silently. */
  lemma UnlistedIsDropped<M(!new)>(s: Sending<M>, topic: bytes, p: int, node: int, batch: PartitionData<M>)
    requires batch.partition == p
    requires forall i | 0 <= i < |s.MetadataOf(topic)| :: s.MetadataOf(topic)[i].partitionId != p
    ensures !Carries(s.DataFor(node, |s.topics|), topic, batch)
  {
    if Carries(s.DataFor(node, |s.topics|), topic, batch) {
      var k := CarriedIsLed(s, node, topic, batch);
      assert false;
    }
  }

  /** The topics of a request, each from one of the first n. */
  ghost predicate TopicsBefore<M>(s: Sending<M>, data: seq<TopicData<M>>, n: nat)
    requires n <= |s.topics|
  {
    forall i | 0 <= i < |data| :: exists k :: 0 <= k < n && data[i].topic == s.topics[k].topic
  }

  ghost predicate TopicsApart<M>(data: seq<TopicData<M>>) { forall i, j | 0 <= i < j < |data| :: data[i].topic != data[j].topic }

  /** No topic stands in a request twice. */
  lemma {:induction false} TopicOnce<M>(s: Sending<M>, node: int, n: nat)
    requires n <= |s.topics| && DistinctTopics(s.topics)
    ensures TopicsApart(s.DataFor(node, n)) && TopicsBefore(s, s.DataFor(node, n), n)
  {
    hide Sending.PerLeaderOf, Sending.BatchesFor;
    if n > 0 {
      TopicOnce(s, node, n - 1);
      var before := s.DataFor(node, n - 1);
      forall i | 0 <= i < |before| ensures before[i].topic != s.topics[n - 1].topic {
        var k :| 0 <= k < n - 1 && before[i].topic == s.topics[k].topic;
      }
      forall i | 0 <= i < |before| ensures exists k :: 0 <= k < n && before[i].topic == s.topics[k].topic {
        var k :| 0 <= k < n - 1 && before[i].topic == s.topics[k].topic;
      }
      assert s.topics[n - 1].topic == s.topics[n - 1].topic;
    }
  }
}
