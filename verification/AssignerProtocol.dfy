/** The bytes that carry a member's subscription and its assignment, and reading them back. */
module AssignerProtocol {
  import opened Bits
  import opened Wire
  import opened Varint
  import opened Grouping
  import opened RecordReading

  /** A member's share: its topics in the order they were first given, each with its partitions. */
  type Share = seq<TopicItems<int>>

  datatype Assignment = Assignment(version: int, assignment: map<bytes, seq<int>>, userData: Option<bytes>)

  datatype Metadata = Metadata(version: int, topics: seq<Option<bytes>>, userData: Option<bytes>)

  // ------------------------------------------------------------------ encode

  function ListBytes<T>(write: T -> bytes, s: seq<T>): bytes { Int32Bytes(|s|) + ConcatMap(write, s) }

  function EntryBytes(e: TopicItems<int>): bytes { StringBytes(e.topic) + ListBytes(Int32Bytes, e.items) }

  function EncodeAssignment(version: int, share: Share, userData: bytes): bytes {
    Int16Bytes(version) + (ListBytes(EntryBytes, share) + BytesOf(Some(userData)))
  }

  function EncodeMetadata(version: int, topics: seq<bytes>, userData: bytes): bytes {
    Int16Bytes(version) + (ListBytes(StringBytes, topics) + BytesOf(Some(userData)))
  }

  // ------------------------------------------------------------------ decode

  function ReadList<T>(read: (bytes, nat) -> Read<T>, b: bytes, o: nat): Read<seq<T>> {
    var (n, o) :- ReadInt32(b, o);
    ReadCounted(read, b, o, n)
  }

  function ReadEntry(b: bytes, o: nat): Read<TopicItems<int>> {
    var (topic, o) :- ReadString(b, o);
    var (partitions, o) :- ReadList(ReadInt32, b, o);
    Ok(TopicItems(KeyName(topic), partitions), o)
  }

  /** Setting this name on a plain object replaces its prototype and adds no property. */
  const PROTO: bytes := Ascii("__proto__")

  /** Object.assign into a plain object, entry after entry. */
  function Indexed(entries: seq<TopicItems<int>>): map<bytes, seq<int>> {
    if entries == [] then map[]
    else
      var before, last := Indexed(entries[..|entries| - 1]), entries[|entries| - 1];
      if last.topic == PROTO then before else before[last.topic := last.items]
  }

  /** None is the source's null, for a buffer too short to hold a version. */
  function DecodeAssignment(b: bytes): Option<Read<Assignment>> {
    if |b| < 2 then None else Some(ReadAssignment(b))
  }

  function ReadAssignment(b: bytes): Read<Assignment> {
    var (version, o) :- ReadInt16(b, 0);
    var (entries, o) :- ReadList(ReadEntry, b, o);
    var (userData, o) :- ReadBytes(b, o);
    Ok(Assignment(version, Indexed(entries), userData), o)
  }

  function DecodeMetadata(b: bytes): Read<Metadata> {
    var (version, o) :- ReadInt16(b, 0);
    var (topics, o) :- ReadList(ReadString, b, o);
    var (userData, o) :- ReadBytes(b, o);
    Ok(Metadata(version, topics, userData), o)
  }

  // ------------------------------------------------------------------ decoding inverts encoding

  predicate EntryFits(e: TopicItems<int>) {
    |e.topic| < 0x8000 && |e.items| < TWO_31 && forall i | 0 <= i < |e.items| :: -TWO_31 <= e.items[i] < TWO_31
  }

  lemma ListRoundTrip<T, U>(read: (bytes, nat) -> Read<U>, write: T -> bytes, meaning: T -> U,
                            b: bytes, o: nat, s: seq<T>, parsed: seq<U>)
    requires |parsed| == |s| < TWO_31 && forall i | 0 <= i < |s| :: parsed[i] == meaning(s[i])
    requires Holds(b, o, ListBytes(write, s))
    requires forall x, at: nat | x in s && Holds(b, at, write(x)) :: read(b, at) == Ok(meaning(x), at + |write(x)|)
    ensures ReadList(read, b, o) == Ok(parsed, o + |ListBytes(write, s)|)
  {
    hide Holds, ReadInt32, Int32Bytes;
    HoldsSplit(b, o, Int32Bytes(|s|), ConcatMap(write, s));
    Int32RoundTrip(b, o, |s|);
    ReadManyInverts(read, write, meaning, b, o + 4, s, parsed);
  }

  lemma SizedRoundTrip(b: bytes, o: nat, v: bytes)
    requires Holds(b, o, v)
    ensures ReadSized(b, o, |v|) == Ok(Some(v), o + |v|)
  {
    SliceHeld(b, o, v);
  }

  lemma StringRoundTrip(b: bytes, o: nat, v: bytes)
    requires Holds(b, o, StringBytes(v)) && |v| < 0x8000
    ensures ReadString(b, o) == Ok(Some(v), o + |StringBytes(v)|)
  {
    hide Holds, ReadInt16, Int16Bytes;
    HoldsSplit(b, o, Int16Bytes(|v|), v);
    Int16RoundTrip(b, o, |v|);
    SizedRoundTrip(b, o + 2, v);
  }

  lemma BytesRoundTrip(b: bytes, o: nat, v: bytes)
    requires Holds(b, o, BytesOf(Some(v))) && |v| < TWO_31
    ensures ReadBytes(b, o) == Ok(Some(v), o + |BytesOf(Some(v))|)
  {
    hide Holds, ReadInt32, Int32Bytes;
    HoldsSplit(b, o, Int32Bytes(|v|), v);
    Int32RoundTrip(b, o, |v|);
    SizedRoundTrip(b, o + 4, v);
  }

  function Same<T>(x: T): T { x }

  lemma EntryRoundTrip(b: bytes, o: nat, e: TopicItems<int>)
    requires Holds(b, o, EntryBytes(e)) && EntryFits(e)
    ensures ReadEntry(b, o) == Ok(e, o + |EntryBytes(e)|)
  {
    hide Holds, ReadInt32, Int32Bytes, ReadString, StringBytes, ListBytes, ReadList;
    HoldsSplit(b, o, StringBytes(e.topic), ListBytes(Int32Bytes, e.items));
    StringRoundTrip(b, o, e.topic);
    forall x, at: nat | x in e.items && Holds(b, at, Int32Bytes(x))
      ensures ReadInt32(b, at) == Ok(Same(x), at + |Int32Bytes(x)|)
    {
      Int32RoundTrip(b, at, x);
    }
    ListRoundTrip(ReadInt32, Int32Bytes, Same, b, o + |StringBytes(e.topic)|, e.items, e.items);
  }

  /** The share comes back entry by entry. */
  lemma AssignmentReads(version: int16, share: Share, userData: bytes)
    requires |share| < TWO_31 && |userData| < TWO_31 && forall i | 0 <= i < |share| :: EntryFits(share[i])
    ensures
      var b := EncodeAssignment(version, share, userData);
      DecodeAssignment(b) == Some(Ok(Assignment(version, Indexed(share), Some(userData)), |b|))
  {
    hide Holds, ReadInt16, Int16Bytes, BytesOf, ReadBytes, ListBytes, ReadList, EntryBytes, ReadEntry, Indexed;
    var b := EncodeAssignment(version, share, userData);
    HoldsAll(b);
    HoldsSplit(b, 0, Int16Bytes(version), ListBytes(EntryBytes, share) + BytesOf(Some(userData)));
    HoldsSplit(b, 2, ListBytes(EntryBytes, share), BytesOf(Some(userData)));
    Int16RoundTrip(b, 0, version);
    forall e, at: nat | e in share && Holds(b, at, EntryBytes(e))
      ensures ReadEntry(b, at) == Ok(Same(e), at + |EntryBytes(e)|)
    {
      EntryRoundTrip(b, at, e);
    }
    ListRoundTrip(ReadEntry, EntryBytes, Same, b, 2, share, share);
    BytesRoundTrip(b, 2 + |ListBytes(EntryBytes, share)|, userData);
  }

  /** The share as a map from topic to partitions. */
  function AsMap(share: Share): map<bytes, seq<int>> {
    map t | t in TopicsOf(share) :: ItemsFor(share, t)
  }

  lemma {:induction false} IndexedAt(share: Share, topic: bytes)
    requires DistinctTopics(share)
    ensures topic in Indexed(share) <==> topic in TopicsOf(share) && topic != PROTO
    ensures topic in Indexed(share) ==> Indexed(share)[topic] == ItemsFor(share, topic)
  {
    hide Ascii;
    if share != [] {
      var k := |share| - 1;
      var front, last := share[..k], share[k];
      IndexedAt(front, topic);
      TopicsNext(share);
      if topic == last.topic { NoItems(front, topic); }
    }
  }

  lemma TopicsNext(share: Share)
    requires share != []
    ensures TopicsOf(share) == TopicsOf(share[..|share| - 1]) + {share[|share| - 1].topic}
  {
    var k := |share| - 1;
    assert forall i | 0 <= i < k :: share[..k][i] == share[i];
    assert share[k].topic in TopicsOf(share);
  }

  lemma IndexedIs(share: Share)
    requires DistinctTopics(share)
    ensures Indexed(share) == AsMap(share) - {PROTO}
  {
    hide Ascii, Indexed, TopicsOf, ItemsFor, DistinctTopics;
    var expected := AsMap(share) - {PROTO};
    forall t
      ensures t in Indexed(share) <==> t in expected
      ensures t in Indexed(share) ==> Indexed(share)[t] == expected[t]
    {
      IndexedAt(share, t);
    }
  }

  /**
    Decoding an encoded assignment gives the share back exactly when no topic is named
    "__proto__"; of any share it gives all other topics back.
   */
  lemma AssignmentRoundTrip(version: int16, share: Share, userData: bytes)
    requires DistinctTopics(share)
    requires |share| < TWO_31 && |userData| < TWO_31 && forall i | 0 <= i < |share| :: EntryFits(share[i])
    ensures
      var b := EncodeAssignment(version, share, userData);
      && DecodeAssignment(b) == Some(Ok(Assignment(version, AsMap(share) - {PROTO}, Some(userData)), |b|))
      && (DecodeAssignment(b) == Some(Ok(Assignment(version, AsMap(share), Some(userData)), |b|)) <==> PROTO !in TopicsOf(share))
  {
    hide Ascii, EncodeAssignment, DecodeAssignment, Indexed, EntryFits, TopicsOf, ItemsFor;
    AssignmentReads(version, share, userData);
    IndexedIs(share);
    if PROTO in TopicsOf(share) {
      assert PROTO in AsMap(share) && PROTO !in AsMap(share) - {PROTO};
    } else {
      assert AsMap(share) - {PROTO} == AsMap(share);
    }
  }

  function Present(topic: bytes): Option<bytes> { Some(topic) }

  lemma MetadataRoundTrip(version: int16, topics: seq<bytes>, userData: bytes)
    requires |topics| < TWO_31 && |userData| < TWO_31 && forall i | 0 <= i < |topics| :: |topics[i]| < 0x8000
    ensures
      var b := EncodeMetadata(version, topics, userData);
      DecodeMetadata(b) == Ok(Metadata(version, Map(Present, topics), Some(userData)), |b|)
  {
    hide Holds, ReadInt16, Int16Bytes, BytesOf, ReadBytes, ListBytes, ReadList, StringBytes, ReadString;
    var b := EncodeMetadata(version, topics, userData);
    HoldsAll(b);
    HoldsSplit(b, 0, Int16Bytes(version), ListBytes(StringBytes, topics) + BytesOf(Some(userData)));
    HoldsSplit(b, 2, ListBytes(StringBytes, topics), BytesOf(Some(userData)));
    Int16RoundTrip(b, 0, version);
    forall t, at: nat | t in topics && Holds(b, at, StringBytes(t))
      ensures ReadString(b, at) == Ok(Present(t), at + |StringBytes(t)|)
    {
      StringRoundTrip(b, at, t);
    }
    ListRoundTrip(ReadString, StringBytes, Present, b, 2, topics, Map(Present, topics));
    BytesRoundTrip(b, 2 + |ListBytes(StringBytes, topics)|, userData);
  }
}
