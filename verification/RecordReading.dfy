/** Reading records back: fields, header regrouping, and when the headers survive the trip. */
module RecordReading {
  import opened Bits
  import opened Wire
  import opened Varint
  import opened Records

  // ------------------------------------------------------------------ header regrouping

  /** What a regrouped header property holds: wire values, or something every object inherits. */
  datatype Item = Raw(value: Option<bytes>) | Inherited(name: bytes)

  datatype Property = Alone(item: Item) | Listed(items: seq<Item>)

  type Headers = map<bytes, Property>

  function Ascii(s: string): (r: bytes)
    ensures |r| == |s|
  {
    if s == [] then [] else [s[0] as int % 0x80] + Ascii(s[1..])
  }

  /** The names that reading `obj[key]` finds on every plain object. */
  const INHERITED: set<bytes> := {
    Ascii("constructor"), Ascii("toString"), Ascii("toLocaleString"), Ascii("valueOf"), Ascii("hasOwnProperty"),
    Ascii("isPrototypeOf"), Ascii("propertyIsEnumerable"), Ascii("__proto__"), Ascii("__defineGetter__"),
    Ascii("__defineSetter__"), Ascii("__lookupGetter__"), Ascii("__lookupSetter__")
  }

  /** One step of the reduce: a first value stands alone, later ones extend an array. */
  function AddPair(names: set<bytes>, obj: Headers, p: Pair): Headers {
    if p.key in obj then
      match obj[p.key] {
        case Alone(first) => obj[p.key := Listed([first, Raw(p.value)])]
        case Listed(items) => obj[p.key := Listed(items + [Raw(p.value)])]
      }
    else if p.key in names then obj[p.key := Listed([Inherited(p.key), Raw(p.value)])]
    else obj[p.key := Alone(Raw(p.value))]
  }

  function Regroup(names: set<bytes>, obj: Headers, ps: seq<Pair>): Headers
    decreases |ps|
  {
    if ps == [] then obj else Regroup(names, AddPair(names, obj, ps[0]), ps[1..])
  }

  function RawItems(values: seq<Option<bytes>>): (r: seq<Item>)
    ensures |r| == |values|
  {
    if values == [] then [] else [Raw(values[0])] + RawItems(values[1..])
  }

  /** The property a reader would expect for these values. */
  function Plain(values: seq<Option<bytes>>): Property {
    if |values| == 1 then Alone(Raw(values[0])) else Listed(RawItems(values))
  }

  /** The property the reduce leaves for a key with these values. */
  function Left(names: set<bytes>, key: bytes, values: seq<Option<bytes>>): Property {
    if key in names then Listed([Inherited(key)] + RawItems(values)) else Plain(values)
  }

  lemma {:induction false} RegroupConcat(names: set<bytes>, obj: Headers, ps: seq<Pair>, qs: seq<Pair>)
    ensures Regroup(names, obj, ps + qs) == Regroup(names, Regroup(names, obj, ps), qs)
    decreases |ps|
  {
    if ps == [] {
      assert ps + qs == qs;
    } else {
      assert (ps + qs)[1..] == ps[1..] + qs;
      RegroupConcat(names, AddPair(names, obj, ps[0]), ps[1..], qs);
    }
  }

  lemma {:induction false} RegroupListed(names: set<bytes>, obj: Headers, key: bytes, items: seq<Item>, values: seq<Option<bytes>>)
    requires key in obj && obj[key] == Listed(items)
    ensures Regroup(names, obj, PairsOf(key, values)) == obj[key := Listed(items + RawItems(values))]
    decreases |values|
  {
    if values == [] {
      assert items + [] == items;
    } else {
      var next := items + [Raw(values[0])];
      RegroupListed(names, obj[key := Listed(next)], key, next, values[1..]);
      assert next + RawItems(values[1..]) == items + RawItems(values);
      assert PairsOf(key, values)[1..] == PairsOf(key, values[1..]);
    }
  }

  lemma RegroupCons(names: set<bytes>, obj: Headers, p: Pair, rest: seq<Pair>)
    ensures Regroup(names, obj, [p] + rest) == Regroup(names, AddPair(names, obj, p), rest)
  {
    assert ([p] + rest)[1..] == rest;
  }

  lemma RegroupInherited(names: set<bytes>, obj: Headers, key: bytes, values: seq<Option<bytes>>)
    requires key !in obj && values != [] && key in names
    ensures Regroup(names, obj, PairsOf(key, values)) == obj[key := Left(names, key, values)]
  {
    hide Regroup;
    var items := [Inherited(key), Raw(values[0])];
    RegroupCons(names, obj, Pair(key, values[0]), PairsOf(key, values[1..]));
    RegroupListed(names, obj[key := Listed(items)], key, items, values[1..]);
    assert items + RawItems(values[1..]) == [Inherited(key)] + RawItems(values);
  }

  lemma RegroupPlain(names: set<bytes>, obj: Headers, key: bytes, values: seq<Option<bytes>>)
    requires key !in obj && |values| > 1 && key !in names
    ensures Regroup(names, obj, PairsOf(key, values)) == obj[key := Listed(RawItems(values))]
  {
    hide Regroup;
    var tail, rest := values[1..], values[1..][1..];
    var alone := obj[key := Alone(Raw(values[0]))];
    var items := [Raw(values[0]), Raw(values[1])];
    RegroupCons(names, obj, Pair(key, values[0]), PairsOf(key, tail));
    RegroupCons(names, alone, Pair(key, values[1]), PairsOf(key, rest));
    RegroupListed(names, alone[key := Listed(items)], key, items, rest);
    assert items + RawItems(rest) == RawItems(values);
  }

  /** All values of one new key: the reduce leaves exactly `Left`. */
  lemma RegroupKey(names: set<bytes>, obj: Headers, key: bytes, values: seq<Option<bytes>>)
    requires key !in obj && values != []
    ensures Regroup(names, obj, PairsOf(key, values)) == obj[key := Left(names, key, values)]
  {
    if key in names {
      RegroupInherited(names, obj, key, values);
    } else if |values| > 1 {
      RegroupPlain(names, obj, key, values);
    } else {
      assert PairsOf(key, values) == [Pair(key, values[0])];
    }
  }

  function Put(names: set<bytes>, obj: Headers, h: Header): Headers {
    if h.value.Values() == [] then obj else obj[h.key := Left(names, h.key, h.value.Values())]
  }

  function PutAll(names: set<bytes>, obj: Headers, hs: seq<Header>): Headers
    decreases |hs|
  {
    if hs == [] then obj else PutAll(names, Put(names, obj, hs[0]), hs[1..])
  }

  /** An object has each key once. */
  ghost predicate DistinctKeys(hs: seq<Header>) {
    forall i, j | 0 <= i < j < |hs| :: hs[i].key != hs[j].key
  }

  lemma {:induction false} RegroupHeaders(names: set<bytes>, obj: Headers, hs: seq<Header>)
    requires DistinctKeys(hs) && forall h | h in hs :: h.key !in obj
    ensures Regroup(names, obj, Flatten(hs)) == PutAll(names, obj, hs)
    decreases |hs|
  {
    if hs != [] {
      var values := hs[0].value.Values();
      RegroupConcat(names, obj, PairsOf(hs[0].key, values), Flatten(hs[1..]));
      if values == [] {
        assert PairsOf(hs[0].key, values) == [];
      } else {
        RegroupKey(names, obj, hs[0].key, values);
      }
      RegroupHeaders(names, Put(names, obj, hs[0]), hs[1..]);
    }
  }

  lemma {:induction false} PutAllContents(names: set<bytes>, obj: Headers, hs: seq<Header>)
    requires DistinctKeys(hs) && forall h | h in hs :: h.key !in obj
    ensures forall k :: k in PutAll(names, obj, hs) <==>
      k in obj || exists h :: h in hs && h.key == k && h.value.Values() != []
    ensures forall k | k in obj :: k in PutAll(names, obj, hs) && PutAll(names, obj, hs)[k] == obj[k]
    ensures forall h | h in hs && h.value.Values() != [] ::
      h.key in PutAll(names, obj, hs) && PutAll(names, obj, hs)[h.key] == Left(names, h.key, h.value.Values())
    decreases |hs|
  {
    if hs != [] {
      PutAllContents(names, Put(names, obj, hs[0]), hs[1..]);
      assert hs == [hs[0]] + hs[1..];
    }
  }

  // ------------------------------------------------------------------ when headers survive

  /** What reading back should give: each key with values, holding those values. */
  ghost predicate Faithful(hs: seq<Header>, r: Headers) {
    && (forall k :: k in r <==> exists h :: h in hs && h.key == k && h.value.Values() != [])
    && (forall h | h in hs && h.value.Values() != [] :: h.key in r && r[h.key] == Plain(h.value.Values()))
  }

  lemma LeftIsPlain(names: set<bytes>, key: bytes, values: seq<Option<bytes>>)
    requires values != []
    ensures Left(names, key, values) == Plain(values) <==> key !in names
  {
    if key in names { assert Left(names, key, values).items[0] == Inherited(key); }
  }

  lemma RegroupIsFaithful(names: set<bytes>, hs: seq<Header>)
    requires DistinctKeys(hs)
    ensures Faithful(hs, Regroup(names, map[], Flatten(hs))) <==>
      forall h | h in hs && h.value.Values() != [] :: h.key !in names
  {
    RegroupHeaders(names, map[], hs);
    PutAllContents(names, map[], hs);
    forall h | h in hs && h.value.Values() != []
      ensures Left(names, h.key, h.value.Values()) == Plain(h.value.Values()) <==> h.key !in names
    {
      LeftIsPlain(names, h.key, h.value.Values());
    }
  }

  /**
    Headers read back as written (up to one-element and empty arrays) exactly when no key
    that carries a value is a name inherited by every object.
   */
  lemma HeadersRoundTrip(hs: seq<Header>)
    requires DistinctKeys(hs)
    ensures Faithful(hs, Regroup(INHERITED, map[], Flatten(hs))) <==>
      forall h | h in hs && h.value.Values() != [] :: h.key !in INHERITED
  {
    hide INHERITED;
    RegroupIsFaithful(INHERITED, hs);
  }

  lemma InheritedKey(names: set<bytes>, key: bytes, v: bytes)
    requires key in names
    ensures Regroup(names, map[], Flatten([Header(key, Single(Some(v)))])) ==
      map[key := Listed([Inherited(key), Raw(Some(v))])]
  {
    var h := Header(key, Single(Some(v)));
    assert Flatten([h]) == PairsOf(key, [Some(v)]) + Flatten([]);
    RegroupKey(names, map[], key, [Some(v)]);
    assert RawItems([Some(v)]) == [Raw(Some(v))];
  }

  /** A header named toString comes back as an array that starts with a function. */
  lemma InheritedHeader(v: bytes)
    ensures
      var key := Ascii("toString");
      Regroup(INHERITED, map[], Flatten([Header(key, Single(Some(v)))])) == map[key := Listed([Inherited(key), Raw(Some(v))])]
  {
    InheritedKey(INHERITED, Ascii("toString"), v);
  }

  // ------------------------------------------------------------------ reading a record

  /** What a batch tells each of its records. */
  datatype Context = Context(
    firstOffset: int, firstTimestamp: int, partitionLeaderEpoch: int, inTransaction: bool, isControlBatch: bool,
    lastOffsetDelta: int, producerId: int, producerEpoch: int, firstSequence: int, maxTimestamp: int,
    logAppendTime: bool, magicByte: int)

  datatype Message = Message(
    attributes: int, timestamp: int, offset: int, key: Option<bytes>, value: Option<bytes>, headers: Headers,
    isControlRecord: bool, batchContext: Context)

  /** A null key becomes the property name "null". */
  function KeyName(key: Option<bytes>): bytes { if key.None? then Ascii("null") else key.value }

  function ReadPair(b: bytes, o: nat): Read<Pair> {
    var (key, o) :- ReadVarIntBytes(b, o);
    var (value, o) :- ReadVarIntBytes(b, o);
    Ok(Pair(KeyName(key), value), o)
  }

  /** The element loop of readArray and readVarIntArray. */
  function ReadMany<T>(read: (bytes, nat) -> Read<T>, b: bytes, o: nat, n: nat): Read<seq<T>>
    decreases n
  {
    if n == 0 then Ok([], o)
    else
      var (first, o) :- read(b, o);
      var (rest, o) :- ReadMany(read, b, o, n - 1);
      Ok([first] + rest, o)
  }

  /** -1 announces an empty array, a smaller length is not a length. */
  function ReadCounted<T>(read: (bytes, nat) -> Read<T>, b: bytes, o: nat, n: int): Read<seq<T>> {
    if n == -1 then Ok([], o)
    else if n < 0 then Fail(RangeError)
    else ReadMany(read, b, o, n)
  }

  function ReadHeaders(b: bytes, o: nat): Read<seq<Pair>> {
    var (n, o) :- ReadVarInt(b, o);
    ReadCounted(ReadPair, b, o, n)
  }

  function TimestampOf(ctx: Context, delta: int): int {
    if ctx.logAppendTime then ctx.maxTimestamp else ctx.firstTimestamp + delta
  }

  /** The record decoder, on a buffer that holds one record body. */
  function DecodeBody(b: bytes, ctx: Context): Read<Message> {
    var (attributes, o) :- ReadInt8(b, 0);
    var (timestampDelta, o) :- ReadVarLong(b, o);
    var (offsetDelta, o) :- ReadVarInt(b, o);
    var (key, o) :- ReadVarIntBytes(b, o);
    var (value, o) :- ReadVarIntBytes(b, o);
    var (pairs, o) :- ReadHeaders(b, o);
    Ok(Message(attributes, TimestampOf(ctx, timestampDelta), ctx.firstOffset + offsetDelta, key, value,
               Regroup(INHERITED, map[], pairs), ctx.isControlBatch, ctx), o)
  }

  /** decodeRecord: take the announced bytes and decode them on their own. */
  function DecodeRecord(ctx: Context, b: bytes, o: nat): Read<Message> {
    var (body, o) :- ReadVarIntBytes(b, o);
    if body.None? then Fail(TypeError)
    else
      var (message, _) :- DecodeBody(body.value, ctx);
      Ok(message, o)
  }

  // ------------------------------------------------------------------ reading inverts writing

  /** The message a written record comes back as. */
  function MessageOf(r: Record, ctx: Context): Message {
    Message(0, if ctx.logAppendTime then ctx.maxTimestamp else ctx.firstTimestamp + r.timestampDelta,
            ctx.firstOffset + r.offsetDelta, r.key, r.value,
            Regroup(INHERITED, map[], Flatten(r.headers)), ctx.isControlBatch, ctx)
  }

  /** In a log-append batch every record that can be read at all has the batch's maximum timestamp. */
  lemma LogAppendTimestamp(b: bytes, ctx: Context)
    requires ctx.logAppendTime && DecodeBody(b, ctx).Ok?
    ensures DecodeBody(b, ctx).value.timestamp == ctx.maxTimestamp
  {
    hide ReadVarInt, ReadVarLong, ReadInt8, ReadVarIntBytes, ReadHeaders, Regroup, INHERITED;
  }

  lemma SliceHeld(b: bytes, o: nat, part: bytes)
    requires Holds(b, o, part)
    ensures Slice(b, o, |part|) == part
  {
    assert b[o..o + |part|] == part;
  }

  lemma VarIntBytesRoundTrip(b: bytes, o: nat, v: Option<bytes>)
    requires Holds(b, o, VarIntBytesOf(v)) && (v.Some? ==> |v.value| < TWO_31)
    ensures ReadVarIntBytes(b, o) == Ok(v, o + |VarIntBytesOf(v)|)
  {
    hide ReadVarInt, VarIntBytes;
    if v.None? {
      VarIntRoundTrip(b, o, -1);
    } else {
      var length := VarIntBytes(|v.value|);
      HoldsSplit(b, o, length, v.value);
      VarIntRoundTrip(b, o, |v.value|);
      SliceHeld(b, o + |length|, v.value);
    }
  }

  /** A reader that undoes a writer, element by element, undoes it on whole lists. */
  lemma {:induction false} ReadManyInverts<T, U>(
    read: (bytes, nat) -> Read<U>, write: T -> bytes, meaning: T -> U, b: bytes, o: nat, s: seq<T>, parsed: seq<U>)
    requires |parsed| == |s| && forall i | 0 <= i < |s| :: parsed[i] == meaning(s[i])
    requires Holds(b, o, ConcatMap(write, s))
    requires forall x, at: nat | x in s && Holds(b, at, write(x)) :: read(b, at) == Ok(meaning(x), at + |write(x)|)
    ensures ReadMany(read, b, o, |s|) == Ok(parsed, o + |ConcatMap(write, s)|)
    decreases |s|
  {
    hide Holds;
    if s == [] {
      assert parsed == [];
    } else {
      HoldsSplit(b, o, write(s[0]), ConcatMap(write, s[1..]));
      assert s[0] in s;
      ReadManyInverts(read, write, meaning, b, o + |write(s[0])|, s[1..], parsed[1..]);
      assert parsed == [parsed[0]] + parsed[1..];
    }
  }

  lemma PairRoundTrip(b: bytes, o: nat, p: Pair)
    requires Holds(b, o, PairBytes(p)) && |PairBytes(p)| < TWO_31
    ensures ReadPair(b, o) == Ok(p, o + |PairBytes(p)|)
  {
    hide ReadVarIntBytes, VarIntBytesOf, Holds;
    PairSize(p);
    var key := VarIntBytesOf(Some(p.key));
    HoldsSplit(b, o, key, VarIntBytesOf(p.value));
    VarIntBytesRoundTrip(b, o, Some(p.key));
    VarIntBytesRoundTrip(b, o + |key|, p.value);
  }

  function Itself(p: Pair): Pair { p }

  lemma HeaderBytesRoundTrip(b: bytes, o: nat, r: Record)
    requires Holds(b, o, HeaderBytes(r)) && |HeaderBytes(r)| < TWO_31
    ensures ReadHeaders(b, o) == Ok(Flatten(r.headers), o + |HeaderBytes(r)|)
  {
    hide ReadVarInt, VarIntBytes, ReadPair, PairBytes, Flatten, Holds;
    var pairs := Flatten(r.headers);
    PairsSize(pairs);
    var count := VarIntBytes(|pairs|);
    HoldsSplit(b, o, count, ConcatMap(PairBytes, pairs));
    VarIntRoundTrip(b, o, |pairs|);
    forall p, at: nat | p in pairs && Holds(b, at, PairBytes(p))
      ensures ReadPair(b, at) == Ok(Itself(p), at + |PairBytes(p)|)
    {
      PairRoundTrip(b, at, p);
    }
    ReadManyInverts(ReadPair, PairBytes, Itself, b, o + |count|, pairs, pairs);
  }

  lemma HoldsAll(b: bytes)
    ensures Holds(b, 0, b)
  {
    assert b[0..|b|] == b;
  }

  /** Where each field of a body starts. */
  lemma BodyLayout(r: Record, b: bytes)
    requires b == BodyBytes(r)
    ensures
      var o1 := 1;
      var o2 := o1 + |VarLongBytes(r.timestampDelta)|;
      var o3 := o2 + |VarIntBytes(r.offsetDelta)|;
      var o4 := o3 + |VarIntBytesOf(r.key)|;
      var o5 := o4 + |VarIntBytesOf(r.value)|;
      Holds(b, 0, Int8Bytes(0)) && Holds(b, o1, VarLongBytes(r.timestampDelta)) && Holds(b, o2, VarIntBytes(r.offsetDelta))
      && Holds(b, o3, VarIntBytesOf(r.key)) && Holds(b, o4, VarIntBytesOf(r.value)) && Holds(b, o5, HeaderBytes(r))
  {
    hide Holds, VarIntBytes, VarLongBytes, VarIntBytesOf, HeaderBytes;
    var o2 := 1 + |VarLongBytes(r.timestampDelta)|;
    var o3 := o2 + |VarIntBytes(r.offsetDelta)|;
    var o4 := o3 + |VarIntBytesOf(r.key)|;
    var rest4 := VarIntBytesOf(r.value) + HeaderBytes(r);
    var rest3 := VarIntBytesOf(r.key) + rest4;
    var rest2 := VarIntBytes(r.offsetDelta) + rest3;
    HoldsAll(b);
    HoldsSplit(b, 0, Int8Bytes(0), FieldBytes(r));
    HoldsSplit(b, 1, VarLongBytes(r.timestampDelta), rest2);
    HoldsSplit(b, o2, VarIntBytes(r.offsetDelta), rest3);
    HoldsSplit(b, o3, VarIntBytesOf(r.key), rest4);
    HoldsSplit(b, o4, VarIntBytesOf(r.value), HeaderBytes(r));
  }

  lemma BodyRoundTrip(r: Record, ctx: Context)
    requires |BodyBytes(r)| < TWO_31
    ensures DecodeBody(BodyBytes(r), ctx) == Ok(MessageOf(r, ctx), |BodyBytes(r)|)
  {
    hide Holds, ReadVarInt, ReadVarLong, ReadInt8, ReadVarIntBytes, ReadHeaders, Regroup, Flatten, INHERITED, BodyBytes, VarIntBytes, VarLongBytes, VarIntBytesOf, HeaderBytes, Int8Bytes;
    var b := BodyBytes(r);
    BodySizes(r);
    BodyLayout(r, b);
    var o2 := 1 + |VarLongBytes(r.timestampDelta)|;
    var o3 := o2 + |VarIntBytes(r.offsetDelta)|;
    var o4 := o3 + |VarIntBytesOf(r.key)|;
    var o5 := o4 + |VarIntBytesOf(r.value)|;
    Int8RoundTrip(b, 0, 0);
    VarLongRoundTrip(b, 1, r.timestampDelta);
    VarIntRoundTrip(b, o2, r.offsetDelta);
    VarIntBytesRoundTrip(b, o3, r.key);
    VarIntBytesRoundTrip(b, o4, r.value);
    HeaderBytesRoundTrip(b, o5, r);
  }

  lemma BodySizes(r: Record)
    ensures |BodyBytes(r)| == 1 + |VarLongBytes(r.timestampDelta)| + |VarIntBytes(r.offsetDelta)|
      + |VarIntBytesOf(r.key)| + |VarIntBytesOf(r.value)| + |HeaderBytes(r)|
    ensures r.key.Some? ==> |r.key.value| < |BodyBytes(r)|
    ensures r.value.Some? ==> |r.value.value| < |BodyBytes(r)|
  {
    hide VarIntBytes, VarLongBytes, HeaderBytes;
  }

  /** A written record, wherever it sits, reads back as its message. */
  lemma RecordRoundTrip(r: Record, ctx: Context, b: bytes, o: nat)
    requires Holds(b, o, RecordBytes(r)) && |BodyBytes(r)| < TWO_31
    ensures DecodeRecord(ctx, b, o) == Ok(MessageOf(r, ctx), o + |RecordBytes(r)|)
  {
    hide ReadVarIntBytes, DecodeBody, BodyBytes, MessageOf, Holds;
    VarIntBytesRoundTrip(b, o, Some(BodyBytes(r)));
    BodyRoundTrip(r, ctx);
  }

  // ------------------------------------------------------------------ a stored record

  function Prefixed(n: byte, text: string): bytes
  {
    [n] + Ascii(text)
  }

  function Sample(): Record {
    Record(0, 0, Some(Ascii("key-0")), Some(Ascii("some-value-0")), [
      Header(Ascii("header-key-0"), Single(Some(Ascii("header-value-0")))),
      Header(Ascii("header-key-1"), Many([Some(Ascii("header-value-1")), Some(Ascii("header-value-2"))]))])
  }

  /** The stored sample record, byte by byte; its second header has two values and is written twice. */
  lemma SampleOnTheWire()
    ensures BodyBytes(Sample()) ==
      [0] + ([0] + ([0] + (Prefixed(10, "key-0") + (Prefixed(24, "some-value-0") + ([6] + (
      (Prefixed(24, "header-key-0") + Prefixed(28, "header-value-0")) + (
      (Prefixed(24, "header-key-1") + Prefixed(28, "header-value-1")) +
      (Prefixed(24, "header-key-1") + Prefixed(28, "header-value-2")))))))))
  {
    hide Ascii, VarIntBytes, Flatten, UVarIntBytes, ConcatMap, PairBytes, VarIntBytesOf;
    var r := Sample();
    var hk0, hk1 := Ascii("header-key-0"), Ascii("header-key-1");
    var hv0, hv1, hv2 := Ascii("header-value-0"), Ascii("header-value-1"), Ascii("header-value-2");
    SamplePairs(hk0, hv0, hk1, hv1, hv2);
    ShortBytes(Ascii("key-0"));
    ShortBytes(Ascii("some-value-0"));
    ShortNumber(0);
    ShortNumber(3);
    ShortPair(hk0, hv0);
    ShortPair(hk1, hv1);
    ShortPair(hk1, hv2);
    assert VarIntBytesOf(r.key) == Prefixed(10, "key-0");
    assert VarIntBytesOf(r.value) == Prefixed(24, "some-value-0");
    assert PairBytes(Pair(hk0, Some(hv0))) == Prefixed(24, "header-key-0") + Prefixed(28, "header-value-0");
    assert HeaderBytes(r) == [6] + ConcatMap(PairBytes, Flatten(r.headers));
    assert FieldBytes(r) == [0] + ([0] + (VarIntBytesOf(r.key) + (VarIntBytesOf(r.value) + HeaderBytes(r))));
    assert BodyBytes(r) == [0] + FieldBytes(r);
  }

  lemma SamplePairs(k0: bytes, v0: bytes, k1: bytes, v1: bytes, v2: bytes)
    ensures
      var pairs := Flatten([Header(k0, Single(Some(v0))), Header(k1, Many([Some(v1), Some(v2)]))]);
      && |pairs| == 3
      && ConcatMap(PairBytes, pairs)
         == PairBytes(Pair(k0, Some(v0))) + (PairBytes(Pair(k1, Some(v1))) + PairBytes(Pair(k1, Some(v2))))
  {
    hide PairBytes;
    var h0, h1 := Header(k0, Single(Some(v0))), Header(k1, Many([Some(v1), Some(v2)]));
    var p0, p1, p2 := Pair(k0, Some(v0)), Pair(k1, Some(v1)), Pair(k1, Some(v2));
    assert [h0, h1][1..] == [h1] && [h1][1..] == [];
    assert PairsOf(k1, [Some(v2)]) == [p2];
    assert [Some(v1), Some(v2)][1..] == [Some(v2)];
    assert Flatten([h1]) == [p1, p2];
    assert Flatten([h0, h1]) == [p0, p1, p2];
    assert [p0, p1, p2][1..] == [p1, p2] && [p1, p2][1..] == [p2] && [p2][1..] == [];
    assert ConcatMap(PairBytes, [p2]) == PairBytes(p2);
    assert ConcatMap(PairBytes, [p1, p2]) == PairBytes(p1) + PairBytes(p2);
  }

  /** Below 64 a number takes one byte, its double. */
  lemma ShortNumber(n: nat)
    requires n < 64
    ensures VarIntBytes(n) == VarLongBytes(n) == [2 * n]
  {}

  lemma ShortBytes(b: bytes)
    requires |b| < 64
    ensures VarIntBytesOf(Some(b)) == [2 * |b|] + b
  {
    ShortNumber(|b|);
  }

  lemma ShortPair(k: bytes, v: bytes)
    requires |k| < 64 && |v| < 64
    ensures PairBytes(Pair(k, Some(v))) == ([2 * |k|] + k) + ([2 * |v|] + v)
  {
    ShortBytes(k);
    ShortBytes(v);
  }
}
