/**
  Records of the v2 message format (section 5.3.2 of the Apache Kafka documentation): the
  writer with its size computed in advance, and the reader with its header regrouping.
 */
module Records {
  import opened Bits
  import opened Wire
  import opened Varint
  import opened Encoding

  // ------------------------------------------------------------------ what is written

  /** A header property: one value, or an array of values. A null value is None. */
  datatype HeaderValue = Single(value: Option<bytes>) | Many(values: seq<Option<bytes>>) {
    function Values(): seq<Option<bytes>> {
      if Single? then [value] else values
    }
  }

  /** A header object as its own properties in key order; keys are UTF-8. */
  datatype Header = Header(key: bytes, value: HeaderValue)

  datatype Record = Record(
    offsetDelta: int32, timestampDelta: int64, key: Option<bytes>, value: Option<bytes>, headers: seq<Header>)

  /** One key-value pair on the wire. */
  datatype Pair = Pair(key: bytes, value: Option<bytes>)

  function PairsOf(key: bytes, values: seq<Option<bytes>>): (r: seq<Pair>)
    ensures |r| == |values|
  {
    if values == [] then [] else [Pair(key, values[0])] + PairsOf(key, values[1..])
  }

  function Flatten(headers: seq<Header>): seq<Pair> {
    if headers == [] then [] else PairsOf(headers[0].key, headers[0].value.Values()) + Flatten(headers[1..])
  }

  function PairBytes(p: Pair): bytes {
    VarIntBytesOf(Some(p.key)) + VarIntBytesOf(p.value)
  }

  function HeaderBytes(r: Record): bytes {
    VarIntBytes(|Flatten(r.headers)|) + ConcatMap(PairBytes, Flatten(r.headers))
  }

  /** The fields after the attributes byte. */
  function FieldBytes(r: Record): bytes {
    VarLongBytes(r.timestampDelta) + (VarIntBytes(r.offsetDelta)
    + (VarIntBytesOf(r.key) + (VarIntBytesOf(r.value) + HeaderBytes(r))))
  }

  function BodyBytes(r: Record): bytes { Int8Bytes(0) + FieldBytes(r) }

  /** A record announces the length of its body. */
  function RecordBytes(r: Record): bytes {
    VarIntBytes(|BodyBytes(r)|) + BodyBytes(r)
  }

  // ------------------------------------------------------------------ lengths

  /** A length-prefixed value is longer than the value. */
  lemma PairSize(p: Pair)
    ensures |PairBytes(p)| >= 2 && |PairBytes(p)| > |p.key|
    ensures p.value.Some? ==> |PairBytes(p)| > |p.key| + |p.value.value|
  {}

  /** Each pair, and the number of pairs, is bounded by the bytes of all of them. */
  lemma {:induction false} PairsSize(ps: seq<Pair>)
    ensures |ps| <= |ConcatMap(PairBytes, ps)|
    ensures forall p | p in ps :: |PairBytes(p)| <= |ConcatMap(PairBytes, ps)|
  {
    if ps != [] {
      PairSize(ps[0]);
      PairsSize(ps[1..]);
    }
  }

  // ------------------------------------------------------------------ the writer

  ghost predicate NoNull(ps: seq<Pair>) { forall p | p in ps :: p.value.Some? }

  /**
    sizeOfHeaders. `Buffer.byteLength` of a null value throws, so a null header value is
    an error before its own branch is reached.
   */
  method SizeOfHeaders(pairs: seq<Pair>, ghost parts: seq<bytes>) returns (size: Option<nat>)
    requires |parts| == |pairs| < TWO_31 && |Flat(parts)| < TWO_31
    requires forall i | 0 <= i < |pairs| :: parts[i] == PairBytes(pairs[i])
    ensures size.Some? <==> NoNull(pairs)
    ensures size.Some? ==> size.value == |VarIntBytes(|pairs|)| + |Flat(parts)|
  {
    var total := SizeOfVarInt(|pairs|);
    for i := 0 to |pairs|
      invariant NoNull(pairs[..i])
      invariant total == |VarIntBytes(|pairs|)| + |Flat(parts[..i])|
    {
      if pairs[i].value.None? {
        return None;
      }
      FlatStep(parts, i);
      var size := SizeOfPair(pairs[i]);
      total := total + size;
    }
    assert pairs[..|pairs|] == pairs && parts[..|pairs|] == parts;
    size := Some(total);
  }

  method SizeOfPair(pair: Pair) returns (size: nat)
    requires pair.value.Some? && |PairBytes(pair)| < TWO_31
    ensures size == |PairBytes(pair)|
  {
    PairSize(pair);
    var keySize, valueSize := |pair.key|, |pair.value.value|;
    size := SizeOfVarInt(keySize);
    size := size + keySize;
    var forValue := SizeOfVarInt(valueSize);
    size := size + forValue + valueSize;
  }

  /** The header encoder: key string, then value bytes. */
  method EncodePair(pair: Pair) returns (part: bytes)
    requires |PairBytes(pair)| + 16 < MAX_SIZE
    ensures part == PairBytes(pair)
  {
    hide Amortized, Grow, GrowAll, CapacityFor;
    hide VarIntBytes;
    PairSize(pair);
    var e := new Encoder();
    e.WriteVarIntBytes(Some(pair.key));
    e.WriteVarIntBytes(pair.value);
    part := e.Buffer();
  }

  /** headersArray.map(Header) */
  method EncodePairs(pairs: seq<Pair>) returns (parts: seq<bytes>)
    requires |ConcatMap(PairBytes, pairs)| + 16 < MAX_SIZE
    ensures |parts| == |pairs| && forall i | 0 <= i < |pairs| :: parts[i] == PairBytes(pairs[i])
  {
    hide PairBytes;
    PairsSize(pairs);
    parts := [];
    for i := 0 to |pairs|
      invariant |parts| == i && forall k | 0 <= k < i :: parts[k] == PairBytes(pairs[k])
    {
      assert pairs[i] in pairs;
      var part := EncodePair(pairs[i]);
      parts := parts + [part];
    }
  }

  /** sizeOfBody: the length of the body, added up before anything is written. */
  method SizeOfBody(r: Record, ghost parts: seq<bytes>) returns (size: Option<nat>)
    requires |BodyBytes(r)| < TWO_31
    requires |parts| == |Flatten(r.headers)| < TWO_31
    requires forall i | 0 <= i < |parts| :: parts[i] == PairBytes(Flatten(r.headers)[i])
    requires HeaderBytes(r) == VarIntBytes(|parts|) + Flat(parts)
    ensures size.Some? <==> NoNull(Flatten(r.headers))
    ensures size.Some? ==> size.value == |BodyBytes(r)|
  {
    var total := SizeOfVarLong(r.timestampDelta);
    var part := SizeOfVarInt(r.offsetDelta);
    total := 1 + total + part;
    part := SizeOfVarIntBytes(r.key);
    total := total + part;
    part := SizeOfVarIntBytes(r.value);
    total := total + part;
    var headers := SizeOfHeaders(Flatten(r.headers), parts);
    size := if headers.None? then None else Some(total + headers.value);
  }

  /**
    The record writer. The length prefix is computed before anything is written and equals
    the bytes then written; a null header value throws instead.
   */
  method EncodeRecord(r: Record) returns (encoded: Option<bytes>)
    requires |BodyBytes(r)| + 32 < MAX_SIZE
    ensures encoded == if NoNull(Flatten(r.headers)) then Some(RecordBytes(r)) else None
  {
    var pairs := Flatten(r.headers);
    HeadersFit(r);
    var parts := EncodePairs(pairs);
    ConcatMapIsFlat(PairBytes, pairs, parts);
    var sizeOfBody := SizeOfBody(r, parts);
    if sizeOfBody.None? {
      return None;
    }
    var written := WriteRecord(r, sizeOfBody.value, parts, FieldBytes(r));
    encoded := Some(written);
  }

  method WriteRecord(r: Record, sizeOfBody: nat, parts: seq<bytes>, ghost fields: bytes) returns (written: bytes)
    requires sizeOfBody == 1 + |fields| && sizeOfBody + 32 < MAX_SIZE && fields == FieldBytes(r)
    requires HeaderBytes(r) == VarIntBytes(|parts|) + Flat(parts) && |parts| < TWO_31
    ensures written == VarIntBytes(sizeOfBody) + (Int8Bytes(0) + fields)
  {
    var e := NewRecord(sizeOfBody);
    Assoc(VarIntBytes(sizeOfBody), Int8Bytes(0), fields);
    WriteFields(e, r, parts, fields);
    written := e.Buffer();
  }

  method NewRecord(sizeOfBody: nat) returns (e: Encoder)
    requires sizeOfBody < TWO_31
    ensures fresh(e) && fresh(e.buf) && e.Valid()
    ensures e.Contents == VarIntBytes(sizeOfBody) + Int8Bytes(0) && |e.Contents| <= 6
  {
    hide Amortized, Grow, GrowAll, CapacityFor;
    e := new Encoder();
    VarintSizes(sizeOfBody, 0, 0);
    e.WriteVarInt(sizeOfBody);
    e.WriteInt8(0);
  }

  lemma HeadersFit(r: Record)
    ensures |Flatten(r.headers)| <= |ConcatMap(PairBytes, Flatten(r.headers))| <= |BodyBytes(r)|
  {
    PairsSize(Flatten(r.headers));
  }

  method WriteFields(e: Encoder, r: Record, parts: seq<bytes>, ghost fields: bytes)
    requires e.Valid() && |e.Contents| + |fields| + 20 < MAX_SIZE && fields == FieldBytes(r)
    requires HeaderBytes(r) == VarIntBytes(|parts|) + Flat(parts) && |parts| < TWO_31
    modifies e, e.buf
    ensures e.Valid() && (e.buf == old(e.buf) || fresh(e.buf))
    ensures e.Contents == old(e.Contents) + fields
  {
    hide Amortized, Grow, GrowAll, CapacityFor;
    hide VarIntBytes, VarLongBytes, Flat;
    e.WriteVarLong(r.timestampDelta);
    e.WriteVarInt(r.offsetDelta);
    e.WriteVarIntBytes(r.key);
    e.WriteVarIntBytes(r.value);
    e.WriteVarInt(|parts|);
    e.WriteEncoderArray(parts);
    FieldsJoin(old(e.Contents), r, VarIntBytes(|parts|), Flat(parts));
  }

  lemma FieldsJoin(before: bytes, r: Record, count: bytes, flat: bytes)
    requires HeaderBytes(r) == count + flat
    ensures before + VarLongBytes(r.timestampDelta) + VarIntBytes(r.offsetDelta) + VarIntBytesOf(r.key)
      + VarIntBytesOf(r.value) + count + flat == before + FieldBytes(r)
  {
    hide VarLongBytes, VarIntBytes, VarIntBytesOf, HeaderBytes;
    JoinFive(before, VarLongBytes(r.timestampDelta), VarIntBytes(r.offsetDelta), VarIntBytesOf(r.key), VarIntBytesOf(r.value),
             count, flat);
  }

  lemma JoinFive(before: bytes, a: bytes, b: bytes, c: bytes, d: bytes, e: bytes, f: bytes)
    ensures before + a + b + c + d + e + f == before + (a + (b + (c + (d + (e + f)))))
  {
    Assoc(before + a + b + c + d, e, f);
    Assoc(before + a + b + c, d, e + f);
    Assoc(before + a + b, c, d + (e + f));
    Assoc(before + a, b, c + (d + (e + f)));
    Assoc(before, a, b + (c + (d + (e + f))));
  }
}
