/**
  Record batches (section 5.3.1 of the Apache Kafka documentation), uncompressed: the writer
  with its length and checksum envelope, the reader, and the fetch loop over concatenated
  batches whose last one may be cut off.
 */
module RecordBatches {
  import opened Bits
  import opened Wire
  import opened Varint
  import opened Records
  import opened RecordReading
  import Crc32C

  const MAGIC_BYTE := 2

  datatype Batch = Batch(
    firstOffset: int64, firstTimestamp: int64, maxTimestamp: int64, partitionLeaderEpoch: int32, lastOffsetDelta: int32,
    transactional: bool, producerId: int64, producerEpoch: int16, firstSequence: int32, records: seq<Record>)

  // ------------------------------------------------------------------ writing

  /** compression bits | timestamp bit | transactional bit */
  function Attributes(b: Batch): int {
    JsOr(JsOr(JsAnd(0, 0x07), 0), if b.transactional then 16 else 0)
  }

  /** The bytes as the checksum takes them, one by one. */
  function Octets(data: bytes): (r: seq<bv8>)
    ensures |r| == |data| && forall i | 0 <= i < |r| :: r[i] == data[i] as bv8
  {
    seq(|data|, i requires 0 <= i < |data| => data[i] as bv8)
  }

  function Checksum(data: bytes): int { Crc32C.Checksum(Octets(data)) as int }

  function RecordsPart(b: Batch): bytes { Int32Bytes(|b.records|) + ConcatMap(RecordBytes, b.records) }

  /** Everything the checksum covers. */
  function BodyPart(b: Batch): bytes {
    Int16Bytes(Attributes(b)) + (Int32Bytes(b.lastOffsetDelta) + (Int64Bytes(b.firstTimestamp)
    + (Int64Bytes(b.maxTimestamp) + (Int64Bytes(b.producerId) + (Int16Bytes(b.producerEpoch)
    + (Int32Bytes(b.firstSequence) + RecordsPart(b)))))))
  }

  /** Everything the length covers. */
  function Envelope(b: Batch): bytes {
    Int32Bytes(b.partitionLeaderEpoch) + (Int8Bytes(MAGIC_BYTE) + (Int32Bytes(Checksum(BodyPart(b))) + BodyPart(b)))
  }

  function BatchBytes(b: Batch): bytes { Int64Bytes(b.firstOffset) + (Int32Bytes(|Envelope(b)|) + Envelope(b)) }

  // ------------------------------------------------------------------ reading

  datatype DecodedBatch = DecodedBatch(context: Context, records: seq<Message>)

  /** The fixed part of an envelope: the context of its records and the attributes. */
  function DecodeContext(b: bytes, firstOffset: int): Read<(Context, int)> {
    var (partitionLeaderEpoch, o) :- ReadInt32(b, 0);
    var (magicByte, o) :- ReadInt8(b, o);
    var (_, o) :- ReadInt32(b, o); // the checksum is not validated
    var (attributes, o) :- ReadInt16(b, o);
    var (lastOffsetDelta, o) :- ReadInt32(b, o);
    var (firstTimestamp, o) :- ReadInt64(b, o);
    var (maxTimestamp, o) :- ReadInt64(b, o);
    var (producerId, o) :- ReadInt64(b, o);
    var (producerEpoch, o) :- ReadInt16(b, o);
    var (firstSequence, o) :- ReadInt32(b, o);
    Ok((ContextFrom(firstOffset, firstTimestamp, partitionLeaderEpoch, attributes, lastOffsetDelta, producerId,
                    producerEpoch, firstSequence, maxTimestamp, magicByte), attributes), o)
  }

  /** The flags are single bits of the attributes. */
  function ContextFrom(firstOffset: int, firstTimestamp: int, partitionLeaderEpoch: int, attributes: int,
                       lastOffsetDelta: int, producerId: int, producerEpoch: int, firstSequence: int,
                       maxTimestamp: int, magicByte: int): Context {
    Context(firstOffset, firstTimestamp, partitionLeaderEpoch, JsAnd(attributes, 0x10) > 0, JsAnd(attributes, 0x20) > 0,
            lastOffsetDelta, producerId, producerEpoch, firstSequence, maxTimestamp, JsAnd(attributes, 0x8) > 0, magicByte)
  }

  /** Bit k of a two's-complement number, as a mask selects it. */
  lemma {:induction false} SelectBit(k: nat, x: int)
    ensures And(x, Pow2(k)) == Pow2(k) * ((x / Pow2(k)) % 2)
  {
    hide And;
    if k == 0 {
      AndOne(x);
    } else {
      var m := Pow2(k - 1);
      ModStep(x, m);
      AndStep(x, 2 * m);
      SelectBit(k - 1, x / 2);
    }
  }

  lemma AttributeBit(attributes: int16, mask: int32, k: nat)
    requires mask == Pow2(k)
    ensures JsAnd(attributes, mask) > 0 <==> (attributes / mask) % 2 == 1
  {
    hide And;
    WrapOf(attributes);
    WrapOf(mask);
    SelectBit(k, attributes);
  }

  /** Bits 4, 5 and 3 of the attributes decide the flags, the low three bits whether a codec is used. */
  lemma FlagBits(firstOffset: int, firstTimestamp: int, partitionLeaderEpoch: int, attributes: int16,
                 lastOffsetDelta: int, producerId: int, producerEpoch: int, firstSequence: int,
                 maxTimestamp: int, magicByte: int)
    ensures
      var ctx := ContextFrom(firstOffset, firstTimestamp, partitionLeaderEpoch, attributes, lastOffsetDelta, producerId,
                             producerEpoch, firstSequence, maxTimestamp, magicByte);
      && (ctx.inTransaction <==> (attributes / 16) % 2 == 1)
      && (ctx.isControlBatch <==> (attributes / 32) % 2 == 1)
      && (ctx.logAppendTime <==> (attributes / 8) % 2 == 1)
    ensures Compressed(attributes) <==> 1 <= attributes % 8 <= 4
  {
    hide And, JsAnd;
    assert Pow2(3) == 8 && Pow2(4) == 16 && Pow2(5) == 32;
    AttributeBit(attributes, 16, 4);
    AttributeBit(attributes, 32, 5);
    AttributeBit(attributes, 8, 3);
    LowThreeBits(attributes);
  }

  lemma LowThreeBits(attributes: int16)
    ensures JsAnd(attributes, 7) == attributes % 8
  {
    hide And;
    WrapOf(attributes);
    WrapOf(7);
    assert Pow2(3) == 8;
    AndLowMask(3, attributes);
  }

  /** Codecs 1 to 4 decompress (or refuse to); any other low three bits mean uncompressed. */
  predicate Compressed(attributes: int) { 1 <= JsAnd(attributes, 0x07) <= 4 }

  function RecordReader(ctx: Context): (bytes, nat) -> Read<Message> {
    (b: bytes, o: nat) => DecodeRecord(ctx, b, o)
  }

  function DecodeEnvelope(b: bytes, firstOffset: int): Read<DecodedBatch> {
    var (header, o) :- DecodeContext(b, firstOffset);
    if Compressed(header.1) then Fail(CompressedBatch)
    else
      var (n, o) :- ReadInt32(b, o);
      var (records, o) :- ReadCounted(RecordReader(header.0), b, o, n);
      Ok(DecodedBatch(header.0, records), o)
  }

  /** The batch decoder: the cursor moves past the announced length, complete or not. */
  function DecodeBatch(b: bytes, o: nat): (r: Read<DecodedBatch>)
    ensures r.Ok? ==> o < r.next <= |b|
  {
    var (firstOffset, o) :- ReadInt64(b, o);
    var (length, o) :- ReadInt32(b, o);
    if length < 0 then Fail(NegativeLength)
    else
      var envelope := Slice(b, o, length);
      if |envelope| < length then Fail(PartialBatch)
      else
        var (batch, _) :- DecodeEnvelope(envelope, firstOffset);
        Ok(batch, o + length)
  }

  // ------------------------------------------------------------------ reading inverts writing

  /** The context a written batch comes back with. */
  function ContextOf(b: Batch): Context {
    Context(b.firstOffset, b.firstTimestamp, b.partitionLeaderEpoch, b.transactional, false, b.lastOffsetDelta,
            b.producerId, b.producerEpoch, b.firstSequence, b.maxTimestamp, false, MAGIC_BYTE)
  }

  function Meaning(ctx: Context): Record -> Message { (r: Record) => MessageOf(r, ctx) }

  function DecodedOf(b: Batch): DecodedBatch { DecodedBatch(ContextOf(b), Map(Meaning(ContextOf(b)), b.records)) }

  lemma AttributeBits(b: Batch)
    ensures Attributes(b) == if b.transactional then 16 else 0
    ensures (JsAnd(Attributes(b), 0x10) > 0) == b.transactional
    ensures JsAnd(Attributes(b), 0x20) == 0 && JsAnd(Attributes(b), 0x8) == 0 && JsAnd(Attributes(b), 0x07) == 0
  {
    assert Attributes(b) == if b.transactional then 16 else 0;
  }

  ghost predicate Fits(b: Batch) { |Envelope(b)| < TWO_31 }

  lemma EnvelopeSize(b: Batch)
    ensures |Envelope(b)| == 49 + |ConcatMap(RecordBytes, b.records)|
    ensures |BatchBytes(b)| == 12 + |Envelope(b)|
  {
    hide Int32Bytes, Int64Bytes, ConcatMap, Checksum, Attributes;
  }

  /** Fixed offsets of the fields after the checksum, in an envelope that starts at 0. */
  lemma BodyLayout(b: Batch, e: bytes)
    requires Holds(e, 9, BodyPart(b))
    ensures Holds(e, 9, Int16Bytes(Attributes(b))) && Holds(e, 11, Int32Bytes(b.lastOffsetDelta))
    ensures Holds(e, 15, Int64Bytes(b.firstTimestamp)) && Holds(e, 23, Int64Bytes(b.maxTimestamp))
    ensures Holds(e, 31, Int64Bytes(b.producerId)) && Holds(e, 39, Int16Bytes(b.producerEpoch))
    ensures Holds(e, 41, Int32Bytes(b.firstSequence)) && Holds(e, 45, RecordsPart(b))
  {
    hide Holds, Int32Bytes, Int64Bytes, RecordsPart, Attributes;
    var rest7 := Int32Bytes(b.firstSequence) + RecordsPart(b);
    var rest6 := Int16Bytes(b.producerEpoch) + rest7;
    var rest5 := Int64Bytes(b.producerId) + rest6;
    var rest4 := Int64Bytes(b.maxTimestamp) + rest5;
    var rest3 := Int64Bytes(b.firstTimestamp) + rest4;
    var rest2 := Int32Bytes(b.lastOffsetDelta) + rest3;
    HoldsSplit(e, 9, Int16Bytes(Attributes(b)), rest2);
    HoldsSplit(e, 11, Int32Bytes(b.lastOffsetDelta), rest3);
    HoldsSplit(e, 15, Int64Bytes(b.firstTimestamp), rest4);
    HoldsSplit(e, 23, Int64Bytes(b.maxTimestamp), rest5);
    HoldsSplit(e, 31, Int64Bytes(b.producerId), rest6);
    HoldsSplit(e, 39, Int16Bytes(b.producerEpoch), rest7);
    HoldsSplit(e, 41, Int32Bytes(b.firstSequence), RecordsPart(b));
  }

  lemma EnvelopeLayout(b: Batch, e: bytes)
    requires e == Envelope(b)
    ensures Holds(e, 0, Int32Bytes(b.partitionLeaderEpoch)) && Holds(e, 4, Int8Bytes(MAGIC_BYTE))
    ensures Holds(e, 5, Int32Bytes(Checksum(BodyPart(b)))) && Holds(e, 9, BodyPart(b))
  {
    hide Holds, Int32Bytes, BodyPart, Checksum;
    HoldsAll(e);
    var crc := Int32Bytes(Checksum(BodyPart(b)));
    HoldsSplit(e, 0, Int32Bytes(b.partitionLeaderEpoch), Int8Bytes(MAGIC_BYTE) + (crc + BodyPart(b)));
    HoldsSplit(e, 4, Int8Bytes(MAGIC_BYTE), crc + BodyPart(b));
    HoldsSplit(e, 5, crc, BodyPart(b));
  }

  lemma ReadInt32Total(b: bytes, o: nat)
    requires o + 4 <= |b|
    ensures ReadInt32(b, o).Ok? && ReadInt32(b, o).next == o + 4
  {}

  lemma ContextOfWritten(b: Batch)
    ensures ContextFrom(b.firstOffset, b.firstTimestamp, b.partitionLeaderEpoch, Attributes(b), b.lastOffsetDelta, b.producerId,
                        b.producerEpoch, b.firstSequence, b.maxTimestamp, MAGIC_BYTE) == ContextOf(b)
  {
    hide Attributes, JsAnd;
    AttributeBits(b);
  }

  lemma ContextRoundTrip(b: Batch, e: bytes)
    requires e == Envelope(b)
    ensures DecodeContext(e, b.firstOffset) == Ok((ContextOf(b), Attributes(b)), 45)
  {
    hide Holds, ReadInt8, ReadInt16, ReadInt32, ReadInt64, Int32Bytes, Int64Bytes, Int16Bytes, Int8Bytes, Envelope,
         Attributes, JsAnd, BodyPart, Checksum, Octets, ContextFrom;
    EnvelopeSize(b);
    EnvelopeLayout(b, e);
    BodyLayout(b, e);
    AttributeBits(b);
    ContextOfWritten(b);
    Int32RoundTrip(e, 0, b.partitionLeaderEpoch);
    Int8RoundTrip(e, 4, MAGIC_BYTE);
    ReadInt32Total(e, 5);
    Int16RoundTrip(e, 9, Attributes(b));
    Int32RoundTrip(e, 11, b.lastOffsetDelta);
    Int64RoundTrip(e, 15, b.firstTimestamp);
    Int64RoundTrip(e, 23, b.maxTimestamp);
    Int64RoundTrip(e, 31, b.producerId);
    Int16RoundTrip(e, 39, b.producerEpoch);
    Int32RoundTrip(e, 41, b.firstSequence);
  }

  /** Each record, and the number of records, is bounded by the bytes of all of them. */
  lemma {:induction false} RecordsSize(rs: seq<Record>)
    ensures |rs| <= |ConcatMap(RecordBytes, rs)|
    ensures forall r | r in rs :: |BodyBytes(r)| < |ConcatMap(RecordBytes, rs)|
  {
    if rs != [] {
      RecordSize(rs[0]);
      RecordsSize(rs[1..]);
    }
  }

  lemma RecordSize(r: Record)
    ensures |RecordBytes(r)| > |BodyBytes(r)|
  {
    hide BodyBytes;
  }

  lemma RecordsRoundTrip(b: Batch, e: bytes)
    requires Holds(e, 45, RecordsPart(b)) && |RecordsPart(b)| < TWO_31
    ensures ReadInt32(e, 45) == Ok(|b.records|, 49)
    ensures ReadMany(RecordReader(ContextOf(b)), e, 49, |b.records|) ==
      Ok(DecodedOf(b).records, 49 + |ConcatMap(RecordBytes, b.records)|)
  {
    hide Holds, ReadInt32, Int32Bytes, RecordBytes, BodyBytes, DecodeRecord, MessageOf;
    var rs, ctx := b.records, ContextOf(b);
    HoldsSplit(e, 45, Int32Bytes(|rs|), ConcatMap(RecordBytes, rs));
    RecordsSize(rs);
    Int32RoundTrip(e, 45, |rs|);
    forall r, at: nat | r in rs && Holds(e, at, RecordBytes(r))
      ensures RecordReader(ctx)(e, at) == Ok(Meaning(ctx)(r), at + |RecordBytes(r)|)
    {
      RecordRoundTrip(r, ctx, e, at);
    }
    ReadManyInverts(RecordReader(ctx), RecordBytes, Meaning(ctx), e, 49, rs, Map(Meaning(ctx), rs));
  }

  lemma EnvelopeRoundTrip(b: Batch, e: bytes)
    requires e == Envelope(b) && Fits(b)
    ensures DecodeEnvelope(e, b.firstOffset) == Ok(DecodedOf(b), |e|)
  {
    hide Holds, DecodeContext, ReadInt32, ReadMany, Int32Bytes, Attributes, Envelope, BodyPart, JsAnd, ConcatMap,
         RecordBytes, Map, Meaning, RecordReader, ContextOf;
    EnvelopeSize(b);
    EnvelopeLayout(b, e);
    BodyLayout(b, e);
    ContextRoundTrip(b, e);
    AttributeBits(b);
    RecordsRoundTrip(b, e);
  }

  lemma BatchLayout(b: Batch, s: bytes, o: nat)
    requires Holds(s, o, BatchBytes(b))
    ensures Holds(s, o, Int64Bytes(b.firstOffset)) && Holds(s, o + 8, Int32Bytes(|Envelope(b)|))
    ensures Holds(s, o + 12, Envelope(b))
  {
    hide Holds, Int32Bytes, Int64Bytes, Envelope;
    HoldsSplit(s, o, Int64Bytes(b.firstOffset), Int32Bytes(|Envelope(b)|) + Envelope(b));
    HoldsSplit(s, o + 8, Int32Bytes(|Envelope(b)|), Envelope(b));
  }

  /**
    Decoding an encoded batch, wherever it sits in a buffer, returns its header fields, its
    transactional flag and its records, and consumes exactly its bytes.
   */
  lemma BatchRoundTrip(b: Batch, s: bytes, o: nat)
    requires Holds(s, o, BatchBytes(b)) && Fits(b)
    ensures DecodeBatch(s, o) == Ok(DecodedOf(b), o + |BatchBytes(b)|)
  {
    hide Holds, ReadInt32, ReadInt64, Int32Bytes, Int64Bytes, Envelope, DecodeEnvelope, Slice, DecodedOf, BatchBytes,
         ConcatMap, RecordBytes;
    BatchLayout(b, s, o);
    EnvelopeSize(b);
    Int64RoundTrip(s, o, b.firstOffset);
    Int32RoundTrip(s, o + 8, |Envelope(b)|);
    SliceHeld(s, o + 12, Envelope(b));
    EnvelopeRoundTrip(b, Envelope(b));
  }

  /** What reads back, field by field and record by record. */
  lemma BatchReadsBack(b: Batch, s: bytes, o: nat)
    requires Holds(s, o, BatchBytes(b)) && Fits(b)
    ensures
      var r := DecodeBatch(s, o);
      r.Ok? && r.next == o + |BatchBytes(b)| &&
      var ctx, records := r.value.context, r.value.records;
      && ctx.firstOffset == b.firstOffset && ctx.firstTimestamp == b.firstTimestamp && ctx.maxTimestamp == b.maxTimestamp
      && ctx.partitionLeaderEpoch == b.partitionLeaderEpoch && ctx.lastOffsetDelta == b.lastOffsetDelta
      && ctx.producerId == b.producerId && ctx.producerEpoch == b.producerEpoch && ctx.firstSequence == b.firstSequence
      && (ctx.inTransaction <==> b.transactional) && !ctx.isControlBatch && !ctx.logAppendTime && ctx.magicByte == 2
      && |records| == |b.records|
      && forall i | 0 <= i < |records| ::
           && records[i].offset == b.firstOffset + b.records[i].offsetDelta
           && records[i].timestamp == b.firstTimestamp + b.records[i].timestampDelta
           && records[i].key == b.records[i].key && records[i].value == b.records[i].value
           && !records[i].isControlRecord && records[i].batchContext == ctx
           && HeadersRead(b.records[i].headers, records[i].headers)
  {
    hide Holds, DecodeBatch, BatchBytes, Regroup, INHERITED, Flatten;
    BatchRoundTrip(b, s, o);
    forall i | 0 <= i < |b.records| ensures HeadersRead(b.records[i].headers, Regroup(INHERITED, map[], Flatten(b.records[i].headers))) {
      HeadersReadBack(b.records[i].headers);
    }
  }

  /** Distinct header keys, none of them an inherited name, come back with their values. */
  ghost predicate HeadersRead(written: seq<Header>, read: Headers) {
    DistinctKeys(written) && (forall h | h in written :: h.key !in INHERITED) ==> Faithful(written, read)
  }

  lemma HeadersReadBack(hs: seq<Header>)
    ensures HeadersRead(hs, Regroup(INHERITED, map[], Flatten(hs)))
  {
    hide Faithful, INHERITED;
    if DistinctKeys(hs) { HeadersRoundTrip(hs); }
  }

  /** Bytes 17 to 20 of a written batch are the checksum of everything after them. */
  lemma ChecksumCoversTheRest(b: Batch)
    ensures
      var s := BatchBytes(b);
      21 <= |s| && s[17..21] == Int32Bytes(Crc32C.Checksum(Octets(s[21..])) as int)
  {
    hide Int32Bytes, Int64Bytes, BodyPart, Octets;
    var s, e := BatchBytes(b), Envelope(b);
    var head := Int64Bytes(b.firstOffset) + Int32Bytes(|e|);
    assert s == head + e;
    var start := Int32Bytes(b.partitionLeaderEpoch) + Int8Bytes(MAGIC_BYTE);
    var crc := Int32Bytes(Checksum(BodyPart(b)));
    assert e == start + (crc + BodyPart(b));
    assert s[17..21] == crc && s[21..] == BodyPart(b);
  }

  /** After complete batches, a batch that fails for another reason than being cut off makes the loop throw. */
  lemma {:induction false} FetchLoopThrows(bs: seq<Batch>, b: bytes, o: nat, end: nat, error: Error)
    requires (forall x | x in bs :: Fits(x)) && Holds(b, o, ConcatMap(BatchBytes, bs)) && end == o + |ConcatMap(BatchBytes, bs)|
    requires |b| - end >= RECORD_BATCH_OVERHEAD && DecodeBatch(b, end) == Fail(error) && error != PartialBatch
    ensures FetchLoop(b, o) == Threw(error)
    decreases |bs|
  {
    hide Holds, DecodeBatch, BatchBytes, DecodedOf, Fits;
    if bs != [] {
      var first := BatchBytes(bs[0]);
      HoldsSplit(b, o, first, ConcatMap(BatchBytes, bs[1..]));
      assert |first| >= RECORD_BATCH_OVERHEAD by { EnvelopeSize(bs[0]); }
      BatchRoundTrip(bs[0], b, o);
      FetchLoopThrows(bs[1..], b, o + |first|, end, error);
    }
  }

  // ------------------------------------------------------------------ the fetch loop

  const MAGIC_OFFSET := 16
  const RECORD_BATCH_OVERHEAD := 49

  datatype Fetched = Fetched(messages: seq<Message>) | Threw(error: Error) | LegacyMessageSet

  function FetchLoop(b: bytes, o: nat): Fetched
    decreases |b| - o
  {
    if |b| - o < RECORD_BATCH_OVERHEAD then Fetched([])
    else
      match DecodeBatch(b, o)
      case Ok(batch, next) =>
        var rest := FetchLoop(b, next);
        if rest.Fetched? then Fetched(batch.records + rest.messages) else rest
      case Fail(error) => if error.PartialBatch? then Fetched([]) else Threw(error)
  }

  /** decodeMessages on the bytes that follow the cursor. */
  function DecodeMessages(b: bytes, o: nat): Fetched {
    var size := ReadUVarInt(b, o);
    if size.Fail? then Threw(size.error)
    else
      var messagesSize := size.value - 1;
      if messagesSize <= 0 || |b| - size.next < messagesSize then Fetched([])
      else DecodeBuffer(Slice(b, size.next, messagesSize))
  }

  /** The magic byte is read before the loop looks at the size. */
  function DecodeBuffer(m: bytes): Fetched {
    if |m| <= MAGIC_OFFSET then Threw(RangeError)
    else if m[MAGIC_OFFSET] == MAGIC_BYTE then FetchLoop(m, 0)
    else LegacyMessageSet
  }

  function AllMessages(bs: seq<Batch>): seq<Message> {
    if bs == [] then [] else DecodedOf(bs[0]).records + AllMessages(bs[1..])
  }

  function CountOf(bs: seq<Batch>): nat { if bs == [] then 0 else |bs[0].records| + CountOf(bs[1..]) }

  /** Record i of batch k comes after all records of the batches before it. */
  lemma {:induction false} FetchedRecord(bs: seq<Batch>, k: nat, i: nat)
    requires k < |bs| && i < |bs[k].records|
    ensures |AllMessages(bs)| == CountOf(bs) && CountOf(bs[..k]) + i < CountOf(bs)
    ensures
      var m, r := AllMessages(bs)[CountOf(bs[..k]) + i], bs[k].records[i];
      && m.offset == bs[k].firstOffset + r.offsetDelta && m.timestamp == bs[k].firstTimestamp + r.timestampDelta
      && m.key == r.key && m.value == r.value && m.batchContext.producerId == bs[k].producerId
      && (m.batchContext.inTransaction <==> bs[k].transactional)
  {
    hide Regroup, INHERITED, Flatten, AllMessages, CountOf;
    FetchedIs(bs, k, i);
  }

  lemma {:induction false} FetchedIs(bs: seq<Batch>, k: nat, i: nat)
    requires k < |bs| && i < |bs[k].records|
    ensures |AllMessages(bs)| == CountOf(bs) && CountOf(bs[..k]) + i < CountOf(bs)
    ensures AllMessages(bs)[CountOf(bs[..k]) + i] == MessageOf(bs[k].records[i], ContextOf(bs[k]))
  {
    hide MessageOf, ContextOf, AllMessages, CountOf, Map;
    MessageCount(bs);
    AllMessagesCons(bs);
    if k > 0 {
      FetchedIs(bs[1..], k - 1, i);
      CountPrefix(bs, k);
    } else {
      assert bs[..0] == [];
      NoCount();
    }
  }

  lemma AllMessagesCons(bs: seq<Batch>)
    requires bs != []
    ensures AllMessages(bs) == DecodedOf(bs[0]).records + AllMessages(bs[1..])
    ensures |DecodedOf(bs[0]).records| == |bs[0].records|
    ensures CountOf(bs) == |bs[0].records| + CountOf(bs[1..])
  {
    hide MessageOf, ContextOf;
  }

  lemma CountPrefix(bs: seq<Batch>, k: nat)
    requires 0 < k <= |bs|
    ensures CountOf(bs[..k]) == |bs[0].records| + CountOf(bs[1..][..k - 1])
  {
    assert bs[..k][1..] == bs[1..][..k - 1];
  }

  lemma NoCount()
    ensures CountOf([]) == 0
  {}

  lemma {:induction false} MessageCount(bs: seq<Batch>)
    ensures |AllMessages(bs)| == CountOf(bs)
  {
    if bs != [] { MessageCount(bs[1..]); }
  }

  /** A cut-off batch: the loop either sees too few bytes or the decoder finds it partial. */
  lemma TailStops(last: Batch, cut: nat, b: bytes, o: nat)
    requires Fits(last) && cut < |BatchBytes(last)| && o + cut == |b| && Holds(b, o, BatchBytes(last)[..cut])
    ensures FetchLoop(b, o) == Fetched([])
  {
    hide BatchBytes, Envelope, DecodeBatch, Holds;
    if cut >= RECORD_BATCH_OVERHEAD {
      TailHead(last, cut, b, o);
      PartialBatchRead(last, cut, b, o);
    }
  }

  lemma TailHead(last: Batch, cut: nat, b: bytes, o: nat)
    requires 12 <= cut <= |BatchBytes(last)| && Holds(b, o, BatchBytes(last)[..cut])
    ensures Holds(b, o, Int64Bytes(last.firstOffset)) && Holds(b, o + 8, Int32Bytes(|Envelope(last)|))
  {
    hide Int32Bytes, Int64Bytes, Envelope;
    var first, length := Int64Bytes(last.firstOffset), Int32Bytes(|Envelope(last)|);
    var rest := BatchBytes(last)[12..cut];
    assert BatchBytes(last)[..cut] == first + (length + rest);
    HoldsSplit(b, o, first, length + rest);
    HoldsSplit(b, o + 8, length, rest);
  }

  lemma PartialBatchRead(last: Batch, cut: nat, b: bytes, o: nat)
    requires Fits(last) && 12 <= cut < |BatchBytes(last)| && o + cut == |b|
    requires Holds(b, o, Int64Bytes(last.firstOffset)) && Holds(b, o + 8, Int32Bytes(|Envelope(last)|))
    ensures DecodeBatch(b, o) == Fail(PartialBatch)
  {
    hide Holds, ReadInt32, ReadInt64, Int32Bytes, Int64Bytes, Envelope, DecodeEnvelope;
    EnvelopeSize(last);
    Int64RoundTrip(b, o, last.firstOffset);
    Int32RoundTrip(b, o + 8, |Envelope(last)|);
  }

  lemma {:induction false} FetchLoopReads(bs: seq<Batch>, last: Batch, cut: nat, b: bytes, o: nat)
    requires (forall x | x in bs :: Fits(x)) && Fits(last) && cut < |BatchBytes(last)|
    requires o + |ConcatMap(BatchBytes, bs)| + cut == |b|
    requires Holds(b, o, ConcatMap(BatchBytes, bs) + BatchBytes(last)[..cut])
    ensures FetchLoop(b, o) == Fetched(AllMessages(bs))
    decreases |bs|
  {
    hide Holds, DecodeBatch, BatchBytes, DecodedOf, Fits;
    var tail := BatchBytes(last)[..cut];
    if bs == [] {
      assert ConcatMap(BatchBytes, bs) + tail == tail;
      TailStops(last, cut, b, o);
    } else {
      var first, rest := BatchBytes(bs[0]), ConcatMap(BatchBytes, bs[1..]);
      assert (first + rest) + tail == first + (rest + tail);
      HoldsSplit(b, o, first, rest + tail);
      assert |first| >= RECORD_BATCH_OVERHEAD by { EnvelopeSize(bs[0]); }
      BatchRoundTrip(bs[0], b, o);
      FetchLoopReads(bs[1..], last, cut, b, o + |first|);
    }
  }

  lemma MagicByte(b: Batch, cut: nat)
    requires 16 < cut <= |BatchBytes(b)|
    ensures BatchBytes(b)[..cut][16] == MAGIC_BYTE
  {
    hide Int32Bytes, Int64Bytes, BodyPart, Checksum;
  }

  lemma BufferReads(bs: seq<Batch>, last: Batch, cut: nat, m: bytes)
    requires (forall x | x in bs :: Fits(x)) && Fits(last) && cut < |BatchBytes(last)|
    requires m == ConcatMap(BatchBytes, bs) + BatchBytes(last)[..cut] && m != []
    ensures DecodeBuffer(m) ==
      if bs == [] && cut <= MAGIC_OFFSET then Threw(RangeError) else Fetched(AllMessages(bs))
  {
    hide Holds, BatchBytes, FetchLoop, Fits, AllMessages;
    HoldsAll(m);
    FetchLoopReads(bs, last, cut, m, 0);
    if bs == [] {
      assert m == BatchBytes(last)[..cut];
      if cut > MAGIC_OFFSET { MagicByte(last, cut); }
    } else {
      var first := BatchBytes(bs[0]);
      assert |first| > MAGIC_OFFSET by { EnvelopeSize(bs[0]); }
      MagicByte(bs[0], |first|);
      assert m[MAGIC_OFFSET] == first[..|first|][MAGIC_OFFSET];
    }
  }

  /**
    For every list of complete batches followed by any strict prefix of another, the fetch
    loop returns exactly the records of the complete batches, except that a prefix of one to
    sixteen bytes with no complete batch before it makes reading the magic byte throw.
   */
  lemma FetchReadsCompleteBatches(bs: seq<Batch>, last: Batch, cut: nat, b: bytes, o: nat)
    requires (forall x | x in bs :: Fits(x)) && Fits(last) && cut < |BatchBytes(last)|
    requires
      var m := ConcatMap(BatchBytes, bs) + BatchBytes(last)[..cut];
      |m| + 1 < TWO_32 && Holds(b, o, UVarIntBytes(|m| + 1) + m)
    ensures DecodeMessages(b, o) ==
      if bs == [] && 0 < cut <= MAGIC_OFFSET then Threw(RangeError) else Fetched(AllMessages(bs))
  {
    hide Holds, UVarIntBytes, ReadUVarInt, BatchBytes, DecodeBuffer, Slice, Fits;
    var m := ConcatMap(BatchBytes, bs) + BatchBytes(last)[..cut];
    var size := UVarIntBytes(|m| + 1);
    HoldsSplit(b, o, size, m);
    UVarIntRoundTrip(b, o, |m| + 1);
    SliceHeld(b, o + |size|, m);
    HoldsWithin(b, o + |size|, m);
    if m == [] {
      NoBytesNoBatches(bs);
    } else {
      BufferReads(bs, last, cut, m);
    }
  }

  lemma NoBytesNoBatches(bs: seq<Batch>)
    ensures bs != [] ==> ConcatMap(BatchBytes, bs) != []
  {
    hide BatchBytes;
    if bs != [] { EnvelopeSize(bs[0]); }
  }

  lemma HoldsWithin(b: bytes, o: nat, p: bytes)
    requires Holds(b, o, p)
    ensures o + |p| <= |b|
  {}
}
