/** The step-by-step batch writer, batch reader and fetch loop, over the encoder and decoder objects. */
module BatchCode {
  import opened Bits
  import opened Wire
  import opened Varint
  import opened Encoding
  import opened Decoding
  import opened Records
  import opened RecordReading
  import opened RecordBatches
  import Crc32C

  // ------------------------------------------------------------------ writing

  method Crc(data: bytes) returns (crc: int)
    ensures crc == Checksum(data) && 0 <= crc < TWO_32
  {
    var octets: seq<bv8> := [];
    for i := 0 to |data|
      invariant octets == Octets(data[..i])
    {
      octets := octets + [data[i] as bv8];
    }
    assert data[..|data|] == data;
    var r := Crc32C.Compute(octets);
    crc := r as int;
  }

  /** The fixed fields of the body, before and from the producer id. */
  function BatchFields(b: Batch): (r: bytes)
    ensures |r| == 22
  {
    Int16Bytes(Attributes(b)) + Int32Bytes(b.lastOffsetDelta) + Int64Bytes(b.firstTimestamp) + Int64Bytes(b.maxTimestamp)
  }

  function ProducerFields(b: Batch): (r: bytes)
    ensures |r| == 14
  {
    Int64Bytes(b.producerId) + Int16Bytes(b.producerEpoch) + Int32Bytes(b.firstSequence)
  }

  lemma FieldsThenRecords(b: Batch)
    ensures BodyPart(b) == BatchFields(b) + ProducerFields(b) + RecordsPart(b)
  {
    hide Int32Bytes, Int64Bytes, Attributes, RecordsPart;
  }

  method StartBody(b: Batch) returns (e: Encoder)
    ensures fresh(e) && fresh(e.buf) && e.Valid() && e.Contents == BatchFields(b)
  {
    hide Int32Bytes, Int64Bytes, Int16Bytes, Attributes, Amortized, Grow, GrowAll, CapacityFor;
    AttributeBits(b);
    e := NewBody(Attributes(b), b.lastOffsetDelta);
    e.WriteInt64(b.firstTimestamp);
    e.WriteInt64(b.maxTimestamp);
  }

  method NewBody(attributes: int16, lastOffsetDelta: int32) returns (e: Encoder)
    ensures fresh(e) && fresh(e.buf) && e.Valid() && e.Contents == Int16Bytes(attributes) + Int32Bytes(lastOffsetDelta)
  {
    hide Int32Bytes, Int16Bytes, Amortized, Grow, GrowAll, CapacityFor;
    e := new Encoder();
    e.WriteInt16(attributes);
    e.WriteInt32(lastOffsetDelta);
  }

  method WriteProducerFields(e: Encoder, b: Batch)
    requires e.Valid() && |e.Contents| == 22
    modifies e, e.buf
    ensures e.Valid() && (e.buf == old(e.buf) || fresh(e.buf))
    ensures e.Contents == old(e.Contents) + ProducerFields(b)
  {
    hide Int32Bytes, Int64Bytes, Int16Bytes, Amortized, Grow, GrowAll, CapacityFor;
    e.WriteInt64(b.producerId);
    e.WriteInt16(b.producerEpoch);
    e.WriteInt32(b.firstSequence);
  }

  /** The uncompressed branch: the array of already encoded records. */
  method EncodeBody(b: Batch, parts: seq<bytes>) returns (body: bytes)
    requires |parts| == |b.records| && forall i | 0 <= i < |parts| :: parts[i] == RecordBytes(b.records[i])
    requires |Envelope(b)| + 64 < MAX_SIZE
    ensures body == BodyPart(b)
  {
    hide BatchFields, ProducerFields, RecordBytes, Envelope, BodyPart, Int32Bytes, Amortized, Grow, GrowAll, CapacityFor;
    FieldsThenRecords(b);
    var e := StartBody(b);
    WriteProducerFields(e, b);
    EnvelopeSize(b);
    RecordsSize(b.records);
    ConcatMapIsFlat(RecordBytes, b.records, parts);
    e.WriteInt32(|parts|);
    e.WriteEncoderArray(parts);
    Assoc(BatchFields(b) + ProducerFields(b), Int32Bytes(|parts|), Flat(parts));
    body := e.Buffer();
  }

  /** Leader epoch, magic byte and checksum stand before the body. */
  method StartEnvelope(epoch: int32, crc: uint32) returns (e: Encoder)
    ensures fresh(e) && fresh(e.buf) && e.Valid() && e.Contents == Int32Bytes(epoch) + Int8Bytes(MAGIC_BYTE) + Int32Bytes(crc)
  {
    hide Int32Bytes, Int8Bytes, Amortized, Grow, GrowAll, CapacityFor;
    e := new Encoder();
    e.WriteInt32(epoch);
    e.WriteInt8(MAGIC_BYTE);
    e.WriteInt32(crc);
  }

  method EncodeEnvelope(b: Batch, body: bytes) returns (envelope: bytes)
    requires body == BodyPart(b) && |body| + 64 < MAX_SIZE
    ensures envelope == Envelope(b)
  {
    hide BodyPart, Checksum, Int32Bytes, Int8Bytes, Amortized, Grow, GrowAll, CapacityFor;
    var crc := Crc(body);
    var batch := StartEnvelope(b.partitionLeaderEpoch, crc);
    batch.WriteBuffer(body);
    envelope := batch.Buffer();
  }

  /** RecordBatch: body, then checksum envelope, then offset and length. */
  method EncodeBatch(b: Batch, parts: seq<bytes>) returns (encoded: bytes)
    requires |parts| == |b.records| && forall i | 0 <= i < |parts| :: parts[i] == RecordBytes(b.records[i])
    requires |Envelope(b)| + 128 < MAX_SIZE
    ensures encoded == BatchBytes(b)
  {
    hide Envelope, RecordBytes, Int32Bytes, Int64Bytes, Amortized, Grow, GrowAll, CapacityFor;
    assert |BodyPart(b)| <= |Envelope(b)| by { BodyWithin(b); }
    var body := EncodeBody(b, parts);
    var envelope := EncodeEnvelope(b, body);
    var e := new Encoder();
    e.WriteInt64(b.firstOffset);
    e.WriteBytes(Some(envelope));
    encoded := e.Buffer();
  }

  lemma BodyWithin(b: Batch)
    ensures |BodyPart(b)| <= |Envelope(b)|
  {
    hide BodyPart;
  }

  // ------------------------------------------------------------------ reading

  /** decodeRecords without a codec: the loop of readArray. */
  method ReadRecords(d: Decoder, ctx: Context) returns (r: Read<seq<Message>>)
    modifies d
    ensures r ==
      var n := ReadInt32(d.buffer, old(d.offset));
      if n.Fail? then Fail(n.error) else ReadCounted(RecordReader(ctx), d.buffer, n.next, n.value)
  {
    hide Wire.ReadInt32, DecodeRecord;
    var length := d.ReadInt32();
    if length.Fail? {
      return Fail(length.error);
    }
    if length.value == -1 {
      return Ok([], d.offset);
    }
    if length.value < 0 {
      return Fail(RangeError);
    }
    ghost var start := d.offset;
    var records: seq<Message> := [];
    PrependNone(ReadMany(RecordReader(ctx), d.buffer, start, length.value));
    for i := 0 to length.value
      invariant ReadMany(RecordReader(ctx), d.buffer, start, length.value) ==
        Prepend(records, ReadMany(RecordReader(ctx), d.buffer, d.offset, length.value - i))
    {
      var record := DecodeRecord(ctx, d.buffer, d.offset);
      if record.Fail? {
        return Fail(record.error);
      }
      PrependOne(records, record.value, ReadMany(RecordReader(ctx), d.buffer, record.next, length.value - i - 1));
      records := records + [record.value];
      d.offset := record.next;
    }
    assert records + [] == records;
    r := Ok(records, d.offset);
  }

  ghost function Prepend(before: seq<Message>, r: Read<seq<Message>>): Read<seq<Message>> {
    if r.Fail? then r else Ok(before + r.value, r.next)
  }

  lemma PrependNone(r: Read<seq<Message>>)
    ensures Prepend([], r) == r
  {
    if r.Ok? { assert [] + r.value == r.value; }
  }

  lemma PrependOne(before: seq<Message>, m: Message, r: Read<seq<Message>>)
    ensures Prepend(before, Prepend([m], r)) == Prepend(before + [m], r)
  {
    if r.Ok? { assert before + ([m] + r.value) == (before + [m]) + r.value; }
  }

  /** The fetch loop: decode batch after batch until too few bytes are left or a batch is cut off. */
  method FetchRecords(messages: bytes) returns (r: Fetched)
    ensures r == FetchLoop(messages, 0)
  {
    hide DecodeBatch;
    var d := new Decoder(messages);
    var records: seq<Message> := [];
    while d.CanReadBytes(RECORD_BATCH_OVERHEAD)
      invariant d.buffer == messages
      invariant FetchLoop(messages, 0) == After(records, FetchLoop(messages, d.offset))
      decreases |messages| - d.offset
    {
      var batch := DecodeBatch(messages, d.offset);
      match batch {
        case Ok(decoded, next) =>
          AfterBoth(records, decoded.records, FetchLoop(messages, next));
          records := records + decoded.records;
          d.offset := next;
        case Fail(error) =>
          return if error.PartialBatch? then Fetched(records) else Threw(error);
      }
    }
    r := Fetched(records);
  }

  ghost function After(before: seq<Message>, r: Fetched): Fetched {
    if r.Fetched? then Fetched(before + r.messages) else r
  }

  lemma AfterBoth(before: seq<Message>, more: seq<Message>, r: Fetched)
    ensures After(before, After(more, r)) == After(before + more, r)
  {
    if r.Fetched? { assert before + (more + r.messages) == (before + more) + r.messages; }
  }
}
