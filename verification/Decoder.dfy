/** The cursor over a received buffer; each read does what the function of the same name in `Wire` says. */
module Decoding {
  import opened Bits
  import opened Wire

  class Decoder {
    const buffer: bytes
    var offset: nat

    constructor (buffer: bytes)
      ensures this.buffer == buffer && offset == 0
    {
      this.buffer := buffer;
      offset := 0;
    }

    predicate CanReadBytes(length: int)
      reads this
    {
      |buffer| - offset >= length
    }

    method ReadInt8() returns (r: Read<int>)
      modifies this
      ensures r == Wire.ReadInt8(buffer, old(offset))
      ensures offset == if r.Ok? then r.next else old(offset)
    {
      r := Wire.ReadInt8(buffer, offset);
      if r.Ok? { offset := r.next; }
    }

    method ReadInt16() returns (r: Read<int>)
      modifies this
      ensures r == Wire.ReadInt16(buffer, old(offset))
      ensures offset == if r.Ok? then r.next else old(offset)
    {
      r := Wire.ReadInt16(buffer, offset);
      if r.Ok? { offset := r.next; }
    }

    method ReadInt32() returns (r: Read<int>)
      modifies this
      ensures r == Wire.ReadInt32(buffer, old(offset))
      ensures offset == if r.Ok? then r.next else old(offset)
    {
      r := Wire.ReadInt32(buffer, offset);
      if r.Ok? { offset := r.next; }
    }

    method ReadInt64() returns (r: Read<int>)
      modifies this
      ensures r == Wire.ReadInt64(buffer, old(offset))
      ensures offset == if r.Ok? then r.next else old(offset)
    {
      r := Wire.ReadInt64(buffer, offset);
      if r.Ok? { offset := r.next; }
    }

    /** do { ... } while (currentByte >= 0x80), summing groups with 32-bit shifts. */
    method ReadVarInt() returns (r: Read<int>)
      modifies this
      ensures r == Wire.ReadVarInt(buffer, old(offset))
      ensures r.Ok? && offset == r.next
    {
      var result, i, more := 0, 0, true;
      while more
        invariant GroupLoop(AddGroup32, None, InvalidVarInt, buffer, old(offset), 0, 0) ==
          if more then GroupLoop(AddGroup32, None, InvalidVarInt, buffer, offset, result, i) else Ok(result, offset)
        decreases more, |buffer| - offset
      {
        var current := At(buffer, offset);
        offset := offset + 1;
        result := AddGroup32(result, current, i);
        i := i + 7;
        more := current >= 0x80;
      }
      r := Ok(DecodeZigZag(result), offset);
    }

    /** As above with or; a sixth group is an error. */
    method ReadUVarInt() returns (r: Read<int>)
      modifies this
      ensures r == Wire.ReadUVarInt(buffer, old(offset))
      ensures r.Ok? ==> offset == r.next
    {
      var result, i, more := 0, 0, true;
      while more
        invariant GroupLoop(OrGroup32, Some(28), InvalidVarInt, buffer, old(offset), 0, 0) ==
          if more then GroupLoop(OrGroup32, Some(28), InvalidVarInt, buffer, offset, result, i) else Ok(result, offset)
        decreases more, |buffer| - offset
      {
        var current := At(buffer, offset);
        offset := offset + 1;
        result := OrGroup32(result, current, i);
        more := current >= 0x80;
        if more {
          i := i + 7;
          if i > 28 {
            return Fail(InvalidVarInt);
          }
        }
      }
      r := Ok(JsUshr(result, 0), offset);
    }

    method ReadVarLong() returns (r: Read<int>)
      modifies this
      ensures r == Wire.ReadVarLong(buffer, old(offset))
      ensures r.Ok? ==> offset == r.next
    {
      var result, i, more := 0, 0, true;
      while more
        invariant more ==> i <= 63
        invariant GroupLoop(AddGroup64, Some(63), InvalidLong, buffer, old(offset), 0, 0) ==
          if more then GroupLoop(AddGroup64, Some(63), InvalidLong, buffer, offset, result, i) else Ok(result, offset)
        decreases more, |buffer| - offset
      {
        var current := At(buffer, offset);
        offset := offset + 1;
        result := AddGroup64(result, current, i);
        i := i + 7;
        more := current >= 0x80;
        if more && i > 63 {
          return Fail(InvalidLong);
        }
      }
      r := Ok(DecodeZigZag64(result), offset);
    }

    method ReadVarIntBytes() returns (r: Read<Option<bytes>>)
      modifies this
      ensures r == Wire.ReadVarIntBytes(buffer, old(offset))
      ensures r.Ok? ==> offset == r.next
    {
      var len := ReadVarInt();
      r := ReadSized(buffer, offset, len.value);
      if r.Ok? { offset := r.next; }
    }
  }
}
