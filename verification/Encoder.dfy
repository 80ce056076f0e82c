/**
  The growable write buffer. Every write appends exactly the bytes of `Wire` and leaves the
  bytes written before untouched; growth doubles the capacity, so copying stays linear.
 */
module Encoding {
  import opened Bits
  import opened Wire
  import opened Varint

  const MAX_SIZE := 0x4000_0000 // 2^30

  // ------------------------------------------------------------------ nextPowerOfTwo

  function BitLength(x: nat): nat { if x == 0 then 0 else 1 + BitLength(x / 2) }

  function Clz32(x: int): int { 32 - BitLength(ToUint32(x)) }

  lemma {:induction false} BitLengthBound(x: nat, n: nat)
    requires x < Pow2(n)
    ensures BitLength(x) <= n
  {
    if x > 0 { BitLengthBound(x / 2, n - 1); }
  }

  lemma {:induction false} BitLengthExact(x: nat)
    ensures x < Pow2(BitLength(x))
    ensures x > 0 ==> Pow2(BitLength(x) - 1) <= x
  {
    if x > 0 { BitLengthExact(x / 2); }
  }

  function NextPowerOfTwo(value: int): int
  {
    ClzBound(value);
    JsShl(1, (31 - Clz32(value) + 1) as nat)
  }

  lemma ClzBound(value: int)
    ensures 0 <= 31 - Clz32(value) + 1 <= 32
  {
    Pow2Of32();
    BitLengthBound(ToUint32(value), 32);
  }

  ghost predicate IsPowerOfTwo(x: int) { exists k: nat :: x == Pow2(k) }

  lemma {:induction false} Pow2Order(a: nat, b: nat)
    requires a <= b
    ensures Pow2(a) <= Pow2(b)
  {
    if a < b { Pow2Order(a, b - 1); }
  }

  lemma ShiftedOne(n: nat)
    requires n <= 32
    ensures JsShl(1, n) == if n < 31 then Pow2(n) else if n == 31 then -TWO_31 else 1
  {
    hide Shl, ToInt32;
    if n == 32 {
      assert JsShl(1, 32) == 1;
    } else {
      ShiftedGroup(1, n);
      ShlIsTimes(1, n);
      Pow2Of32();
      Pow2Order(n, 31);
      if n < 31 { Pow2Order(n + 1, 31); }
      WrapPowerOfTwo(Pow2(n));
    }
  }

  lemma WrapPowerOfTwo(x: int)
    requires 0 <= x <= TWO_31
    ensures ToInt32(x) == if x < TWO_31 then x else -TWO_31
  {
  }

  /**
    The next power of two is strictly above its argument exactly below 2^30: at 2^30 the
    shift reaches the sign bit, and from 2^31 it wraps round to 1.
   */
  lemma NextPowerOfTwoExact(value: uint32)
    ensures NextPowerOfTwo(value) > value <==> value < MAX_SIZE
    ensures value < MAX_SIZE ==> NextPowerOfTwo(value) == Pow2(BitLength(value))
  {
    hide JsShl, Shl, ToInt32;
    hide NextPowerOfTwo, BitLength, Pow2;
    var n := BitLength(value);
    NextValue(value, n);
    assert Pow2(30) == MAX_SIZE && Pow2(31) == TWO_31 by { Pow2Of32(); Pow2Of30(); }
    BitLengthExact(value);
    if value < MAX_SIZE {
      BitLengthBound(value, 30);
    } else if n <= 30 {
      Pow2Order(n, 30);
    }
  }

  lemma Pow2Of30()
    ensures Pow2(30) == MAX_SIZE
  {
    Pow2Of32();
    Pow2Add(28, 2);
    assert Pow2(2) == 4;
  }

  lemma NextValue(value: uint32, n: nat)
    requires n == BitLength(value)
    ensures n <= 32 && NextPowerOfTwo(value) == if n < 31 then Pow2(n) else if n == 31 then -TWO_31 else 1
  {
    hide JsShl, BitLength, Pow2;
    ClzBound(value);
    assert ToUint32(value) == value;
    ShiftedOne(n);
  }

  /** The capacity for x bytes. */
  function CapacityFor(x: nat): nat
    requires x < MAX_SIZE
  {
    Pow2(BitLength(x))
  }

  method ComputeNextPowerOfTwo(value: nat) returns (r: nat)
    requires value < MAX_SIZE
    ensures r == CapacityFor(value) > value
  {
    NextPowerOfTwoExact(value);
    r := NextPowerOfTwo(value);
  }

  // ------------------------------------------------------------------ growth, as numbers

  datatype Growth = Growth(capacity: nat, size: nat, copied: nat)

  /** ensureAvailable followed by a write of `length` bytes. */
  function Grow(g: Growth, length: nat): Growth
    requires g.size + length < MAX_SIZE
  {
    if g.size + length > g.capacity
    then Growth(CapacityFor(g.size + length), g.size + length, g.copied + g.size)
    else Growth(g.capacity, g.size + length, g.copied)
  }

  function Total(lengths: seq<nat>): nat {
    if lengths == [] then 0 else Total(lengths[..|lengths| - 1]) + lengths[|lengths| - 1]
  }

  /** One write after the other. */
  function GrowAll(g: Growth, lengths: seq<nat>): (r: Growth)
    requires g.size + Total(lengths) < MAX_SIZE
    ensures r.size == g.size + Total(lengths)
  {
    if lengths == [] then g else Grow(GrowAll(g, lengths[..|lengths| - 1]), lengths[|lengths| - 1])
  }

  function Lengths(parts: seq<bytes>): (r: seq<nat>)
    ensures |r| == |parts| && Total(r) == |Flat(parts)|
  {
    if parts == [] then [] else Lengths(parts[..|parts| - 1]) + [|parts[|parts| - 1]|]
  }

  ghost predicate Amortized(g: Growth) {
    IsPowerOfTwo(g.capacity) && g.size <= g.capacity && g.copied < g.capacity
  }

  /** A power of two exceeded by x is at most half the capacity for x. */
  lemma CapacityDoubles(capacity: nat, x: nat)
    requires IsPowerOfTwo(capacity) && capacity < x < MAX_SIZE
    ensures IsPowerOfTwo(CapacityFor(x)) && CapacityFor(x) >= 2 * capacity && CapacityFor(x) > x
  {
    var k: nat :| capacity == Pow2(k);
    BitLengthExact(x);
    var n := BitLength(x);
    if n < k + 1 { Pow2Order(n, k); } else { Pow2Order(k + 1, n); }
  }

  lemma GrowKeepsAmortized(g: Growth, length: nat)
    requires Amortized(g) && g.size + length < MAX_SIZE
    ensures Amortized(Grow(g, length))
    ensures Grow(g, length).capacity == g.capacity || Grow(g, length).capacity >= 2 * g.capacity
  {
    if g.size + length > g.capacity {
      CapacityDoubles(g.capacity, g.size + length);
    }
  }

  /**
    Over any sequence of writes the capacity stays a power of two and all the bytes that
    growth ever copied number less than the final capacity.
   */
  lemma {:induction false} GrowthIsAmortized(g: Growth, lengths: seq<nat>)
    requires Amortized(g) && g.size + Total(lengths) < MAX_SIZE
    ensures
      var r := GrowAll(g, lengths);
      Amortized(r) && r.size == g.size + Total(lengths) && r.capacity >= g.capacity
  {
    if lengths != [] {
      var k := |lengths| - 1;
      GrowthIsAmortized(g, lengths[..k]);
      GrowKeepsAmortized(GrowAll(g, lengths[..k]), lengths[k]);
    }
  }

  /** The writes of writeVarIntBytes: the length, then the bytes if there are any. */
  function VarIntBytesWrites(value: Option<bytes>): seq<nat> {
    match value
    case None => [|VarIntBytes(-1)|]
    case Some(b) => [|VarIntBytes(|b|)|, |b|]
  }

  lemma LengthsNext(parts: seq<bytes>, i: nat)
    requires i < |parts|
    ensures Lengths(parts[..i + 1]) == Lengths(parts[..i]) + [|parts[i]|]
    ensures Lengths(parts[..i + 1])[..i] == Lengths(parts[..i])
  {
    assert parts[..i + 1][..i] == parts[..i];
  }

  lemma GrowOne(g: Growth, a: nat)
    requires g.size + a < MAX_SIZE
    ensures Total([a]) == a && GrowAll(g, [a]) == Grow(g, a)
  {
    assert [a][..0] == [];
  }

  lemma GrowTwo(g: Growth, a: nat, b: nat)
    requires g.size + a + b < MAX_SIZE
    ensures Total([a, b]) == a + b && GrowAll(g, [a, b]) == Grow(Grow(g, a), b)
  {
    assert [a, b][..1] == [a];
    GrowOne(g, a);
  }

  // ------------------------------------------------------------------ the encoder

  class Encoder {
    var buf: array<byte>
    var offset: nat
    ghost var copied: nat
    ghost var Contents: bytes // what the `buffer` getter returns

    ghost function State(): Growth
      reads this
    {
      Growth(buf.Length, offset, copied)
    }

    ghost predicate Valid()
      reads this, buf
    {
      Amortized(State()) && |Contents| == offset && Contents == buf[..offset]
    }

    /** The `buffer` getter: the bytes written so far. */
    method Buffer() returns (r: bytes)
      requires Valid()
      ensures r == Contents
    {
      r := buf[..offset];
    }

    constructor (initialSize: nat := 511)
      requires initialSize < MAX_SIZE
      ensures Valid() && Contents == [] && fresh(buf)
      ensures State() == Growth(CapacityFor(initialSize), 0, 0)
    {
      var capacity := ComputeNextPowerOfTwo(initialSize);
      assert IsPowerOfTwo(CapacityFor(initialSize));
      buf := new byte[capacity](_ => 0);
      offset := 0;
      copied := 0;
      Contents := [];
    }

    method EnsureAvailable(length: nat)
      requires Valid() && |Contents| + length < MAX_SIZE
      modifies this
      ensures Valid() && Contents == old(Contents) && offset == old(offset)
      ensures offset + length <= buf.Length
      ensures buf == old(buf) || fresh(buf)
      ensures State().(size := offset + length) == Grow(old(State()), length)
    {
      GrowKeepsAmortized(State(), length);
      if offset + length > buf.Length {
        var newLength := ComputeNextPowerOfTwo(offset + length);
        var newBuffer := new byte[newLength](_ => 0);
        forall i | 0 <= i < offset { newBuffer[i] := buf[i]; }
        assert newBuffer[..offset] == buf[..offset];
        copied := copied + offset;
        buf := newBuffer;
      }
    }

    /** writeBufferInternal: append raw bytes. */
    method WriteBuffer(data: bytes)
      requires Valid() && |Contents| + |data| < MAX_SIZE
      modifies this, buf
      ensures Valid() && Contents == old(Contents) + data
      ensures buf == old(buf) || fresh(buf)
      ensures State() == Grow(old(State()), |data|)
    {
      EnsureAvailable(|data|);
      ghost var before := buf[..offset];
      forall i | 0 <= i < |data| { buf[offset + i] := data[i]; }
      offset := offset + |data|;
      Contents := Contents + data;
      assert buf[..offset] == before + data;
    }

    method WriteInt8(value: int8)
      requires Valid() && |Contents| + 1 < MAX_SIZE
      modifies this, buf
      ensures Valid() && Contents == old(Contents) + Int8Bytes(value)
      ensures buf == old(buf) || fresh(buf)
      ensures State() == Grow(old(State()), 1)
    {
      WriteBuffer(Int8Bytes(value));
    }

    method WriteInt16(value: int16)
      requires Valid() && |Contents| + 2 < MAX_SIZE
      modifies this, buf
      ensures Valid() && Contents == old(Contents) + Int16Bytes(value)
      ensures buf == old(buf) || fresh(buf)
      ensures State() == Grow(old(State()), 2)
    {
      WriteBuffer(Int16Bytes(value));
    }

    /** writeInt32 and writeUInt32. */
    method WriteInt32(value: int)
      requires -TWO_31 <= value < TWO_32
      requires Valid() && |Contents| + 4 < MAX_SIZE
      modifies this, buf
      ensures Valid() && Contents == old(Contents) + Int32Bytes(value)
      ensures buf == old(buf) || fresh(buf)
      ensures State() == Grow(old(State()), 4)
    {
      WriteBuffer(Int32Bytes(value));
    }

    method WriteInt64(value: int64)
      requires Valid() && |Contents| + 8 < MAX_SIZE
      modifies this, buf
      ensures Valid() && Contents == old(Contents) + Int64Bytes(value)
      ensures buf == old(buf) || fresh(buf)
      ensures State() == Grow(old(State()), 8)
    {
      Halves(value);
      WriteBuffer(Int32Bytes(HighBits(value)) + Int32Bytes(LowBits(value)));
    }

    method WriteUVarInt(value: int)
      requires Valid() && |Contents| + 5 < MAX_SIZE
      modifies this, buf
      ensures Valid() && Contents == old(Contents) + UVarIntBytes(ToUint32(value))
      ensures buf == old(buf) || fresh(buf)
      ensures |UVarIntBytes(ToUint32(value))| <= 5 && State() == Grow(old(State()), |UVarIntBytes(ToUint32(value))|)
    {
      var byteArray := UVarIntByteArray(value);
      VarintSizes(0, ToUint32(value), 0);
      WriteBuffer(byteArray);
    }

    method WriteVarInt(value: int32)
      requires Valid() && |Contents| + 5 < MAX_SIZE
      modifies this, buf
      ensures Valid() && Contents == old(Contents) + VarIntBytes(value)
      ensures buf == old(buf) || fresh(buf)
      ensures |VarIntBytes(value)| <= 5 && State() == Grow(old(State()), |VarIntBytes(value)|)
    {
      ZigZagValue(value);
      WriteUVarInt(EncodeZigZag(value));
    }

    method WriteVarLong(value: int64)
      requires Valid() && |Contents| + 10 < MAX_SIZE
      modifies this, buf
      ensures Valid() && Contents == old(Contents) + VarLongBytes(value)
      ensures buf == old(buf) || fresh(buf)
      ensures |VarLongBytes(value)| <= 10 && State() == Grow(old(State()), |VarLongBytes(value)|)
    {
      var byteArray := VarLongByteArray(value);
      VarintSizes(0, 0, value);
      WriteBuffer(byteArray);
    }

    /** writeVarIntBytes, and writeVarIntString of UTF-8 bytes. */
    method WriteVarIntBytes(value: Option<bytes>)
      requires Valid() && |Contents| + 5 + (if value.Some? then |value.value| else 0) < MAX_SIZE
      modifies this, buf
      ensures Valid() && Contents == old(Contents) + VarIntBytesOf(value)
      ensures buf == old(buf) || fresh(buf)
      ensures
        var writes := VarIntBytesWrites(value);
        Total(writes) == |VarIntBytesOf(value)| && |Contents| < MAX_SIZE && State() == GrowAll(old(State()), writes)
    {
      hide Grow, GrowAll, Total, VarIntBytes, Amortized;
      VarintSizes(if value.Some? then |value.value| else -1, 0, 0);
      if value.None? {
        GrowOne(State(), |VarIntBytes(-1)|);
        WriteVarInt(-1);
      } else {
        GrowTwo(State(), |VarIntBytes(|value.value|)|, |value.value|);
        WriteVarInt(|value.value|);
        WriteBuffer(value.value);
      }
    }

    /** writeEncoderArray: the buffers of already encoded elements, in order. */
    method WriteEncoderArray(parts: seq<bytes>)
      requires Valid() && |Contents| + |Flat(parts)| < MAX_SIZE
      modifies this, buf
      ensures Valid() && Contents == old(Contents) + Flat(parts)
      ensures buf == old(buf) || fresh(buf)
      ensures State() == GrowAll(old(State()), Lengths(parts))
    {
      hide Grow, CapacityFor, Amortized;
      for i := 0 to |parts|
        invariant Valid() && Contents == old(Contents) + Flat(parts[..i]) && |Contents| < MAX_SIZE
        invariant buf == old(buf) || fresh(buf)
        invariant State() == GrowAll(old(State()), Lengths(parts[..i]))
      {
        FlatStep(parts, i);
        LengthsNext(parts, i);
        WriteBuffer(parts[i]);
      }
      assert parts[..|parts|] == parts;
    }

    method WriteBytes(value: Option<bytes>)
      requires Valid() && |Contents| + 4 + (if value.Some? then |value.value| else 0) < MAX_SIZE
      modifies this, buf
      ensures Valid() && Contents == old(Contents) + BytesOf(value)
      ensures buf == old(buf) || fresh(buf)
      ensures State() == Grow(old(State()), |BytesOf(value)|)
    {
      if value.None? {
        WriteInt32(-1);
      } else {
        EnsureAvailable(4 + |value.value|);
        WriteInt32(|value.value|);
        WriteBuffer(value.value);
      }
    }
  }

  // ------------------------------------------------------------------ the loops over groups

  lemma Masked32(x: int32)
    ensures And(x, -0x80) == x - x % 0x80
    ensures And(x, 0x7f) == x % 0x80
  {
    assert Pow2(7) == 0x80;
    AndHighMask(7, x);
    LowSeven(x);
  }

  lemma WordModulo(value: int)
    ensures ToInt32(value) % 0x80 == ToUint32(value) % 0x80
    ensures ToInt32(value) - ToInt32(value) % 0x80 == 0 <==> ToUint32(value) < 0x80
  {}

  /** The mask test of the 32-bit loops: are more than seven bits left? */
  method HasMore32(value: int) returns (more: bool)
    ensures more <==> ToUint32(value) >= 0x80
  {
    more := JsAnd(value, 0xffffff80) != 0;
    Masked32(ToInt32(value));
    WordModulo(value);
    assert ToInt32(0xffffff80) == -0x80;
  }

  method LowGroup32(value: int) returns (low: int)
    ensures low == ToUint32(value) % 0x80
  {
    low := JsAnd(value, 0x7f);
    WrapOf(0x7f);
    Masked32(ToInt32(value));
    WordModulo(value);
  }

  method Rest32(value: int) returns (rest: int)
    ensures rest == ToUint32(value) / 0x80 == ToUint32(rest)
  {
    rest := JsUshr(value, 7);
    assert Pow2(7) == 0x80;
    ShrIsDiv(ToUint32(value), 7);
  }

  method WithHighBit(x: int) returns (r: int)
    requires 0 <= x < 0x80
    ensures r == x + 0x80 == Or(x, 0x80)
  {
    r := JsOr(x, 0x80);
    WrapOf(x);
    WrapOf(0x80);
    Shl7(1, 0);
    OrDisjoint(7, x, 1);
  }

  /** writeUVarInt: seven bits at a time until the mask test fails. */
  method UVarIntByteArray(start: int) returns (byteArray: bytes)
    ensures byteArray == UVarIntBytes(ToUint32(start))
  {
    hide Or, ToUint32;
    byteArray := [];
    var value := start;
    var more := HasMore32(value);
    while more
      invariant more <==> ToUint32(value) >= 0x80
      invariant byteArray + UVarIntBytes(ToUint32(value)) == UVarIntBytes(ToUint32(start))
      decreases ToUint32(value)
    {
      var low := LowGroup32(value);
      var group := WithHighBit(low);
      Assoc(byteArray, [group], UVarIntBytes(ToUint32(value) / 0x80));
      byteArray := byteArray + [group];
      value := Rest32(value);
      more := HasMore32(value);
    }
    var last := LowGroup32(value);
    byteArray := byteArray + [last];
  }

  const MASK_64 := 0xffffffffffffff80

  lemma {:induction false} MaskShift(x: int, high: int, n: nat)
    ensures And(x, Shl(high, n)) == Shl(And(Shr(x, n), high), n)
    decreases n
  {
    if n > 0 {
      AndStep(x, Shl(high, n));
      MaskShift(x / 2, high, n - 1);
    }
  }

  /** The same test on 64-bit patterns. */
  method HasMore64(x: int) returns (more: bool)
    requires 0 <= x < TWO_64
    ensures more <==> x >= 0x80
  {
    hide And;
    Masked64(x);
    more := And(x, MASK_64) != 0;
  }

  lemma Pow2Of57()
    ensures Pow2(7) == 0x80 && Pow2(57) == 0x200_0000_0000_0000
  {
    Pow2Of32();
    Pow2Add(32, 25);
    Pow2Add(24, 1);
  }

  lemma Masked64(x: int)
    requires 0 <= x < TWO_64
    ensures And(x, MASK_64) == 0x80 * (x / 0x80)
  {
    hide And, Shr, Shl;
    var high := 0x1ff_ffff_ffff_ffff;
    Pow2Of57();
    assert Shr(x, 7) == x / 0x80 by { ShrIsDiv(x, 7); }
    AndLowMask(57, x / 0x80);
    TimesShl7(high);
    MaskShift(x, high, 7);
    TimesShl7(x / 0x80);
  }

  lemma TimesShl7(a: int)
    ensures Shl(a, 7) == 0x80 * a
  {
    Shl7(a, 0);
  }

  method SplitGroup64(x: int) returns (low: int, rest: int)
    requires 0 <= x < TWO_64
    ensures low == x % 0x80 && rest == x / 0x80
  {
    low, rest := And(x, 0x7f), Shr(x, 7);
    LowSeven(x);
    assert Pow2(7) == 0x80;
    ShrIsDiv(x, 7);
  }

  method LastByte64(x: int) returns (r: int)
    requires 0 <= x < 0x80
    ensures r == x
  {
    r := ToInt32(x);
    WrapOf(x);
  }

  method ZigZag64(value: int64) returns (u: nat)
    ensures u < TWO_64 && UVarIntBytes(u) == VarLongBytes(value)
  {
    ZigZag64Value(value);
    u := EncodeZigZag64(value);
  }

  lemma GroupsOf(u: nat)
    ensures UVarIntBytes(u) == if u < 0x80 then [u] else [u % 0x80 + 0x80] + UVarIntBytes(u / 0x80)
  {}

  method VarLongByteArray(start: int64) returns (byteArray: bytes)
    ensures byteArray == VarLongBytes(start)
  {
    hide Or, UVarIntBytes, VarLongBytes;
    byteArray := [];
    var longValue := ZigZag64(start);
    var more := HasMore64(longValue);
    while more
      invariant 0 <= longValue < TWO_64 && (more <==> longValue >= 0x80)
      invariant byteArray + UVarIntBytes(longValue) == VarLongBytes(start)
      decreases longValue
    {
      var low, rest := SplitGroup64(longValue);
      var group := WithHighBit(low);
      GroupsOf(longValue);
      Assoc(byteArray, [group], UVarIntBytes(rest));
      byteArray := byteArray + [group];
      longValue := rest;
      more := HasMore64(longValue);
    }
    GroupsOf(longValue);
    var last := LastByte64(longValue);
    byteArray := byteArray + [last];
  }

  /** sizeOfVarInt: counts the bytes that writeVarInt appends. */
  method SizeOfVarInt(value: int32) returns (size: nat)
    ensures size == |VarIntBytes(value)|
  {
    ZigZagValue(value);
    size := SizeOfWord(EncodeZigZag(value));
  }

  method SizeOfWord(start: int) returns (size: nat)
    ensures size == |UVarIntBytes(ToUint32(start))|
  {
    size := 1;
    var encodedValue := start;
    var more := HasMore32(encodedValue);
    while more
      invariant more <==> ToUint32(encodedValue) >= 0x80
      invariant size - 1 + |UVarIntBytes(ToUint32(encodedValue))| == |UVarIntBytes(ToUint32(start))|
      decreases ToUint32(encodedValue)
    {
      size := size + 1;
      encodedValue := Rest32(encodedValue);
      more := HasMore32(encodedValue);
    }
  }

  /** sizeOfVarLong: counts the bytes that writeVarLong appends. */
  method SizeOfVarLong(value: int64) returns (size: nat)
    ensures size == |VarLongBytes(value)|
  {
    var longValue := ZigZag64(value);
    size := 1;
    var more := HasMore64(longValue);
    while more
      invariant 0 <= longValue < TWO_64 && (more <==> longValue >= 0x80)
      invariant size - 1 + |UVarIntBytes(longValue)| == |VarLongBytes(value)|
      decreases longValue
    {
      size := size + 1;
      var _, rest := SplitGroup64(longValue);
      longValue := rest;
      more := HasMore64(longValue);
    }
  }

  /** sizeOfVarIntBytes: null takes the size of -1, otherwise length prefix plus length. */
  method SizeOfVarIntBytes(value: Option<bytes>) returns (size: nat)
    requires value.Some? ==> |value.value| < TWO_31
    ensures size == |VarIntBytesOf(value)|
  {
    if value.None? {
      size := SizeOfVarInt(-1);
    } else {
      size := SizeOfVarInt(|value.value|);
      size := size + |value.value|;
    }
  }
}
