/**
  The primitive types of the Kafka wire format as byte sequences, and the reads of the
  cursor-based decoder as functions of a buffer and an offset.
 */
module Wire {
  import opened Bits

  type int16 = x: int | -0x8000 <= x < 0x8000
  type int8 = x: int | -0x80 <= x < 0x80
  type bytes = seq<byte>

  datatype Option<+T> = None | Some(value: T)

  datatype Error = RangeError | InvalidVarInt | InvalidLong | PartialBatch | TypeError | NegativeLength | CompressedBatch

  /** A read either fails or yields a value and the next cursor position. */
  datatype Read<+T> = Ok(value: T, next: nat) | Fail(error: Error) {
    predicate IsFailure() { Fail? }

    function PropagateFailure<U>(): Read<U>
      requires Fail?
    {
      Fail(error)
    }

    function Extract(): (T, nat)
      requires Ok?
    {
      (value, next)
    }
  }

  // ------------------------------------------------------------------ written bytes

  function Int8Bytes(v: int): (r: bytes)
    ensures |r| == 1
  {
    [v % 0x100]
  }

  function Int16Bytes(v: int): (r: bytes)
    ensures |r| == 2
  {
    [(v / 0x100) % 0x100, v % 0x100]
  }

  /** writeInt32BE, and writeUInt32BE for the unsigned half of the range. */
  function Int32Bytes(v: int): (r: bytes)
    ensures |r| == 4
  {
    [(v / 0x100_0000) % 0x100, (v / 0x1_0000) % 0x100, (v / 0x100) % 0x100, v % 0x100]
  }

  /** Two 32-bit halves, the high one signed. */
  function Int64Bytes(v: int): (r: bytes)
    ensures |r| == 8
  {
    Int32Bytes(v / TWO_32) + Int32Bytes(v % TWO_32)
  }

  /** Seven bits a byte, least significant group first, high bit set on all but the last. */
  function UVarIntBytes(u: nat): (r: bytes)
    ensures |r| >= 1
  {
    if u < 0x80 then [u] else [u % 0x80 + 0x80] + UVarIntBytes(u / 0x80)
  }

  /** Zigzag: non-negative numbers become even, negative ones odd. */
  function ZigZag(v: int): nat { if v >= 0 then 2 * v else -2 * v - 1 }

  function VarIntBytes(v: int): (r: bytes)
    ensures |r| >= 1
  {
    UVarIntBytes(ZigZag(v))
  }

  function VarLongBytes(v: int): bytes { UVarIntBytes(ZigZag(v)) }

  function VarIntBytesOf(v: Option<bytes>): bytes {
    match v
    case None => VarIntBytes(-1)
    case Some(b) => VarIntBytes(|b|) + b
  }

  /** writeBytes: a 32-bit length and the bytes. */
  function BytesOf(v: Option<bytes>): bytes {
    match v
    case None => Int32Bytes(-1)
    case Some(b) => Int32Bytes(|b|) + b
  }

  /** writeString, of the UTF-8 bytes of a string. */
  function StringBytes(v: bytes): bytes {
    Int16Bytes(|v|) + v
  }

  lemma Assoc(a: bytes, b: bytes, c: bytes)
    ensures (a + b) + c == a + (b + c)
  {}

  function Map<T, U>(f: T -> U, s: seq<T>): (r: seq<U>)
    ensures |r| == |s| && forall i | 0 <= i < |s| :: r[i] == f(s[i])
  {
    if s == [] then [] else [f(s[0])] + Map(f, s[1..])
  }

  function ConcatMap<T>(f: T -> bytes, s: seq<T>): bytes {
    if s == [] then [] else f(s[0]) + ConcatMap(f, s[1..])
  }

  lemma {:induction false} ConcatMapAppend<T>(f: T -> bytes, s: seq<T>, t: seq<T>)
    ensures ConcatMap(f, s + t) == ConcatMap(f, s) + ConcatMap(f, t)
  {
    if s == [] {
      assert s + t == t;
    } else {
      assert (s + t)[1..] == s[1..] + t;
      ConcatMapAppend(f, s[1..], t);
      assert f(s[0]) + (ConcatMap(f, s[1..]) + ConcatMap(f, t)) == (f(s[0]) + ConcatMap(f, s[1..])) + ConcatMap(f, t);
    }
  }

  function Flat(parts: seq<bytes>): bytes {
    if parts == [] then [] else Flat(parts[..|parts| - 1]) + parts[|parts| - 1]
  }

  lemma {:induction false} FlatFirst(parts: seq<bytes>)
    requires parts != []
    ensures Flat(parts) == parts[0] + Flat(parts[1..])
  {
    var n := |parts| - 1;
    if n == 0 {
      assert parts[1..] == [] && parts[..n] == [];
    } else {
      var tail := parts[1..];
      FlatFirst(parts[..n]);
      assert parts[..n][1..] == tail[..n - 1];
      assert Flat(tail) == Flat(tail[..n - 1]) + parts[n];
      Assoc(parts[0], Flat(tail[..n - 1]), parts[n]);
    }
  }

  /** Elements encoded one by one and then joined. */
  lemma {:induction false} ConcatMapIsFlat<T>(f: T -> bytes, s: seq<T>, parts: seq<bytes>)
    requires |parts| == |s| && forall i | 0 <= i < |s| :: parts[i] == f(s[i])
    ensures ConcatMap(f, s) == Flat(parts)
  {
    if s != [] {
      FlatFirst(parts);
      ConcatMapIsFlat(f, s[1..], parts[1..]);
    }
  }

  lemma {:induction false} FlatPrefix(parts: seq<bytes>, i: nat)
    requires i <= |parts|
    ensures |Flat(parts[..i])| <= |Flat(parts)|
    decreases |parts|
  {
    if i == |parts| {
      assert parts[..i] == parts;
    } else {
      var n := |parts| - 1;
      FlatPrefix(parts[..n], i);
      assert parts[..n][..i] == parts[..i];
    }
  }

  lemma FlatStep(parts: seq<bytes>, i: nat)
    requires i < |parts|
    ensures Flat(parts[..i + 1]) == Flat(parts[..i]) + parts[i]
    ensures |Flat(parts[..i + 1])| <= |Flat(parts)|
  {
    assert parts[..i + 1][..i] == parts[..i];
    FlatPrefix(parts, i + 1);
  }

  // ------------------------------------------------------------------ zigzag, bit by bit

  function EncodeZigZag(v: int): int { JsXor(JsShl(v, 1), JsShr(v, 31)) }

  function EncodeZigZag64(v: int): int { Xor(Shl(v, 1), Shr(v, 63)) }

  function DecodeZigZag(v: int): int { JsXor(JsUshr(v, 1), -JsAnd(v, 1)) }

  function DecodeZigZag64(v: int): int { Xor(Shr(v, 1), -And(v, 1)) }

  lemma ShrNegative(v: int, n: nat)
    requires -Pow2(n) <= v < 0
    ensures Shr(v, n) == -1
    decreases n
  {
    if n > 0 { ShrNegative(v / 2, n - 1); }
  }

  lemma ShrSmall(v: int, n: nat)
    requires 0 <= v < Pow2(n)
    ensures Shr(v, n) == 0
    decreases n
  {
    if n > 0 { ShrSmall(v / 2, n - 1); }
  }

  lemma Pow2Of31()
    ensures Pow2(31) == TWO_31 && Pow2(63) == 0x8000_0000_0000_0000
  {
    Pow2Of32();
    Pow2Add(32, 31);
  }

  lemma WrapOf(v: int32)
    ensures ToInt32(v) == v
  {}

  lemma Doubled(v: int32)
    ensures JsShl(v, 1) == ToInt32(2 * v)
  {
    WrapOf(v);
    assert Shl(v, 0) == v;
  }

  lemma SignShift(v: int32)
    ensures JsShr(v, 31) == if v >= 0 then 0 else -1
  {
    hide ToInt32;
    WrapOf(v);
    Pow2Of31();
    if v >= 0 { ShrSmall(v, 31); } else { ShrNegative(v, 31); }
  }

  lemma WrapComplement(x: int)
    ensures ToUint32(ToInt32(x)) == x % TWO_32
    ensures ToUint32(-ToInt32(x) - 1) == (-x - 1) % TWO_32
  {}

  lemma ZigZagParts(v: int, doubled: int32, sign: int32)
    requires JsShl(v, 1) == doubled && JsShr(v, 31) == sign
    ensures EncodeZigZag(v) == Xor(doubled, sign)
  {
    WrapOf(doubled);
    WrapOf(sign);
  }

  lemma ZigZagWrapped(v: int32)
    ensures EncodeZigZag(v) == if v >= 0 then ToInt32(2 * v) else -ToInt32(2 * v) - 1
  {
    Doubled(v);
    SignShift(v);
    ZigZagParts(v, ToInt32(2 * v), if v >= 0 then 0 else -1);
  }

  lemma ZigZagUnwrap(v: int32, e: int)
    requires e == if v >= 0 then ToInt32(2 * v) else -ToInt32(2 * v) - 1
    ensures ToUint32(e) == ZigZag(v)
  {
    WrapComplement(2 * v);
  }

  /** The shift-and-xor form is zigzag modulo 2^32. */
  lemma ZigZagValue(v: int32)
    ensures ToUint32(EncodeZigZag(v)) == ZigZag(v)
  {
    ZigZagWrapped(v);
    ZigZagUnwrap(v, EncodeZigZag(v));
  }

  lemma ZigZag64Value(v: int64)
    ensures EncodeZigZag64(v) == ZigZag(v)
  {
    Pow2Of31();
    assert Shl(v, 1) == 2 * v by { assert Shl(v, 0) == v; }
    if v >= 0 { ShrSmall(v, 63); } else { ShrNegative(v, 63); }
  }

  lemma AndOne(v: int)
    ensures And(v, 1) == v % 2
  {
    assert Pow2(1) == 2;
    AndLowMask(1, v);
  }

  lemma UnZigZag(v: int32, u: int)
    requires u % TWO_32 == ZigZag(v)
    ensures DecodeZigZag(u) == v
  {
    hide JsAnd, JsUshr, Xor;
    LowBitOf(u);
    HalfOf(u);
    XorSign(ZigZag(v) / 2);
  }

  lemma LowBitOf(u: int)
    ensures JsAnd(u, 1) == ToUint32(u) % 2
  {
    hide And;
    AndOne(ToInt32(u));
  }

  lemma HalfOf(u: int)
    ensures JsUshr(u, 1) == ToUint32(u) / 2
  {
    hide ToUint32;
    assert Shr(ToUint32(u) / 2, 0) == ToUint32(u) / 2;
  }

  lemma XorSign(h: int)
    ensures Xor(h, 0) == h && Xor(h, -1) == -h - 1
  {}

  lemma UnZigZag64(v: int64)
    ensures DecodeZigZag64(ZigZag(v)) == v
  {
    var u := ZigZag(v);
    AndOne(u);
    assert Shr(u, 1) == u / 2 by { assert Shr(u / 2, 0) == u / 2; }
  }

  // ------------------------------------------------------------------ reads

  /** buffer[i]: bit operations and comparisons see a byte past the end as zero. */
  function At(b: bytes, i: nat): (r: int)
    ensures 0 <= r < 0x100
  {
    if i < |b| then b[i] else 0
  }

  function Slice(b: bytes, from: nat, len: nat): bytes {
    var end := if from + len < |b| then from + len else |b|;
    if from < end then b[from..end] else []
  }

  function ReadInt8(b: bytes, o: nat): Read<int> {
    if o + 1 > |b| then Fail(RangeError)
    else Ok(if At(b, o) < 0x80 then At(b, o) else At(b, o) - 0x100, o + 1)
  }

  function ReadInt16(b: bytes, o: nat): Read<int> {
    if o + 2 > |b| then Fail(RangeError)
    else
      var u := At(b, o) * 0x100 + At(b, o + 1);
      Ok(if u < 0x8000 then u else u - 0x1_0000, o + 2)
  }

  function ReadInt32(b: bytes, o: nat): Read<int> {
    if o + 4 > |b| then Fail(RangeError)
    else
      var u := At(b, o) * 0x100_0000 + At(b, o + 1) * 0x1_0000 + At(b, o + 2) * 0x100 + At(b, o + 3);
      Ok(if u < TWO_31 then u else u - TWO_32, o + 4)
  }

  /** The first byte is shifted as a signed 32-bit number, the other seven are multiplied up. */
  function ReadInt64(b: bytes, o: nat): Read<int> {
    if o + 8 > |b| then Fail(RangeError)
    else
      var low := JsShl(At(b, o), 24) + At(b, o + 1) * 0x1_0000 + At(b, o + 2) * 0x100 + At(b, o + 3);
      var high := At(b, o + 4) * 0x100_0000 + At(b, o + 5) * 0x1_0000 + At(b, o + 6) * 0x100 + At(b, o + 7);
      Ok(Shl(low, 32) + high, o + 8)
  }

  /**
    The loop shared by the variable-length readers: `step` folds in the group that starts at
    bit i, and a reader with a limit refuses to continue past that bit.
   */
  function GroupLoop(step: (int, int, nat) -> int, limit: Option<nat>, error: Error,
                     b: bytes, o: nat, result: int, i: nat): Read<int>
    decreases |b| - o
  {
    var current := At(b, o);
    var result := step(result, current, i);
    if current < 0x80 then Ok(result, o + 1)
    else if limit.Some? && i + 7 > limit.value then Fail(error)
    else GroupLoop(step, limit, error, b, o + 1, result, i + 7)
  }

  function AddGroup32(result: int, current: int, i: nat): int { result + JsShl(JsAnd(current, 0x7f), i) }

  function OrGroup32(result: int, current: int, i: nat): int { JsOr(result, JsShl(JsAnd(current, 0x7f), i)) }

  function AddGroup64(result: int, current: int, i: nat): int { result + Shl(And(current, 0x7f), i) }

  function ReadVarInt(b: bytes, o: nat): Read<int> {
    var r := GroupLoop(AddGroup32, None, InvalidVarInt, b, o, 0, 0);
    if r.Fail? then r else Ok(DecodeZigZag(r.value), r.next)
  }

  function ReadUVarInt(b: bytes, o: nat): Read<int> {
    var r := GroupLoop(OrGroup32, Some(28), InvalidVarInt, b, o, 0, 0);
    if r.Fail? then r else Ok(JsUshr(r.value, 0), r.next)
  }

  function ReadVarLong(b: bytes, o: nat): Read<int> {
    var r := GroupLoop(AddGroup64, Some(63), InvalidLong, b, o, 0, 0);
    if r.Fail? then r else Ok(DecodeZigZag64(r.value), r.next)
  }

  /** readBytes and readVarIntBytes after the length is known; -1 is null. */
  function ReadSized(b: bytes, o: nat, len: int): Read<Option<bytes>> {
    if len == -1 then Ok(None, o)
    else if len < 0 then Fail(NegativeLength)
    else Ok(Some(Slice(b, o, len)), o + len)
  }

  function ReadVarIntBytes(b: bytes, o: nat): Read<Option<bytes>> {
    var (len, o) :- ReadVarInt(b, o);
    ReadSized(b, o, len)
  }

  function ReadBytes(b: bytes, o: nat): Read<Option<bytes>> {
    var (len, o) :- ReadInt32(b, o);
    ReadSized(b, o, len)
  }

  function ReadString(b: bytes, o: nat): Read<Option<bytes>> {
    var (len, o) :- ReadInt16(b, o);
    ReadSized(b, o, len)
  }
}
