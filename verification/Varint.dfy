/** Variable-length integers: every read inverts its write, wherever the bytes sit in a buffer. */
module Varint {
  import opened Bits
  import opened Wire

  /** The buffer holds these bytes at this offset. */
  ghost predicate Holds(b: bytes, o: nat, part: bytes) {
    o + |part| <= |b| && b[o..o + |part|] == part
  }

  lemma HoldsSplit(b: bytes, o: nat, p: bytes, q: bytes)
    requires Holds(b, o, p + q)
    ensures Holds(b, o, p) && Holds(b, o + |p|, q)
  {
    assert b[o..o + |p|] == (p + q)[..|p|];
    assert b[o + |p|..o + |p| + |q|] == (p + q)[|p|..];
  }

  lemma HoldsFirst(b: bytes, o: nat, p: bytes)
    requires Holds(b, o, p) && |p| >= 1
    ensures At(b, o) == p[0]
    ensures Holds(b, o + 1, p[1..])
  {
    assert b[o..o + |p|][0] == p[0];
    assert b[o + 1..o + |p|] == p[1..];
  }

  // ------------------------------------------------------------------ shifts are linear

  lemma {:induction false} ShlAdd(a: int, b: int, n: nat)
    ensures Shl(a, n) + Shl(b, n) == Shl(a + b, n)
  {
    if n > 0 { ShlAdd(a, b, n - 1); }
  }

  lemma {:induction false} ShlMonotone(a: int, b: int, n: nat)
    requires a <= b
    ensures Shl(a, n) <= Shl(b, n)
  {
    if n > 0 { ShlMonotone(a, b, n - 1); }
  }

  lemma {:induction false} ShlShl(a: int, m: nat, n: nat)
    ensures Shl(Shl(a, m), n) == Shl(a, m + n)
  {
    if n > 0 { ShlShl(a, m, n - 1); }
  }

  lemma {:induction false} ShlOneMonotone(m: nat, n: nat)
    requires m <= n
    ensures 1 <= Shl(1, m) <= Shl(1, n)
    decreases n
  {
    if n > 0 { ShlOneMonotone(if m < n then m else m - 1, n - 1); }
  }

  lemma Shl7(a: int, n: nat)
    ensures Shl(a, n + 7) == Shl(0x80 * a, n)
  {
    ShlShl(a, 7, n);
    assert Shl(a, 7) == 0x80 * a by {
      assert Shl(a, 3) == 8 * a by { assert Shl(a, 0) == a; assert Shl(a, 1) == 2 * a; }
      assert Shl(a, 5) == 32 * a;
    }
  }

  /** One more group: u at bit i is its low seven bits at i and the rest at i + 7. */
  lemma GroupStep(u: nat, i: nat, s: int, bits: nat)
    requires 0 <= s < Shl(1, i) && s + Shl(u, i) < Shl(1, bits)
    ensures Shl(u, i) == Shl(u % 0x80, i) + Shl(u / 0x80, i + 7)
    ensures 0 <= s + Shl(u % 0x80, i) < Shl(1, i + 7)
    ensures s + Shl(u % 0x80, i) < Shl(1, bits)
    ensures u >= 0x80 ==> i + 7 < bits
  {
    var low, rest := u % 0x80, u / 0x80;
    Shl7(rest, i);
    ShlAdd(low, 0x80 * rest, i);
    ShlMonotone(0, low, i);
    ShlMonotone(0, rest, i + 7);
    ShlZero(i);
    ShlZero(i + 7);
    ShlMonotone(low, 0x7f, i);
    ShlAdd(0x7f, 1, i);
    Shl7(1, i);
    if u >= 0x80 {
      ShlMonotone(0x80, u, i);
      if bits <= i + 7 { ShlOneMonotone(bits, i + 7); }
    }
  }

  lemma {:induction false} ShlZero(n: nat)
    ensures Shl(0, n) == 0
  {
    if n > 0 { ShlZero(n - 1); }
  }

  /** Byte i holds bits 7i to 7i+6 and says whether more follow; no byte more than needed. */
  lemma {:induction false} UVarIntGroups(u: nat)
    ensures
      var r := UVarIntBytes(u);
      && (forall i: nat | i < |r| :: r[i] == Group(u, i) + if i + 1 < |r| then 0x80 else 0)
      && u < Pow2(7 * |r|) && (|r| > 1 ==> u >= Pow2(7 * (|r| - 1)))
  {
    hide Pow2, Group;
    var r, rest := UVarIntBytes(u), u / 0x80;
    PowersOf128(0);
    assert Group(u, 0) == u % 0x80 by { FirstGroup(u); }
    if u >= 0x80 {
      UVarIntGroups(rest);
      var more := UVarIntBytes(rest);
      assert r == [u % 0x80 + 0x80] + more;
      PowersOf128(|more|);
      PowersOf128(|more| - 1);
      forall i: nat | i < |r| ensures r[i] == Group(u, i) + if i + 1 < |r| then 0x80 else 0 {
        if i > 0 {
          assert r[i] == more[i - 1];
          NextGroup(u, i - 1);
        }
      }
    }
  }

  function Group(u: nat, i: nat): nat { (u / Pow2(7 * i)) % 0x80 }

  lemma FirstGroup(u: nat)
    ensures Group(u, 0) == u % 0x80
  {}

  lemma NextGroup(u: nat, i: nat)
    ensures Group(u, i + 1) == Group(u / 0x80, i)
  {
    PowersOf128(i);
    DivTwice(u, Pow2(7 * i));
  }

  lemma PowersOf128(i: nat)
    ensures Pow2(7 * (i + 1)) == 0x80 * Pow2(7 * i) && Pow2(0) == 1
  {
    assert Pow2(7) == 0x80;
    Pow2Add(7, 7 * i);
  }

  lemma DivTwice(u: nat, b: int)
    requires b > 0
    ensures u / (0x80 * b) == (u / 0x80) / b
  {
    var p, t := (u / 0x80) / b, (u / 0x80) % b;
    assert (0x80 * b) * p == 0x80 * (b * p);
    ModUnique(u, 0x80 * b, p, 0x80 * t + u % 0x80);
  }

  // ------------------------------------------------------------------ the shared loop

  /** Whenever the accumulator stands for s, one step makes it stand for s plus the next group. */
  ghost predicate Accumulates(step: (int, int, nat) -> int, stands: (int, int) -> bool, bits: nat) {
    forall r, s, x, i: nat {:trigger step(r, x, i), stands(r, s)} ::
      stands(r, s) && 0 <= s < Shl(1, i) && i < bits && i % 7 == 0 && 0 <= x < 0x100
      && s + Shl(x % 0x80, i) < Shl(1, bits)
      ==> stands(step(r, x, i), s + Shl(x % 0x80, i))
  }

  ghost predicate LimitFits(limit: Option<nat>, bits: nat) {
    limit.None? || (bits == 32 && limit.value == 28) || (bits == 64 && limit.value == 63)
  }

  lemma {:induction false} GroupLoopReads(
    step: (int, int, nat) -> int, stands: (int, int) -> bool, bits: nat, limit: Option<nat>, error: Error,
    b: bytes, o: nat, u: nat, result: int, s: int, i: nat)
    requires Accumulates(step, stands, bits) && LimitFits(limit, bits)
    requires Holds(b, o, UVarIntBytes(u)) && stands(result, s)
    requires 0 <= s < Shl(1, i) && s + Shl(u, i) < Shl(1, bits) && i < bits && i % 7 == 0
    ensures
      var r := GroupLoop(step, limit, error, b, o, result, i);
      r.Ok? && r.next == o + |UVarIntBytes(u)| && stands(r.value, s + Shl(u, i))
    decreases u
  {
    hide Shl;
    var current := At(b, o);
    HoldsFirst(b, o, UVarIntBytes(u));
    assert current % 0x80 == u % 0x80 && (current >= 0x80 <==> u >= 0x80);
    GroupStep(u, i, s, bits);
    var next := step(result, current, i);
    assert stands(next, s + Shl(u % 0x80, i));
    if u >= 0x80 {
      assert UVarIntBytes(u)[1..] == UVarIntBytes(u / 0x80);
      GroupLoopReads(step, stands, bits, limit, error, b, o + 1, u / 0x80, next, s + Shl(u % 0x80, i), i + 7);
    } else {
      ShlZero(i + 7);
    }
  }

  lemma LowSeven(x: int)
    ensures And(x, 0x7f) == x % 0x80
  {
    assert Pow2(7) == 0x80;
    AndLowMask(7, x);
  }

  lemma ShlOf32And64()
    ensures Shl(1, 32) == TWO_32 && Shl(1, 64) == TWO_64
  {
    Pow2Of32();
    Pow2Add(32, 32);
    ShlIsTimes(1, 32);
    ShlIsTimes(1, 64);
  }

  // ------------------------------------------------------------------ the three readers

  ghost function Same(r: int, s: int): bool { r == s }

  ghost function SameLow32(r: int, s: int): bool { ToUint32(r) == s }

  lemma AddGroup64Accumulates()
    ensures Accumulates(AddGroup64, Same, 64)
  {
    forall r, s, x, i: nat | Same(r, s) ensures Same(AddGroup64(r, x, i), s + Shl(x % 0x80, i)) {
      LowSeven(x);
    }
  }

  lemma MaskedByte(x: int)
    requires 0 <= x < 0x100
    ensures JsAnd(x, 0x7f) == x % 0x80
  {
    WrapOf(x);
    WrapOf(0x7f);
    LowSeven(x);
  }

  lemma ShiftedGroup(m: int, i: nat)
    requires 0 <= m < 0x80 && i < 32
    ensures JsShl(m, i) == ToInt32(Shl(m, i))
  {
    WrapOf(m);
    assert i % 32 == i;
  }

  lemma AddMod(r: int, s: int, y: int)
    requires ToUint32(r) == s && s + y < TWO_32 && 0 <= y
    ensures ToUint32(r + ToInt32(y)) == s + y
  {}

  /** The group a byte contributes at bit i. */
  lemma Group32(x: int, i: nat)
    requires 0 <= x < 0x100 && i < 32
    ensures JsShl(JsAnd(x, 0x7f), i) == ToInt32(Shl(x % 0x80, i))
    ensures 0 <= Shl(x % 0x80, i)
  {
    MaskedByte(x);
    ShiftedGroup(x % 0x80, i);
    ShlMonotone(0, x % 0x80, i);
    ShlZero(i);
  }

  lemma AddGroup32Step(r: int, s: int, x: int, i: nat)
    requires SameLow32(r, s) && 0 <= x < 0x100 && i < 32 && s + Shl(x % 0x80, i) < Shl(1, 32)
    ensures SameLow32(AddGroup32(r, x, i), s + Shl(x % 0x80, i))
  {
    hide Shl, ToInt32, JsShl, JsAnd, And;
    Group32(x, i);
    ShlOf32And64();
    AddMod(r, s, Shl(x % 0x80, i));
  }

  lemma AddGroup32Accumulates()
    ensures Accumulates(AddGroup32, SameLow32, 32)
  {
    forall r, s, x, i: nat | SameLow32(r, s) && i < 32 && 0 <= x < 0x100 && s + Shl(x % 0x80, i) < Shl(1, 32)
      ensures SameLow32(AddGroup32(r, x, i), s + Shl(x % 0x80, i))
    {
      AddGroup32Step(r, s, x, i);
    }
  }

  lemma OrWords(r: int, s: int, y: int)
    requires ToUint32(r) == s && 0 <= s < 0x1000_0000 && 0 <= y < TWO_32
    ensures JsOr(r, ToInt32(y)) == Or(s, ToInt32(y))
  {
    WrapOf(ToInt32(y));
  }

  /** Or-ing a group above the accumulated bits adds it, also when bit 31 turns the word negative. */
  lemma OrAbove(s: int, x: int, i: nat)
    requires 0 <= s < Shl(1, i) && i <= 28 && 0 <= Shl(x, i) < TWO_32
    ensures Or(s, ToInt32(Shl(x, i))) == s + ToInt32(Shl(x, i))
  {
    hide Or;
    if Shl(x, i) < TWO_31 {
      OrDisjoint(i, s, x);
    } else {
      var carry := Shl(1, 32 - i);
      ShlShl(1, 32 - i, i);
      ShlOf32And64();
      ShlAdd(x - carry, carry, i);
      OrDisjoint(i, s, x - carry);
    }
  }

  lemma Below28(s: int, i: nat)
    requires s < Shl(1, i) && i <= 28
    ensures s < 0x1000_0000
  {
    ShlOneMonotone(i, 28);
    ShlIsTimes(1, 28);
    Pow2Of32();
  }

  lemma OrGroup32Step(r: int, s: int, x: int, i: nat)
    requires SameLow32(r, s) && 0 <= x < 0x100 && i <= 28 && 0 <= s < Shl(1, i) && s + Shl(x % 0x80, i) < Shl(1, 32)
    ensures SameLow32(OrGroup32(r, x, i), s + Shl(x % 0x80, i))
  {
    hide Shl, ToInt32, JsOr, JsShl, JsAnd, Or, And;
    var y := Shl(x % 0x80, i);
    Group32(x, i);
    ShlOf32And64();
    Below28(s, i);
    OrWords(r, s, y);
    OrAbove(s, x % 0x80, i);
    AddMod(s, s, y);
  }

  lemma OrGroup32Accumulates()
    ensures Accumulates(OrGroup32, SameLow32, 32)
  {
    hide Shl, SameLow32, OrGroup32;
    forall r, s, x, i: nat | SameLow32(r, s) && 0 <= s < Shl(1, i) && i < 32 && i % 7 == 0 && 0 <= x < 0x100
                             && s + Shl(x % 0x80, i) < Shl(1, 32)
      ensures SameLow32(OrGroup32(r, x, i), s + Shl(x % 0x80, i))
    {
      OrGroup32Step(r, s, x, i);
    }
  }

  /** Varint: every 32-bit value. */
  lemma VarIntRoundTrip(b: bytes, o: nat, v: int32)
    requires Holds(b, o, VarIntBytes(v))
    ensures ReadVarInt(b, o) == Ok(v, o + |VarIntBytes(v)|)
  {
    hide DecodeZigZag, AddGroup32;
    var u := ZigZag(v);
    AddGroup32Accumulates();
    ShlOf32And64();
    GroupLoopReads(AddGroup32, SameLow32, 32, None, InvalidVarInt, b, o, u, 0, 0, 0);
    UnZigZag(v, GroupLoop(AddGroup32, None, InvalidVarInt, b, o, 0, 0).value);
  }

  /** Unsigned varint: every unsigned 32-bit value. */
  lemma UVarIntRoundTrip(b: bytes, o: nat, u: uint32)
    requires Holds(b, o, UVarIntBytes(u))
    ensures ReadUVarInt(b, o) == Ok(u, o + |UVarIntBytes(u)|)
  {
    OrGroup32Accumulates();
    ShlOf32And64();
    GroupLoopReads(OrGroup32, SameLow32, 32, Some(28), InvalidVarInt, b, o, u, 0, 0, 0);
  }

  /** Varlong: every 64-bit value. */
  lemma VarLongRoundTrip(b: bytes, o: nat, v: int64)
    requires Holds(b, o, VarLongBytes(v))
    ensures ReadVarLong(b, o) == Ok(v, o + |VarLongBytes(v)|)
  {
    AddGroup64Accumulates();
    ShlOf32And64();
    GroupLoopReads(AddGroup64, Same, 64, Some(63), InvalidLong, b, o, ZigZag(v), 0, 0, 0);
    UnZigZag64(v);
  }

  // ------------------------------------------------------------------ sizes

  lemma {:induction false} UVarIntSize(u: nat, k: nat)
    requires u < Pow2(7 * k) && k >= 1
    ensures |UVarIntBytes(u)| <= k
  {
    assert Pow2(7) == 0x80;
    Pow2Add(7, 7 * (k - 1));
    if u >= 0x80 { UVarIntSize(u / 0x80, k - 1); }
  }

  /** At most five bytes for 32-bit values and ten for 64-bit ones. */
  lemma VarintSizes(v: int32, u: uint32, w: int64)
    ensures |VarIntBytes(v)| <= 5 && |UVarIntBytes(u)| <= 5 && |VarLongBytes(w)| <= 10
  {
    Pow2Of32();
    Pow2Add(32, 32);
    Pow2Add(32, 3);
    Pow2Add(64, 6);
    UVarIntSize(ZigZag(v), 5);
    UVarIntSize(u, 5);
    UVarIntSize(ZigZag(w), 10);
  }

  // ------------------------------------------------------------------ fixed width

  lemma Int32RoundTrip(b: bytes, o: nat, v: int32)
    requires Holds(b, o, Int32Bytes(v))
    ensures ReadInt32(b, o) == Ok(v, o + 4)
  {
    hide Holds, Int32Bytes, At;
    WordAt(b, o, v);
  }

  function Word(b: bytes, o: nat): int {
    At(b, o) * 0x100_0000 + At(b, o + 1) * 0x1_0000 + At(b, o + 2) * 0x100 + At(b, o + 3)
  }

  lemma WordAt(b: bytes, o: nat, x: int)
    requires Holds(b, o, Int32Bytes(x))
    ensures Word(b, o) == x % TWO_32 && o + 4 <= |b|
  {
    FourBytes(b, o, Int32Bytes(x));
    Digits(x);
  }

  lemma SignedWordAt(b: bytes, o: nat, x: int32)
    requires Holds(b, o, Int32Bytes(x))
    ensures JsShl(At(b, o), 24) + At(b, o + 1) * 0x1_0000 + At(b, o + 2) * 0x100 + At(b, o + 3) == x
  {
    hide JsShl;
    FourBytes(b, o, Int32Bytes(x));
    SignedDigits(x);
  }

  lemma FourBytes(b: bytes, o: nat, p: bytes)
    requires Holds(b, o, p) && |p| == 4
    ensures At(b, o) == p[0] && At(b, o + 1) == p[1] && At(b, o + 2) == p[2] && At(b, o + 3) == p[3]
  {
    assert b[o..o + 4][1] == p[1] && b[o..o + 4][2] == p[2] && b[o..o + 4][3] == p[3] && b[o..o + 4][0] == p[0];
  }

  lemma Int8RoundTrip(b: bytes, o: nat, v: int8)
    requires Holds(b, o, Int8Bytes(v))
    ensures ReadInt8(b, o) == Ok(v, o + 1)
  {
    HoldsFirst(b, o, Int8Bytes(v));
  }

  lemma Int16RoundTrip(b: bytes, o: nat, v: int16)
    requires Holds(b, o, Int16Bytes(v))
    ensures ReadInt16(b, o) == Ok(v, o + 2)
  {
    HoldsFirst(b, o, Int16Bytes(v));
    HoldsFirst(b, o + 1, Int16Bytes(v)[1..]);
  }

  /** int64: every 64-bit value, through two 32-bit halves. */
  lemma Int64RoundTrip(b: bytes, o: nat, v: int64)
    requires Holds(b, o, Int64Bytes(v))
    ensures ReadInt64(b, o) == Ok(v, o + 8)
  {
    hide Holds, Int32Bytes, At, JsShl, Shl;
    var high, low := v / TWO_32, v % TWO_32;
    HoldsSplit(b, o, Int32Bytes(high), Int32Bytes(low));
    SignedWordAt(b, o, high);
    WordAt(b, o + 4, low);
    Recombine(v);
  }

  lemma Recombine(v: int64)
    ensures Shl(v / TWO_32, 32) + v % TWO_32 == v
  {
    ShlIsTimes(v / TWO_32, 32);
    Pow2Of32();
  }

  function HighBits(v: int): int { ToInt32(Shr(v, 32)) }

  function LowBits(v: int): int { ToInt32(v) }

  /** writeInt64 takes the halves as signed 32-bit numbers; the bytes are the same. */
  lemma Halves(v: int64)
    ensures Int64Bytes(v) == Int32Bytes(HighBits(v)) + Int32Bytes(LowBits(v))
  {
    Pow2Of32();
    ShrIsDiv(v, 32);
    WrapOf(v / TWO_32);
    SameDigits(LowBits(v), v % TWO_32);
  }

  lemma SameDigits(x: int, y: int)
    requires x == y || x == y - TWO_32
    ensures Int32Bytes(x) == Int32Bytes(y)
  {
    if x == y - TWO_32 {
      DigitShift(y, 0x100_0000, 1);
      DigitShift(y, 0x1_0000, 0x100);
      DigitShift(y, 0x100, 0x1_0000);
      DigitShift(y, 1, 0x100_0000);
    }
  }

  /** Moving by a multiple of 256 units leaves the digit of that unit alone. */
  lemma DigitShift(y: int, unit: int, n: int)
    requires unit > 0
    ensures ((y - unit * (0x100 * n)) / unit) % 0x100 == (y / unit) % 0x100
  {
    var m := 0x100 * n;
    assert y - unit * m == unit * (y / unit - m) + y % unit;
    ModUnique(y - unit * m, unit, y / unit - m, y % unit);
    ModUnique(y / unit - m, 0x100, (y / unit) / 0x100 - n, (y / unit) % 0x100);
  }

  lemma SignedDigits(x: int32)
    ensures JsShl((x / 0x100_0000) % 0x100, 24) + ((x / 0x1_0000) % 0x100) * 0x1_0000
      + ((x / 0x100) % 0x100) * 0x100 + x % 0x100 == x
  {
    Digits(x);
    SignedTop(x);
    TopDigit(x);
  }

  lemma TopDigit(x: int32)
    ensures (x / 0x100_0000) * 0x100_0000 - ((x / 0x100_0000) % 0x100) * 0x100_0000 == x - x % TWO_32
  {
    var c := x / 0x100_0000;
    assert x / TWO_32 == c / 0x100;
  }

  /** Base-256 digits of a 32-bit word. */
  lemma Digits(x: int)
    ensures
      ((x / 0x100_0000) % 0x100) * 0x100_0000 + ((x / 0x1_0000) % 0x100) * 0x1_0000
      + ((x / 0x100) % 0x100) * 0x100 + x % 0x100 == x % TWO_32
  {
    var a := x / 0x100;
    var b := a / 0x100;
    var c := b / 0x100;
    assert b == x / 0x1_0000 && c == x / 0x100_0000;
    var d := c / 0x100;
    assert x == d * TWO_32 + (c % 0x100) * 0x100_0000 + (b % 0x100) * 0x1_0000 + (a % 0x100) * 0x100 + x % 0x100;
  }

  lemma SignedTop(x: int32)
    ensures JsShl((x / 0x100_0000) % 0x100, 24) == (x / 0x100_0000) * 0x100_0000
  {
    var top := (x / 0x100_0000) % 0x100;
    Pow2Of32();
    WrapOf(top);
    ShlIsTimes(top, 24);
    assert -0x80 <= x / 0x100_0000 < 0x80;
  }
}
