/**
  JavaScript integer semantics.

  `And`, `Or` and `Xor` are the bitwise operators of an unbounded two's-complement
  integer (a BigInt); the `Js*` functions are the operators of a Number, which first
  reduce both operands to signed 32-bit integers.
 */
module Bits {
  type byte = x: int | 0 <= x < 256

  type int32 = x: int | -0x8000_0000 <= x < 0x8000_0000
  type uint32 = x: int | 0 <= x < 0x1_0000_0000
  type int64 = x: int | -0x8000_0000_0000_0000 <= x < 0x8000_0000_0000_0000

  const TWO_31 := 0x8000_0000
  const TWO_32 := 0x1_0000_0000
  const TWO_64 := 0x1_0000_0000_0000_0000

  function Pow2(n: nat): (r: int)
    ensures r >= 1
  {
    if n == 0 then 1 else 2 * Pow2(n - 1)
  }

  lemma {:induction false} Pow2Add(a: nat, b: nat)
    ensures Pow2(a + b) == Pow2(a) * Pow2(b)
  {
    if a > 0 { Pow2Add(a - 1, b); }
  }

  lemma Pow2Of32()
    ensures Pow2(8) == 0x100 && Pow2(16) == 0x1_0000 && Pow2(24) == 0x100_0000 && Pow2(28) == 0x1000_0000
    ensures Pow2(31) == TWO_31 && Pow2(32) == TWO_32
  {
    assert Pow2(4) == 16;
    Pow2Add(4, 4);
    Pow2Add(8, 8);
    Pow2Add(16, 8);
    Pow2Add(24, 4);
    Pow2Add(28, 4);
    Pow2Add(16, 16);
  }

  function ToUint32(x: int): (r: int)
    ensures 0 <= r < TWO_32
  {
    x % TWO_32
  }

  /** ToInt32 of a Number, and BigInt.asIntN(32, x). */
  function ToInt32(x: int): (r: int)
    ensures -TWO_31 <= r < TWO_31
  {
    var u := x % TWO_32;
    if u < TWO_31 then u else u - TWO_32
  }

  /** Magnitude that halving shrinks on both sides of zero. */
  function Mag(x: int): nat {
    if x < 0 then -x - 1 else x
  }

  function And(x: int, y: int): int
    decreases Mag(x) + Mag(y)
  {
    if x == 0 || y == 0 then 0
    else if x == -1 then y
    else if y == -1 then x
    else 2 * And(x / 2, y / 2) + (if x % 2 == 1 && y % 2 == 1 then 1 else 0)
  }

  function Xor(x: int, y: int): int
    decreases Mag(x) + Mag(y)
  {
    if x == 0 then y
    else if y == 0 then x
    else if x == -1 then -y - 1
    else if y == -1 then -x - 1
    else 2 * Xor(x / 2, y / 2) + (if x % 2 != y % 2 then 1 else 0)
  }

  function Or(x: int, y: int): int
    decreases Mag(x) + Mag(y)
  {
    if x == 0 then y
    else if y == 0 then x
    else if x == -1 || y == -1 then -1
    else 2 * Or(x / 2, y / 2) + (if x % 2 == 1 || y % 2 == 1 then 1 else 0)
  }

  function JsAnd(x: int, y: int): int { And(ToInt32(x), ToInt32(y)) }

  function JsOr(x: int, y: int): int { Or(ToInt32(x), ToInt32(y)) }

  function JsXor(x: int, y: int): int { Xor(ToInt32(x), ToInt32(y)) }

  /** BigInt shifts: doubling, and halving toward minus infinity. */
  function Shl(x: int, n: nat): int {
    if n == 0 then x else 2 * Shl(x, n - 1)
  }

  function Shr(x: int, n: nat): int
    decreases n
  {
    if n == 0 then x else Shr(x / 2, n - 1)
  }

  function JsShl(x: int, n: nat): int { ToInt32(Shl(ToInt32(x), n % 32)) }

  function JsShr(x: int, n: nat): int { Shr(ToInt32(x), n % 32) }

  function JsUshr(x: int, n: nat): int { Shr(ToUint32(x), n % 32) }

  // ------------------------------------------------------------------ bit by bit

  /** The shortcuts of `Xor` agree with the bitwise recurrence everywhere. */
  lemma XorStep(x: int, y: int)
    ensures Xor(x, y) == 2 * Xor(x / 2, y / 2) + (if x % 2 != y % 2 then 1 else 0)
  {}

  lemma AndStep(x: int, y: int)
    ensures And(x, y) == 2 * And(x / 2, y / 2) + (if x % 2 == 1 && y % 2 == 1 then 1 else 0)
  {}

  lemma OrStep(x: int, y: int)
    ensures Or(x, y) == 2 * Or(x / 2, y / 2) + (if x % 2 == 1 || y % 2 == 1 then 1 else 0)
  {}

  /** Taking one more low bit into a remainder. */
  lemma ModStep(x: int, m: int)
    requires m > 0
    ensures x % (2 * m) == 2 * ((x / 2) % m) + x % 2
    ensures (x % (2 * m)) / 2 == (x / 2) % m
    ensures (x % (2 * m)) % 2 == x % 2
    ensures x / (2 * m) == (x / 2) / m
  {
    var h := x / 2;
    var q := h / m;
    assert x == (2 * m) * q + (2 * (h % m) + x % 2) by {
      assert h == m * q + h % m;
    }
    ModUnique(x, 2 * m, q, 2 * (h % m) + x % 2);
  }

  lemma ModUnique(x: int, m: int, q: int, r: int)
    requires m > 0 && 0 <= r < m && x == m * q + r
    ensures x % m == r && x / m == q
  {
    var d := x / m - q;
    assert m * d == r - x % m;
    assert d >= 1 ==> m * d >= m;
    assert d <= -1 ==> m * d <= -m;
  }

  lemma {:induction false} ShlIsTimes(x: int, n: nat)
    ensures Shl(x, n) == x * Pow2(n)
  {
    if n > 0 { ShlIsTimes(x, n - 1); }
  }

  type digit = x: int | 0 <= x < 16
  type signedDigit = x: int | -8 <= x < 8

  predicate Bit0(d: int) { d == 1 || d == 3 || d == 5 || d == 7 || d == 9 || d == 11 || d == 13 || d == 15 }

  predicate Bit1(d: int) { d == 2 || d == 3 || d == 6 || d == 7 || d == 10 || d == 11 || d == 14 || d == 15 }

  predicate Bit2(d: int) { 4 <= d < 8 || 12 <= d }

  predicate Bit3(d: int) { 8 <= d }

  /** The exclusive or of two hexadecimal digits. */
  function XorDigit(a: int, b: int): int {
    (if Bit0(a) != Bit0(b) then 1 else 0) + (if Bit1(a) != Bit1(b) then 2 else 0)
    + (if Bit2(a) != Bit2(b) then 4 else 0) + (if Bit3(a) != Bit3(b) then 8 else 0)
  }

  lemma DigitBits(d: digit)
    ensures d % 2 == 1 <==> Bit0(d)
    ensures d / 2 % 2 == 1 <==> Bit1(d)
    ensures d / 2 / 2 % 2 == 1 <==> Bit2(d)
    ensures d / 2 / 2 / 2 % 2 == 1 <==> Bit3(d)
    ensures d / 2 / 2 / 2 / 2 == 0
  {}

  lemma DigitXor(a: digit, b: digit)
    ensures Xor(a, b) == XorDigit(a, b)
  {
    hide Xor, Bit0, Bit1, Bit2, Bit3;
    DigitBits(a);
    DigitBits(b);
    XorStep(a, b);
    XorStep(a / 2, b / 2);
    XorStep(a / 2 / 2, b / 2 / 2);
    XorStep(a / 2 / 2 / 2, b / 2 / 2 / 2);
    SignXor(0, 0);
  }

  /** The number with these hexadecimal digits, the first one signed. */
  function Hex(d7: int, d6: int, d5: int, d4: int, d3: int, d2: int, d1: int, d0: int): int {
    d0 + 16 * (d1 + 16 * (d2 + 16 * (d3 + 16 * (d4 + 16 * (d5 + 16 * (d6 + 16 * d7))))))
  }

  function Unsigned(d: signedDigit): digit { if d < 0 then d + 16 else d }

  lemma TopXor(a: signedDigit, b: signedDigit)
    ensures Xor(a, b) == XorDigit(Unsigned(a), Unsigned(b)) - if (a < 0) == (b < 0) then 0 else 16
  {
    hide Xor, XorDigit;
    var x, y := if a < 0 then -1 else 0, if b < 0 then -1 else 0;
    XorHex(x, Unsigned(a), y, Unsigned(b));
    SignXor(x, y);
  }

  /** The low n bits and the rest of an exclusive or go separately. */
  lemma {:induction false} XorSplit(n: nat, a: int, r: int, b: int, s: int)
    requires 0 <= r < Pow2(n) && 0 <= s < Pow2(n)
    ensures Xor(Pow2(n) * a + r, Pow2(n) * b + s) == Pow2(n) * Xor(a, b) + Xor(r, s)
  {
    hide Xor;
    if n == 0 {
      SignXor(0, 0);
    } else {
      var m := Pow2(n - 1);
      Halved(m, a, r);
      Halved(m, b, s);
      XorStep(2 * m * a + r, 2 * m * b + s);
      XorStep(r, s);
      XorSplit(n - 1, a, r / 2, b, s / 2);
    }
  }

  lemma Halved(m: int, a: int, r: int)
    ensures (2 * m * a + r) / 2 == m * a + r / 2 && (2 * m * a + r) % 2 == r % 2
  {
    var p := m * a;
    assert 2 * m * a == 2 * p;
  }

  lemma XorHex(a: int, r: digit, b: int, s: digit)
    ensures Xor(r + 16 * a, s + 16 * b) == XorDigit(r, s) + 16 * Xor(a, b)
  {
    hide Xor, XorDigit;
    assert Pow2(4) == 16;
    XorSplit(4, a, r, b, s);
    DigitXor(r, s);
    SignXor(0, 0);
  }

  /** The exclusive or of 32-bit numbers, digit by digit. */
  lemma HexXor(a7: signedDigit, a6: digit, a5: digit, a4: digit, a3: digit, a2: digit, a1: digit, a0: digit,
               b7: signedDigit, b6: digit, b5: digit, b4: digit, b3: digit, b2: digit, b1: digit, b0: digit)
    ensures Xor(Hex(a7, a6, a5, a4, a3, a2, a1, a0), Hex(b7, b6, b5, b4, b3, b2, b1, b0))
      == Hex(XorDigit(Unsigned(a7), Unsigned(b7)) - (if (a7 < 0) == (b7 < 0) then 0 else 16), XorDigit(a6, b6), XorDigit(a5, b5), XorDigit(a4, b4),
             XorDigit(a3, b3), XorDigit(a2, b2), XorDigit(a1, b1), XorDigit(a0, b0))
  {
    hide Xor, XorDigit, Unsigned;
    var x6, y6 := a6 + 16 * a7, b6 + 16 * b7;
    var x5, y5 := a5 + 16 * x6, b5 + 16 * y6;
    var x4, y4 := a4 + 16 * x5, b4 + 16 * y5;
    var x3, y3 := a3 + 16 * x4, b3 + 16 * y4;
    var x2, y2 := a2 + 16 * x3, b2 + 16 * y3;
    var x1, y1 := a1 + 16 * x2, b1 + 16 * y2;
    assert Hex(a7, a6, a5, a4, a3, a2, a1, a0) == a0 + 16 * x1;
    assert Hex(b7, b6, b5, b4, b3, b2, b1, b0) == b0 + 16 * y1;
    XorHex(x1, a0, y1, b0);
    XorHex(x2, a1, y2, b1);
    XorHex(x3, a2, y3, b2);
    XorHex(x4, a3, y4, b3);
    XorHex(x5, a4, y5, b4);
    XorHex(x6, a5, y6, b5);
    XorHex(a7, a6, b7, b6);
    TopXor(a7, b7);
  }

  lemma SignXor(a: int, b: int)
    requires -1 <= a <= 0 && -1 <= b <= 0
    ensures Xor(a, b) == if a == b then 0 else -1
  {}

  lemma {:induction false} ShrIsDiv(x: int, n: nat)
    ensures Shr(x, n) == x / Pow2(n)
    decreases n
  {
    if n > 0 {
      ShrIsDiv(x / 2, n - 1);
      ModStep(x, Pow2(n - 1));
    }
  }

  /** The low n bits of an exclusive or depend only on the low n bits of its operands. */
  lemma {:induction false} XorMod(n: nat, x: int, y: int)
    ensures Xor(x, y) % Pow2(n) == Xor(x % Pow2(n), y % Pow2(n))
  {
    if n > 0 {
      hide Xor;
      XorMod(n - 1, x / 2, y / 2);
      XorModStep(x, y, Pow2(n - 1));
    }
  }

  lemma XorModStep(x: int, y: int, m: int)
    requires m > 0 && Xor(x / 2, y / 2) % m == Xor((x / 2) % m, (y / 2) % m)
    ensures Xor(x, y) % (2 * m) == Xor(x % (2 * m), y % (2 * m))
  {
    hide Xor;
    var a, b := x % (2 * m), y % (2 * m);
    ModStep(x, m);
    ModStep(y, m);
    ModStep(Xor(x, y), m);
    XorStep(x, y);
    XorStep(a, b);
    XorHalf(Xor(x, y), Xor(x / 2, y / 2), if x % 2 != y % 2 then 1 else 0);
  }

  lemma XorHalf(z: int, h: int, bit: int)
    requires z == 2 * h + bit && 0 <= bit < 2
    ensures z / 2 == h && z % 2 == bit
  {}

  /** Masking with 2^n - 1 is the remainder modulo 2^n. */
  lemma {:induction false} AndLowMask(n: nat, x: int)
    ensures And(x, Pow2(n) - 1) == x % Pow2(n)
  {
    hide And;
    AndEnds(x);
    if n > 0 {
      AndLowMask(n - 1, x / 2);
      AndLowStep(x, Pow2(n - 1));
    }
  }

  lemma AndEnds(x: int)
    ensures And(x, 0) == 0 && And(x, -1) == x
  {}

  lemma AndLowStep(x: int, m: int)
    requires m > 0 && And(x / 2, m - 1) == (x / 2) % m
    ensures And(x, 2 * m - 1) == x % (2 * m)
  {
    hide And;
    ModStep(x, m);
    AndStep(x, 2 * m - 1);
    assert (2 * m - 1) / 2 == m - 1 && (2 * m - 1) % 2 == 1;
  }

  /** Masking with -2^n clears the low n bits. */
  lemma {:induction false} AndHighMask(n: nat, x: int)
    ensures And(x, -Pow2(n)) == x - x % Pow2(n)
  {
    hide And;
    AndEnds(x);
    if n > 0 {
      AndHighMask(n - 1, x / 2);
      AndHighStep(x, Pow2(n - 1));
    }
  }

  lemma AndHighStep(x: int, m: int)
    requires m > 0 && And(x / 2, -m) == x / 2 - (x / 2) % m
    ensures And(x, -(2 * m)) == x - x % (2 * m)
  {
    hide And;
    ModStep(x, m);
    AndStep(x, -(2 * m));
    assert (-(2 * m)) / 2 == -m && (-(2 * m)) % 2 == 0;
  }

  /** Disjoint bits: or is addition. */
  lemma {:induction false} OrDisjoint(n: nat, x: int, y: int)
    requires 0 <= x < Shl(1, n)
    ensures Or(x, Shl(y, n)) == x + Shl(y, n)
  {
    if n > 0 {
      OrStep(x, Shl(y, n));
      OrDisjoint(n - 1, x / 2, y);
    }
  }
}
