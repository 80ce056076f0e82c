/**
  The murmur2 hash that the default partitioner applies to keys.

  The JavaScript version keeps its accumulators in unbounded integers and never reduces
  them; the Java version it must agree with wraps to 32 bits after every operation.
 */
module Murmur2 {
  import opened Bits

  const SEED := 0x9747b28c
  const M := 0x5bd1e995
  const R := 24

  // ------------------------------------------------------------------ Java reference

  function JavaMul(a: int, b: int): int32 { ToInt32(a * b) }

  function JavaXor(a: int, b: int): int32 { ToInt32(Xor(a, b)) }

  function Word(data: seq<byte>, at: nat): int
    requires at + 4 <= |data|
  {
    data[at] + JsShl(data[at + 1], 8) + JsShl(data[at + 2], 16) + JsShl(data[at + 3], 24)
  }

  function JavaScramble(word: int): int32 {
    var k := JavaMul(ToInt32(word), M);
    JavaMul(JavaXor(k, JsUshr(k, R)), M)
  }

  function JavaRound(h: int32, word: int): int32 {
    JavaXor(JavaMul(h, M), JavaScramble(word))
  }

  function JavaBlocks(data: seq<byte>, n: nat): int32
    requires 4 * n <= |data|
  {
    if n == 0 then JavaXor(ToInt32(SEED), |data|)
    else JavaRound(JavaBlocks(data, n - 1), Word(data, 4 * (n - 1)))
  }

  function JavaTail(data: seq<byte>, h: int32): int32 {
    var rest := |data| % 4;
    var at := |data| - rest;
    if rest == 0 then h else
      var h := if rest == 3 then JavaXor(h, JsShl(data[at + 2], 16)) else h;
      var h := if rest >= 2 then JavaXor(h, JsShl(data[at + 1], 8)) else h;
      JavaMul(JavaXor(h, data[at]), M)
  }

  function JavaMix(h: int32): int32 {
    var h := JavaXor(h, JsUshr(h, 13));
    var h := JavaMul(h, M);
    JavaXor(h, JsUshr(h, 15))
  }

  /** Test.java: every intermediate value is a 32-bit int. */
  function JavaMurmur2(data: seq<byte>): int32 {
    JavaMix(JavaTail(data, JavaBlocks(data, |data| / 4)))
  }

  // ------------------------------------------------------------------ congruence

  ghost predicate Congruent(a: int, b: int) {
    a % TWO_32 == b % TWO_32
  }

  lemma CongruentDifference(a: int, b: int)
    ensures Congruent(a, b) <==> (a - b) % TWO_32 == 0
  {}

  lemma CongruentMul(a: int, b: int, c: int)
    requires Congruent(a, b)
    ensures Congruent(a * c, b * c)
  {
    var q := a / TWO_32 - b / TWO_32;
    assert a - b == TWO_32 * q;
    assert a * c - b * c == TWO_32 * (q * c) by {
      assert a * c - b * c == (a - b) * c;
    }
    ModUnique(a * c - b * c, TWO_32, q * c, 0);
    CongruentDifference(a * c, b * c);
  }

  /** Wrapping forgets exactly what congruence ignores. */
  lemma Wrap(a: int, b: int)
    ensures Congruent(ToInt32(a), a)
    ensures Congruent(a, b) ==> ToInt32(a) == ToInt32(b)
  {}

  lemma CongruentXor(a: int, b: int, c: int, d: int)
    requires Congruent(a, b) && Congruent(c, d)
    ensures Congruent(Xor(a, c), Xor(b, d))
  {
    Pow2Of32();
    XorMod(32, a, c);
    XorMod(32, b, d);
  }

  lemma MulRep(h: int, m: int)
    ensures ToInt32(h * m) == JavaMul(ToInt32(h), m)
  {
    Wrap(h, h);
    CongruentMul(ToInt32(h), h, m);
    Wrap(h * m, ToInt32(h) * m);
  }

  lemma XorRep(h: int, x: int)
    ensures ToInt32(Xor(h, x)) == JavaXor(ToInt32(h), ToInt32(x))
    ensures ToInt32(Xor(h, x)) == JavaXor(ToInt32(h), x)
  {
    Wrap(h, h);
    Wrap(x, x);
    CongruentXor(ToInt32(h), h, ToInt32(x), x);
    CongruentXor(ToInt32(h), h, x, x);
    Wrap(Xor(ToInt32(h), x), Xor(h, x));
    Wrap(Xor(ToInt32(h), ToInt32(x)), Xor(h, x));
  }

  // ------------------------------------------------------------------ JavaScript

  function JsScramble(word: int): int {
    var k := word * M;
    Xor(k, JsUshr(ToInt32(k), R)) * M
  }

  function JsBlocks(data: seq<byte>, n: nat): int
    requires 4 * n <= |data|
  {
    if n == 0 then Xor(SEED, |data|)
    else Xor(JsBlocks(data, n - 1) * M, JsScramble(Word(data, 4 * (n - 1))))
  }

  function JsTail(data: seq<byte>, h: int): int {
    var rest := |data| % 4;
    var at := |data| - rest;
    if rest == 0 then h else
      var h := if rest == 3 then Xor(h, JsShl(data[at + 2], 16)) else h;
      var h := if rest >= 2 then Xor(h, JsShl(data[at + 1], 8)) else h;
      Xor(h, data[at]) * M
  }

  function JsMix(h: int): int32 {
    var h := Xor(h, JsUshr(ToInt32(h), 13)) * M;
    ToInt32(Xor(h, JsUshr(ToInt32(h), 15)))
  }

  lemma ScrambleRep(word: int)
    ensures ToInt32(JsScramble(word)) == JavaScramble(word)
  {
    hide ToInt32, Xor, JsUshr;
    var k := word * M;
    MulRep(word, M);
    XorRep(k, JsUshr(ToInt32(k), R));
    MulRep(Xor(k, JsUshr(ToInt32(k), R)), M);
  }

  lemma RoundRep(h: int, word: int)
    ensures ToInt32(Xor(h * M, JsScramble(word))) == JavaRound(ToInt32(h), word)
  {
    hide ToInt32, Xor, JsScramble, JavaScramble;
    MulRep(h, M);
    ScrambleRep(word);
    XorRep(h * M, JsScramble(word));
  }

  lemma {:induction false} BlocksRep(data: seq<byte>, n: nat)
    requires 4 * n <= |data|
    ensures ToInt32(JsBlocks(data, n)) == JavaBlocks(data, n)
  {
    hide ToInt32, Xor, JsScramble, Word;
    if n == 0 {
      XorRep(SEED, |data|);
    } else {
      BlocksRep(data, n - 1);
      RoundRep(JsBlocks(data, n - 1), Word(data, 4 * (n - 1)));
    }
  }

  lemma XorMulRep(h: int, x: int)
    ensures ToInt32(Xor(h, x) * M) == JavaMul(JavaXor(ToInt32(h), x), M)
  {
    XorRep(h, x);
    MulRep(Xor(h, x), M);
  }

  lemma TailRep(data: seq<byte>, h: int)
    ensures ToInt32(JsTail(data, h)) == JavaTail(data, ToInt32(h))
  {
    hide ToInt32, Xor, JsShl;
    var rest := |data| % 4;
    var at := |data| - rest;
    if rest != 0 {
      var h3 := if rest == 3 then Xor(h, JsShl(data[at + 2], 16)) else h;
      if rest == 3 { XorRep(h, JsShl(data[at + 2], 16)); }
      var h2 := if rest >= 2 then Xor(h3, JsShl(data[at + 1], 8)) else h3;
      if rest >= 2 { XorRep(h3, JsShl(data[at + 1], 8)); }
      XorMulRep(h2, data[at]);
    }
  }

  lemma MixRep(h: int)
    ensures JsMix(h) == JavaMix(ToInt32(h))
  {
    hide Xor, JsUshr;
    XorMulRep(h, JsUshr(ToInt32(h), 13));
    var g := Xor(h, JsUshr(ToInt32(h), 13)) * M;
    XorRep(g, JsUshr(ToInt32(g), 15));
  }

  /**
    murmur2.js: `h` and `k` are unbounded, and only shifts and the returned value look
    at 32 bits. The result is the wrapped Java hash of the same bytes; the length bound
    is that of a Java array.
   */
  method Hash(data: seq<byte>) returns (r: int)
    requires |data| < TWO_31
    ensures r == JavaMurmur2(data)
  {
    hide JavaXor, JavaMul, JavaScramble, JavaMix, JavaTail, JavaBlocks, JsTail, JsMix, Word, Xor, JsUshr;
    var length := |data|;
    var h := Xor(SEED, length);
    for i := 0 to length / 4
      invariant h == JsBlocks(data, i)
    {
      var k := Word(data, 4 * i);
      k := k * M;
      k := Xor(k, JsUshr(ToInt32(k), R));
      k := k * M;
      h := h * M;
      h := Xor(h, k);
    }
    BlocksRep(data, length / 4);
    TailRep(data, h);

    h := ApplyTail(data, h);
    MixRep(h);
    r := ApplyMix(h);
  }

  /** The final mixing, returning the low 32 bits. */
  method ApplyMix(start: int) returns (r: int)
    ensures r == JsMix(start)
  {
    hide Xor, JsUshr;
    var h := start;
    h := Xor(h, JsUshr(ToInt32(h), 13));
    h := h * M;
    h := Xor(h, JsUshr(ToInt32(h), 15));
    r := ToInt32(h);
  }

  lemma WordsEnd(n: nat)
    requires n < TWO_31
    ensures JsAnd(n, -4) == n - n % 4
  {
    assert Pow2(2) == 4;
    AndHighMask(2, n);
  }

  /** The fall-through switch over the last one to three bytes. */
  method ApplyTail(data: seq<byte>, start: int) returns (h: int)
    requires |data| < TWO_31
    ensures h == JsTail(data, start)
  {
    hide Xor, JsShl, JsAnd;
    h := start;
    var at := JsAnd(|data|, -4);
    WordsEnd(|data|);
    if |data| % 4 == 3 { h := Xor(h, JsShl(data[at + 2], 16)); }
    if |data| % 4 >= 2 { h := Xor(h, JsShl(data[at + 1], 8)); }
    if |data| % 4 >= 1 {
      h := Xor(h, data[at]);
      h := h * M;
    }
  }

  // ------------------------------------------------------------------ known answers

  /** A word is the little-endian value of its four bytes, as a signed 32-bit number. */
  lemma WordIsLittleEndian(data: seq<byte>, at: nat)
    requires at + 4 <= |data|
    ensures
      var b0: int, b1: int, b2: int, b3: int := data[at], data[at + 1], data[at + 2], data[at + 3];
      var value := b0 + 0x100 * b1 + 0x1_0000 * b2 + 0x100_0000 * b3;
      Word(data, at) == if value < TWO_31 then value else value - TWO_32
  {
    hide JsShl;
    Pow2Of32();
    ShiftedByte(data[at + 1], 8, 0x100);
    ShiftedByte(data[at + 2], 16, 0x1_0000);
    ShiftedByte(data[at + 3], 24, 0x100_0000);
  }

  lemma SmallWord(x: byte)
    ensures ToInt32(x) == x
  {}

  lemma ShiftedByte(x: byte, n: nat, unit: int)
    requires n < 32 && unit == Pow2(n)
    ensures JsShl(x, n) == ToInt32(unit * x)
  {
    hide Shl, ToInt32;
    SmallWord(x);
    ShlIsTimes(x, n);
  }

  /** The key "4782969": one whole word and three bytes of tail. */
  const KEY: seq<byte> := [0x34, 0x37, 0x38, 0x32, 0x39, 0x36, 0x39]

  lemma SmallInt(c: int32)
    ensures ToInt32(c) == c
  {}

  lemma UshrIs(x: int, n: nat, r: int)
    requires n < 32 && ToUint32(x) / Pow2(n) == r
    ensures JsUshr(x, n) == r
  {
    hide ToUint32;
    ShrIsDiv(ToUint32(x), n);
  }

  lemma Powers()
    ensures Pow2(13) == 0x2000 && Pow2(15) == 0x8000 && Pow2(24) == 0x100_0000 && Pow2(8) == 0x100 && Pow2(16) == 0x1_0000
  {
    Pow2Of32();
    Pow2Add(8, 5);
    Pow2Add(8, 7);
    assert Pow2(5) == 32 && Pow2(7) == 128;
  }

  lemma Xor1()
    ensures JavaXor(-1756908916, 7) == -1756908917
  {
    hide Xor;
    HexXor(-7, 7, 4, 7, 11, 2, 8, 12,
           0, 0, 0, 0, 0, 0, 0, 7);
  }

  lemma Xor2()
    ensures JavaXor(-227904188, 242) == -227904074
  {
    hide Xor;
    HexXor(-1, 2, 6, 10, 7, 5, 4, 4,
           0, 0, 0, 0, 0, 0, 15, 2);
  }

  lemma Xor3()
    ensures JavaXor(2058776039, -928044818) == -1306966775
  {
    hide Xor;
    HexXor(7, 10, 11, 6, 6, 13, 14, 7,
           -4, 8, 10, 15, 2, 8, 14, 14);
  }

  lemma Xor4()
    ensures JavaXor(-1306966775, 3735552) == -1306508023
  {
    hide Xor;
    HexXor(-5, 2, 1, 9, 4, 5, 0, 9,
           0, 0, 3, 9, 0, 0, 0, 0);
  }

  lemma Xor5()
    ensures JavaXor(-1306508023, 13824) == -1306496247
  {
    hide Xor;
    HexXor(-5, 2, 2, 0, 4, 5, 0, 9,
           0, 0, 0, 0, 3, 6, 0, 0);
  }

  lemma Xor6()
    ensures JavaXor(-1306496247, 57) == -1306496208
  {
    hide Xor;
    HexXor(-5, 2, 2, 0, 7, 3, 0, 9,
           0, 0, 0, 0, 0, 0, 3, 9);
  }

  lemma Xor7()
    ensures JavaXor(1340717808, 163661) == 1340851645
  {
    hide Xor;
    HexXor(4, 15, 14, 9, 11, 10, 15, 0,
           0, 0, 0, 2, 7, 15, 4, 13);
  }

  lemma Xor8()
    ensures JavaXor(-1182786559, 94976) == -1182699775
  {
    hide Xor;
    HexXor(-5, 9, 8, 0, 1, 12, 0, 1,
           0, 0, 0, 1, 7, 3, 0, 0);
  }

  lemma Scrambled()
    ensures JavaScramble(842544948) == -928044818
  {
    hide JavaXor, JsUshr;
    Powers();
    UshrIs(-227904188, 24, 242);
    Xor2();
  }

  lemma FirstBlock()
    ensures JavaBlocks(KEY, 1) == -1306966775
  {
    hide JavaXor, JsUshr, Word, JavaScramble;
    WordIsLittleEndian(KEY, 0);
    Xor1();
    Scrambled();
    Xor3();
    assert JavaBlocks(KEY, 0) == -1756908917;
  }

  lemma LastBytes()
    ensures JavaTail(KEY, -1306966775) == 1340717808
  {
    hide JavaXor, JsShl;
    Powers();
    ShiftedByte(0x39, 16, 0x1_0000);
    ShiftedByte(0x36, 8, 0x100);
    Xor4();
    Xor5();
    Xor6();
  }

  lemma LastMix()
    ensures JavaMix(1340717808) == -1182699775
  {
    hide JavaXor, JsUshr;
    Powers();
    UshrIs(1340717808, 13, 163661);
    Xor7();
    UshrIs(-1182786559, 15, 94976);
    Xor8();
  }

  /** The hash that Test.java prints for this key. */
  lemma HashOfKey()
    ensures JavaMurmur2(KEY) == -1182699775
  {
    hide JavaMix, JavaTail, JavaBlocks;
    FirstBlock();
    LastBytes();
    LastMix();
  }
}
