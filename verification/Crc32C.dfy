/**
  CRC-32C as used in the record batch envelope: a table-driven loop that consumes a byte
  at a time, and the reflected polynomial division it has to implement.
 */
module Crc32C {
  import opened Bits

  /** The Castagnoli polynomial, bit-reversed (section 12.1 of RFC 3720). */
  const POLYNOMIAL: bv32 := 0x82f63b78

  const BYTE_BITS: nat := 8

  // ------------------------------------------------------------------ division, bit by bit

  /** One step of reflected division: shift out the low bit, subtract the polynomial if it was set. */
  function DivideBit(crc: bv32): bv32 {
    if crc & 1 == 1 then (crc >> 1) ^ POLYNOMIAL else crc >> 1
  }

  function BitValue(bit: bool): bv32 { if bit then 1 else 0 }

  /** The register after one more message bit. */
  function ShiftIn(crc: bv32, bit: bool): bv32 {
    DivideBit(crc ^ BitValue(bit))
  }

  function Fold<V>(f: (V, bool) -> V, start: V, bits: seq<bool>): V
    decreases |bits|
  {
    if bits == [] then start else Fold(f, f(start, bits[0]), bits[1..])
  }

  function LowBit(b: bv32): bool { b & 1 == 1 }

  function Half(b: bv32): bv32 { b >> 1 }

  /** n bits of b, the first one first. */
  function BitsOf<V>(first: V -> bool, rest: V -> V, b: V, n: nat): seq<bool>
    decreases n
  {
    if n == 0 then [] else [first(b)] + BitsOf(first, rest, rest(b), n - 1)
  }

  /** The first k bytes as bits, the least significant bit of each byte first. */
  function StreamOf(data: seq<bv8>, k: nat): seq<bool>
    requires k <= |data|
  {
    if k == 0 then []
    else StreamOf(data, k - 1) + BitsOf(LowBit, Half, data[k - 1] as bv32, BYTE_BITS)
  }

  /** The register after k bytes, preset to ones. */
  function Register(data: seq<bv8>, k: nat): bv32
    requires k <= |data|
  {
    Fold(ShiftIn, 0xffff_ffff, StreamOf(data, k))
  }

  /** CRC-32C: all message bits divided one at a time, remainder complemented. */
  function Checksum(data: seq<bv8>): bv32 {
    Register(data, |data|) ^ 0xffff_ffff
  }

  // ------------------------------------------------------------------ the table of the source

  const T0: seq<bv32> := [
    0x00000000, 0xf26b8303, 0xe13b70f7, 0x1350f3f4,
    0xc79a971f, 0x35f1141c, 0x26a1e7e8, 0xd4ca64eb,
    0x8ad958cf, 0x78b2dbcc, 0x6be22838, 0x9989ab3b,
    0x4d43cfd0, 0xbf284cd3, 0xac78bf27, 0x5e133c24
  ]

  const T1: seq<bv32> := [
    0x105ec76f, 0xe235446c, 0xf165b798, 0x030e349b,
    0xd7c45070, 0x25afd373, 0x36ff2087, 0xc494a384,
    0x9a879fa0, 0x68ec1ca3, 0x7bbcef57, 0x89d76c54,
    0x5d1d08bf, 0xaf768bbc, 0xbc267848, 0x4e4dfb4b
  ]

  const T2: seq<bv32> := [
    0x20bd8ede, 0xd2d60ddd, 0xc186fe29, 0x33ed7d2a,
    0xe72719c1, 0x154c9ac2, 0x061c6936, 0xf477ea35,
    0xaa64d611, 0x580f5512, 0x4b5fa6e6, 0xb93425e5,
    0x6dfe410e, 0x9f95c20d, 0x8cc531f9, 0x7eaeb2fa
  ]

  const T3: seq<bv32> := [
    0x30e349b1, 0xc288cab2, 0xd1d83946, 0x23b3ba45,
    0xf779deae, 0x05125dad, 0x1642ae59, 0xe4292d5a,
    0xba3a117e, 0x4851927d, 0x5b016189, 0xa96ae28a,
    0x7da08661, 0x8fcb0562, 0x9c9bf696, 0x6ef07595
  ]

  const T4: seq<bv32> := [
    0x417b1dbc, 0xb3109ebf, 0xa0406d4b, 0x522bee48,
    0x86e18aa3, 0x748a09a0, 0x67dafa54, 0x95b17957,
    0xcba24573, 0x39c9c670, 0x2a993584, 0xd8f2b687,
    0x0c38d26c, 0xfe53516f, 0xed03a29b, 0x1f682198
  ]

  const T5: seq<bv32> := [
    0x5125dad3, 0xa34e59d0, 0xb01eaa24, 0x42752927,
    0x96bf4dcc, 0x64d4cecf, 0x77843d3b, 0x85efbe38,
    0xdbfc821c, 0x2997011f, 0x3ac7f2eb, 0xc8ac71e8,
    0x1c661503, 0xee0d9600, 0xfd5d65f4, 0x0f36e6f7
  ]

  const T6: seq<bv32> := [
    0x61c69362, 0x93ad1061, 0x80fde395, 0x72966096,
    0xa65c047d, 0x5437877e, 0x4767748a, 0xb50cf789,
    0xeb1fcbad, 0x197448ae, 0x0a24bb5a, 0xf84f3859,
    0x2c855cb2, 0xdeeedfb1, 0xcdbe2c45, 0x3fd5af46
  ]

  const T7: seq<bv32> := [
    0x7198540d, 0x83f3d70e, 0x90a324fa, 0x62c8a7f9,
    0xb602c312, 0x44694011, 0x5739b3e5, 0xa55230e6,
    0xfb410cc2, 0x092a8fc1, 0x1a7a7c35, 0xe811ff36,
    0x3cdb9bdd, 0xceb018de, 0xdde0eb2a, 0x2f8b6829
  ]

  const T8: seq<bv32> := [
    0x82f63b78, 0x709db87b, 0x63cd4b8f, 0x91a6c88c,
    0x456cac67, 0xb7072f64, 0xa457dc90, 0x563c5f93,
    0x082f63b7, 0xfa44e0b4, 0xe9141340, 0x1b7f9043,
    0xcfb5f4a8, 0x3dde77ab, 0x2e8e845f, 0xdce5075c
  ]

  const T9: seq<bv32> := [
    0x92a8fc17, 0x60c37f14, 0x73938ce0, 0x81f80fe3,
    0x55326b08, 0xa759e80b, 0xb4091bff, 0x466298fc,
    0x1871a4d8, 0xea1a27db, 0xf94ad42f, 0x0b21572c,
    0xdfeb33c7, 0x2d80b0c4, 0x3ed04330, 0xccbbc033
  ]

  const T10: seq<bv32> := [
    0xa24bb5a6, 0x502036a5, 0x4370c551, 0xb11b4652,
    0x65d122b9, 0x97baa1ba, 0x84ea524e, 0x7681d14d,
    0x2892ed69, 0xdaf96e6a, 0xc9a99d9e, 0x3bc21e9d,
    0xef087a76, 0x1d63f975, 0x0e330a81, 0xfc588982
  ]

  const T11: seq<bv32> := [
    0xb21572c9, 0x407ef1ca, 0x532e023e, 0xa145813d,
    0x758fe5d6, 0x87e466d5, 0x94b49521, 0x66df1622,
    0x38cc2a06, 0xcaa7a905, 0xd9f75af1, 0x2b9cd9f2,
    0xff56bd19, 0x0d3d3e1a, 0x1e6dcdee, 0xec064eed
  ]

  const T12: seq<bv32> := [
    0xc38d26c4, 0x31e6a5c7, 0x22b65633, 0xd0ddd530,
    0x0417b1db, 0xf67c32d8, 0xe52cc12c, 0x1747422f,
    0x49547e0b, 0xbb3ffd08, 0xa86f0efc, 0x5a048dff,
    0x8ecee914, 0x7ca56a17, 0x6ff599e3, 0x9d9e1ae0
  ]

  const T13: seq<bv32> := [
    0xd3d3e1ab, 0x21b862a8, 0x32e8915c, 0xc083125f,
    0x144976b4, 0xe622f5b7, 0xf5720643, 0x07198540,
    0x590ab964, 0xab613a67, 0xb831c993, 0x4a5a4a90,
    0x9e902e7b, 0x6cfbad78, 0x7fab5e8c, 0x8dc0dd8f
  ]

  const T14: seq<bv32> := [
    0xe330a81a, 0x115b2b19, 0x020bd8ed, 0xf0605bee,
    0x24aa3f05, 0xd6c1bc06, 0xc5914ff2, 0x37faccf1,
    0x69e9f0d5, 0x9b8273d6, 0x88d28022, 0x7ab90321,
    0xae7367ca, 0x5c18e4c9, 0x4f48173d, 0xbd23943e
  ]

  const T15: seq<bv32> := [
    0xf36e6f75, 0x0105ec76, 0x12551f82, 0xe03e9c81,
    0x34f4f86a, 0xc69f7b69, 0xd5cf889d, 0x27a40b9e,
    0x79b737ba, 0x8bdcb4b9, 0x988c474d, 0x6ae7c44e,
    0xbe2da0a5, 0x4c4623a6, 0x5f16d052, 0xad7d5351
  ]

  /** Entry i of the table, which the rows above list sixteen at a time. */
  function Lookup(i: nat): bv32
    requires i < 256
  {
    if i < 16 then T0[i]
    else if i < 32 then T1[i - 16]
    else if i < 48 then T2[i - 32]
    else if i < 64 then T3[i - 48]
    else if i < 80 then T4[i - 64]
    else if i < 96 then T5[i - 80]
    else if i < 112 then T6[i - 96]
    else if i < 128 then T7[i - 112]
    else if i < 144 then T8[i - 128]
    else if i < 160 then T9[i - 144]
    else if i < 176 then T10[i - 160]
    else if i < 192 then T11[i - 176]
    else if i < 208 then T12[i - 192]
    else if i < 224 then T13[i - 208]
    else if i < 240 then T14[i - 224]
    else T15[i - 240]
  }

  // ------------------------------------------------------------------ iterated linear maps

  function Iter<V>(f: V -> V, x: V, n: nat): V
    decreases n
  {
    if n == 0 then x else Iter(f, f(x), n - 1)
  }

  ghost predicate Distributes<V(!new)>(f: V -> V, op: (V, V) -> V) {
    forall a, b {:trigger f(op(a, b))} :: f(op(a, b)) == op(f(a), f(b))
  }

  lemma {:induction false} IterDistributes<V(!new)>(f: V -> V, op: (V, V) -> V, a: V, b: V, n: nat)
    requires Distributes(f, op)
    ensures Iter(f, op(a, b), n) == op(Iter(f, a, n), Iter(f, b, n))
    decreases n
  {
    if n > 0 {
      assert f(op(a, b)) == op(f(a), f(b));
      IterDistributes(f, op, f(a), f(b), n - 1);
    }
  }

  lemma IterSplit<V(!new)>(f: V -> V, op: (V, V) -> V, x: V, low: V, high: V, shifted: V, n: nat)
    requires Distributes(f, op) && x == op(low, high) && Iter(f, high, n) == shifted
    ensures Iter(f, x, n) == op(Iter(f, low, n), shifted)
  {
    IterDistributes(f, op, low, high, n);
  }

  lemma {:induction false} FoldConcat<V>(f: (V, bool) -> V, start: V, a: seq<bool>, b: seq<bool>)
    ensures Fold(f, start, a + b) == Fold(f, Fold(f, start, a), b)
    decreases |a|
  {
    if a == [] {
      assert a + b == b;
    } else {
      assert (a + b)[1..] == a[1..] + b;
      FoldConcat(f, f(start, a[0]), a[1..], b);
    }
  }

  /** What lets message bits be mixed in before the step that consumes them. */
  ghost predicate MixesEarly<V(!new)>(f: V -> V, shiftIn: (V, bool) -> V, op: (V, V) -> V,
                                      first: V -> bool, rest: V -> V)
  {
    forall a, b {:trigger f(op(a, b))} :: f(op(a, b)) == op(shiftIn(a, first(b)), rest(b))
  }

  /** Shifting n bits in one at a time is mixing them in at once and stepping n times. */
  lemma {:induction false} FoldIsIter<V(!new)>(f: V -> V, shiftIn: (V, bool) -> V, op: (V, V) -> V,
                                               first: V -> bool, rest: V -> V, zero: V,
                                               a: V, b: V, n: nat)
    requires MixesEarly(f, shiftIn, op, first, rest)
    requires Iter(rest, b, n) == zero && forall x {:trigger op(x, zero)} :: op(x, zero) == x
    ensures Fold(shiftIn, a, BitsOf(first, rest, b, n)) == Iter(f, op(a, b), n)
    decreases n
  {
    if n > 0 {
      assert f(op(a, b)) == op(shiftIn(a, first(b)), rest(b));
      FoldIsIter(f, shiftIn, op, first, rest, zero, shiftIn(a, first(b)), rest(b), n - 1);
      assert BitsOf(first, rest, b, n)[1..] == BitsOf(first, rest, rest(b), n - 1);
    }
  }

  // ------------------------------------------------------------------ division is linear

  function XorOp(a: bv32, b: bv32): bv32 { a ^ b }

  lemma XorShift(a: bv32, b: bv32)
    ensures (a ^ b) >> 1 == (a >> 1) ^ (b >> 1)
    ensures (a ^ b) & 1 == (a & 1) ^ (b & 1)
    ensures a & 1 == 1 || a & 1 == 0
    ensures b & 1 == 1 || b & 1 == 0
  {}

  lemma XorMoves(a: bv32, b: bv32, p: bv32)
    ensures (a ^ p) ^ (b ^ p) == a ^ b
    ensures (a ^ p) ^ b == (a ^ b) ^ p
    ensures a ^ (b ^ p) == (a ^ b) ^ p
  {}

  lemma DivideBitLinear(a: bv32, b: bv32)
    ensures DivideBit(a ^ b) == DivideBit(a) ^ DivideBit(b)
  {
    XorShift(a, b);
    XorMoves(a >> 1, b >> 1, POLYNOMIAL);
  }

  lemma DivideLinear()
    ensures Distributes(DivideBit, XorOp)
  {
    forall a, b ensures DivideBit(XorOp(a, b)) == XorOp(DivideBit(a), DivideBit(b)) {
      DivideBitLinear(a, b);
    }
  }

  // ------------------------------------------------------------------ a byte at a time

  lemma ShiftOutZeroByte(y: bv32)
    requires y & 0xff == 0
    ensures Iter(DivideBit, y, BYTE_BITS) == y >> 8
  {
    assert DivideBit(y) == y >> 1;
    assert DivideBit(y >> 1) == y >> 2;
    assert DivideBit(y >> 2) == y >> 3;
    assert DivideBit(y >> 3) == y >> 4;
    assert DivideBit(y >> 4) == y >> 5;
    assert DivideBit(y >> 5) == y >> 6;
    assert DivideBit(y >> 6) == y >> 7;
    assert DivideBit(y >> 7) == y >> 8;
    assert Iter(DivideBit, y, 8) == y >> 8;
  }

  lemma SplitLow(x: bv32)
    ensures x == (x & 0xff) ^ (x & 0xffff_ff00)
    ensures (x & 0xffff_ff00) & 0xff == 0 && (x & 0xffff_ff00) >> 8 == x >> 8
  {}

  lemma ShiftOutHigh(x: bv32)
    ensures Iter(DivideBit, x & 0xffff_ff00, BYTE_BITS) == x >> 8
  {
    hide BYTE_BITS;
    SplitLow(x);
    ShiftOutZeroByte(x & 0xffff_ff00);
  }

  /** Eight division steps see only the low byte; the rest of the register just moves down. */
  lemma DivideLowByte(x: bv32)
    ensures Iter(DivideBit, x, BYTE_BITS) == XorOp(Iter(DivideBit, x & 0xff, BYTE_BITS), x >> 8)
  {
    hide BYTE_BITS;
    SplitLow(x);
    DivideLinear();
    ShiftOutHigh(x);
    IterSplit(DivideBit, XorOp, x, x & 0xff, x & 0xffff_ff00, x >> 8, BYTE_BITS);
  }

  lemma LowBitFirst(crc: bv32, b: bv32)
    ensures (crc ^ b) & 1 == (crc ^ BitValue(LowBit(b))) & 1
    ensures (crc ^ b) >> 1 == ((crc ^ BitValue(LowBit(b))) >> 1) ^ (b >> 1)
  {}

  lemma SameBranch(x: bv32, y: bv32, h: bv32)
    requires x & 1 == y & 1 && x >> 1 == (y >> 1) ^ h
    ensures DivideBit(x) == XorOp(DivideBit(y), h)
  {
    XorMoves(y >> 1, h, POLYNOMIAL);
  }

  lemma DivideMixesEarly()
    ensures MixesEarly(DivideBit, ShiftIn, XorOp, LowBit, Half)
  {
    forall crc, b ensures DivideBit(XorOp(crc, b)) == XorOp(ShiftIn(crc, LowBit(b)), Half(b)) {
      LowBitFirst(crc, b);
      SameBranch(crc ^ b, crc ^ BitValue(LowBit(b)), b >> 1);
    }
  }

  // ------------------------------------------------------------------ the table is right

  lemma Row0(x: bv32)
    requires 0x0 <= x < 0x10
    ensures 0 <= (x as int) < 16 && T0[x as int - 0] == Iter(DivideBit, x, 8)
  {
    assert x as int as bv32 == x;
  }

  lemma Row1(x: bv32)
    requires 0x10 <= x < 0x20
    ensures 16 <= (x as int) < 32 && T1[x as int - 16] == Iter(DivideBit, x, 8)
  {
    assert x as int as bv32 == x;
  }

  lemma Row2(x: bv32)
    requires 0x20 <= x < 0x30
    ensures 32 <= (x as int) < 48 && T2[x as int - 32] == Iter(DivideBit, x, 8)
  {
    assert x as int as bv32 == x;
  }

  lemma Row3(x: bv32)
    requires 0x30 <= x < 0x40
    ensures 48 <= (x as int) < 64 && T3[x as int - 48] == Iter(DivideBit, x, 8)
  {
    assert x as int as bv32 == x;
  }

  lemma Row4(x: bv32)
    requires 0x40 <= x < 0x50
    ensures 64 <= (x as int) < 80 && T4[x as int - 64] == Iter(DivideBit, x, 8)
  {
    assert x as int as bv32 == x;
  }

  lemma Row5(x: bv32)
    requires 0x50 <= x < 0x60
    ensures 80 <= (x as int) < 96 && T5[x as int - 80] == Iter(DivideBit, x, 8)
  {
    assert x as int as bv32 == x;
  }

  lemma Row6(x: bv32)
    requires 0x60 <= x < 0x70
    ensures 96 <= (x as int) < 112 && T6[x as int - 96] == Iter(DivideBit, x, 8)
  {
    assert x as int as bv32 == x;
  }

  lemma Row7(x: bv32)
    requires 0x70 <= x < 0x80
    ensures 112 <= (x as int) < 128 && T7[x as int - 112] == Iter(DivideBit, x, 8)
  {
    assert x as int as bv32 == x;
  }

  lemma Row8(x: bv32)
    requires 0x80 <= x < 0x90
    ensures 128 <= (x as int) < 144 && T8[x as int - 128] == Iter(DivideBit, x, 8)
  {
    assert x as int as bv32 == x;
  }

  lemma Row9(x: bv32)
    requires 0x90 <= x < 0xa0
    ensures 144 <= (x as int) < 160 && T9[x as int - 144] == Iter(DivideBit, x, 8)
  {
    assert x as int as bv32 == x;
  }

  lemma Row10(x: bv32)
    requires 0xa0 <= x < 0xb0
    ensures 160 <= (x as int) < 176 && T10[x as int - 160] == Iter(DivideBit, x, 8)
  {
    assert x as int as bv32 == x;
  }

  lemma Row11(x: bv32)
    requires 0xb0 <= x < 0xc0
    ensures 176 <= (x as int) < 192 && T11[x as int - 176] == Iter(DivideBit, x, 8)
  {
    assert x as int as bv32 == x;
  }

  lemma Row12(x: bv32)
    requires 0xc0 <= x < 0xd0
    ensures 192 <= (x as int) < 208 && T12[x as int - 192] == Iter(DivideBit, x, 8)
  {
    assert x as int as bv32 == x;
  }

  lemma Row13(x: bv32)
    requires 0xd0 <= x < 0xe0
    ensures 208 <= (x as int) < 224 && T13[x as int - 208] == Iter(DivideBit, x, 8)
  {
    assert x as int as bv32 == x;
  }

  lemma Row14(x: bv32)
    requires 0xe0 <= x < 0xf0
    ensures 224 <= (x as int) < 240 && T14[x as int - 224] == Iter(DivideBit, x, 8)
  {
    assert x as int as bv32 == x;
  }

  lemma Row15(x: bv32)
    requires 0xf0 <= x < 0x100
    ensures 240 <= (x as int) < 256 && T15[x as int - 240] == Iter(DivideBit, x, 8)
  {
    assert x as int as bv32 == x;
  }

  /** All 256 entries: each is the remainder of its index. */
  lemma TableIsRemainders(x: bv32)
    requires x < 256
    ensures (x as int) < 256 && Lookup(x as int) == Iter(DivideBit, x, BYTE_BITS)
  {
    if x < 16 { Row0(x); }
    else if x < 32 { Row1(x); }
    else if x < 48 { Row2(x); }
    else if x < 64 { Row3(x); }
    else if x < 80 { Row4(x); }
    else if x < 96 { Row5(x); }
    else if x < 112 { Row6(x); }
    else if x < 128 { Row7(x); }
    else if x < 144 { Row8(x); }
    else if x < 160 { Row9(x); }
    else if x < 176 { Row10(x); }
    else if x < 192 { Row11(x); }
    else if x < 208 { Row12(x); }
    else if x < 224 { Row13(x); }
    else if x < 240 { Row14(x); }
    else { Row15(x); }
  }

  // ------------------------------------------------------------------ the source loop

  lemma ByteFits(b: bv32)
    requires b < 256
    ensures Iter(Half, b, BYTE_BITS) == 0
  {
    assert Iter(Half, b, 8) == 0;
  }

  lemma FoldByte(crc: bv32, b: bv32)
    requires b < 256
    ensures Fold(ShiftIn, crc, BitsOf(LowBit, Half, b, BYTE_BITS)) == Iter(DivideBit, XorOp(crc, b), BYTE_BITS)
  {
    hide BYTE_BITS;
    DivideMixesEarly();
    ByteFits(b);
    FoldIsIter(DivideBit, ShiftIn, XorOp, LowBit, Half, 0, crc, b, BYTE_BITS);
  }

  lemma IndexIsLowByte(crc: bv32, b: bv32)
    requires b < 256
    ensures (crc ^ b) >> 8 == crc >> 8 && (crc ^ b) & 0xff < 256
  {}

  /** One lookup does what the eight bits of the byte would. */
  lemma TableStep(crc: bv32, b: bv32)
    requires b < 256
    ensures (((crc ^ b) & 0xff) as int) < 256
    ensures XorOp(Lookup(((crc ^ b) & 0xff) as int), crc >> 8) == Fold(ShiftIn, crc, BitsOf(LowBit, Half, b, BYTE_BITS))
  {
    hide BYTE_BITS;
    IndexIsLowByte(crc, b);
    TableIsRemainders((crc ^ b) & 0xff);
    DivideLowByte(crc ^ b);
    FoldByte(crc, b);
  }

  lemma RegisterStep(data: seq<bv8>, k: nat)
    requires k < |data|
    ensures Register(data, k + 1) == Fold(ShiftIn, Register(data, k), BitsOf(LowBit, Half, data[k] as bv32, BYTE_BITS))
  {
    hide BYTE_BITS;
    FoldConcat(ShiftIn, 0xffff_ffff, StreamOf(data, k), BitsOf(LowBit, Half, data[k] as bv32, BYTE_BITS));
  }

  /** The loop body of crc32C: one table lookup. */
  method Step(crc: bv32, b: bv32) returns (next: bv32)
    requires b < 256
    ensures next == Fold(ShiftIn, crc, BitsOf(LowBit, Half, b, BYTE_BITS))
  {
    hide BYTE_BITS;
    TableStep(crc, b);
    var index := (crc ^ b) & 0xff;
    next := XorOp(Lookup(index as int), crc >> 8);
  }

  method ComputeRegister(buffer: seq<bv8>) returns (crc: bv32)
    ensures crc == Register(buffer, |buffer|)
  {
    hide BYTE_BITS;
    crc := 0 ^ 0xffff_ffff;
    for i := 0 to |buffer|
      invariant crc == Register(buffer, i)
    {
      RegisterStep(buffer, i);
      crc := Step(crc, buffer[i] as bv32);
    }
  }

  /** crc32C: the table-driven loop computes the bit-serial checksum. */
  method Compute(buffer: seq<bv8>) returns (r: bv32)
    ensures r == Checksum(buffer)
  {
    hide BYTE_BITS;
    var crc := ComputeRegister(buffer);
    r := crc ^ 0xffff_ffff;
  }

  // ------------------------------------------------------------------ a known answer

  function Zeroes(n: nat): (r: seq<bv8>)
    ensures |r| == n && forall i | 0 <= i < n :: r[i] == 0
  {
    seq(n, _ => 0)
  }

  /** A zero byte shifts the register on. */
  lemma ZeroByte(n: nat, k: nat)
    requires k < n
    ensures Register(Zeroes(n), k + 1) == Iter(DivideBit, Register(Zeroes(n), k), BYTE_BITS)
  {
    hide BYTE_BITS;
    RegisterStep(Zeroes(n), k);
    FoldByte(Register(Zeroes(n), k), 0);
    assert (Zeroes(n)[k] as bv32) == 0;
  }

  lemma FourZeroes(n: nat, k: nat, before: bv32, a: bv32, b: bv32, c: bv32, after: bv32)
    requires k + 4 <= n && Register(Zeroes(n), k) == before
    requires Iter(DivideBit, before, 8) == a && Iter(DivideBit, a, 8) == b && Iter(DivideBit, b, 8) == c && Iter(DivideBit, c, 8) == after
    ensures Register(Zeroes(n), k + 4) == after
  {
    hide Iter, DivideBit, Register, Zeroes;
    ZeroByte(n, k);
    ZeroByte(n, k + 1);
    ZeroByte(n, k + 2);
    ZeroByte(n, k + 3);
  }

  /** The checksum of 32 bytes of zeroes (appendix B.4 of RFC 3720). */
  lemma ChecksumOfZeroes()
    ensures Checksum(Zeroes(32)) == 0x8a91_36aa
  {
    hide Register, Zeroes;
    NoBytes(Zeroes(32));
    FourZeroes(32, 0, 0xffffffff, 0xad82acae, 0x0e9e882d, 0x9f9b5c85, 0xb798b438);
    FourZeroes(32, 4, 0xb798b438, 0xba8d89ca, 0xa8d58375, 0x44c19592, 0x73d74d75);
    FourZeroes(32, 8, 0x73d74d75, 0x441a975c, 0x1c220f94, 0x552e4907, 0xd49f4aa2);
    FourZeroes(32, 12, 0xd49f4aa2, 0x43a45a1b, 0x8994c80e, 0xacf12bef, 0xbd8f6515);
    FourZeroes(32, 16, 0xbd8f6515, 0x25125c16, 0x36da32db, 0x4a6c90a2, 0x433aa9c1);
    FourZeroes(32, 20, 0x433aa9c1, 0x31a59f6e, 0xcd8f89da, 0xb8fc461a, 0x7b041311);
    FourZeroes(32, 24, 0x7b041311, 0xe24e407f, 0x2f692669, 0x195b2188, 0x08363896);
    FourZeroes(32, 28, 0x08363896, 0xb4012dc7, 0x17f34302, 0xe12c83b4, 0x756ec955);
  }

  lemma NoBytes(data: seq<bv8>)
    ensures Register(data, 0) == 0xffff_ffff
  {}
}
