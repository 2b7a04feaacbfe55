/**
  The CRC-32 of section 8 of RFC 1952, one bit at a time, and the algebra of its
  shift register.

  The register is a `bv32`, reflected: the bit that leaves next is the lowest one.
  Everything faster than `FeedBits` (byte tables, sixteen-byte slices) is proved
  equal to it in module `Crc32`.
 */
module Crc32Spec {

  /** The polynomial, reflected; `-306674912` as a signed 32-bit integer. */
  const POLY: bv32 := 0xEDB88320

  // ---------- The definition ----------

  /** The polynomial is added exactly when the bit that left differs from zero. */
  function Taps(odd: bool, half: bv32): bv32 {
    if odd then POLY ^ half else half
  }

  /** One message bit enters the register. */
  function FeedBit(c: bv32, bit: bool): bv32 {
    Taps((c & 1 == 1) != bit, c >> 1)
  }

  function FeedBits(c: bv32, bits: seq<bool>): bv32
    decreases |bits|
  {
    if bits == [] then c else FeedBits(FeedBit(c, bits[0]), bits[1..])
  }

  /** The lowest `k` bits of `w`, lowest first. */
  function LowBits(w: bv32, k: nat): (bits: seq<bool>)
    ensures |bits| == k
    decreases k
  {
    if k == 0 then [] else [w & 1 == 1] + LowBits(w >> 1, k - 1)
  }

  /** A byte in the low end of a register. */
  function Widen(b: bv8): bv32 {
    b as bv32
  }

  function MessageBits(bytes: seq<bv8>): seq<bool> {
    if bytes == [] then [] else LowBits(Widen(bytes[0]), 8) + MessageBits(bytes[1..])
  }

  function Complement(c: bv32): bv32 {
    c ^ 0xFFFF_FFFF
  }

  /** The checksum of `bytes` that continues from the checksum `seed`. */
  function Crc(bytes: seq<bv8>, seed: bv32): bv32 {
    Complement(FeedBits(Complement(seed), MessageBits(bytes)))
  }

  // ---------- The register without input ----------

  /** Addition over GF(2). */
  function Xor(a: bv32, b: bv32): bv32 {
    a ^ b
  }

  /** One step of the register when a zero bit enters. */
  function Step(c: bv32): bv32 {
    Taps(c & 1 == 1, c >> 1)
  }

  function Advance(c: bv32, k: nat): bv32
    decreases k
  {
    if k == 0 then c else Advance(Step(c), k - 1)
  }

  /** The register after `n` zero bytes. */
  function Zeros(c: bv32, n: nat): bv32 {
    Advance(c, 8 * n)
  }

  function Half(c: bv32): bv32 {
    c >> 1
  }

  function Low(c: bv32): bv32 {
    c & 0xFF
  }

  function DropByte(c: bv32): bv32 {
    c >> 8
  }

  // The proofs below use these laws and hide the bit-vector definitions.

  lemma XorZero(a: bv32)
    ensures Xor(0, a) == a == Xor(a, 0)
  {
  }

  lemma XorAssoc(a: bv32, b: bv32, c: bv32)
    ensures Xor(Xor(a, b), c) == Xor(a, Xor(b, c))
  {
  }

  lemma XorCancelsLeft(a: bv32, b: bv32, c: bv32)
    ensures Xor(a, b) == Xor(a, c) <==> b == c
  {
  }

  lemma XorCancelsRight(a: bv32, b: bv32, c: bv32)
    ensures Xor(b, a) == Xor(c, a) <==> b == c
  {
  }

  lemma ShiftXor(a: bv32, b: bv32)
    ensures Xor(a, b) >> 1 == Xor(a >> 1, b >> 1)
  {
    calc {
      Xor(a, b) >> 1;
      (a ^ b) >> 1;
      (a >> 1) ^ (b >> 1);
      Xor(a >> 1, b >> 1);
    }
  }

  lemma ParityXor(a: bv32, b: bv32)
    ensures (Xor(a, b) & 1 == 1) == ((a & 1 == 1) != (b & 1 == 1))
  {
  }

  lemma PolyCancels(p: bv32, a: bv32, b: bv32)
    ensures (p ^ a) ^ (p ^ b) == a ^ b
  {
  }

  lemma PolyMovesIn(p: bv32, a: bv32, b: bv32)
    ensures p ^ (a ^ b) == (p ^ a) ^ b
    ensures p ^ (a ^ b) == a ^ (p ^ b)
  {
  }

  lemma TapsLinear(p: bool, q: bool, x: bv32, y: bv32)
    ensures Taps(p != q, Xor(x, y)) == Xor(Taps(p, x), Taps(q, y))
  {
    if p && q {
      PolyCancels(POLY, x, y);
    } else if p || q {
      PolyMovesIn(POLY, x, y);
    }
  }

  /** The register step is linear over GF(2). */
  lemma StepLinear(a: bv32, b: bv32)
    ensures Step(Xor(a, b)) == Xor(Step(a), Step(b))
  {
    hide Taps, Xor;
    ShiftXor(a, b);
    ParityXor(a, b);
    TapsLinear(a & 1 == 1, b & 1 == 1, a >> 1, b >> 1);
  }

  lemma {:induction false} AdvanceLinear(a: bv32, b: bv32, k: nat)
    ensures Advance(Xor(a, b), k) == Xor(Advance(a, k), Advance(b, k))
    decreases k
  {
    hide Step, Xor;
    if k > 0 {
      StepLinear(a, b);
      AdvanceLinear(Step(a), Step(b), k - 1);
    }
  }

  lemma {:induction false} AdvanceSplit(c: bv32, j: nat, k: nat)
    ensures Advance(c, j + k) == Advance(Advance(c, j), k)
    decreases j
  {
    hide Step;
    if j > 0 {
      AdvanceSplit(Step(c), j - 1, k);
    }
  }

  lemma ZerosLinear(a: bv32, b: bv32, n: nat)
    ensures Zeros(Xor(a, b), n) == Xor(Zeros(a, n), Zeros(b, n))
  {
    hide Step, Xor;
    AdvanceLinear(a, b, 8 * n);
  }

  lemma ZerosAdd(c: bv32, m: nat, n: nat)
    ensures Zeros(c, m + n) == Zeros(Zeros(c, m), n)
  {
    hide Step;
    AdvanceSplit(c, 8 * m, 8 * n);
    assert 8 * (m + n) == 8 * m + 8 * n;
  }

  /** No two registers step to the same register: the polynomial's top bit is set. */
  lemma StepInjective(a: bv32, b: bv32)
    ensures Step(a) == Step(b) ==> a == b
  {
  }

  lemma {:induction false} AdvanceInjective(a: bv32, b: bv32, k: nat)
    ensures Advance(a, k) == Advance(b, k) ==> a == b
    decreases k
  {
    hide Step;
    if k > 0 {
      StepInjective(a, b);
      AdvanceInjective(Step(a), Step(b), k - 1);
    }
  }

  lemma EightSteps(c: bv32)
    ensures Zeros(c, 1) == Step(Step(Step(Step(Step(Step(Step(Step(c))))))))
  {
    hide Step;
    var c4 := Step(Step(Step(Step(c))));
    AdvanceSplit(c, 4, 4);
    assert Advance(c, 4) == c4 by { AdvanceSplit(c, 2, 2); }
    assert Advance(c4, 4) == Step(Step(Step(Step(c4)))) by { AdvanceSplit(c4, 2, 2); }
  }

  lemma StepEven(c: bv32)
    requires c & 1 == 0
    ensures Step(c) == Half(c)
  {
  }

  lemma HalveEightTimes(c: bv32)
    requires Low(c) == 0
    ensures var c1 := Half(c);
            var c2 := Half(c1);
            var c3 := Half(c2);
            var c4 := Half(c3);
            var c5 := Half(c4);
            var c6 := Half(c5);
            var c7 := Half(c6);
            && c & 1 == c1 & 1 == c2 & 1 == c3 & 1 == 0
            && c4 & 1 == c5 & 1 == c6 & 1 == c7 & 1 == 0
            && Half(c7) == DropByte(c)
  {
  }

  lemma ShiftOutZeros(c: bv32)
    requires Low(c) == 0
    ensures Zeros(c, 1) == DropByte(c)
  {
    hide Step, Half, Zeros, DropByte;
    HalveEightTimes(c);
    StepEven(c);
    var c1 := Half(c);
    StepEven(c1);
    var c2 := Half(c1);
    StepEven(c2);
    var c3 := Half(c2);
    StepEven(c3);
    var c4 := Half(c3);
    StepEven(c4);
    var c5 := Half(c4);
    StepEven(c5);
    var c6 := Half(c5);
    StepEven(c6);
    StepEven(Half(c6));
    EightSteps(c);
  }

  lemma LowAndHigh(c: bv32)
    ensures c == Xor(Low(c), c & 0xFFFF_FF00)
    ensures Low(c & 0xFFFF_FF00) == 0
    ensures DropByte(c & 0xFFFF_FF00) == DropByte(c)
  {
  }

  /** The lowest byte can be advanced apart from the three above it. */
  lemma PeelByte(c: bv32, n: nat)
    requires n > 0
    ensures Zeros(c, n) == Xor(Zeros(Low(c), n), Zeros(DropByte(c), n - 1))
  {
    hide Step, Xor, Low, DropByte;
    var lo, hi := Low(c), c & 0xFFFF_FF00;
    LowAndHigh(c);
    AdvanceLinear(lo, hi, 8 * n);
    ShiftOutZeros(hi);
    AdvanceSplit(hi, 8, 8 * (n - 1));
  }

  // ---------- Feeding whole bytes ----------

  function FeedByte(c: bv32, b: bv8): bv32 {
    Zeros(Xor(c, Widen(b)), 1)
  }

  function FeedBytes(c: bv32, bytes: seq<bv8>): bv32
    decreases |bytes|
  {
    if bytes == [] then c else FeedBytes(FeedByte(c, bytes[0]), bytes[1..])
  }

  lemma FeedBitIsStep(c: bv32, w: bv32)
    ensures Step(Xor(c, w)) == Xor(FeedBit(c, w & 1 == 1), w >> 1)
  {
    hide Taps, Xor;
    var odd, bit := c & 1 == 1, w & 1 == 1;
    ShiftXor(c, w);
    ParityXor(c, w);
    TapsLinear(odd != bit, false, c >> 1, w >> 1);
    assert Taps(false, w >> 1) == w >> 1 by { TapsOfEven(w >> 1); }
    assert ((odd != bit) != false) == (odd != bit);
  }

  lemma TapsOfEven(x: bv32)
    ensures Taps(false, x) == x
  {
  }

  function ShiftRight(w: bv32, k: nat): bv32
    decreases k
  {
    if k == 0 then w else ShiftRight(w >> 1, k - 1)
  }

  lemma {:induction false} FeedLowBits(c: bv32, w: bv32, k: nat)
    ensures Advance(Xor(c, w), k) == Xor(FeedBits(c, LowBits(w, k)), ShiftRight(w, k))
    decreases k
  {
    hide Step, Xor, FeedBit;
    if k > 0 {
      FeedBitIsStep(c, w);
      FeedLowBits(FeedBit(c, w & 1 == 1), w >> 1, k - 1);
      assert LowBits(w, k)[1..] == LowBits(w >> 1, k - 1);
    }
  }

  lemma {:induction false} ShiftRightSmall(w: bv32, bound: bv32, k: nat)
    requires 0 < k <= 8 && bound == 1 << k && w < bound
    ensures ShiftRight(w, k) == 0
    decreases k
  {
    if k == 1 {
      assert ShiftRight(w >> 1, 0) == w >> 1;
    } else {
      ShiftRightSmall(w >> 1, bound >> 1, k - 1);
    }
  }

  lemma ByteShiftsOut(b: bv8)
    ensures ShiftRight(Widen(b), 8) == 0
  {
    ShiftRightSmall(Widen(b), 256, 8);
  }

  lemma {:induction false} FeedBitsConcat(c: bv32, a: seq<bool>, b: seq<bool>)
    ensures FeedBits(c, a + b) == FeedBits(FeedBits(c, a), b)
    decreases |a|
  {
    hide FeedBit;
    if a == [] {
      assert a + b == b;
    } else {
      assert (a + b)[1..] == a[1..] + b;
      FeedBitsConcat(FeedBit(c, a[0]), a[1..], b);
    }
  }

  lemma ByteIsBits(c: bv32, b: bv8)
    ensures FeedByte(c, b) == FeedBits(c, LowBits(Widen(b), 8))
  {
    hide Step, Xor, FeedBit, Widen;
    FeedLowBits(c, Widen(b), 8);
    ByteShiftsOut(b);
    XorZero(FeedBits(c, LowBits(Widen(b), 8)));
  }

  /** Feeding a message byte by byte is feeding its bits one by one. */
  lemma {:induction false} BytesAreBits(c: bv32, bytes: seq<bv8>)
    ensures FeedBytes(c, bytes) == FeedBits(c, MessageBits(bytes))
    decreases |bytes|
  {
    hide FeedByte, FeedBit, LowBits, Widen;
    if bytes != [] {
      var b := bytes[0];
      ByteIsBits(c, b);
      FeedBitsConcat(c, LowBits(Widen(b), 8), MessageBits(bytes[1..]));
      BytesAreBits(FeedByte(c, b), bytes[1..]);
    }
  }

  lemma {:induction false} FeedBytesConcat(c: bv32, a: seq<bv8>, b: seq<bv8>)
    ensures FeedBytes(c, a + b) == FeedBytes(FeedBytes(c, a), b)
    decreases |a|
  {
    hide FeedByte;
    if a == [] {
      assert a + b == b;
    } else {
      assert (a + b)[1..] == a[1..] + b;
      FeedBytesConcat(FeedByte(c, a[0]), a[1..], b);
    }
  }

  lemma NothingFed(c: bv32)
    ensures FeedBytes(c, []) == c
  {
  }

  lemma Feed1(c: bv32, b: bv8, rest: seq<bv8>)
    ensures FeedBytes(c, [b] + rest) == FeedBytes(FeedByte(c, b), rest)
  {
    hide FeedByte;
    assert ([b] + rest)[1..] == rest;
  }

  /** The register and the message contribute independently. */
  lemma {:induction false} FeedBytesLinear(c: bv32, bytes: seq<bv8>)
    ensures FeedBytes(c, bytes) == Xor(Zeros(c, |bytes|), FeedBytes(0, bytes))
    decreases |bytes|
  {
    hide Step, Xor, Widen, Zeros;
    if bytes == [] {
      XorZero(c);
      assert Zeros(c, 0) == c by { ZerosOfNone(c); }
    } else {
      var b, rest := Widen(bytes[0]), bytes[1..];
      var n := |rest|;
      ZerosLinear(c, b, 1);
      XorZero(b);
      FeedBytesLinear(FeedByte(c, bytes[0]), rest);
      FeedBytesLinear(FeedByte(0, bytes[0]), rest);
      ZerosLinear(Zeros(c, 1), Zeros(b, 1), n);
      ZerosAdd(c, 1, n);
      XorAssoc(Zeros(c, n + 1), Zeros(Zeros(b, 1), n), FeedBytes(0, rest));
    }
  }

  lemma ZerosOfNone(c: bv32)
    ensures Zeros(c, 0) == c
  {
  }

  /** What a message contributes is one advanced byte after another. */
  lemma FeedZeroUnfold(b: bv8, rest: seq<bv8>)
    ensures FeedBytes(0, [b] + rest) == Xor(Zeros(Widen(b), |rest| + 1), FeedBytes(0, rest))
  {
    hide Xor, Widen, Zeros, FeedByte, FeedBytes;
    Feed1(0, b, rest);
    FeedByteZero(b);
    FeedBytesLinear(FeedByte(0, b), rest);
    ZerosAdd(Widen(b), 1, |rest|);
  }

  lemma FeedByteZero(b: bv8)
    ensures FeedByte(0, b) == Zeros(Widen(b), 1)
  {
    hide Xor, Widen, Zeros;
    XorZero(Widen(b));
  }

  // ---------- What the checksum promises ----------

  lemma ComplementLaws(a: bv32, b: bv32)
    ensures Complement(Complement(a)) == a
    ensures Complement(a) == Complement(b) <==> a == b
  {
  }

  lemma CrcOfBytes(bytes: seq<bv8>, seed: bv32)
    ensures Crc(bytes, seed) == Complement(FeedBytes(Complement(seed), bytes))
  {
    hide FeedBytes, FeedBits, Complement;
    BytesAreBits(Complement(seed), bytes);
  }

  /** A checksum can be continued at any split point. */
  lemma Chaining(a: seq<bv8>, b: seq<bv8>, seed: bv32)
    ensures Crc(a + b, seed) == Crc(b, Crc(a, seed))
  {
    hide FeedBytes, Crc, Complement;
    ComplementLaws(FeedBytes(Complement(seed), a), 0);
    CrcOfBytes(a + b, seed);
    CrcOfBytes(a, seed);
    CrcOfBytes(b, Crc(a, seed));
    FeedBytesConcat(Complement(seed), a, b);
  }

  lemma {:induction false} FeedBytesInjectiveInRegister(c: bv32, d: bv32, bytes: seq<bv8>)
    ensures FeedBytes(c, bytes) == FeedBytes(d, bytes) ==> c == d
    decreases |bytes|
  {
    hide Step, Xor, Advance, Widen;
    if bytes != [] {
      var b := Widen(bytes[0]);
      FeedBytesInjectiveInRegister(FeedByte(c, bytes[0]), FeedByte(d, bytes[0]), bytes[1..]);
      AdvanceInjective(Xor(c, b), Xor(d, b), 8);
      XorCancelsRight(b, c, d);
    }
  }

  /** Four bytes as one little-endian word. */
  function Word(b0: bv8, b1: bv8, b2: bv8, b3: bv8): bv32 {
    b0 as bv32 ^ ((b1 as bv32) << 8) ^ ((b2 as bv32) << 16) ^ ((b3 as bv32) << 24)
  }

  lemma WordInjective(v0: bv8, v1: bv8, v2: bv8, v3: bv8, w0: bv8, w1: bv8, w2: bv8, w3: bv8)
    ensures Word(v0, v1, v2, v3) == Word(w0, w1, w2, w3) ==> v0 == w0 && v1 == w1 && v2 == w2 && v3 == w3
  {
  }

  lemma WordBytes(b0: bv8, b1: bv8, b2: bv8, b3: bv8)
    ensures var w := Word(b0, b1, b2, b3);
            && Low(w) == Widen(b0)
            && Low(DropByte(w)) == Widen(b1)
            && Low(DropByte(DropByte(w))) == Widen(b2)
            && DropByte(DropByte(DropByte(w))) == Widen(b3)
  {
  }

  /** A register advances by at least four bytes one of its bytes at a time. */
  lemma PeelWord(c: bv32, n: nat)
    requires n >= 4
    ensures var c1 := DropByte(c);
            var c2 := DropByte(c1);
            Zeros(c, n) == Xor(Zeros(Low(c), n), Xor(Zeros(Low(c1), n - 1),
                           Xor(Zeros(Low(c2), n - 2), Zeros(DropByte(c2), n - 3))))
  {
    hide Step, Xor, Zeros, Low, DropByte;
    PeelByte(c, n);
    PeelByte(DropByte(c), n - 1);
    PeelByte(DropByte(DropByte(c)), n - 2);
  }

  lemma FeedFourBytes(c: bv32, b0: bv8, b1: bv8, b2: bv8, b3: bv8)
    ensures FeedBytes(c, [b0, b1, b2, b3]) == Xor(Zeros(c, 4), Zeros(Word(b0, b1, b2, b3), 4))
  {
    hide Xor, Zeros, Word, Low, DropByte, Widen, FeedBytes;
    FeedBytesLinear(c, [b0, b1, b2, b3]);
    assert [b0, b1, b2, b3] == [b0] + [b1, b2, b3];
    FeedZeroUnfold(b0, [b1, b2, b3]);
    assert [b1, b2, b3] == [b1] + [b2, b3];
    FeedZeroUnfold(b1, [b2, b3]);
    assert [b2, b3] == [b2] + [b3];
    FeedZeroUnfold(b2, [b3]);
    assert [b3] == [b3] + [];
    FeedZeroUnfold(b3, []);
    NothingFed(0);
    XorZero(Zeros(Widen(b3), 1));
    PeelWord(Word(b0, b1, b2, b3), 4);
    WordBytes(b0, b1, b2, b3);
  }

  lemma FourBytesInjective(c: bv32, v: seq<bv8>, w: seq<bv8>)
    requires |v| == |w| == 4
    ensures FeedBytes(c, v) == FeedBytes(c, w) ==> v == w
  {
    hide Xor, Advance, Word, FeedBytes;
    var x, y := Word(v[0], v[1], v[2], v[3]), Word(w[0], w[1], w[2], w[3]);
    assert v == [v[0], v[1], v[2], v[3]] && w == [w[0], w[1], w[2], w[3]];
    FeedFourBytes(c, v[0], v[1], v[2], v[3]);
    FeedFourBytes(c, w[0], w[1], w[2], w[3]);
    XorCancelsLeft(Zeros(c, 4), Zeros(x, 4), Zeros(y, 4));
    AdvanceInjective(x, y, 32);
    WordInjective(v[0], v[1], v[2], v[3], w[0], w[1], w[2], w[3]);
  }

  lemma ShortInjective(c: bv32, v: seq<bv8>, w: seq<bv8>)
    requires |v| == |w| <= 4
    ensures FeedBytes(c, v) == FeedBytes(c, w) ==> v == w
  {
    hide FeedBytes;
    var pad: seq<bv8> := [0, 0, 0, 0][|v|..];
    FeedBytesConcat(c, v, pad);
    FeedBytesConcat(c, w, pad);
    FourBytesInjective(c, v + pad, w + pad);
    assert v == (v + pad)[..|v|] && w == (w + pad)[..|w|];
  }

  lemma CrcOfThree(before: seq<bv8>, m: seq<bv8>, after: seq<bv8>, seed: bv32)
    ensures Crc(before + m + after, seed) ==
            Complement(FeedBytes(FeedBytes(FeedBytes(Complement(seed), before), m), after))
  {
    hide FeedBytes, Crc, Complement;
    CrcOfBytes(before + m + after, seed);
    FeedBytesConcat(Complement(seed), before + m, after);
    FeedBytesConcat(Complement(seed), before, m);
  }

  /**
    Two messages that agree outside at most four consecutive bytes have the same
    checksum under a seed exactly when they are the same message.
   */
  lemma FourByteWindowDetected(before: seq<bv8>, v: seq<bv8>, w: seq<bv8>, after: seq<bv8>, seed: bv32)
    requires |v| == |w| <= 4
    ensures Crc(before + v + after, seed) == Crc(before + w + after, seed) <==> v == w
  {
    hide FeedBytes, Crc, Complement;
    var c := FeedBytes(Complement(seed), before);
    CrcOfThree(before, v, after, seed);
    CrcOfThree(before, w, after, seed);
    FeedBytesInjectiveInRegister(FeedBytes(c, v), FeedBytes(c, w), after);
    ShortInjective(c, v, w);
    ComplementLaws(FeedBytes(FeedBytes(c, v), after), FeedBytes(FeedBytes(c, w), after));
  }
}
