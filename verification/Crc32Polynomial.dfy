/**
  The checksum as a remainder: polynomials over GF(2) are sets of exponents, and the
  generator is written down by its exponents. Nothing here mentions how the register
  is built; that it holds the remainder of the message is what is proved.
 */
module Crc32Polynomial {
  import opened Crc32Spec

  /** The exponents of the terms that are there. */
  type Polynomial = set<nat>

  /** The generator of section 8 of RFC 1952. */
  const GENERATOR: Polynomial := {32, 26, 23, 22, 16, 12, 11, 10, 8, 7, 5, 4, 2, 1, 0}

  /** Over GF(2) equal terms cancel. */
  function Plus(a: Polynomial, b: Polynomial): Polynomial {
    (a - b) + (b - a)
  }

  /** The product with x to the `k`. */
  function Raise(a: Polynomial, k: nat): Polynomial {
    set e | e in a :: e + k
  }

  function When(b: bool, a: Polynomial): Polynomial {
    if b then a else {}
  }

  /** The product with the polynomial of these coefficients, highest first. */
  function Product(q: seq<bool>, g: Polynomial): Polynomial {
    if q == [] then {} else Plus(Raise(Product(q[..|q| - 1], g), 1), When(q[|q| - 1], g))
  }

  /** The polynomial of these coefficients, highest first. */
  function Terms(bits: seq<bool>): Polynomial {
    set i | 0 <= i < |bits| && bits[i] :: |bits| - 1 - i
  }

  /** The register is reflected: its lowest bit is the coefficient of x to the 31. */
  function Register(c: bv32): Polynomial {
    Terms(LowBits(c, 32))
  }

  ghost predicate Congruent(a: Polynomial, b: Polynomial) {
    exists q :: Plus(a, b) == Product(q, GENERATOR)
  }

  ghost predicate Below(a: Polynomial, n: nat) {
    forall e :: e in a ==> e < n
  }

  /** `r` is what division by the generator leaves of `a`. */
  ghost predicate IsRemainder(a: Polynomial, r: Polynomial) {
    Below(r, 32) && Congruent(a, r)
  }

  // ---------- The algebra ----------

  lemma PlusLaws(a: Polynomial, b: Polynomial, c: Polynomial)
    ensures Plus(Plus(a, b), c) == Plus(a, Plus(b, c))
    ensures Plus(a, b) == Plus(b, a) && Plus(a, a) == {} && Plus(a, {}) == a == Plus({}, a)
  {
  }

  lemma RaisePlus(a: Polynomial, b: Polynomial, k: nat)
    ensures Raise(Plus(a, b), k) == Plus(Raise(a, k), Raise(b, k))
  {
    var l, r := Raise(Plus(a, b), k), Plus(Raise(a, k), Raise(b, k));
    forall e: nat
      ensures e in l <==> e in r
    {
      InRaise(Plus(a, b), k, e);
      InRaise(a, k, e);
      InRaise(b, k, e);
    }
  }

  lemma InRaise(a: Polynomial, k: nat, e: nat)
    ensures e in Raise(a, k) <==> e >= k && e - k in a
  {
    if e >= k && e - k in a {
      assert (e - k) + k == e;
    }
  }

  lemma RaiseTwice(a: Polynomial, j: nat, k: nat)
    ensures Raise(Raise(a, j), k) == Raise(a, j + k) && Raise(a, 0) == a
  {
    forall e: nat
      ensures e in Raise(Raise(a, j), k) <==> e in Raise(a, j + k)
    {
      InRaise(Raise(a, j), k, e);
      InRaise(a, j + k, e);
      if e >= k {
        InRaise(a, j, e - k);
      }
    }
  }

  lemma InTerms(bits: seq<bool>, e: nat)
    ensures e in Terms(bits) <==> e < |bits| && bits[|bits| - 1 - e]
  {
    if e < |bits| && bits[|bits| - 1 - e] {
      var i := |bits| - 1 - e;
      assert |bits| - 1 - i == e;
    }
  }

  lemma TermsAppend(bits: seq<bool>, b: bool)
    ensures Terms(bits + [b]) == Plus(Raise(Terms(bits), 1), When(b, {0}))
  {
    forall e: nat
      ensures e in Terms(bits + [b]) <==> e in Plus(Raise(Terms(bits), 1), When(b, {0}))
    {
      InTerms(bits + [b], e);
      InRaise(Terms(bits), 1, e);
      if e > 0 {
        InTerms(bits, e - 1);
      }
    }
  }

  lemma ProductAppend(q: seq<bool>, b: bool, g: Polynomial)
    ensures Product(q + [b], g) == Plus(Raise(Product(q, g), 1), When(b, g))
  {
    assert (q + [b])[..|q|] == q;
  }

  // ---------- The bits of the register ----------

  lemma {:induction false} LowBitsXor(a: bv32, b: bv32, k: nat, i: nat)
    requires i < k
    ensures LowBits(Xor(a, b), k)[i] == (LowBits(a, k)[i] != LowBits(b, k)[i])
    decreases k
  {
    hide Xor;
    if i == 0 {
      ParityXor(a, b);
    } else {
      ShiftXor(a, b);
      LowBitsXor(a >> 1, b >> 1, k - 1, i - 1);
    }
  }

  lemma {:induction false} LowBitsMore(w: bv32, j: nat, k: nat)
    ensures LowBits(w, j + k) == LowBits(w, j) + LowBits(ShiftRight(w, j), k)
    decreases j
  {
    if j > 0 {
      LowBitsMore(w >> 1, j - 1, k);
      assert j + k - 1 == (j - 1) + k;
    }
  }

  function Odd(w: bv32): bool {
    w & 1 == 1
  }

  lemma OneBit(w: bv32, k: nat)
    ensures LowBits(w, k + 1) == [Odd(w)] + LowBits(Half(w), k)
  {
  }

  lemma FourBits(w: bv32, k: nat)
    ensures var w1 := Half(w);
            var w2 := Half(w1);
            var w3 := Half(w2);
            LowBits(w, k + 4) == [Odd(w), Odd(w1), Odd(w2), Odd(w3)] + LowBits(Half(w3), k)
  {
    hide LowBits, Odd, Half;
    var w1 := Half(w);
    var w2 := Half(w1);
    OneBit(w, k + 3);
    OneBit(w1, k + 2);
    OneBit(w2, k + 1);
    OneBit(Half(w2), k);
  }

  /** The next four bits are those of the digit `d`, and `rest` is what is behind them. */
  predicate Digit(w: bv32, d: bv32, rest: bv32) {
    w & 0xF == d && w >> 4 == rest
  }

  lemma DigitBits(w: bv32, d: bv32, rest: bv32, k: nat)
    requires Digit(w, d, rest)
    ensures LowBits(w, k + 4) == [d & 1 == 1, d & 2 == 2, d & 4 == 4, d & 8 == 8] + LowBits(rest, k)
  {
    hide LowBits;
    FourBits(w, k);
    DigitOdd(w, d, rest);
  }

  lemma DigitOdd(w: bv32, d: bv32, rest: bv32)
    requires Digit(w, d, rest)
    ensures var w1 := Half(w);
            var w2 := Half(w1);
            var w3 := Half(w2);
            && Odd(w) == (d & 1 == 1) && Odd(w1) == (d & 2 == 2) && Odd(w2) == (d & 4 == 4) && Odd(w3) == (d & 8 == 8)
            && Half(w3) == rest
  {
  }

  /** The generator without its highest term, as the register holds it. */
  lemma PolyBits()
    ensures LowBits(POLY, 32) ==
            [false, false, false, false] + ([false, true, false, false] + ([true, true, false, false] +
            ([false, false, false, true] + ([false, false, false, true] + ([true, true, false, true] +
            ([true, false, true, true] + ([false, true, true, true] + [])))))))
  {
    hide LowBits;
    DigitBits(0xEDB88320, 0x0, 0x0EDB8832, 28);
    DigitBits(0x0EDB8832, 0x2, 0x00EDB883, 24);
    DigitBits(0x00EDB883, 0x3, 0x000EDB88, 20);
    DigitBits(0x000EDB88, 0x8, 0x0000EDB8, 16);
    DigitBits(0x0000EDB8, 0x8, 0x00000EDB, 12);
    DigitBits(0x00000EDB, 0xB, 0x000000ED, 8);
    DigitBits(0x000000ED, 0xD, 0x0000000E, 4);
    DigitBits(0x0000000E, 0xE, 0x00000000, 0);
    NoBits(0);
  }

  lemma NoBits(w: bv32)
    ensures LowBits(w, 0) == []
  {
  }

  lemma PolyIsGenerator()
    ensures Plus(Register(POLY), {32}) == GENERATOR
  {
    hide LowBits;
    PolyBits();
    forall e: nat
      ensures e in Register(POLY) <==> e in GENERATOR - {32}
    {
      InTerms(LowBits(POLY, 32), e);
    }
  }

  lemma {:induction false} ShiftRightAdd(w: bv32, j: nat, k: nat)
    ensures ShiftRight(w, j + k) == ShiftRight(ShiftRight(w, j), k)
    decreases j
  {
    if j > 0 {
      ShiftRightAdd(w >> 1, j - 1, k);
      assert j + k - 1 == (j - 1) + k;
    }
  }

  lemma ShiftRightFour(w: bv32)
    ensures ShiftRight(w, 4) == w >> 4
  {
    assert ShiftRight(w, 4) == ShiftRight(w >> 1 >> 1, 2) == w >> 1 >> 1 >> 1 >> 1;
    assert w >> 1 >> 1 >> 1 >> 1 == w >> 4;
  }

  lemma ShiftsOut(w: bv32)
    ensures ShiftRight(w, 32) == 0
  {
    hide ShiftRight;
    var w2 := w >> 4 >> 4;
    var w4 := w2 >> 4 >> 4;
    var w6 := w4 >> 4 >> 4;
    ShiftRightEight(w);
    ShiftRightEight(w2);
    ShiftRightEight(w4);
    ShiftRightEight(w6);
    ShiftRightAdd(w, 8, 24);
    ShiftRightAdd(w2, 8, 16);
    ShiftRightAdd(w4, 8, 8);
    NothingLeft(w);
  }

  lemma ShiftRightEight(w: bv32)
    ensures ShiftRight(w, 8) == w >> 4 >> 4
  {
    hide ShiftRight;
    ShiftRightFour(w);
    ShiftRightFour(w >> 4);
    ShiftRightAdd(w, 4, 4);
  }

  lemma NothingLeft(w: bv32)
    ensures w >> 4 >> 4 >> 4 >> 4 >> 4 >> 4 >> 4 >> 4 == 0
  {
  }

  lemma HalfBits(w: bv32)
    ensures LowBits(Half(w), 32) == LowBits(w, 32)[1..] + [false] && LowBits(w, 32)[0] == Odd(w)
  {
    hide Odd;
    OneBit(w, 31);
    LowBitsMore(Half(w), 31, 1);
    assert ShiftRight(w, 32) == ShiftRight(Half(w), 31) == 0 by { ShiftsOut(w); }
    OneBit(0, 0);
    assert !Odd(0) by { ZeroIsEven(); }
    NoBits(Half(0));
  }

  lemma ZeroIsEven()
    ensures !Odd(0)
  {
  }

  // ---------- One bit is one step of the division ----------

  lemma RegisterXor(a: bv32, b: bv32)
    ensures Register(Xor(a, b)) == Plus(Register(a), Register(b))
  {
    hide LowBits, Xor;
    forall e: nat
      ensures e in Register(Xor(a, b)) <==> e in Plus(Register(a), Register(b))
    {
      InTerms(LowBits(Xor(a, b), 32), e);
      InTerms(LowBits(a, 32), e);
      InTerms(LowBits(b, 32), e);
      if e < 32 {
        LowBitsXor(a, b, 32, 31 - e);
      }
    }
  }

  lemma RegisterHalf(c: bv32)
    ensures Register(Half(c)) == Plus(Raise(Register(c), 1), When(Odd(c), {32}))
  {
    hide LowBits, Half, Odd, Raise;
    HalfBits(c);
    forall e: nat
      ensures e in Register(Half(c)) <==> e in Plus(Raise(Register(c), 1), When(Odd(c), {32}))
    {
      InTerms(LowBits(Half(c), 32), e);
      InRaise(Register(c), 1, e);
      if e > 0 {
        InTerms(LowBits(c, 32), e - 1);
      }
    }
  }

  lemma Cancels(g: Polynomial, r: Polynomial, odd: bool, b: bool)
    ensures Plus(When(odd != b, Plus(g, {32})), Plus(r, When(odd, {32}))) == Plus(Plus(r, When(b, {32})), When(odd != b, g))
  {
  }

  lemma FeedBitIs(c: bv32, b: bool)
    ensures FeedBit(c, b) == if Odd(c) != b then Xor(POLY, Half(c)) else Half(c)
  {
  }

  /** A bit brings the register one place up; the generator is taken off when the place above it is filled. */
  lemma FeedBitDivides(c: bv32, b: bool)
    ensures Register(FeedBit(c, b)) == Plus(Plus(Raise(Register(c), 1), When(b, {32})), When(Odd(c) != b, GENERATOR))
  {
    hide Register, FeedBit, Odd, Half, Xor, Raise, GENERATOR;
    FeedBitIs(c, b);
    RegisterHalf(c);
    RegisterXor(POLY, Half(c));
    PolyIsGenerator();
    PlusLaws(Register(POLY), {32}, {32});
    Cancels(GENERATOR, Raise(Register(c), 1), Odd(c), b);
    PlusLaws({}, Register(Half(c)), {});
  }

  // ---------- The register holds the remainder ----------

  /** The message behind the register: what is divided. */
  function Dividend(c: bv32, bits: seq<bool>): Polynomial {
    Plus(Raise(Terms(bits), 32), Raise(Register(c), |bits|))
  }

  lemma DividendAppend(c: bv32, bits: seq<bool>, b: bool)
    ensures Dividend(c, bits + [b]) == Plus(Raise(Dividend(c, bits), 1), When(b, {32}))
  {
    hide Terms, Register;
    var m, r, n := Terms(bits), Register(c), |bits|;
    TermsAppend(bits, b);
    RaisePlus(Raise(m, 32), Raise(r, n), 1);
    RaiseTwice(m, 32, 1);
    RaiseTwice(m, 1, 32);
    RaiseTwice(r, n, 1);
    RaisePlus(Raise(m, 1), When(b, {0}), 32);
    RaiseWhen(b);
    var x, y, t := Raise(m, 33), Raise(r, n + 1), When(b, {32});
    PlusLaws(x, t, y);
    PlusLaws(x, y, t);
    PlusLaws(t, y, {});
  }

  lemma RaiseWhen(b: bool)
    ensures Raise(When(b, {0}), 32) == When(b, {32})
  {
    forall e: nat
      ensures e in Raise(When(b, {0}), 32) <==> e in When(b, {32})
    {
      InRaise(When(b, {0}), 32, e);
    }
  }

  lemma Interchange(d: Polynomial, t: Polynomial, r: Polynomial, g: Polynomial)
    ensures Plus(Plus(d, t), Plus(Plus(r, t), g)) == Plus(Plus(d, r), g)
  {
  }

  lemma {:induction false} FeedDivides(c: bv32, bits: seq<bool>) returns (q: seq<bool>)
    ensures Plus(Dividend(c, bits), Register(FeedBits(c, bits))) == Product(q, GENERATOR)
    decreases |bits|
  {
    hide Register, FeedBit, Raise, Plus, GENERATOR, Odd;
    if bits == [] {
      NothingDivided(c);
      q := [];
    } else {
      var before, b := bits[..|bits| - 1], bits[|bits| - 1];
      assert bits == before + [b];
      q := FeedDivides(c, before);
      var r := FeedBits(c, before);
      FeedBitsConcat(c, before, [b]);
      assert [b][1..] == [];
      assert FeedBits(c, bits) == FeedBit(r, b);
      DividendAppend(c, before, b);
      FeedBitDivides(r, b);
      ProductAppend(q, Odd(r) != b, GENERATOR);
      RaisePlus(Dividend(c, before), Register(r), 1);
      Interchange(Raise(Dividend(c, before), 1), When(b, {32}), Raise(Register(r), 1), When(Odd(r) != b, GENERATOR));
      q := q + [Odd(r) != b];
    }
  }

  lemma NothingDivided(c: bv32)
    ensures Plus(Dividend(c, []), Register(FeedBits(c, []))) == {} == Product([], GENERATOR)
  {
    hide Register;
    assert Raise(Terms([]), 32) == {};
    RaiseTwice(Register(c), 0, 0);
    PlusLaws({}, Register(c), Register(c));
  }

  lemma RegisterBelow(c: bv32)
    ensures Below(Register(c), 32)
  {
  }

  // ---------- There is only one remainder ----------

  lemma {:induction false} ProductTop(q: seq<bool>)
    requires q != [] && q[0]
    ensures |q| + 31 in Product(q, GENERATOR)
    decreases |q|
  {
    hide Raise, GENERATOR;
    var before := q[..|q| - 1];
    GeneratorTop();
    InRaise(Product(before, GENERATOR), 1, |q| + 31);
    if before == [] {
      RaiseNothing();
    } else {
      ProductTop(before);
    }
  }

  lemma GeneratorTop()
    ensures 32 in GENERATOR && Below(GENERATOR, 33)
  {
  }

  /** A multiple of the generator with no term from x to the 32 on is zero. */
  lemma {:induction false} SmallMultiple(q: seq<bool>)
    requires Below(Product(q, GENERATOR), 32)
    ensures Product(q, GENERATOR) == {}
    decreases |q|
  {
    if q != [] {
      if q[0] {
        ProductTop(q);
      } else {
        LeadingZero(q);
        SmallMultiple(q[1..]);
      }
    }
  }

  lemma {:induction false} LeadingZero(q: seq<bool>)
    requires q != [] && !q[0]
    ensures Product(q, GENERATOR) == Product(q[1..], GENERATOR)
    decreases |q|
  {
    hide Raise, GENERATOR;
    var before := q[..|q| - 1];
    if before == [] {
      assert q[1..] == [];
      assert Product(before, GENERATOR) == {};
      RaiseNothing();
      PlusLaws({}, {}, {});
    } else {
      LeadingZero(before);
      assert q[1..][..|q| - 2] == before[1..];
    }
  }

  lemma RaiseNothing()
    ensures Raise({}, 1) == {}
  {
  }

  lemma {:induction false} ProductPlus(q: seq<bool>, q': seq<bool>) returns (sum: seq<bool>)
    requires |q| == |q'|
    ensures |sum| == |q| && Plus(Product(q, GENERATOR), Product(q', GENERATOR)) == Product(sum, GENERATOR)
    decreases |q|
  {
    hide Raise, GENERATOR, Plus;
    if q == [] {
      sum := [];
      PlusLaws({}, {}, {});
    } else {
      var n := |q| - 1;
      sum := ProductPlus(q[..n], q'[..n]);
      var a, b := Product(q[..n], GENERATOR), Product(q'[..n], GENERATOR);
      RaisePlus(a, b, 1);
      WhenPlus(Raise(a, 1), Raise(b, 1), q[n], q'[n], GENERATOR);
      ProductAppend(sum, q[n] != q'[n], GENERATOR);
      sum := sum + [q[n] != q'[n]];
    }
  }

  lemma WhenPlus(a: Polynomial, b: Polynomial, s: bool, t: bool, g: Polynomial)
    ensures Plus(Plus(a, When(s, g)), Plus(b, When(t, g))) == Plus(Plus(a, b), When(s != t, g))
  {
  }

  lemma {:induction false} Padded(q: seq<bool>, n: nat) returns (padded: seq<bool>)
    ensures |padded| == n + |q| && Product(padded, GENERATOR) == Product(q, GENERATOR)
  {
    hide Product;
    padded := q;
    if n > 0 {
      var shorter := Padded(q, n - 1);
      padded := [false] + shorter;
      LeadingZero(padded);
      assert padded[1..] == shorter;
    }
  }

  lemma RemainderUnique(a: Polynomial, r: Polynomial, r': Polynomial)
    requires IsRemainder(a, r) && IsRemainder(a, r')
    ensures r == r'
  {
    hide Product, GENERATOR;
    var q :| Plus(a, r) == Product(q, GENERATOR);
    var q' :| Plus(a, r') == Product(q', GENERATOR);
    var p := Padded(q, |q'|);
    var p' := Padded(q', |q|);
    var sum := ProductPlus(p, p');
    assert Plus(Plus(a, r), Plus(a, r')) == Plus(r, r');
    SmallMultiple(sum);
    assert Plus(r, r') == {};
  }

  /** Exactly one polynomial is left of a message, and the register holds it. */
  lemma FeedIsRemainder(c: bv32, bits: seq<bool>, r: Polynomial)
    ensures IsRemainder(Dividend(c, bits), r) <==> r == Register(FeedBits(c, bits))
  {
    hide Dividend, Register, Product, FeedBits;
    var q := FeedDivides(c, bits);
    RegisterBelow(FeedBits(c, bits));
    assert Congruent(Dividend(c, bits), Register(FeedBits(c, bits)));
    if IsRemainder(Dividend(c, bits), r) {
      RemainderUnique(Dividend(c, bits), r, Register(FeedBits(c, bits)));
    }
  }

  lemma {:induction false} AdvanceFeeds(c: bv32, k: nat)
    ensures Advance(c, k) == FeedBits(c, seq(k, _ => false))
    decreases k
  {
    hide FeedBit, Step;
    if k > 0 {
      assert seq(k, _ => false)[1..] == seq(k - 1, _ => false);
      assert Step(c) == FeedBit(c, false) by { StepFeeds(c); }
      AdvanceFeeds(Step(c), k - 1);
    }
  }

  lemma StepFeeds(c: bv32)
    ensures Step(c) == FeedBit(c, false)
  {
  }

  /** Advancing the register by `k` bits multiplies by x to the `k`. */
  lemma AdvanceIsRemainder(c: bv32, k: nat, r: Polynomial)
    ensures IsRemainder(Raise(Register(c), k), r) <==> r == Register(Advance(c, k))
  {
    hide Register, FeedBits, Advance, Product;
    var zeros := seq(k, _ => false);
    AdvanceFeeds(c, k);
    FeedIsRemainder(c, zeros, r);
    assert Terms(zeros) == {} && Raise({}, 32) == {};
    PlusLaws({}, Raise(Register(c), k), {});
  }

  // ---------- The checksum ----------

  /** Bit `k` of a byte, from the lowest. */
  function Bit(b: bv8, k: nat): bool
    requires k < 8
  {
    var masks: seq<bv8> := [1, 2, 4, 8, 16, 32, 64, 128];
    b & masks[k] != 0
  }

  /** The message: its first byte has the highest exponents, and in a byte the lowest bit. */
  function MessageTerms(bytes: seq<bv8>): Polynomial {
    set j, k | 0 <= j < |bytes| && 0 <= k < 8 && Bit(bytes[j], k) :: 8 * (|bytes| - 1 - j) + (7 - k)
  }

  /** All terms below x to the 32: the register is complemented before and after. */
  const ONES: Polynomial := set e: nat | e < 32

  lemma ByteBits(b: bv8, k: nat)
    requires k < 8
    ensures LowBits(Widen(b), 8)[k] == Bit(b, k)
  {
    hide LowBits, Widen, Bit;
    AllBits(b);
  }

  lemma AllBits(b: bv8)
    ensures LowBits(Widen(b), 8) == [Bit(b, 0), Bit(b, 1), Bit(b, 2), Bit(b, 3)] + [Bit(b, 4), Bit(b, 5), Bit(b, 6), Bit(b, 7)]
  {
    hide LowBits, Widen, Bit, LowFour, HighFour;
    ByteDigits(Widen(b));
    LowMasks(b);
    HighMasks(b);
  }

  /** The four lowest bits and the four above them. */
  function LowFour(w: bv32): seq<bool> {
    [w & 0xF & 1 == 1, w & 0xF & 2 == 2, w & 0xF & 4 == 4, w & 0xF & 8 == 8]
  }

  function HighFour(w: bv32): seq<bool> {
    LowFour(w >> 4)
  }

  lemma ByteDigits(w: bv32)
    ensures LowBits(w, 8) == LowFour(w) + HighFour(w)
  {
    hide LowBits;
    DigitBits(w, w & 0xF, w >> 4, 4);
    DigitBits(w >> 4, (w >> 4) & 0xF, w >> 4 >> 4, 0);
    NoBits(w >> 4 >> 4);
  }

  lemma LowMasks(b: bv8)
    ensures LowFour(Widen(b)) == [Bit(b, 0), Bit(b, 1), Bit(b, 2), Bit(b, 3)]
  {
  }

  lemma HighMasks(b: bv8)
    ensures HighFour(Widen(b)) == [Bit(b, 4), Bit(b, 5), Bit(b, 6), Bit(b, 7)]
  {
  }

  lemma {:induction false} MessageBit(bytes: seq<bv8>, j: nat, k: nat)
    requires j < |bytes| && k < 8
    ensures |MessageBits(bytes)| == 8 * |bytes| && MessageBits(bytes)[8 * j + k] == Bit(bytes[j], k)
    decreases |bytes|
  {
    hide Bit, LowBits, Widen;
    ByteBits(bytes[0], k);
    MessageLength(bytes[1..]);
    if j > 0 {
      MessageBit(bytes[1..], j - 1, k);
      assert 8 * j + k - 8 == 8 * (j - 1) + k;
    }
  }

  lemma {:induction false} MessageLength(bytes: seq<bv8>)
    ensures |MessageBits(bytes)| == 8 * |bytes|
    decreases |bytes|
  {
    hide LowBits, Widen;
    if bytes != [] {
      MessageLength(bytes[1..]);
    }
  }

  lemma InMessageTerms(bytes: seq<bv8>, e: nat)
    ensures e in MessageTerms(bytes) <==> e < 8 * |bytes| && Bit(bytes[|bytes| - 1 - e / 8], 7 - e % 8)
  {
    hide Bit;
    var n := |bytes|;
    if e in MessageTerms(bytes) {
      var j, k :| 0 <= j < n && 0 <= k < 8 && Bit(bytes[j], k) && e == 8 * (n - 1 - j) + (7 - k);
      assert e / 8 == n - 1 - j && e % 8 == 7 - k;
    }
    if e < 8 * n && Bit(bytes[n - 1 - e / 8], 7 - e % 8) {
      var j, k := n - 1 - e / 8, 7 - e % 8;
      assert 8 * (n - 1 - j) + (7 - k) == e;
    }
  }

  lemma MessageTermsAre(bytes: seq<bv8>)
    ensures Terms(MessageBits(bytes)) == MessageTerms(bytes)
  {
    hide Bit, MessageBits, Terms, MessageTerms;
    MessageLength(bytes);
    var n := |bytes|;
    forall e: nat
      ensures e in Terms(MessageBits(bytes)) <==> e in MessageTerms(bytes)
    {
      InTerms(MessageBits(bytes), e);
      InMessageTerms(bytes, e);
      if e < 8 * n {
        MessageBit(bytes, n - 1 - e / 8, 7 - e % 8);
        assert 8 * n - 1 - e == 8 * (n - 1 - e / 8) + (7 - e % 8);
      }
    }
  }

  lemma AllOnes()
    ensures Register(0xFFFF_FFFF) == ONES
  {
    hide LowBits;
    DigitBits(0xFFFF_FFFF, 0xF, 0x0FFF_FFFF, 28);
    DigitBits(0x0FFF_FFFF, 0xF, 0x00FF_FFFF, 24);
    DigitBits(0x00FF_FFFF, 0xF, 0x000F_FFFF, 20);
    DigitBits(0x000F_FFFF, 0xF, 0x0000_FFFF, 16);
    DigitBits(0x0000_FFFF, 0xF, 0x0000_0FFF, 12);
    DigitBits(0x0000_0FFF, 0xF, 0x0000_00FF, 8);
    DigitBits(0x0000_00FF, 0xF, 0x0000_000F, 4);
    DigitBits(0x0000_000F, 0xF, 0x0000_0000, 0);
    NoBits(0);
    forall e: nat
      ensures e in Register(0xFFFF_FFFF) <==> e in ONES
    {
      InTerms(LowBits(0xFFFF_FFFF, 32), e);
    }
  }

  lemma RegisterComplement(c: bv32)
    ensures Register(Complement(c)) == Plus(Register(c), ONES)
  {
    hide Register;
    AllOnes();
    RegisterXor(c, 0xFFFF_FFFF);
  }

  /**
    For every message and seed: the checksum, complemented, is the remainder of the
    message, behind the complemented seed, on division by the generator.
   */
  lemma CrcIsRemainder(bytes: seq<bv8>, seed: bv32, r: Polynomial)
    ensures var dividend := Plus(Raise(MessageTerms(bytes), 32), Raise(Plus(Register(seed), ONES), 8 * |bytes|));
            IsRemainder(dividend, r) <==> r == Plus(Register(Crc(bytes, seed)), ONES)
  {
    hide Register, MessageBits, MessageTerms, FeedBits, IsRemainder, Complement, ONES;
    var c, bits := Complement(seed), MessageBits(bytes);
    FeedIsRemainder(c, bits, r);
    MessageTermsAre(bytes);
    MessageLength(bytes);
    RegisterComplement(seed);
    RegisterComplement(FeedBits(c, bits));
    PlusLaws(Register(FeedBits(c, bits)), ONES, ONES);
  }

  lemma FeedFirst(c: bv32, bytes: seq<bv8>, r: bv32)
    requires bytes != [] && Step(Step(Step(Step(Step(Step(Step(Step(Xor(c, Widen(bytes[0])))))))))) == r
    ensures FeedBytes(c, bytes) == FeedBytes(r, bytes[1..])
  {
    hide Step, Xor, Widen;
    EightSteps(Xor(c, Widen(bytes[0])));
  }

  /** The check value that is given for this CRC: of the digits from 1 to 9. */
  lemma CheckValue()
    ensures Crc([0x31, 0x32, 0x33, 0x34, 0x35, 0x36, 0x37, 0x38, 0x39], 0) == 0xCBF4_3926
  {
    hide FeedBytes, Crc;
    var digits: seq<bv8> := [0x31, 0x32, 0x33, 0x34, 0x35, 0x36, 0x37, 0x38, 0x39];
    CrcOfBytes(digits, 0);
    FeedFirst(0xFFFF_FFFF, digits[0..], 0x7C23_1048);
    FeedFirst(0x7C23_1048, digits[1..], 0xB0AC_BB32);
    FeedFirst(0xB0AC_BB32, digits[2..], 0x77B7_9C2D);
    FeedFirst(0x77B7_9C2D, digits[3..], 0x641C_1F5C);
    FeedFirst(0x641C_1F5C, digits[4..], 0x340A_C5E3);
    FeedFirst(0x340A_C5E3, digits[5..], 0xF68D_2C9E);
    FeedFirst(0xF68D_2C9E, digits[6..], 0xAFFC_9660);
    FeedFirst(0xAFFC_9660, digits[7..], 0x651F_2550);
    FeedFirst(0x651F_2550, digits[8..], 0x340B_C6D9);
    assert forall i :: 0 <= i < 9 ==> digits[i..][1..] == digits[i + 1..];
    assert digits[0..] == digits && digits[9..] == [];
    NothingFed(0x340B_C6D9);
  }
}
