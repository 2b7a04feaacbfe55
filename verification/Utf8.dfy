/**
  UTF-8 as RFC 3629 defines it: the encoding of section 3, and the grammar of
  section 4 as a strict decoder. Code points are held in 32-bit registers.
 */
module Utf8 {
  import opened Options

  type CodePoint = bv32

  predicate IsSurrogate(c: CodePoint) {
    0xD800 <= c < 0xE000
  }

  /** A Unicode scalar value: any code point but a surrogate. */
  predicate IsScalar(c: CodePoint) {
    c < 0x110000 && !IsSurrogate(c)
  }

  predicate AllScalars(cs: seq<CodePoint>) {
    forall i :: 0 <= i < |cs| ==> IsScalar(cs[i])
  }

  // ---------- Section 3: encoding ----------

  /** How many bytes a code point takes. */
  function Size(c: CodePoint): (n: nat)
    ensures 1 <= n <= 4
  {
    if c < 0x80 then 1 else if c < 0x800 then 2 else if c < 0x10000 then 3 else 4
  }

  function Lead2(c: CodePoint): bv8
    requires c < 0x800
  {
    (0xC0 | (c >> 6)) as bv8
  }

  function Lead3(c: CodePoint): bv8
    requires c < 0x10000
  {
    (0xE0 | (c >> 12)) as bv8
  }

  function Lead4(c: CodePoint): bv8
    requires c < 0x110000
  {
    (0xF0 | (c >> 18)) as bv8
  }

  /** The continuation bytes that carry bits 0 to 5, 6 to 11 and 12 to 17. */
  function Tail0(c: CodePoint): bv8 {
    (0x80 | (c & 0x3F)) as bv8
  }

  function Tail6(c: CodePoint): bv8 {
    (0x80 | ((c >> 6) & 0x3F)) as bv8
  }

  function Tail12(c: CodePoint): bv8 {
    (0x80 | ((c >> 12) & 0x3F)) as bv8
  }

  function Encode(c: CodePoint): (bytes: seq<bv8>)
    requires c < 0x110000
    ensures |bytes| == Size(c)
  {
    if c < 0x80 then [c as bv8]
    else if c < 0x800 then [Lead2(c), Tail0(c)]
    else if c < 0x10000 then [Lead3(c), Tail6(c), Tail0(c)]
    else [Lead4(c), Tail12(c), Tail6(c), Tail0(c)]
  }

  function EncodeAll(cs: seq<CodePoint>): seq<bv8>
    requires AllScalars(cs)
  {
    if cs == [] then [] else Encode(cs[0]) + EncodeAll(cs[1..])
  }

  // ---------- Section 4: the grammar ----------

  predicate IsTail(b: bv8) {
    0x80 <= b <= 0xBF
  }

  predicate Two(b0: bv8, b1: bv8) {
    0xC2 <= b0 <= 0xDF && IsTail(b1)
  }

  predicate Three(b0: bv8, b1: bv8, b2: bv8) {
    && IsTail(b2)
    && (|| (b0 == 0xE0 && 0xA0 <= b1 <= 0xBF)
        || (0xE1 <= b0 <= 0xEC && IsTail(b1))
        || (b0 == 0xED && 0x80 <= b1 <= 0x9F)
        || (0xEE <= b0 <= 0xEF && IsTail(b1)))
  }

  predicate Four(b0: bv8, b1: bv8, b2: bv8, b3: bv8) {
    && IsTail(b2) && IsTail(b3)
    && (|| (b0 == 0xF0 && 0x90 <= b1 <= 0xBF)
        || (0xF1 <= b0 <= 0xF3 && IsTail(b1))
        || (b0 == 0xF4 && 0x80 <= b1 <= 0x8F))
  }

  /** The length of the character that the grammar reads off the front; 0 if none. */
  function FrontLength(b: seq<bv8>): (n: nat)
    ensures n <= 4 && n <= |b|
  {
    if |b| >= 1 && b[0] <= 0x7F then 1
    else if |b| >= 2 && Two(b[0], b[1]) then 2
    else if |b| >= 3 && Three(b[0], b[1], b[2]) then 3
    else if |b| >= 4 && Four(b[0], b[1], b[2], b[3]) then 4
    else 0
  }

  predicate Valid(b: seq<bv8>)
    decreases |b|
  {
    b == [] || (FrontLength(b) > 0 && Valid(b[FrontLength(b)..]))
  }

  /** The bits that a first byte carries. */
  function LowFive(b: bv8): bv32 {
    (b & 0x1F) as bv32
  }

  function LowFour(b: bv8): bv32 {
    (b & 0x0F) as bv32
  }

  function LowThree(b: bv8): bv32 {
    (b & 0x07) as bv32
  }

  /** The bits that a continuation byte carries. */
  function LowSix(b: bv8): bv32 {
    (b & 0x3F) as bv32
  }

  function Combine2(x: bv32, y: bv32): bv32 {
    (x << 6) | y
  }

  function Combine3(x: bv32, y: bv32, z: bv32): bv32 {
    (x << 12) | (y << 6) | z
  }

  function Combine4(w: bv32, x: bv32, y: bv32, z: bv32): bv32 {
    (w << 18) | (x << 12) | (y << 6) | z
  }

  function Value2(b0: bv8, b1: bv8): bv32 {
    Combine2(LowFive(b0), LowSix(b1))
  }

  function Value3(b0: bv8, b1: bv8, b2: bv8): bv32 {
    Combine3(LowFour(b0), LowSix(b1), LowSix(b2))
  }

  function Value4(b0: bv8, b1: bv8, b2: bv8, b3: bv8): bv32 {
    Combine4(LowThree(b0), LowSix(b1), LowSix(b2), LowSix(b3))
  }

  /** The code point whose bits a character of the grammar carries. */
  function FrontValue(b: seq<bv8>): CodePoint
    requires FrontLength(b) > 0
  {
    var n := FrontLength(b);
    if n == 1 then b[0] as bv32
    else if n == 2 then Value2(b[0], b[1])
    else if n == 3 then Value3(b[0], b[1], b[2])
    else Value4(b[0], b[1], b[2], b[3])
  }

  function Decode(b: seq<bv8>): Option<seq<CodePoint>>
    decreases |b|
  {
    if b == [] then Some([])
    else if FrontLength(b) == 0 then None
    else match Decode(b[FrontLength(b)..])
      case None => None
      case Some(rest) => Some([FrontValue(b)] + rest)
  }

  // ---------- Encoding and decoding are inverse ----------

  // The bit-level facts, on the expressions themselves.

  /** The bits of a code point from bit 6, 12 or 18 on, and six of them from bit 0, 6 or 12. */
  function From6(c: CodePoint): bv32 {
    c >> 6
  }

  function From12(c: CodePoint): bv32 {
    c >> 12
  }

  function From18(c: CodePoint): bv32 {
    c >> 18
  }

  function Six0(c: CodePoint): bv32 {
    c & 0x3F
  }

  function Six6(c: CodePoint): bv32 {
    (c >> 6) & 0x3F
  }

  function Six12(c: CodePoint): bv32 {
    (c >> 12) & 0x3F
  }

  lemma TailBits(x: bv32, b: bv8)
    requires b == (0x80 | (x & 0x3F)) as bv8
    ensures 0x80 <= b <= 0xBF && (b & 0x3F) as bv32 == x & 0x3F
    ensures b >= 0xA0 <==> x & 0x3F >= 0x20
    ensures b >= 0x90 <==> x & 0x3F >= 0x10
  {
  }

  lemma Tail0Bits(c: CodePoint)
    ensures IsTail(Tail0(c)) && LowSix(Tail0(c)) == Six0(c)
  {
    TailBits(c, Tail0(c));
  }

  lemma Tail6Bits(c: CodePoint)
    ensures IsTail(Tail6(c)) && LowSix(Tail6(c)) == Six6(c) && (Tail6(c) >= 0xA0 <==> Six6(c) >= 0x20)
  {
    TailBits(c >> 6, Tail6(c));
  }

  lemma Tail12Bits(c: CodePoint)
    ensures IsTail(Tail12(c)) && LowSix(Tail12(c)) == Six12(c) && (Tail12(c) >= 0x90 <==> Six12(c) >= 0x10)
  {
    TailBits(c >> 12, Tail12(c));
  }

  lemma LeadBits2(x: bv32, b: bv8)
    requires 2 <= x < 0x20 && b == (0xC0 | x) as bv8
    ensures 0xC2 <= b <= 0xDF && (b & 0x1F) as bv32 == x
  {
  }

  lemma LeadBits3(x: bv32, b: bv8)
    requires x < 0x10 && b == (0xE0 | x) as bv8
    ensures 0xE0 <= b <= 0xEF && (b & 0x0F) as bv32 == x && (b == 0xE0 <==> x == 0) && (b == 0xED <==> x == 0x0D)
  {
  }

  lemma LeadBits4(x: bv32, b: bv8)
    requires x < 5 && b == (0xF0 | x) as bv8
    ensures 0xF0 <= b <= 0xF4 && (b & 0x07) as bv32 == x && (b == 0xF0 <==> x == 0) && (b == 0xF4 <==> x == 4)
  {
  }

  lemma Join2(c: CodePoint)
    requires 0x80 <= c < 0x800
    ensures 2 <= From6(c) < 0x20 && Combine2(From6(c), Six0(c)) == c
  {
  }

  lemma Join3(c: CodePoint)
    requires 0x800 <= c < 0x10000
    ensures From12(c) < 0x10 && Combine3(From12(c), Six6(c), Six0(c)) == c
    ensures From12(c) == 0 ==> Six6(c) >= 0x20
    ensures From12(c) == 0x0D && Six6(c) >= 0x20 <==> IsSurrogate(c)
  {
  }

  lemma Join4(c: CodePoint)
    requires c < 0x110000
    ensures Combine4(From18(c), Six12(c), Six6(c), Six0(c)) == c
  {
  }

  lemma Lead4Range(c: CodePoint)
    requires 0x10000 <= c < 0x110000
    ensures From18(c) < 5
    ensures From18(c) == 0 ==> Six12(c) >= 0x10
    ensures From18(c) == 4 ==> Six12(c) < 0x10
  {
  }

  lemma Lead2Bits(c: CodePoint)
    requires 0x80 <= c < 0x800
    ensures 0xC2 <= Lead2(c) <= 0xDF && LowFive(Lead2(c)) == From6(c)
  {
    Join2(c);
    LeadBits2(c >> 6, Lead2(c));
  }

  lemma Lead3Bits(c: CodePoint)
    requires 0x800 <= c < 0x10000
    ensures 0xE0 <= Lead3(c) <= 0xEF && LowFour(Lead3(c)) == From12(c)
    ensures (Lead3(c) == 0xE0 <==> From12(c) == 0) && (Lead3(c) == 0xED <==> From12(c) == 0x0D)
  {
    Join3(c);
    LeadBits3(c >> 12, Lead3(c));
  }

  lemma Lead4Bits(c: CodePoint)
    requires 0x10000 <= c < 0x110000
    ensures 0xF0 <= Lead4(c) <= 0xF4 && LowThree(Lead4(c)) == From18(c)
    ensures (Lead4(c) == 0xF0 <==> From18(c) == 0) && (Lead4(c) == 0xF4 <==> From18(c) == 4)
  {
    Lead4Range(c);
    LeadBits4(c >> 18, Lead4(c));
  }

  lemma Bits1(c: CodePoint)
    requires c < 0x80
    ensures c as bv8 <= 0x7F && (c as bv8) as bv32 == c
  {
  }

  lemma Bits2(c: CodePoint)
    requires 0x80 <= c < 0x800
    ensures Two(Lead2(c), Tail0(c)) && Value2(Lead2(c), Tail0(c)) == c
  {
    hide Combine2, LowFive, From6, Six0, Tail0, LowSix, Lead2;
    Join2(c);
    Lead2Bits(c);
    Tail0Bits(c);
  }

  lemma Bits3(c: CodePoint)
    requires 0x800 <= c < 0x10000
    ensures var b0, b1, b2 := Lead3(c), Tail6(c), Tail0(c);
            && 0xE0 <= b0 < 0xF0
            && (Three(b0, b1, b2) <==> !IsSurrogate(c))
            && Value3(b0, b1, b2) == c
  {
    hide Combine3, LowFour, From12, Six6, Six0, Tail0, Tail6, LowSix, Lead3, IsSurrogate;
    Join3(c);
    Lead3Bits(c);
    Tail6Bits(c);
    Tail0Bits(c);
  }

  lemma Bits4(c: CodePoint)
    requires 0x10000 <= c < 0x110000
    ensures var b0, b1, b2, b3 := Lead4(c), Tail12(c), Tail6(c), Tail0(c);
            Four(b0, b1, b2, b3) && Value4(b0, b1, b2, b3) == c
  {
    hide Combine4, LowThree, From18, Six12, Six6, Six0, Tail0, Tail6, Tail12, LowSix, Lead4;
    Join4(c);
    Lead4Range(c);
    Lead4Bits(c);
    Tail12Bits(c);
    Tail6Bits(c);
    Tail0Bits(c);
  }

  lemma LeadRanges(b0: bv8, b1: bv8, b2: bv8, b3: bv8)
    ensures Two(b0, b1) ==> 0x7F < b0 < 0xE0
    ensures Three(b0, b1, b2) ==> 0xE0 <= b0 < 0xF0
    ensures Four(b0, b1, b2, b3) ==> 0xF0 <= b0
  {
  }

  lemma EncodeFront(c: CodePoint, rest: seq<bv8>)
    requires c < 0x110000
    ensures var b := Encode(c) + rest;
            if IsSurrogate(c) then FrontLength(b) == 0
            else FrontLength(b) == Size(c) && FrontValue(b) == c
  {
    hide Lead2, Lead3, Lead4, Tail0, Tail6, Tail12, Two, Three, Four, Value2, Value3, Value4;
    var b := Encode(c) + rest;
    var n := |b|;
    LeadRanges(b[0], if n > 1 then b[1] else 0, if n > 2 then b[2] else 0, if n > 3 then b[3] else 0);
    if c < 0x80 {
      Bits1(c);
    } else if c < 0x800 {
      Bits2(c);
    } else if c < 0x10000 {
      Bits3(c);
    } else {
      Bits4(c);
    }
  }

  /** Decoding undoes encoding, and encoding yields only valid UTF-8. */
  lemma {:induction false} RoundTrip(cs: seq<CodePoint>)
    requires AllScalars(cs)
    ensures Decode(EncodeAll(cs)) == Some(cs)
    ensures Valid(EncodeAll(cs))
    decreases |cs|
  {
    hide Encode, FrontLength, FrontValue;
    if cs != [] {
      var c, rest := cs[0], EncodeAll(cs[1..]);
      assert IsScalar(c);
      ScalarFront(c, rest);
      var b := Encode(c) + rest;
      assert b[Size(c)..] == rest;
      RoundTrip(cs[1..]);
      assert [c] + cs[1..] == cs;
    }
  }

  lemma ScalarFront(c: CodePoint, rest: seq<bv8>)
    requires IsScalar(c)
    ensures var b := Encode(c) + rest;
            |Encode(c)| == FrontLength(b) == Size(c) && FrontValue(b) == c
  {
    hide Encode, FrontLength, FrontValue;
    EncodeFront(c, rest);
  }

  // ---------- Every character of the grammar is an encoding ----------

  lemma TailBack(b: bv8)
    requires IsTail(b)
    ensures LowSix(b) < 0x40
    ensures b >= 0xA0 <==> LowSix(b) >= 0x20
    ensures b >= 0x90 <==> LowSix(b) >= 0x10
  {
  }

  lemma LeadBack2(b: bv8)
    requires 0xC2 <= b <= 0xDF
    ensures 2 <= LowFive(b) < 0x20
  {
  }

  lemma LeadBack3(b: bv8)
    requires 0xE0 <= b <= 0xEF
    ensures LowFour(b) < 0x10 && (b == 0xE0 <==> LowFour(b) == 0) && (b == 0xED <==> LowFour(b) == 0x0D)
  {
  }

  lemma LeadBack4(b: bv8)
    requires 0xF0 <= b <= 0xF4
    ensures LowThree(b) < 5 && (b == 0xF0 <==> LowThree(b) == 0) && (b == 0xF4 <==> LowThree(b) == 4)
  {
  }

  lemma Split2(x: bv32, y: bv32)
    requires 2 <= x < 0x20 && y < 0x40
    ensures var c := Combine2(x, y); 0x80 <= c < 0x800 && From6(c) == x && Six0(c) == y
  {
  }

  lemma Split3(x: bv32, y: bv32, z: bv32)
    requires x < 0x10 && y < 0x40 && z < 0x40
    ensures var c := Combine3(x, y, z); c < 0x10000 && From12(c) == x && Six6(c) == y && Six0(c) == z
  {
  }

  lemma Range3(x: bv32, y: bv32, z: bv32)
    requires x < 0x10 && y < 0x40 && z < 0x40 && (x == 0 ==> y >= 0x20)
    ensures 0x800 <= Combine3(x, y, z)
  {
  }

  lemma Split4(w: bv32, x: bv32, y: bv32, z: bv32)
    requires w < 5 && x < 0x40 && y < 0x40 && z < 0x40 && (w == 0 ==> x >= 0x10) && (w == 4 ==> x < 0x10)
    ensures var c := Combine4(w, x, y, z);
            0x10000 <= c < 0x110000 && From18(c) == w && Six12(c) == x && Six6(c) == y && Six0(c) == z
  {
  }

  /** A byte is determined by its range and the bits that it carries. */
  lemma SameTail(b: bv8, t: bv8)
    requires IsTail(b) && IsTail(t) && LowSix(b) == LowSix(t)
    ensures b == t
  {
  }

  lemma SameLead2(b: bv8, t: bv8)
    requires 0xC0 <= b <= 0xDF && 0xC0 <= t <= 0xDF && LowFive(b) == LowFive(t)
    ensures b == t
  {
  }

  lemma SameLead3(b: bv8, t: bv8)
    requires 0xE0 <= b <= 0xEF && 0xE0 <= t <= 0xEF && LowFour(b) == LowFour(t)
    ensures b == t
  {
  }

  lemma SameLead4(b: bv8, t: bv8)
    requires 0xF0 <= b <= 0xF7 && 0xF0 <= t <= 0xF7 && LowThree(b) == LowThree(t)
    ensures b == t
  {
  }

  lemma Back2(b0: bv8, b1: bv8)
    requires Two(b0, b1)
    ensures var c := Value2(b0, b1); 0x80 <= c < 0x800 && Lead2(c) == b0 && Tail0(c) == b1
  {
    hide Combine2, LowFive, From6, Six0, Tail0, LowSix, Lead2;
    var c := Value2(b0, b1);
    LeadBack2(b0);
    TailBack(b1);
    Split2(LowFive(b0), LowSix(b1));
    Lead2Bits(c);
    SameLead2(b0, Lead2(c));
    Tail0Bits(c);
    SameTail(b1, Tail0(c));
  }

  lemma Back3(b0: bv8, b1: bv8, b2: bv8)
    requires Three(b0, b1, b2)
    ensures var c := Value3(b0, b1, b2);
            0x800 <= c < 0x10000 && !IsSurrogate(c) && Lead3(c) == b0 && Tail6(c) == b1 && Tail0(c) == b2
  {
    hide Combine3, LowFour, From12, Six6, Six0, Tail0, Tail6, LowSix, Lead3, IsSurrogate;
    var c := Value3(b0, b1, b2);
    LeadBack3(b0);
    TailBack(b1);
    TailBack(b2);
    Split3(LowFour(b0), LowSix(b1), LowSix(b2));
    Range3(LowFour(b0), LowSix(b1), LowSix(b2));
    Join3(c);
    Lead3Bits(c);
    SameLead3(b0, Lead3(c));
    Tail6Bits(c);
    SameTail(b1, Tail6(c));
    Tail0Bits(c);
    SameTail(b2, Tail0(c));
  }

  lemma Back4(b0: bv8, b1: bv8, b2: bv8, b3: bv8)
    requires Four(b0, b1, b2, b3)
    ensures var c := Value4(b0, b1, b2, b3);
            0x10000 <= c < 0x110000 && Lead4(c) == b0 && Tail12(c) == b1 && Tail6(c) == b2 && Tail0(c) == b3
  {
    hide Combine4, LowThree, From18, Six12, Six6, Six0, Tail0, Tail6, Tail12, LowSix, Lead4;
    var c := Value4(b0, b1, b2, b3);
    LeadBack4(b0);
    TailBack(b1);
    TailBack(b2);
    TailBack(b3);
    Split4(LowThree(b0), LowSix(b1), LowSix(b2), LowSix(b3));
    Lead4Bits(c);
    SameLead4(b0, Lead4(c));
    Tail12Bits(c);
    SameTail(b1, Tail12(c));
    Tail6Bits(c);
    SameTail(b2, Tail6(c));
    Tail0Bits(c);
    SameTail(b3, Tail0(c));
  }

  lemma Back1(b: bv8)
    requires b <= 0x7F
    ensures (b as bv32) < 0x80 && (b as bv32) as bv8 == b
  {
  }

  /** The character at the front is the encoding of a scalar, the one that the decoder reads. */
  lemma FrontEncodes(b: seq<bv8>)
    requires FrontLength(b) > 0
    ensures IsScalar(FrontValue(b)) && Encode(FrontValue(b)) == b[..FrontLength(b)]
  {
    hide Lead2, Lead3, Lead4, Tail0, Tail6, Tail12, Two, Three, Four, Value2, Value3, Value4;
    match FrontLength(b)
    case 1 => Back1(b[0]);
    case 2 => Back2(b[0], b[1]);
    case 3 => Back3(b[0], b[1], b[2]);
    case _ => Back4(b[0], b[1], b[2], b[3]);
  }

  /** What is decoded are scalars, and encoding them gives the bytes back. */
  lemma {:induction false} DecodeEncodes(b: seq<bv8>)
    requires Decode(b).Some?
    ensures AllScalars(Decode(b).value) && EncodeAll(Decode(b).value) == b
    decreases |b|
  {
    hide Encode, EncodeAll, AllScalars, FrontLength, FrontValue, IsScalar;
    var n := FrontLength(b);
    if b == [] {
      EncodeNone();
    } else {
      FrontEncodes(b);
      DecodeEncodes(b[n..]);
      EncodeFirst(FrontValue(b), Decode(b[n..]).value);
      assert b == b[..n] + b[n..];
    }
  }

  lemma EncodeNone()
    ensures AllScalars([]) && EncodeAll([]) == []
  {
  }

  lemma EncodeFirst(c: CodePoint, rest: seq<CodePoint>)
    requires IsScalar(c) && AllScalars(rest)
    ensures AllScalars([c] + rest) && EncodeAll([c] + rest) == Encode(c) + EncodeAll(rest)
  {
    hide Encode, IsScalar;
    assert ([c] + rest)[1..] == rest;
  }

  lemma {:induction false} DecodeAcceptsValid(b: seq<bv8>)
    ensures Decode(b).Some? <==> Valid(b)
    decreases |b|
  {
    hide FrontLength, FrontValue;
    if b != [] && FrontLength(b) > 0 {
      DecodeAcceptsValid(b[FrontLength(b)..]);
    }
  }

  /** The grammar is exactly the image of the encoder, and the decoder its inverse there. */
  lemma ValidIsEncoded(b: seq<bv8>, cs: seq<CodePoint>)
    ensures Decode(b) == Some(cs) <==> AllScalars(cs) && EncodeAll(cs) == b
    ensures Valid(b) <==> Decode(b).Some?
  {
    hide EncodeAll, AllScalars, Decode, Valid;
    DecodeAcceptsValid(b);
    if Decode(b).Some? {
      DecodeEncodes(b);
    }
    if AllScalars(cs) && EncodeAll(cs) == b {
      RoundTrip(cs);
    }
  }

  // ---------- Section 1: the order is kept ----------

  predicate Less(c: CodePoint, d: CodePoint) {
    c < d
  }

  predicate LessByte(a: bv8, b: bv8) {
    a < b
  }

  /** `a` comes before `b` byte by byte. */
  predicate Before(a: seq<bv8>, b: seq<bv8>)
    decreases |a|
  {
    b != [] && (a == [] || LessByte(a[0], b[0]) || (a[0] == b[0] && Before(a[1..], b[1..])))
  }

  /** The same of sequences with a first byte. */
  lemma BeforeStep(x: bv8, a: seq<bv8>, y: bv8, b: seq<bv8>)
    ensures Before([x] + a, [y] + b) <==> LessByte(x, y) || (x == y && Before(a, b))
  {
    hide LessByte;
    assert ([x] + a)[1..] == a && ([y] + b)[1..] == b;
  }

  lemma NothingBefore()
    ensures !Before([], [])
  {
  }

  // A code point is less if it is less from bit 6 on, or the same there and less below.

  lemma LessAbove(c: CodePoint, d: CodePoint)
    ensures Less(From6(c), From6(d)) ==> Less(c, d)
  {
  }

  lemma LessBelow(c: CodePoint, d: CodePoint)
    ensures From6(c) == From6(d) && Less(Six0(c), Six0(d)) ==> Less(c, d)
  {
  }

  lemma SixOfShifted(c: CodePoint)
    ensures Six6(c) == Six0(From6(c)) && Six12(c) == Six0(From12(c))
    ensures From12(c) == From6(From6(c)) && From18(c) == From6(From12(c))
  {
  }

  lemma FieldsEqual(c: CodePoint, d: CodePoint)
    ensures From6(c) == From6(d) && Six0(c) == Six0(d) ==> c == d
  {
  }

  lemma TailOrder(x: bv32, y: bv32)
    ensures LessByte((0x80 | (x & 0x3F)) as bv8, (0x80 | (y & 0x3F)) as bv8) ==> x & 0x3F < y & 0x3F
  {
  }

  lemma Tail0Order(c: CodePoint, d: CodePoint)
    ensures LessByte(Tail0(c), Tail0(d)) ==> Less(Six0(c), Six0(d))
    ensures Tail0(c) == Tail0(d) ==> Six0(c) == Six0(d)
  {
    hide LessByte;
    TailOrder(c, d);
    Tail0Bits(c);
    Tail0Bits(d);
  }

  lemma Tail6Order(c: CodePoint, d: CodePoint)
    ensures LessByte(Tail6(c), Tail6(d)) ==> Less(Six6(c), Six6(d))
    ensures Tail6(c) == Tail6(d) ==> Six6(c) == Six6(d)
  {
    hide LessByte;
    TailOrder(c >> 6, d >> 6);
    Tail6Bits(c);
    Tail6Bits(d);
  }

  lemma Tail12Order(c: CodePoint, d: CodePoint)
    ensures LessByte(Tail12(c), Tail12(d)) ==> Less(Six12(c), Six12(d))
    ensures Tail12(c) == Tail12(d) ==> Six12(c) == Six12(d)
  {
    hide LessByte;
    TailOrder(c >> 12, d >> 12);
    Tail12Bits(c);
    Tail12Bits(d);
  }

  lemma Lead2Order(c: CodePoint, d: CodePoint)
    requires c < 0x800 && d < 0x800
    ensures LessByte(Lead2(c), Lead2(d)) ==> Less(From6(c), From6(d))
    ensures Lead2(c) == Lead2(d) ==> From6(c) == From6(d)
  {
  }

  lemma Lead3Order(c: CodePoint, d: CodePoint)
    requires c < 0x10000 && d < 0x10000
    ensures LessByte(Lead3(c), Lead3(d)) ==> Less(From12(c), From12(d))
    ensures Lead3(c) == Lead3(d) ==> From12(c) == From12(d)
  {
  }

  lemma Lead4Order(c: CodePoint, d: CodePoint)
    requires c < 0x110000 && d < 0x110000
    ensures LessByte(Lead4(c), Lead4(d)) ==> Less(From18(c), From18(d))
    ensures Lead4(c) == Lead4(d) ==> From18(c) == From18(d)
  {
  }

  lemma TwoOrdered(c: CodePoint, d: CodePoint)
    requires c < 0x800 && d < 0x800
    ensures Before([Lead2(c)] + ([Tail0(c)] + []), [Lead2(d)] + ([Tail0(d)] + [])) ==> Less(c, d)
  {
    hide Less, LessByte, Lead2, Tail0, From6, Six0, Before;
    BeforeStep(Lead2(c), [Tail0(c)] + [], Lead2(d), [Tail0(d)] + []);
    BeforeStep(Tail0(c), [], Tail0(d), []);
    NothingBefore();
    Lead2Order(c, d);
    Tail0Order(c, d);
    LessAbove(c, d);
    LessBelow(c, d);
  }

  /** The two continuation bytes below bit 12. */
  lemma TailsOrdered(c: CodePoint, d: CodePoint)
    requires From12(c) == From12(d)
    ensures Before([Tail6(c)] + ([Tail0(c)] + []), [Tail6(d)] + ([Tail0(d)] + [])) ==> Less(c, d)
  {
    hide Less, LessByte, Tail6, Tail0, From6, From12, Six0, Six6, Before;
    BeforeStep(Tail6(c), [Tail0(c)] + [], Tail6(d), [Tail0(d)] + []);
    BeforeStep(Tail0(c), [], Tail0(d), []);
    NothingBefore();
    SixOfShifted(c);
    SixOfShifted(d);
    Tail6Order(c, d);
    Tail0Order(c, d);
    LessBelow(From6(c), From6(d));
    FieldsEqual(From6(c), From6(d));
    LessAbove(c, d);
    LessBelow(c, d);
  }

  lemma UpperOrder(c: CodePoint, d: CodePoint)
    ensures Less(From12(c), From12(d)) ==> Less(c, d)
  {
    hide Less, From6, From12;
    SixOfShifted(c);
    SixOfShifted(d);
    LessAbove(From6(c), From6(d));
    LessAbove(c, d);
  }

  lemma ThreeOrdered(c: CodePoint, d: CodePoint)
    requires c < 0x10000 && d < 0x10000
    ensures Before([Lead3(c)] + ([Tail6(c)] + ([Tail0(c)] + [])), [Lead3(d)] + ([Tail6(d)] + ([Tail0(d)] + []))) ==> Less(c, d)
  {
    hide Less, LessByte, Lead3, Tail6, Tail0, From12, Before;
    BeforeStep(Lead3(c), [Tail6(c)] + ([Tail0(c)] + []), Lead3(d), [Tail6(d)] + ([Tail0(d)] + []));
    Lead3Order(c, d);
    UpperOrder(c, d);
    if From12(c) == From12(d) {
      TailsOrdered(c, d);
    }
  }

  lemma FourOrdered(c: CodePoint, d: CodePoint)
    requires c < 0x110000 && d < 0x110000
    ensures var a, b := [Tail6(c)] + ([Tail0(c)] + []), [Tail6(d)] + ([Tail0(d)] + []);
            Before([Lead4(c)] + ([Tail12(c)] + a), [Lead4(d)] + ([Tail12(d)] + b)) ==> Less(c, d)
  {
    hide Less, LessByte, Lead4, Tail12, Tail6, Tail0, From12, From18, Six12, Before;
    var a, b := [Tail6(c)] + ([Tail0(c)] + []), [Tail6(d)] + ([Tail0(d)] + []);
    BeforeStep(Lead4(c), [Tail12(c)] + a, Lead4(d), [Tail12(d)] + b);
    BeforeStep(Tail12(c), a, Tail12(d), b);
    SixOfShifted(c);
    SixOfShifted(d);
    Lead4Order(c, d);
    Tail12Order(c, d);
    UpperOrder(c, d);
    LessAbove(From12(c), From12(d));
    LessBelow(From12(c), From12(d));
    FieldsEqual(From12(c), From12(d));
    if From12(c) == From12(d) {
      TailsOrdered(c, d);
    }
  }

  lemma LeadsApart(c: CodePoint)
    requires c < 0x110000
    ensures c < 0x80 ==> c as bv8 < 0x80
    ensures 0x80 <= c < 0x800 ==> 0xC0 <= Lead2(c) < 0xE0
    ensures 0x800 <= c < 0x10000 ==> 0xE0 <= Lead3(c) < 0xF0
    ensures 0x10000 <= c ==> 0xF0 <= Lead4(c)
  {
  }

  lemma OneOrdered(c: CodePoint, d: CodePoint)
    requires c < 0x80 && d < 0x80
    ensures LessByte(c as bv8, d as bv8) ==> Less(c, d)
    ensures c as bv8 == d as bv8 ==> c == d
  {
  }

  /** Encodings of different length differ in their first byte. */
  lemma SizesOrdered(c: CodePoint, d: CodePoint)
    requires c < 0x110000 && d < 0x110000 && Size(c) != Size(d)
    ensures Encode(c)[0] != Encode(d)[0] && (LessByte(Encode(c)[0], Encode(d)[0]) ==> Less(c, d))
  {
    hide Lead2, Lead3, Lead4, Tail0, Tail6, Tail12;
    LeadsApart(c);
    LeadsApart(d);
  }

  lemma Spelled(c: CodePoint)
    requires c < 0x110000
    ensures Encode(c) == match Size(c)
                         case 1 => [c as bv8] + []
                         case 2 => [Lead2(c)] + ([Tail0(c)] + [])
                         case 3 => [Lead3(c)] + ([Tail6(c)] + ([Tail0(c)] + []))
                         case _ => [Lead4(c)] + ([Tail12(c)] + ([Tail6(c)] + ([Tail0(c)] + [])))
  {
    hide Lead2, Lead3, Lead4, Tail0, Tail6, Tail12;
  }

  lemma OrderOfCodePoints(c: CodePoint, d: CodePoint)
    requires c < 0x110000 && d < 0x110000
    ensures Before(Encode(c), Encode(d)) ==> Less(c, d)
  {
    hide Less, LessByte, Lead2, Lead3, Lead4, Tail0, Tail6, Tail12, Before;
    Spelled(c);
    Spelled(d);
    if Size(c) != Size(d) {
      SizesOrdered(c, d);
      BeforeStep(Encode(c)[0], Encode(c)[1..], Encode(d)[0], Encode(d)[1..]);
      assert Encode(c) == [Encode(c)[0]] + Encode(c)[1..] && Encode(d) == [Encode(d)[0]] + Encode(d)[1..];
    } else if Size(d) == 1 {
      OneOrdered(c, d);
      BeforeStep(c as bv8, [], d as bv8, []);
      NothingBefore();
    } else if Size(d) == 2 {
      TwoOrdered(c, d);
    } else if Size(d) == 3 {
      ThreeOrdered(c, d);
    } else {
      FourOrdered(c, d);
    }
  }

  lemma {:induction false} BeforeTotal(a: seq<bv8>, b: seq<bv8>)
    ensures a == b || Before(a, b) || Before(b, a)
    decreases |a|
  {
    hide LessByte;
    if a != [] && b != [] {
      ByteTotal(a[0], b[0]);
      BeforeTotal(a[1..], b[1..]);
      assert a == [a[0]] + a[1..] && b == [b[0]] + b[1..];
    }
  }

  lemma ByteTotal(x: bv8, y: bv8)
    ensures x == y || LessByte(x, y) || LessByte(y, x)
  {
  }

  lemma NotBoth(c: CodePoint, d: CodePoint)
    requires Less(c, d)
    ensures c != d && !Less(d, c)
  {
  }

  lemma SameFirst(c: CodePoint, d: CodePoint)
    requires c < 0x110000 && d < 0x110000 && Encode(c) == Encode(d)
    ensures Size(c) == Size(d)
  {
    hide Encode, Less, LessByte;
    if Size(c) != Size(d) {
      SizesOrdered(c, d);
    }
  }

  lemma SameEncoding(c: CodePoint, d: CodePoint)
    requires c < 0x110000 && d < 0x110000 && Encode(c) == Encode(d)
    ensures c == d
  {
    hide Lead2, Lead3, Lead4, Tail0, Tail6, Tail12, From6, From12, From18, Six0, Six6, Six12, Less, LessByte;
    SameFirst(c, d);
    SixOfShifted(c);
    SixOfShifted(d);
    if Size(c) == 1 {
      OneOrdered(c, d);
    } else {
      Tail0Order(c, d);
      Tail6Order(c, d);
      Tail12Order(c, d);
      FieldsEqual(c, d);
      FieldsEqual(From6(c), From6(d));
      FieldsEqual(From12(c), From12(d));
      if Size(c) == 2 {
        Lead2Order(c, d);
      } else if Size(c) == 3 {
        Lead3Order(c, d);
      } else {
        Lead4Order(c, d);
      }
    }
  }

  /**
    Encodings sort byte by byte exactly as their code points do. With the grammar, whose
    characters are exactly the encodings of scalars, this leaves only one encoding possible.
   */
  lemma OrderKept(c: CodePoint, d: CodePoint)
    requires c < 0x110000 && d < 0x110000
    ensures Before(Encode(c), Encode(d)) <==> c < d
  {
    hide Encode, Before;
    OrderOfCodePoints(c, d);
    if Less(c, d) {
      NotBoth(c, d);
      OrderOfCodePoints(d, c);
      BeforeTotal(Encode(c), Encode(d));
      if Encode(c) == Encode(d) {
        SameEncoding(c, d);
      }
    }
  }
}
