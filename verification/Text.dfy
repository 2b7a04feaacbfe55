/**
  JavaScript strings as sequences of UTF-16 code units, and the two ways the
  sharding scripts turn them into UTF-8: `textToArrayBuffer` in `sharding.js` and
  the bytes that `crc32_str` feeds to its register one by one.
 */
module Text {
  import opened Options
  import opened Utf8

  type CodeUnit = bv16

  predicate IsHigh(u: CodeUnit) {
    0xD800 <= u < 0xDC00
  }

  predicate IsLow(u: CodeUnit) {
    0xDC00 <= u < 0xE000
  }

  /** Every surrogate belongs to a pair (section 2.1 of RFC 2781). */
  predicate WellFormed(s: seq<CodeUnit>)
    decreases |s|
  {
    if s == [] then true
    else if IsHigh(s[0]) then |s| >= 2 && IsLow(s[1]) && WellFormed(s[2..])
    else !IsLow(s[0]) && WellFormed(s[1..])
  }

  /** A code unit on its own as a code point. */
  function Unit(u: CodeUnit): CodePoint {
    u as bv32
  }

  /** The ten bits that a surrogate carries. */
  function TenBits(u: CodeUnit): bv32 {
    (u & 1023) as bv32
  }

  function CombinePair(x: bv32, y: bv32): CodePoint {
    0x10000 + ((x << 10) | y)
  }

  function Pair(high: CodeUnit, low: CodeUnit): CodePoint {
    CombinePair(TenBits(high), TenBits(low))
  }

  /** `String.prototype.codePointAt`: an unpaired surrogate stands for itself. */
  function CodePointAt(s: seq<CodeUnit>, j: nat): CodePoint
    requires j < |s|
  {
    if IsHigh(s[j]) && j + 1 < |s| && IsLow(s[j + 1]) then Pair(s[j], s[j + 1]) else Unit(s[j])
  }

  lemma PairRange(high: CodeUnit, low: CodeUnit)
    ensures 0x10000 <= Pair(high, low) < 0x110000
  {
  }

  lemma CodePointRange(s: seq<CodeUnit>, j: nat)
    requires j < |s|
    ensures CodePointAt(s, j) < 0x110000
    ensures CodePointAt(s, j) >= 0x10000 ==> IsHigh(s[j]) && j + 1 < |s| && IsLow(s[j + 1])
    ensures CodePointAt(s, j) >= 0x10000 ==> CodePointAt(s, j) == Pair(s[j], s[j + 1])
    ensures CodePointAt(s, j) < 0x10000 ==> CodePointAt(s, j) == Unit(s[j])
    ensures CodePointAt(s, j) < 0x10000 ==> !(IsHigh(s[j]) && j + 1 < |s| && IsLow(s[j + 1]))
  {
    hide Pair;
    if IsHigh(s[j]) && j + 1 < |s| && IsLow(s[j + 1]) {
      PairRange(s[j], s[j + 1]);
    }
  }

  /** How many code units the code point at `j` takes. */
  function Width(s: seq<CodeUnit>, j: nat): nat
    requires j < |s|
  {
    if IsHigh(s[j]) && j + 1 < |s| && IsLow(s[j + 1]) then 2 else 1
  }

  /** The code points of a string, unpaired surrogates included. */
  function CodePoints(s: seq<CodeUnit>): seq<CodePoint>
    decreases |s|
  {
    if s == [] then [] else [CodePointAt(s, 0)] + CodePoints(s[Width(s, 0)..])
  }

  /** What `textToArrayBuffer` produces: every code point encoded on its own. */
  function TextBytes(s: seq<CodeUnit>): seq<bv8>
    decreases |s|
  {
    if s == [] then []
    else
      CodePointRange(s, 0);
      Encode(CodePointAt(s, 0)) + TextBytes(s[Width(s, 0)..])
  }

  method TextToArrayBuffer(s: seq<CodeUnit>) returns (ba: seq<bv8>)
    ensures ba == TextBytes(s)
  {
    hide Encode, CodePointAt, Width;
    ba := [];
    var j := 0;
    while j < |s|
      invariant 0 <= j <= |s|
      invariant TextBytes(s) == ba + TextBytes(s[j..])
    {
      var c := CodePointAt(s, j);
      StepOfText(s, j);
      ba := AppendCodePoint(ba, c);
      j := if c < 65536 then j + 1 else j + 2;
    }
  }

  /** The writes `ba[n++] = ...` of one turn of the loop. */
  method AppendCodePoint(ba: seq<bv8>, c: CodePoint) returns (out: seq<bv8>)
    requires c < 0x110000
    ensures out == ba + Encode(c)
  {
    hide Encode;
    out := ba;
    EncodedBytes(c);
    if c < 128 {
      out := out + [c as bv8];
    } else if c > 127 && c < 2048 {
      out := out + [((c >> 6) | 192) as bv8];
      out := out + [((c & 63) | 128) as bv8];
    } else if c > 2047 && c < 65536 {
      out := out + [((c >> 12) | 224) as bv8];
      out := out + [(((c >> 6) & 63) | 128) as bv8];
      out := out + [((c & 63) | 128) as bv8];
    } else {
      out := out + [((c >> 18) | 240) as bv8];
      out := out + [(((c >> 12) & 63) | 128) as bv8];
      out := out + [(((c >> 6) & 63) | 128) as bv8];
      out := out + [((c & 63) | 128) as bv8];
    }
  }

  lemma EncodedBytes(c: CodePoint)
    requires c < 0x110000
    ensures c < 128 ==> Encode(c) == [c as bv8]
    ensures 128 <= c < 2048 ==> Encode(c) == [((c >> 6) | 192) as bv8, ((c & 63) | 128) as bv8]
    ensures 2048 <= c < 65536 ==>
              Encode(c) == [((c >> 12) | 224) as bv8, (((c >> 6) & 63) | 128) as bv8, ((c & 63) | 128) as bv8]
    ensures 65536 <= c ==>
              Encode(c) == [((c >> 18) | 240) as bv8, (((c >> 12) & 63) | 128) as bv8,
                            (((c >> 6) & 63) | 128) as bv8, ((c & 63) | 128) as bv8]
  {
  }

  lemma StepOfText(s: seq<CodeUnit>, j: nat)
    requires j < |s|
    ensures CodePointAt(s, j) < 0x110000
    ensures var w := if CodePointAt(s, j) < 0x10000 then 1 else 2;
            j + w <= |s| && TextBytes(s[j..]) == Encode(CodePointAt(s, j)) + TextBytes(s[j + w..])
  {
    hide Encode, Pair;
    CodePointRange(s, j);
    var t := s[j..];
    CodePointRange(t, 0);
    assert CodePointAt(t, 0) == CodePointAt(s, j) && Width(t, 0) == Width(s, j);
    assert t[Width(t, 0)..] == s[j + Width(s, j)..];
  }

  // ---------- What textToArrayBuffer promises ----------

  lemma FrontOfWellFormed(s: seq<CodeUnit>)
    requires s != []
    ensures CodePointAt(s, 0) < 0x110000
    ensures WellFormed(s) <==> !IsSurrogate(CodePointAt(s, 0)) && WellFormed(s[Width(s, 0)..])
  {
    hide Pair, Unit, IsSurrogate, IsHigh, IsLow;
    CodePointRange(s, 0);
    UnitKind(s[0]);
    if Width(s, 0) == 2 {
      PairIsScalar(s[0], s[1]);
    }
  }

  lemma PairIsScalar(high: CodeUnit, low: CodeUnit)
    ensures !IsSurrogate(Pair(high, low))
  {
    hide Pair;
    PairRange(high, low);
  }

  lemma UnitKind(u: CodeUnit)
    ensures IsSurrogate(Unit(u)) <==> IsHigh(u) || IsLow(u)
    ensures !(IsHigh(u) && IsLow(u))
  {
  }

  /** The bytes are valid UTF-8 exactly when the string is well-formed UTF-16. */
  lemma {:induction false} TextBytesValid(s: seq<CodeUnit>)
    ensures Valid(TextBytes(s)) <==> WellFormed(s)
    decreases |s|
  {
    hide Encode, CodePointAt, FrontLength;
    if s != [] {
      FrontOfWellFormed(s);
      var c, rest := CodePointAt(s, 0), TextBytes(s[Width(s, 0)..]);
      var b := Encode(c) + rest;
      assert TextBytes(s) == b;
      EncodeFront(c, rest);
      assert b[Size(c)..] == rest;
      TextBytesValid(s[Width(s, 0)..]);
    }
  }

  /** The code units of a code point (section 2.1 of RFC 2781). */
  function Units(c: CodePoint): seq<CodeUnit>
    requires c < 0x110000
  {
    if c < 0x10000 then [c as bv16]
    else [(0xD800 | ((c - 0x10000) >> 10)) as bv16, (0xDC00 | (c & 0x3FF)) as bv16]
  }

  function UnitsAll(cs: seq<CodePoint>): seq<CodeUnit>
    requires forall i :: 0 <= i < |cs| ==> cs[i] < 0x110000
  {
    if cs == [] then [] else Units(cs[0]) + UnitsAll(cs[1..])
  }

  lemma PairParts(x: bv32, y: bv32)
    requires x < 0x400 && y < 0x400
    ensures var c := CombinePair(x, y); 0x10000 <= c < 0x110000 && (c - 0x10000) >> 10 == x && c & 0x3FF == y
  {
  }

  lemma HighUnit(high: CodeUnit)
    requires IsHigh(high)
    ensures TenBits(high) < 0x400 && (0xD800 | TenBits(high)) as bv16 == high
  {
  }

  lemma LowUnit(low: CodeUnit)
    requires IsLow(low)
    ensures TenBits(low) < 0x400 && (0xDC00 | TenBits(low)) as bv16 == low
  {
  }

  lemma UnitsOfPair(high: CodeUnit, low: CodeUnit)
    requires IsHigh(high) && IsLow(low)
    ensures 0x10000 <= Pair(high, low) < 0x110000 && Units(Pair(high, low)) == [high, low]
  {
    hide CombinePair, TenBits, IsHigh, IsLow;
    HighUnit(high);
    LowUnit(low);
    PairParts(TenBits(high), TenBits(low));
  }

  lemma {:induction false} CodePointsUndone(s: seq<CodeUnit>)
    ensures forall i :: 0 <= i < |CodePoints(s)| ==> CodePoints(s)[i] < 0x110000
    ensures UnitsAll(CodePoints(s)) == s
    decreases |s|
  {
    hide Pair, Units;
    if s != [] {
      var c, w := CodePointAt(s, 0), Width(s, 0);
      CodePointRange(s, 0);
      CodePointsUndone(s[w..]);
      assert CodePoints(s)[1..] == CodePoints(s[w..]);
      assert Units(c) == s[..w] by {
        if w == 2 {
          UnitsOfPair(s[0], s[1]);
        } else {
          UnitsOfOne(s[0]);
        }
      }
    }
  }

  lemma UnitsOfOne(u: CodeUnit)
    ensures Units(Unit(u)) == [u]
  {
  }

  lemma {:induction false} TextIsEncoding(s: seq<CodeUnit>)
    requires WellFormed(s)
    ensures AllScalars(CodePoints(s)) && TextBytes(s) == EncodeAll(CodePoints(s))
    decreases |s|
  {
    hide Encode, CodePointAt;
    if s != [] {
      FrontOfWellFormed(s);
      TextIsEncoding(s[Width(s, 0)..]);
      assert CodePoints(s)[1..] == CodePoints(s[Width(s, 0)..]);
    }
  }

  lemma ScalarsAreSmall(cs: seq<CodePoint>)
    requires AllScalars(cs)
    ensures forall i :: 0 <= i < |cs| ==> cs[i] < 0x110000
  {
  }

  /** A UTF-8 decoder followed by a UTF-16 encoder. */
  function TextOfBytes(b: seq<bv8>): Option<seq<CodeUnit>> {
    match Decode(b)
    case None => None
    case Some(cs) =>
      DecodeEncodes(b);
      ScalarsAreSmall(cs);
      Some(UnitsAll(cs))
  }

  /** Every well-formed string comes back from its bytes. */
  lemma TextRoundTrip(s: seq<CodeUnit>)
    requires WellFormed(s)
    ensures TextOfBytes(TextBytes(s)) == Some(s)
  {
    TextIsEncoding(s);
    RoundTrip(CodePoints(s));
    CodePointsUndone(s);
  }

  function UpperTen(c: CodePoint): bv32 {
    (c - 0x10000) >> 10
  }

  function LowerTen(c: CodePoint): bv32 {
    c & 0x3FF
  }

  lemma HighBits(c: CodePoint, high: CodeUnit)
    requires UpperTen(c) < 0x400 && high == (0xD800 | ((c - 0x10000) >> 10)) as bv16
    ensures IsHigh(high) && TenBits(high) == UpperTen(c)
  {
  }

  lemma LowBits(c: CodePoint, low: CodeUnit)
    requires low == (0xDC00 | (c & 0x3FF)) as bv16
    ensures IsLow(low) && TenBits(low) == LowerTen(c)
  {
  }

  lemma TenAndTen(c: CodePoint)
    requires 0x10000 <= c < 0x110000
    ensures UpperTen(c) < 0x400 && CombinePair(UpperTen(c), LowerTen(c)) == c
  {
  }

  lemma PairOfUnits(c: CodePoint)
    requires 0x10000 <= c < 0x110000
    ensures var u := Units(c); |u| == 2 && IsHigh(u[0]) && IsLow(u[1]) && Pair(u[0], u[1]) == c
  {
    hide CombinePair, TenBits, UpperTen, LowerTen, IsHigh, IsLow;
    TenAndTen(c);
    HighBits(c, Units(c)[0]);
    LowBits(c, Units(c)[1]);
  }

  lemma UnitOfScalar(c: CodePoint, u: CodeUnit)
    requires c < 0x10000 && u == c as bv16
    ensures Unit(u) == c && (IsHigh(u) || IsLow(u) <==> IsSurrogate(c))
  {
  }

  lemma UnitsOfScalar(c: CodePoint, rest: seq<CodeUnit>)
    requires IsScalar(c)
    ensures var s := Units(c) + rest;
            && s != [] && CodePointAt(s, 0) == c && s[Width(s, 0)..] == rest
            && (WellFormed(rest) ==> WellFormed(s))
  {
    hide Pair, IsHigh, IsLow, Unit, IsSurrogate;
    var s := Units(c) + rest;
    if c < 0x10000 {
      UnitOfScalar(c, s[0]);
      assert s[1..] == rest;
    } else {
      PairOfUnits(c);
      assert s[2..] == rest;
    }
  }

  /** Every valid UTF-8 is the bytes of a well-formed string: the one it is decoded to. */
  lemma {:induction false} ScalarsToUnits(cs: seq<CodePoint>)
    requires AllScalars(cs)
    ensures forall i :: 0 <= i < |cs| ==> cs[i] < 0x110000
    ensures WellFormed(UnitsAll(cs)) && CodePoints(UnitsAll(cs)) == cs
    decreases |cs|
  {
    hide Units, CodePointAt, Width, WellFormed;
    ScalarsAreSmall(cs);
    if cs == [] {
      EmptyString();
    } else {
      ScalarsToUnits(cs[1..]);
      UnitsOfScalar(cs[0], UnitsAll(cs[1..]));
      assert cs == [cs[0]] + cs[1..];
    }
  }

  /** The texts that are well formed and the bytes that are valid correspond one to one. */
  lemma TextOfBytesExact(b: seq<bv8>, s: seq<CodeUnit>)
    ensures TextOfBytes(b) == Some(s) <==> WellFormed(s) && TextBytes(s) == b
  {
    hide WellFormed, TextBytes, CodePoints, UnitsAll, Decode, EncodeAll, AllScalars;
    if TextOfBytes(b) == Some(s) {
      var cs := Decode(b).value;
      DecodeEncodes(b);
      ScalarsToUnits(cs);
      TextIsEncoding(s);
    }
    if WellFormed(s) && TextBytes(s) == b {
      TextRoundTrip(s);
    }
  }

  /** So no two well-formed strings share their bytes. */
  lemma TextBytesInjective(s: seq<CodeUnit>, t: seq<CodeUnit>)
    requires WellFormed(s) && WellFormed(t)
    ensures TextBytes(s) == TextBytes(t) <==> s == t
  {
    TextRoundTrip(s);
    TextRoundTrip(t);
  }

  // ---------- The bytes that crc32_str feeds ----------

  /** `charCodeAt(i) & 1023`; past the end `charCodeAt` is NaN, and `NaN & 1023` is 0. */
  function LowTen(s: seq<CodeUnit>, i: nat): bv32 {
    if i < |s| then TenBits(s[i]) else 0
  }

  // The four bytes made of the ten bits `x` of a surrogate and the ten bits `d` of what
  // follows it, with `c = x + 64`.

  function Surrogate0(x: bv32): bv8 {
    (240 | (((x + 64) >> 8) & 7)) as bv8
  }

  function Surrogate1(x: bv32): bv8 {
    (128 | (((x + 64) >> 2) & 63)) as bv8
  }

  function Surrogate2(x: bv32, d: bv32): bv8 {
    (128 | ((d >> 6) & 15) | (((x + 64) & 3) << 4)) as bv8
  }

  function Surrogate3(d: bv32): bv8 {
    (128 | (d & 63)) as bv8
  }

  function SurrogateBytes(u: CodeUnit, d: bv32): seq<bv8> {
    [Surrogate0(TenBits(u)), Surrogate1(TenBits(u)), Surrogate2(TenBits(u), d), Surrogate3(d)]
  }

  function StrBytes(s: seq<CodeUnit>): seq<bv8>
    decreases |s|
  {
    if s == [] then []
    else if IsSurrogate(Unit(s[0])) then
      SurrogateBytes(s[0], LowTen(s, 1)) + StrBytes(if |s| >= 2 then s[2..] else [])
    else Encode(Unit(s[0])) + StrBytes(s[1..])
  }

  // Adding 64 to the high surrogate's ten bits puts the pair's code point in place.

  lemma SurrogateLead(x: bv32, d: bv32)
    requires x < 0x400 && d < 0x400
    ensures CombinePair(x, d) < 0x110000 && Surrogate0(x) == Lead4(CombinePair(x, d))
  {
  }

  lemma SurrogateTail12(x: bv32, d: bv32)
    requires x < 0x400 && d < 0x400
    ensures Surrogate1(x) == Tail12(CombinePair(x, d))
  {
  }

  lemma SurrogateTail6(x: bv32, d: bv32)
    requires x < 0x400 && d < 0x400
    ensures Surrogate2(x, d) == Tail6(CombinePair(x, d))
  {
  }

  lemma SurrogateTail0(x: bv32, d: bv32)
    requires x < 0x400 && d < 0x400
    ensures Surrogate3(d) == Tail0(CombinePair(x, d))
  {
  }

  lemma SurrogatePairBytes(high: CodeUnit, low: CodeUnit)
    requires IsHigh(high) && IsLow(low)
    ensures Pair(high, low) < 0x110000
    ensures SurrogateBytes(high, TenBits(low)) == Encode(Pair(high, low))
  {
    hide TenBits, CombinePair, IsHigh, IsLow, Surrogate0, Surrogate1, Surrogate2, Surrogate3, Lead4, Tail12, Tail6, Tail0;
    HighUnit(high);
    LowUnit(low);
    var x, d := TenBits(high), TenBits(low);
    PairParts(x, d);
    SurrogateLead(x, d);
    SurrogateTail12(x, d);
    SurrogateTail6(x, d);
    SurrogateTail0(x, d);
  }

  lemma UnpairedDiffers(u: CodeUnit)
    requires IsSurrogate(Unit(u))
    ensures Surrogate0(TenBits(u)) >= 240 && Encode(Unit(u))[0] < 240
  {
    hide Lead3, Tail6, Tail0;
    Bits3(Unit(u));
  }

  lemma LowTenOfNext(s: seq<CodeUnit>)
    requires |s| >= 2
    ensures LowTen(s, 1) == TenBits(s[1])
  {
  }

  /** How the two byte sequences start. */
  lemma FrontsOfStrAndText(s: seq<CodeUnit>)
    requires s != []
    ensures Width(s, 0) == 2 || !IsSurrogate(Unit(s[0])) ==>
              && CodePointAt(s, 0) < 0x110000
              && StrBytes(s) == Encode(CodePointAt(s, 0)) + StrBytes(s[Width(s, 0)..])
    ensures Width(s, 0) == 1 && IsSurrogate(Unit(s[0])) ==>
              StrBytes(s) != [] && TextBytes(s) != [] && StrBytes(s)[0] != TextBytes(s)[0]
  {
    hide Encode, Pair, Unit, LowTen, Surrogate0, Surrogate1, Surrogate2, Surrogate3, IsSurrogate, IsHigh, IsLow;
    CodePointRange(s, 0);
    UnitKind(s[0]);
    if Width(s, 0) == 2 {
      SurrogatePairBytes(s[0], s[1]);
      LowTenOfNext(s);
    } else if IsSurrogate(Unit(s[0])) {
      UnpairedDiffers(s[0]);
    }
  }

  /**
    `crc32_str` feeds the bytes of `textToArrayBuffer` exactly when the string is
    well-formed: at the first unpaired surrogate their leading bytes differ.
   */
  lemma {:induction false} StrBytesAgree(s: seq<CodeUnit>)
    ensures StrBytes(s) == TextBytes(s) <==> WellFormed(s)
    decreases |s|
  {
    hide Encode, CodePointAt, StrBytes, Unit, IsSurrogate, IsHigh, IsLow, WellFormed;
    if s == [] {
      assert StrBytes(s) == [] && WellFormed(s) by { EmptyString(); }
    } else {
      var w := Width(s, 0);
      UnitKind(s[0]);
      CodePointRange(s, 0);
      FrontOfWellFormed(s);
      FrontsOfStrAndText(s);
      if w == 2 || !IsSurrogate(Unit(s[0])) {
        StrBytesAgree(s[w..]);
        SamePrefix(Encode(CodePointAt(s, 0)), StrBytes(s[w..]), TextBytes(s[w..]));
        PairIsScalar(s[0], if w == 2 then s[1] else 0);
      }
    }
  }

  lemma EmptyString()
    ensures StrBytes([]) == [] && WellFormed([])
  {
  }

  lemma SamePrefix(p: seq<bv8>, a: seq<bv8>, b: seq<bv8>)
    ensures p + a == p + b <==> a == b
  {
    if p + a == p + b {
      assert a == (p + a)[|p|..];
      assert b == (p + b)[|p|..];
    }
  }

  // ---------- What is not well formed ----------

  lemma TenBitsOrder(u: CodeUnit, v: CodeUnit)
    requires (IsHigh(u) && IsHigh(v)) || (IsLow(u) && IsLow(v))
    requires u < v
    ensures TenBits(u) < TenBits(v)
  {
  }

  lemma CombineHigh(x: bv32, y: bv32, x': bv32, y': bv32)
    requires x < x' < 0x400 && y < 0x400 && y' < 0x400
    ensures Less(CombinePair(x, y), CombinePair(x', y'))
  {
  }

  lemma CombineLow(x: bv32, y: bv32, y': bv32)
    requires x < 0x400 && y < y' < 0x400
    ensures Less(CombinePair(x, y), CombinePair(x, y'))
  {
  }

  /** Surrogate pairs sort as their code points do. */
  lemma PairOrder(high: CodeUnit, low: CodeUnit, high': CodeUnit, low': CodeUnit)
    requires IsHigh(high) && IsLow(low) && IsHigh(high') && IsLow(low')
    requires high < high' || (high == high' && low < low')
    ensures Less(Pair(high, low), Pair(high', low'))
  {
    hide CombinePair, TenBits, IsHigh, IsLow, Less;
    TenBitsSmall(high);
    TenBitsSmall(high');
    TenBitsSmall(low);
    TenBitsSmall(low');
    if high < high' {
      TenBitsOrder(high, high');
      CombineHigh(TenBits(high), TenBits(low), TenBits(high'), TenBits(low'));
    } else {
      TenBitsOrder(low, low');
      CombineLow(TenBits(high), TenBits(low), TenBits(low'));
    }
  }

  /**
    `crc32_str` on any string that begins with a surrogate, paired or not: it takes the next
    code unit for the second half whatever it is, and zero where there is none.
   */
  lemma AnySurrogate(s: seq<CodeUnit>)
    requires s != [] && IsSurrogate(Unit(s[0]))
    ensures var d := if |s| == 1 then 0 else TenBits(s[1]);
            && CombinePair(TenBits(s[0]), d) < 0x110000
            && StrBytes(s) == Encode(CombinePair(TenBits(s[0]), d)) + StrBytes(if |s| == 1 then [] else s[2..])
  {
    hide TenBits, CombinePair, Surrogate0, Surrogate1, Surrogate2, Surrogate3, Lead4, Tail12, Tail6, Tail0, IsSurrogate;
    var x, d := TenBits(s[0]), LowTen(s, 1);
    TenBitsSmall(s[0]);
    if |s| > 1 {
      TenBitsSmall(s[1]);
    }
    PairParts(x, d);
    SurrogateLead(x, d);
    SurrogateTail12(x, d);
    SurrogateTail6(x, d);
    SurrogateTail0(x, d);
  }

  lemma TenBitsSmall(u: CodeUnit)
    ensures TenBits(u) < 0x400
  {
  }
}
