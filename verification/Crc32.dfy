/**
  The CRC-32 library of `crc32.js`: the byte table, the fifteen tables derived from
  it, and the checksum of a byte buffer, of a byte string and of a UTF-16 string.
 */
module Crc32 {
  import opened Crc32Spec
  import opened Text
  import Utf8

  /** `t` holds the register that each byte becomes after `n` zero bytes. */
  ghost predicate TableOf(t: seq<bv32>, n: nat)
    ensures TableOf(t, n) ==> |t| == 256
  {
    |t| == 256 && forall i :: 0 <= i < 256 ==> t[i] == Zeros(i as bv32, n)
  }

  lemma Lookup(t: seq<bv32>, n: nat, x: bv32)
    requires TableOf(t, n) && x < 256
    ensures t[x as int] == Zeros(x, n)
  {
    hide Zeros;
    assert (x as int) as bv32 == x;
  }

  /** The entry for the lowest byte of `x`. */
  function At(t: seq<bv32>, x: bv32): bv32
    requires |t| == 256
  {
    t[(x & 0xFF) as int]
  }

  lemma AtIsZeros(t: seq<bv32>, n: nat, x: bv32)
    requires TableOf(t, n)
    ensures At(t, x) == Zeros(Low(x), n)
  {
    hide Zeros;
    Lookup(t, n, x & 0xFF);
  }

  lemma XorCommutes(a: bv32, b: bv32)
    ensures Xor(a, b) == Xor(b, a)
  {
  }

  lemma TableStep(c: bv32, t: seq<bv32>)
    requires TableOf(t, 1)
    ensures Xor(DropByte(c), At(t, c)) == Zeros(c, 1)
  {
    hide Xor, Zeros, At, DropByte, Low, TableOf;
    AtIsZeros(t, 1, c);
    PeelByte(c, 1);
    ZerosOfNone(DropByte(c));
    XorCommutes(DropByte(c), Zeros(Low(c), 1));
  }

  /** The assignment that `signed_crc_table` writes out eight times. */
  method ShiftOnce(c: bv32) returns (r: bv32)
    ensures r == Step(c)
  {
    r := if c & 1 == 1 then 0xEDB88320 ^ (c >> 1) else c >> 1;
  }

  method SignedCrcTable() returns (table: seq<bv32>)
    ensures TableOf(table, 1)
  {
    hide Step, Zeros;
    var t := new bv32[256];
    var n := 0;
    while n != 256
      invariant 0 <= n <= 256
      invariant forall i :: 0 <= i < n ==> t[i] == Zeros(i as bv32, 1)
    {
      var c := n as bv32;
      EightSteps(c);
      c := ShiftOnce(c);
      c := ShiftOnce(c);
      c := ShiftOnce(c);
      c := ShiftOnce(c);
      c := ShiftOnce(c);
      c := ShiftOnce(c);
      c := ShiftOnce(c);
      c := ShiftOnce(c);
      t[n] := c;
      n := n + 1;
    }
    table := t[..];
  }

  /** Entry `n` of the `k`-th of the sixteen tables that share one buffer. */
  function Entry(table: seq<bv32>, k: nat, n: nat): bv32
    requires |table| == 4096 && k < 16 && n < 256
  {
    table[256 * k + n]
  }

  /** Byte `n` has its register in every table from the second up to the `k`-th. */
  ghost predicate ColumnDone(table: seq<bv32>, n: nat, k: nat)
    requires |table| == 4096 && n < 256 && k <= 16
  {
    forall j :: 1 <= j < k ==> Entry(table, j, n) == Zeros(n as bv32, j + 1)
  }

  lemma ColumnGrows(table: seq<bv32>, n: nat, k: nat, v: bv32)
    requires |table| == 4096 && n < 256 && 1 <= k < 16
    requires ColumnDone(table, n, k) && v == Zeros(n as bv32, k + 1)
    ensures var now := table[256 * k + n := v];
            && ColumnDone(now, n, k + 1)
            && forall j, m :: 0 <= j < 16 && 0 <= m < 256 && m != n ==> Entry(now, j, m) == Entry(table, j, m)
  {
    hide Zeros;
    var now := table[256 * k + n := v];
    forall j, m | 0 <= j < 16 && 0 <= m < 256 && (j != k || m != n)
      ensures Entry(now, j, m) == Entry(table, j, m)
    {
      Apart(j, m, k, n);
    }
    forall j | 1 <= j < k + 1
      ensures Entry(now, j, n) == Zeros(n as bv32, j + 1)
    {
      assert j < k ==> Entry(table, j, n) == Zeros(n as bv32, j + 1);
    }
  }

  /** Different entries have different places in the buffer. */
  lemma Apart(j: nat, m: nat, k: nat, n: nat)
    requires m < 256 && n < 256 && (j != k || m != n)
    ensures 256 * j + m != 256 * k + n
  {
  }

  /** The strided inner loop carries the register `v` of byte `n` through the tables. */
  method FillColumn(table: array<bv32>, T: seq<bv32>, n: nat)
    requires table.Length == 4096 && n < 256 && TableOf(T, 1)
    modifies table
    ensures ColumnDone(table[..], n, 16)
    ensures forall k, m :: 0 <= k < 16 && 0 <= m < 256 && m != n ==> Entry(table[..], k, m) == old(Entry(table[..], k, m))
  {
    hide Step, Zeros;
    var v := T[n];
    var c := 256 + n;
    ghost var k := 1;
    while c < 4096
      invariant 1 <= k <= 16 && c == 256 * k + n
      invariant v == Zeros(n as bv32, k)
      invariant ColumnDone(table[..], n, k)
      invariant forall j, m :: 0 <= j < 16 && 0 <= m < 256 && m != n ==> Entry(table[..], j, m) == old(Entry(table[..], j, m))
    {
      TableStep(v, T);
      ZerosAdd(n as bv32, k, 1);
      v := Xor(DropByte(v), At(T, v));
      ColumnGrows(table[..], n, k, v);
      ghost var before := table[..];
      table[c] := v;
      assert table[..] == before[c := v];
      c, k := c + 256, k + 1;
    }
  }

  lemma RowIsTable(table: seq<bv32>, k: nat)
    requires |table| == 4096 && 1 <= k < 16
    requires forall m :: 0 <= m < 256 ==> ColumnDone(table, m, 16)
    ensures TableOf(table[k * 256..k * 256 + 256], k + 1)
  {
    hide Zeros;
    var row := table[k * 256..k * 256 + 256];
    forall i | 0 <= i < 256
      ensures row[i] == Zeros(i as bv32, k + 1)
    {
      assert ColumnDone(table, i, 16);
      assert row[i] == Entry(table, k, i);
    }
  }

  /** The fifteen further tables. */
  method SliceBy16Tables(T: seq<bv32>) returns (out: seq<seq<bv32>>)
    requires TableOf(T, 1)
    ensures |out| == 15 && forall k :: 0 <= k < 15 ==> TableOf(out[k], k + 2)
  {
    hide Step, Zeros;
    var table := new bv32[4096];
    var n := 0;
    while n != 256
      invariant 0 <= n <= 256
    {
      table[n] := T[n];
      n := n + 1;
    }
    n := 0;
    while n != 256
      invariant 0 <= n <= 256
      invariant forall m :: 0 <= m < n ==> ColumnDone(table[..], m, 16)
    {
      ghost var before := table[..];
      FillColumn(table, T, n);
      forall m | 0 <= m < n
        ensures ColumnDone(table[..], m, 16)
      {
        assert ColumnDone(before, m, 16);
      }
      n := n + 1;
    }
    out := [];
    n := 1;
    while n != 16
      invariant 1 <= n <= 16 && |out| == n - 1
      invariant forall m :: 0 <= m < 256 ==> ColumnDone(table[..], m, 16)
      invariant forall k :: 0 <= k < n - 1 ==> TableOf(out[k], k + 2)
    {
      RowIsTable(table[..], n);
      out := out + [table[n * 256..n * 256 + 256]];
      n := n + 1;
    }
  }

  // ---------- Sixteen bytes at once ----------

  /** What the bytes of a block contribute, each advanced past the bytes after it. */
  function Contribution(bytes: seq<bv8>): bv32
    decreases |bytes|
  {
    if bytes == [] then 0 else Xor(Zeros(Widen(bytes[0]), |bytes|), Contribution(bytes[1..]))
  }

  lemma {:induction false} ContributionIsFeed(bytes: seq<bv8>)
    ensures FeedBytes(0, bytes) == Contribution(bytes)
    decreases |bytes|
  {
    hide Xor, Zeros, Widen;
    if bytes != [] {
      assert bytes == [bytes[0]] + bytes[1..];
      FeedZeroUnfold(bytes[0], bytes[1..]);
      ContributionIsFeed(bytes[1..]);
    }
  }

  lemma ContributionOfFour(b: seq<bv8>)
    requires |b| >= 4
    ensures var n := |b|;
            Contribution(b) ==
            Xor(Zeros(Widen(b[0]), n), Xor(Zeros(Widen(b[1]), n - 1),
            Xor(Zeros(Widen(b[2]), n - 2), Xor(Zeros(Widen(b[3]), n - 3), Contribution(b[4..])))))
  {
    hide Xor, Zeros, Widen;
    var b1, b2, b3 := b[1..], b[2..], b[3..];
    assert b1[1..] == b2 && b2[1..] == b3 && b3[1..] == b[4..];
    assert Contribution(b3) == Xor(Zeros(Widen(b[3]), |b3|), Contribution(b[4..]));
    assert Contribution(b2) == Xor(Zeros(Widen(b[2]), |b2|), Contribution(b3));
    assert Contribution(b1) == Xor(Zeros(Widen(b[1]), |b1|), Contribution(b2));
  }

  lemma Regroup(r: bv32, r': bv32, w: bv32, w': bv32)
    ensures Xor(Xor(r, r'), Xor(w, w')) == Xor(Xor(w, r), Xor(r', w'))
    ensures Xor(r, Xor(w, w')) == Xor(Xor(w, r), w')
  {
    assert (r ^ r') ^ (w ^ w') == (w ^ r) ^ (r' ^ w');
    assert r ^ (w ^ w') == (w ^ r) ^ w';
  }

  lemma Interleave(r0: bv32, r1: bv32, r2: bv32, r3: bv32, w0: bv32, w1: bv32, w2: bv32, w3: bv32, rest: bv32)
    ensures Xor(Xor(r0, Xor(r1, Xor(r2, r3))), Xor(w0, Xor(w1, Xor(w2, Xor(w3, rest))))) ==
            Xor(Xor(w0, r0), Xor(Xor(w1, r1), Xor(Xor(w2, r2), Xor(Xor(w3, r3), rest))))
  {
    hide Xor;
    Regroup(r0, Xor(r1, Xor(r2, r3)), w0, Xor(w1, Xor(w2, Xor(w3, rest))));
    Regroup(r1, Xor(r2, r3), w1, Xor(w2, Xor(w3, rest)));
    Regroup(r2, r3, w2, Xor(w3, rest));
    Regroup(r3, r3, w3, rest);
  }

  /**
    A block is folded into the register byte by byte: the first four bytes meet the
    four bytes of the register, the rest only what follows them.
   */
  lemma FoldBlock(c: bv32, b: seq<bv8>)
    requires |b| >= 4
    ensures var n := |b|;
            var c1 := DropByte(c);
            var c2 := DropByte(c1);
            FeedBytes(c, b) ==
            Xor(Zeros(Xor(Widen(b[0]), Low(c)), n), Xor(Zeros(Xor(Widen(b[1]), Low(c1)), n - 1),
            Xor(Zeros(Xor(Widen(b[2]), Low(c2)), n - 2), Xor(Zeros(Xor(Widen(b[3]), DropByte(c2)), n - 3),
            Contribution(b[4..])))))
  {
    hide Xor, Zeros, Low, DropByte, Contribution, Widen, FeedBytes;
    var n := |b|;
    var c1 := DropByte(c);
    var c2 := DropByte(c1);
    FeedBytesLinear(c, b);
    PeelWord(c, n);
    ContributionIsFeed(b);
    ContributionOfFour(b);
    var w0, w1, w2, w3 := Widen(b[0]), Widen(b[1]), Widen(b[2]), Widen(b[3]);
    ZerosLinear(w0, Low(c), n);
    ZerosLinear(w1, Low(c1), n - 1);
    ZerosLinear(w2, Low(c2), n - 2);
    ZerosLinear(w3, DropByte(c2), n - 3);
    Interleave(Zeros(Low(c), n), Zeros(Low(c1), n - 1), Zeros(Low(c2), n - 2), Zeros(DropByte(c2), n - 3),
               Zeros(w0, n), Zeros(w1, n - 1), Zeros(w2, n - 2), Zeros(w3, n - 3), Contribution(b[4..]));
  }

  function Xor4(a: bv32, b: bv32, c: bv32, d: bv32): bv32 {
    Xor(a, Xor(b, Xor(c, d)))
  }

  lemma Xor4Assoc(a: bv32, b: bv32, c: bv32, d: bv32, e: bv32)
    ensures Xor(Xor4(a, b, c, d), e) == Xor(a, Xor(b, Xor(c, Xor(d, e))))
  {
    hide Xor;
    XorAssoc(a, Xor(b, Xor(c, d)), e);
    XorAssoc(b, Xor(c, d), e);
    XorAssoc(c, d, e);
  }

  lemma FourAtOnce(b: seq<bv8>)
    requires |b| >= 4
    ensures var n := |b|;
            Contribution(b) ==
            Xor(Xor4(Zeros(Widen(b[0]), n), Zeros(Widen(b[1]), n - 1), Zeros(Widen(b[2]), n - 2), Zeros(Widen(b[3]), n - 3)),
                Contribution(b[4..]))
  {
    hide Xor, Zeros, Widen, Contribution;
    var n := |b|;
    ContributionOfFour(b);
    Xor4Assoc(Zeros(Widen(b[0]), n), Zeros(Widen(b[1]), n - 1), Zeros(Widen(b[2]), n - 2), Zeros(Widen(b[3]), n - 3),
              Contribution(b[4..]));
  }

  lemma NoContribution()
    ensures Contribution([]) == 0
  {
  }

  lemma ContributionOfTwelve(b: seq<bv8>)
    requires |b| == 12
    ensures Contribution(b) ==
            Xor(Xor4(Zeros(Widen(b[0]), 12), Zeros(Widen(b[1]), 11), Zeros(Widen(b[2]), 10), Zeros(Widen(b[3]), 9)),
            Xor(Xor4(Zeros(Widen(b[4]), 8), Zeros(Widen(b[5]), 7), Zeros(Widen(b[6]), 6), Zeros(Widen(b[7]), 5)),
                Xor4(Zeros(Widen(b[8]), 4), Zeros(Widen(b[9]), 3), Zeros(Widen(b[10]), 2), Zeros(Widen(b[11]), 1))))
  {
    hide Xor, Xor4, Zeros, Widen, Contribution;
    FourAtOnce(b);
    FourAtOnce(b[4..]);
    FourAtOnce(b[8..]);
    assert b[4..][4..] == b[8..] && b[8..][4..] == [];
    assert Contribution([]) == 0 by { NoContribution(); }
    XorZero(Xor4(Zeros(Widen(b[8]), 4), Zeros(Widen(b[9]), 3), Zeros(Widen(b[10]), 2), Zeros(Widen(b[11]), 1)));
  }

  function Pick(t: seq<bv32>, b: bv8): bv32
    requires |t| == 256
  {
    At(t, Widen(b))
  }

  lemma PickIsZeros(t: seq<bv32>, n: nat, b: bv8)
    requires TableOf(t, n)
    ensures Pick(t, b) == Zeros(Widen(b), n)
  {
    hide Zeros, At, TableOf;
    AtIsZeros(t, n, Widen(b));
    assert Low(Widen(b)) == Widen(b);
  }

  lemma AtSum(t: seq<bv32>, n: nat, b: bv8, r: bv32)
    requires TableOf(t, n)
    ensures r < 256 ==> At(t, Xor(Widen(b), r)) == Zeros(Xor(Widen(b), r), n)
  {
    hide Zeros, At, TableOf;
    AtIsZeros(t, n, Xor(Widen(b), r));
    assert r < 256 ==> ((b as bv32) ^ r) & 0xFF == (b as bv32) ^ r;
  }

  lemma RegisterBytes(c: bv32)
    ensures Low(c) < 256 && Low(DropByte(c)) < 256 && Low(DropByte(DropByte(c))) < 256
    ensures DropByte(DropByte(DropByte(c))) < 256
  {
  }

  // ---------- One byte at a time ----------

  function Narrow(x: bv32): bv8 {
    (x & 0xFF) as bv8
  }

  lemma NarrowWiden(b: bv8)
    ensures Narrow(Widen(b)) == b
  {
  }

  lemma FeedByteNarrow(c: bv32, x: bv32)
    ensures FeedByte(c, Narrow(x)) == Zeros(Xor(c, Low(x)), 1)
  {
    hide Zeros;
    assert Widen(Narrow(x)) == Low(x);
  }

  lemma ByteOfSum(t: seq<bv32>, c: bv32, x: bv32)
    requires |t| == 256
    ensures At(t, Xor(c, x)) == At(t, Xor(c, Low(x)))
    ensures DropByte(Xor(c, Low(x))) == DropByte(c)
  {
    assert (c ^ x) & 0xFF == (c ^ (x & 0xFF)) & 0xFF;
    assert (c ^ (x & 0xFF)) >> 8 == c >> 8;
  }

  /** The table lookup that takes one byte; only the lowest byte of `x` matters. */
  method FeedOne(T0: seq<bv32>, c: bv32, x: bv32) returns (r: bv32)
    requires TableOf(T0, 1)
    ensures r == FeedByte(c, Narrow(x))
  {
    hide Zeros, FeedByte, TableOf, At, Low;
    r := Xor(DropByte(c), At(T0, Xor(c, x)));
    ByteOfSum(T0, c, x);
    TableStep(Xor(c, Low(x)), T0);
    FeedByteNarrow(c, x);
  }

  function LowBytes(s: seq<CodeUnit>): seq<bv8> {
    if s == [] then [] else [Narrow(s[0] as bv32)] + LowBytes(s[1..])
  }

  lemma {:induction false} LowBytesAre(s: seq<CodeUnit>, i: nat)
    requires i < |s|
    ensures |LowBytes(s)| == |s| && LowBytes(s)[i] as bv16 == s[i] % 256
    decreases |s|
  {
    hide Narrow;
    assert Narrow(s[i] as bv32) as bv16 == s[i] % 256 by { NarrowIsRemainder(s[i]); }
    assert |LowBytes(s[1..])| == |s| - 1 by { LowBytesLength(s[1..]); }
    if i > 0 {
      LowBytesAre(s[1..], i - 1);
    }
  }

  lemma {:induction false} LowBytesLength(s: seq<CodeUnit>)
    ensures |LowBytes(s)| == |s|
    decreases |s|
  {
    hide Narrow;
    if s != [] {
      LowBytesLength(s[1..]);
    }
  }

  lemma NarrowIsRemainder(u: CodeUnit)
    ensures Narrow(u as bv32) as bv16 == u % 256
  {
  }

  // ---------- One character at a time ----------

  lemma Feed2(c: bv32, b0: bv8, b1: bv8, rest: seq<bv8>)
    ensures FeedBytes(c, [b0, b1] + rest) == FeedBytes(FeedByte(FeedByte(c, b0), b1), rest)
  {
    hide FeedByte, FeedBytes;
    assert [b0, b1] + rest == [b0] + ([b1] + rest);
    Feed1(c, b0, [b1] + rest);
    Feed1(FeedByte(c, b0), b1, rest);
  }

  lemma Feed3(c: bv32, b0: bv8, b1: bv8, b2: bv8, rest: seq<bv8>)
    ensures FeedBytes(c, [b0, b1, b2] + rest) == FeedBytes(FeedByte(FeedByte(FeedByte(c, b0), b1), b2), rest)
  {
    hide FeedByte, FeedBytes;
    assert [b0, b1, b2] + rest == [b0, b1] + ([b2] + rest);
    Feed2(c, b0, b1, [b2] + rest);
    Feed1(FeedByte(FeedByte(c, b0), b1), b2, rest);
  }

  lemma Feed4(c: bv32, b0: bv8, b1: bv8, b2: bv8, b3: bv8, rest: seq<bv8>)
    ensures FeedBytes(c, [b0, b1, b2, b3] + rest) ==
            FeedBytes(FeedByte(FeedByte(FeedByte(FeedByte(c, b0), b1), b2), b3), rest)
  {
    hide FeedByte, FeedBytes;
    assert [b0, b1, b2, b3] + rest == [b0, b1] + ([b2, b3] + rest);
    Feed2(c, b0, b1, [b2, b3] + rest);
    Feed2(FeedByte(FeedByte(c, b0), b1), b2, b3, rest);
  }

  lemma AsciiByte(c: bv32)
    requires c < 0x80
    ensures Utf8.Encode(c) == [Narrow(c)]
  {
  }

  lemma TwoBytes(c: bv32)
    requires 0x80 <= c < 0x800
    ensures Utf8.Lead2(c) == Narrow(192 | ((c >> 6) & 31)) && Utf8.Tail0(c) == Narrow(128 | (c & 63))
  {
    assert (0xC0 | (c >> 6)) as bv8 == ((192 | ((c >> 6) & 31)) & 0xFF) as bv8;
    assert (0x80 | (c & 0x3F)) as bv8 == ((128 | (c & 63)) & 0xFF) as bv8;
  }

  lemma ThreeBytes(c: bv32)
    requires 0x800 <= c < 0x10000
    ensures Utf8.Lead3(c) == Narrow(224 | ((c >> 12) & 15))
    ensures Utf8.Tail6(c) == Narrow(128 | ((c >> 6) & 63)) && Utf8.Tail0(c) == Narrow(128 | (c & 63))
  {
    assert (0xE0 | (c >> 12)) as bv8 == ((224 | ((c >> 12) & 15)) & 0xFF) as bv8;
    assert (0x80 | ((c >> 6) & 0x3F)) as bv8 == ((128 | ((c >> 6) & 63)) & 0xFF) as bv8;
    assert (0x80 | (c & 0x3F)) as bv8 == ((128 | (c & 63)) & 0xFF) as bv8;
  }

  lemma TenBitsRange(u: CodeUnit)
    ensures TenBits(u) < 1024
  {
  }

  /** The bytes made of `c = x + 64` and the ten bits `d` after it. */
  lemma FourBytes(x: bv32, d: bv32)
    requires x < 1024 && d < 1024
    ensures var c := x + 64;
            && Surrogate0(x) == Narrow(240 | ((c >> 8) & 7))
            && Surrogate1(x) == Narrow(128 | ((c >> 2) & 63))
            && Surrogate2(x, d) == Narrow(128 | ((d >> 6) & 15) | ((c & 3) << 4))
            && Surrogate3(d) == Narrow(128 | (d & 63))
  {
  }

  // One turn of the loop of `crc32_str`, branch by branch: what is left to feed
  // at `i` becomes what is left to feed after the turn.

  method FeedPlain(T0: seq<bv32>, C: bv32, c: bv32, ghost rest: seq<bv8>) returns (r: bv32)
    requires TableOf(T0, 1) && c < 0x10000
    ensures FeedBytes(r, rest) == FeedBytes(C, Utf8.Encode(c) + rest)
  {
    hide FeedByte, FeedBytes, TableOf, Narrow, Utf8.Lead2, Utf8.Lead3, Utf8.Tail0, Utf8.Tail6;
    if c < 0x80 {
      AsciiByte(c);
      Feed1(C, Narrow(c), rest);
      r := FeedOne(T0, C, c);
    } else if c < 0x800 {
      TwoBytes(c);
      Feed2(C, Utf8.Lead2(c), Utf8.Tail0(c), rest);
      r := FeedOne(T0, C, 192 | ((c >> 6) & 31));
      r := FeedOne(T0, r, 128 | (c & 63));
    } else {
      ThreeBytes(c);
      Feed3(C, Utf8.Lead3(c), Utf8.Tail6(c), Utf8.Tail0(c), rest);
      r := FeedOne(T0, C, 224 | ((c >> 12) & 15));
      r := FeedOne(T0, r, 128 | ((c >> 6) & 63));
      r := FeedOne(T0, r, 128 | (c & 63));
    }
  }

  method FeedSurrogate(T0: seq<bv32>, C: bv32, u: CodeUnit, d: bv32, ghost rest: seq<bv8>) returns (r: bv32)
    requires TableOf(T0, 1) && d < 1024
    ensures FeedBytes(r, rest) == FeedBytes(C, SurrogateBytes(u, d) + rest)
  {
    hide FeedByte, FeedBytes, TableOf, Narrow, TenBits, Surrogate0, Surrogate1, Surrogate2, Surrogate3;
    var x := TenBits(u);
    TenBitsRange(u);
    FourBytes(x, d);
    Feed4(C, Surrogate0(x), Surrogate1(x), Surrogate2(x, d), Surrogate3(d), rest);
    var c := x + 64;
    r := FeedOne(T0, C, 240 | ((c >> 8) & 7));
    r := FeedOne(T0, r, 128 | ((c >> 2) & 63));
    r := FeedOne(T0, r, 128 | ((d >> 6) & 15) | ((c & 3) << 4));
    r := FeedOne(T0, r, 128 | (d & 63));
  }

  lemma UnitRange(u: CodeUnit)
    ensures Unit(u) < 0x10000
  {
  }

  lemma StrStep(str: seq<CodeUnit>, i: nat)
    requires i < |str|
    ensures LowTen(str, i + 1) < 1024
    ensures var next := if i + 2 <= |str| then i + 2 else |str|;
            if Utf8.IsSurrogate(Unit(str[i]))
            then StrBytes(str[i..]) == SurrogateBytes(str[i], LowTen(str, i + 1)) + StrBytes(str[next..])
            else Unit(str[i]) < 0x10000 && StrBytes(str[i..]) == Utf8.Encode(Unit(str[i])) + StrBytes(str[i + 1..])
  {
    hide SurrogateBytes, Utf8.Encode, Utf8.IsSurrogate;
    UnitRange(str[i]);
    var t := str[i..];
    assert t[1..] == str[i + 1..];
    assert LowTen(t, 1) == LowTen(str, i + 1);
    if |t| >= 2 {
      assert t[2..] == str[i + 2..];
    }
  }

  // ---------- The library ----------

  /** The tables that the library builds once, and the functions that it exports. */
  class Library {
    const T0: seq<bv32>
    /** `TT[k]` is table `k + 1`. */
    const TT: seq<seq<bv32>>

    ghost predicate Valid() {
      TableOf(T0, 1) && |TT| == 15 && forall k :: 0 <= k < 15 ==> TableOf(TT[k], k + 2)
    }

    constructor ()
      ensures Valid()
    {
      var table := SignedCrcTable();
      var tables := SliceBy16Tables(table);
      T0 := table;
      TT := tables;
    }

    /** The checksum of a string's low bytes. */
    method Bstr(bstr: seq<CodeUnit>, seed: bv32) returns (crc: bv32)
      requires Valid()
      ensures crc == Crc(LowBytes(bstr), seed)
    {
      hide Zeros, FeedByte, Narrow;
      var C := seed ^ 0xFFFF_FFFF;
      var i := 0;
      while i < |bstr|
        invariant 0 <= i <= |bstr|
        invariant FeedBytes(Complement(seed), LowBytes(bstr)) == FeedBytes(C, LowBytes(bstr[i..]))
      {
        assert bstr[i..][1..] == bstr[i + 1..];
        assert LowBytes(bstr[i..])[1..] == LowBytes(bstr[i + 1..]);
        C := FeedOne(T0, C, bstr[i] as bv32);
        i := i + 1;
      }
      CrcOfBytes(LowBytes(bstr), seed);
      crc := C ^ 0xFFFF_FFFF;
    }

    /** The checksum of a string's UTF-8 bytes, encoded on the way. */
    method Str(str: seq<CodeUnit>, seed: bv32) returns (crc: bv32)
      requires Valid()
      ensures crc == Crc(StrBytes(str), seed)
      ensures WellFormed(str) ==> crc == Crc(TextBytes(str), seed)
    {
      hide FeedBytes, TableOf, Crc, Unit, LowTen, SurrogateBytes, Utf8.Encode, Utf8.IsSurrogate;
      var C, i := seed ^ 0xFFFF_FFFF, 0;
      while i < |str|
        invariant 0 <= i <= |str|
        invariant FeedBytes(Complement(seed), StrBytes(str)) == FeedBytes(C, StrBytes(str[i..]))
      {
        var c := Unit(str[i]);
        UnitRange(str[i]);
        StrStep(str, i);
        if Utf8.IsSurrogate(c) {
          var d := LowTen(str, i + 1);
          var next := if i + 2 <= |str| then i + 2 else |str|;
          C := FeedSurrogate(T0, C, str[i], d, StrBytes(str[next..]));
          i := next;
        } else {
          C := FeedPlain(T0, C, c, StrBytes(str[i + 1..]));
          i := i + 1;
        }
      }
      CrcOfBytes(StrBytes(str), seed);
      NothingFed(C);
      StrBytesAgree(str);
      crc := C ^ 0xFFFF_FFFF;
    }

    /** The twelve lookups that take only message bytes. */
    function FoldTail(B: seq<bv8>): bv32
      requires Valid() && |B| == 12
    {
      Xor(Xor4(Pick(TT[10], B[0]), Pick(TT[9], B[1]), Pick(TT[8], B[2]), Pick(TT[7], B[3])),
      Xor(Xor4(Pick(TT[6], B[4]), Pick(TT[5], B[5]), Pick(TT[4], B[6]), Pick(TT[3], B[7])),
          Xor4(Pick(TT[2], B[8]), Pick(TT[1], B[9]), Pick(TT[0], B[10]), Pick(T0, B[11]))))
    }

    /** The four lookups in which message bytes meet the bytes of the register. */
    function FoldHead(C: bv32, b0: bv8, b1: bv8, b2: bv8, b3: bv8): bv32
      requires Valid()
    {
      Xor4(At(TT[14], Xor(Widen(b0), Low(C))),
           At(TT[13], Xor(Widen(b1), Low(DropByte(C)))),
           At(TT[12], Xor(Widen(b2), Low(DropByte(DropByte(C))))),
           At(TT[11], Xor(Widen(b3), DropByte(DropByte(DropByte(C))))))
    }

    lemma FoldTailCorrect(B: seq<bv8>)
      requires Valid() && |B| == 12
      ensures FoldTail(B) == Contribution(B)
    {
      hide Xor, Zeros, Widen, Pick, TableOf, Contribution;
      PickIsZeros(TT[10], 12, B[0]);
      PickIsZeros(TT[9], 11, B[1]);
      PickIsZeros(TT[8], 10, B[2]);
      PickIsZeros(TT[7], 9, B[3]);
      PickIsZeros(TT[6], 8, B[4]);
      PickIsZeros(TT[5], 7, B[5]);
      PickIsZeros(TT[4], 6, B[6]);
      PickIsZeros(TT[3], 5, B[7]);
      PickIsZeros(TT[2], 4, B[8]);
      PickIsZeros(TT[1], 3, B[9]);
      PickIsZeros(TT[0], 2, B[10]);
      PickIsZeros(T0, 1, B[11]);
      ContributionOfTwelve(B);
    }

    lemma FoldHeadCorrect(C: bv32, B: seq<bv8>)
      requires Valid() && |B| == 16
      ensures Xor(FoldHead(C, B[0], B[1], B[2], B[3]), Contribution(B[4..])) == FeedBytes(C, B)
    {
      hide Xor, Zeros, Widen, At, Low, DropByte, TableOf, Contribution, FeedBytes;
      var c1 := DropByte(C);
      var c2 := DropByte(c1);
      AtSum(TT[14], 16, B[0], Low(C));
      AtSum(TT[13], 15, B[1], Low(c1));
      AtSum(TT[12], 14, B[2], Low(c2));
      AtSum(TT[11], 13, B[3], DropByte(c2));
      RegisterBytes(C);
      FoldBlock(C, B);
      Xor4Assoc(Zeros(Xor(Widen(B[0]), Low(C)), 16), Zeros(Xor(Widen(B[1]), Low(c1)), 15),
                Zeros(Xor(Widen(B[2]), Low(c2)), 14), Zeros(Xor(Widen(B[3]), DropByte(c2)), 13), Contribution(B[4..]));
    }

    /** The checksum of a byte buffer: sixteen bytes at a time, then one at a time. */
    method Buf(B: seq<bv8>, seed: bv32) returns (crc: bv32)
      requires Valid()
      ensures crc == Crc(B, seed)
    {
      hide FoldHead, FoldTail, Zeros, FeedByte, Crc, TableOf;
      var C, L, i := seed ^ 0xFFFF_FFFF, |B| - 15, 0;
      while i < L
        invariant 0 <= i <= |B| && L == |B| - 15
        invariant FeedBytes(Complement(seed), B) == FeedBytes(C, B[i..])
      {
        var block := B[i..i + 16];
        assert B[i..] == block + B[i + 16..];
        FeedBytesConcat(C, block, B[i + 16..]);
        FoldHeadCorrect(C, block);
        FoldTailCorrect(block[4..]);
        C := Xor(FoldHead(C, block[0], block[1], block[2], block[3]), FoldTail(block[4..]));
        i := i + 16;
      }
      L := L + 15;
      while i < L
        invariant 0 <= i <= |B| == L
        invariant FeedBytes(Complement(seed), B) == FeedBytes(C, B[i..])
      {
        assert B[i..][1..] == B[i + 1..];
        NarrowWiden(B[i]);
        C := FeedOne(T0, C, Widen(B[i]));
        i := i + 1;
      }
      CrcOfBytes(B, seed);
      crc := C ^ 0xFFFF_FFFF;
    }
  }
}
