/**
  `encode_utf8_raw` and `text_encode_into` of `encoding.rs`: UTF-8 written into a
  buffer of fixed size, as far as it fits.
 */
module TextEncoder {
  import opened Options
  import opened Utf8

  /** The buffer `old` with `bytes` written at `at`. */
  ghost predicate Written(now: seq<bv8>, was: seq<bv8>, at: nat, bytes: seq<bv8>) {
    && at + |bytes| <= |was|
    && now == was[..at] + bytes + was[at + |bytes|..]
  }

  /** Encodes `code` into `dst[from..]`, or leaves it alone when there is no room. */
  method EncodeUtf8Raw(code: CodePoint, dst: array<bv8>, from: nat) returns (n: Option<nat>)
    requires IsScalar(code) && from <= dst.Length
    modifies dst
    ensures n == if Size(code) <= dst.Length - from then Some(Size(code)) else None
    ensures n.Some? ==> Written(dst[..], old(dst[..]), from, Encode(code))
    ensures n.None? ==> dst[..] == old(dst[..])
  {
    hide Lead2, Lead3, Lead4, Tail0, Tail6, Tail12, Written;
    ghost var was := dst[..];
    var len := Size(code);
    var dstLen := dst.Length - from;
    BytesOf(code);
    if len == 1 && dstLen >= 1 {
      dst[from] := code as bv8;
    } else if len == 2 && dstLen >= 2 {
      dst[from] := ((code >> 6) & 0x1F) as bv8 | 0xC0;
      dst[from + 1] := (code & 0x3F) as bv8 | 0x80;
    } else if len == 3 && dstLen >= 3 {
      dst[from] := ((code >> 12) & 0x0F) as bv8 | 0xE0;
      dst[from + 1] := ((code >> 6) & 0x3F) as bv8 | 0x80;
      dst[from + 2] := (code & 0x3F) as bv8 | 0x80;
    } else if len == 4 && dstLen >= 4 {
      dst[from] := ((code >> 18) & 0x07) as bv8 | 0xF0;
      dst[from + 1] := ((code >> 12) & 0x3F) as bv8 | 0x80;
      dst[from + 2] := ((code >> 6) & 0x3F) as bv8 | 0x80;
      dst[from + 3] := (code & 0x3F) as bv8 | 0x80;
    } else {
      return None;
    }
    Stored(was, from, Encode(code), dst[..]);
    n := Some(len);
  }

  lemma Stored(was: seq<bv8>, from: nat, bytes: seq<bv8>, now: seq<bv8>)
    requires from + |bytes| <= |was| == |now|
    requires forall i :: 0 <= i < |bytes| ==> now[from + i] == bytes[i]
    requires forall i :: 0 <= i < |was| && (i < from || from + |bytes| <= i) ==> now[i] == was[i]
    ensures Written(now, was, from, bytes)
  {
    assert forall i :: from <= i < from + |bytes| ==> now[i] == bytes[i - from];
  }

  lemma BytesOf(c: CodePoint)
    requires c < 0x110000
    ensures c < 0x800 ==> ((c >> 6) & 0x1F) as bv8 | 0xC0 == Lead2(c)
    ensures c < 0x10000 ==> ((c >> 12) & 0x0F) as bv8 | 0xE0 == Lead3(c)
    ensures ((c >> 18) & 0x07) as bv8 | 0xF0 == Lead4(c)
    ensures ((c >> 12) & 0x3F) as bv8 | 0x80 == Tail12(c)
    ensures ((c >> 6) & 0x3F) as bv8 | 0x80 == Tail6(c)
    ensures (c & 0x3F) as bv8 | 0x80 == Tail0(c)
  {
    assert c < 0x800 ==> ((c >> 6) & 0x1F) as bv8 | 0xC0 == (0xC0 | (c >> 6)) as bv8;
    assert c < 0x10000 ==> ((c >> 12) & 0x0F) as bv8 | 0xE0 == (0xE0 | (c >> 12)) as bv8;
  }

  // ---------- The longest prefix that fits ----------

  /** How many bytes the first `k` characters take. */
  function Bytes(src: seq<CodePoint>, k: nat): nat
    requires AllScalars(src) && k <= |src|
  {
    |EncodeAll(src[..k])|
  }

  lemma {:induction false} EncodeAllConcat(a: seq<CodePoint>, b: seq<CodePoint>)
    requires AllScalars(a) && AllScalars(b)
    ensures AllScalars(a + b) && EncodeAll(a + b) == EncodeAll(a) + EncodeAll(b)
    decreases |a|
  {
    hide Encode, IsScalar;
    if a == [] {
      assert a + b == b;
    } else {
      assert (a + b)[1..] == a[1..] + b;
      EncodeAllConcat(a[1..], b);
    }
  }

  lemma EncodeOneMore(src: seq<CodePoint>, k: nat)
    requires AllScalars(src) && k < |src|
    ensures IsScalar(src[k])
    ensures EncodeAll(src[..k + 1]) == EncodeAll(src[..k]) + Encode(src[k])
  {
    hide Encode;
    assert src[..k + 1] == src[..k] + [src[k]];
    EncodeAllConcat(src[..k], [src[k]]);
    assert [src[k]][1..] == [];
    assert EncodeAll([src[k]]) == Encode(src[k]) + [];
  }

  lemma {:induction false} BytesMonotone(src: seq<CodePoint>, j: nat, k: nat)
    requires AllScalars(src) && j <= k <= |src|
    ensures Bytes(src, j) + (k - j) <= Bytes(src, k)
    decreases k
  {
    hide Encode, IsScalar;
    if j < k {
      EncodeOneMore(src, k - 1);
      BytesMonotone(src, j, k - 1);
    }
  }

  /** `read` is the largest number of leading characters that fit in `room`. */
  ghost predicate LongestFit(src: seq<CodePoint>, room: nat, read: nat)
    requires AllScalars(src)
  {
    read <= |src| && forall k :: 0 <= k <= |src| ==> (Bytes(src, k) <= room <==> k <= read)
  }

  lemma StopsAtLongest(src: seq<CodePoint>, room: nat, read: nat)
    requires AllScalars(src) && read <= |src| && Bytes(src, read) <= room
    requires read < |src| ==> Bytes(src, read + 1) > room
    ensures LongestFit(src, room, read)
  {
    forall k | 0 <= k <= |src|
      ensures Bytes(src, k) <= room <==> k <= read
    {
      if k <= read {
        BytesMonotone(src, k, read);
      } else {
        BytesMonotone(src, read + 1, k);
      }
    }
  }

  // ---------- text_encode_into ----------

  /** `offset as usize` of a 32-bit signed offset on a 32-bit target. */
  function AsUsize(offset: int): int {
    if offset < 0 then offset + 0x1_0000_0000 else offset
  }

  function Start(length: nat, offset: int): (at: nat)
    requires -0x8000_0000 <= offset < 0x8000_0000
    ensures at <= length
    ensures length < 0x8000_0000 ==> at == if 0 <= offset < length then offset else length
  {
    if length < AsUsize(offset) then length else AsUsize(offset)
  }

  predicate IsUtf8Label(utfLabel: string) {
    utfLabel == "" || utfLabel == "utf8" || utfLabel == "utf-8"
  }

  /**
    `undefined` (None) when an argument is missing or the label is unknown; otherwise
    the counts of characters read and bytes written. A Rust slice is shorter than
    2^31 bytes on a 32-bit target.
   */
  method TextEncodeInto(src: Option<seq<CodePoint>>, utfLabel: string, dest: Option<array<bv8>>, offset: Option<int>)
      returns (r: Option<(nat, nat)>)
    requires src.Some? ==> AllScalars(src.value)
    requires dest.Some? ==> dest.value.Length < 0x8000_0000
    requires offset.Some? ==> -0x8000_0000 <= offset.value < 0x8000_0000
    modifies if dest.Some? then {dest.value} else {}
    ensures r.Some? <==>
            src.Some? && dest.Some? && offset.Some? && (utfLabel == "" || utfLabel == "utf8" || utfLabel == "utf-8")
    ensures r.None? && dest.Some? ==> dest.value[..] == old(dest.value[..])
    ensures r.Some? ==>
              var dst, at, (read, written) := dest.value, Start(dest.value.Length, offset.value), r.value;
              && LongestFit(src.value, dst.Length - at, read)
              && written == Bytes(src.value, read)
              && Written(dst[..], old(dst[..]), at, EncodeAll(src.value[..read]))
              && read <= written < 0x8000_0000
  {
    if src.None? || dest.None? || offset.None? || !IsUtf8Label(utfLabel) {
      return None;
    }
    var at := Start(dest.value.Length, offset.value);
    var read, written := EncodeFrom(src.value, dest.value, at);
    r := Some((read, written));
  }

  method EncodeFrom(src: seq<CodePoint>, dst: array<bv8>, at: nat) returns (read: nat, written: nat)
    requires AllScalars(src) && at <= dst.Length
    modifies dst
    ensures LongestFit(src, dst.Length - at, read)
    ensures written == Bytes(src, read)
    ensures Written(dst[..], old(dst[..]), at, EncodeAll(src[..read]))
    ensures read <= written <= dst.Length
  {
    hide Encode, Written, EncodeAll;
    read, written := 0, 0;
    NothingWritten(src, dst[..], at);
    while read < |src|
      invariant 0 <= read <= |src|
      invariant written == Bytes(src, read) && at + written <= dst.Length
      invariant Written(dst[..], old(dst[..]), at, EncodeAll(src[..read]))
    {
      EncodeOneMore(src, read);
      ghost var now := dst[..];
      var n := EncodeUtf8Raw(src[read], dst, written + at);
      if n.None? {
        break;
      }
      WrittenMore(dst[..], now, old(dst[..]), at, EncodeAll(src[..read]), Encode(src[read]));
      written := written + n.value;
      read := read + 1;
    }
    StopsAtLongest(src, dst.Length - at, read);
    BytesMonotone(src, 0, read);
  }

  lemma NothingWritten(src: seq<CodePoint>, was: seq<bv8>, at: nat)
    requires at <= |was| && AllScalars(src)
    ensures Written(was, was, at, EncodeAll(src[..0])) && Bytes(src, 0) == 0
  {
  }

  lemma WrittenMore(later: seq<bv8>, now: seq<bv8>, was: seq<bv8>, at: nat, a: seq<bv8>, b: seq<bv8>)
    requires Written(now, was, at, a) && Written(later, now, at + |a|, b)
    ensures Written(later, was, at, a + b)
  {
    assert now[..at + |a|] == was[..at] + a;
    assert now[at + |a| + |b|..] == was[at + |a| + |b|..];
  }
}
