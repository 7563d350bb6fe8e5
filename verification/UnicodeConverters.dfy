/**
 The conversion loops of libs/utils/Unicode.cpp: cursors that advance over the input and write
 the output buffer in place.
 */
module UnicodeConverters {
  import opened Buffers
  import opened UnicodeBits
  import opened Unicode

  lemma Terminated<T>(out: seq<T>, was: seq<T>, z: T)
    requires |out| < |was|
    ensures Partly(out, was, |out|)[|out| := z] == Spliced(was, 0, out + [z])
  {
  }

  /** utf16_to_utf8: the encoded bytes and a terminator; nothing at all for an empty string. */
  method Utf16ToUtf8(src: seq<Unit>, dst: array<Byte>)
    requires |To8(src, 0)| < dst.Length
    modifies dst
    ensures src == [] ==> dst[..] == old(dst[..])
    ensures src != [] ==> dst[..] == Spliced(old(dst[..]), 0, To8(src, 0) + [0])
  {
    if src == [] {
      return;
    }
    ghost var out, was := To8(src, 0), dst[..];
    var cur := WriteAll8(src, dst, out);
    Terminated(out, was, 0);
    dst[cur] := 0;
  }

  /** The loop of utf16_to_utf8. */
  method WriteAll8(src: seq<Unit>, dst: array<Byte>, ghost out: seq<Byte>) returns (cur: nat)
    requires out == To8(src, 0) && |out| <= dst.Length
    modifies dst
    ensures cur == |out| && dst[..] == Partly(out, old(dst[..]), cur)
  {
    var i: nat := 0;
    cur := 0;
    while i < |src|
      invariant i <= |src| && cur <= |out| && dst[..] == Partly(out, old(dst[..]), cur) && out[cur..] == To8(src, i)
      decreases |src| - i
    {
      i, cur := Next8Bytes(src, i, dst, cur, out, old(dst[..]));
    }
  }

  /** One character of utf16_to_utf8. */
  method Next8Bytes(src: seq<Unit>, i: nat, dst: array<Byte>, cur: nat, ghost out: seq<Byte>, ghost was: seq<Byte>)
    returns (j: nat, next: nat)
    requires i < |src| && cur <= |out| <= |was| && |was| == dst.Length
    requires dst[..] == Partly(out, was, cur) && out[cur..] == To8(src, i)
    modifies dst
    ensures i < j <= |src| && next <= |out| && dst[..] == Partly(out, was, next) && out[next..] == To8(src, j)
  {
    j := i + Width16(src, i);
    var bytes := Encode8(Decode16(src, i));
    Grows(out, was, cur, bytes, To8(src, j));
    Write(dst, cur, bytes);
    next := cur + |bytes|;
  }

  /** utf16_to_utf8_length; -1 for an empty string. */
  method Utf16ToUtf8Length(src: seq<Unit>) returns (r: int)
    ensures src == [] ==> r == -1
    ensures src != [] ==> r == Measure8(src, 0) && r <= |To8(src, 0)|
    ensures src != [] && WellFormed16(src, 0) ==> r == |To8(src, 0)|
  {
    if src == [] {
      return -1;
    }
    Measure8IsExact(src);
    if WellFormed16(src, 0) {
      WellFormedIsMeasured(src, 0);
    }
    r := 0;
    var i := 0;
    while i < |src|
      invariant 0 <= i <= |src| && r + Measure8(src, i) == Measure8(src, 0)
      decreases |src| - i
    {
      if High(src[i]) && i + 1 < |src| {
        i := i + 1;
        if Low(src[i]) {
          r := r + 4;
        } else {
          r := r + Length8(src[i] as bv32);
        }
      } else {
        r := r + Length8(src[i] as bv32);
      }
      i := i + 1;
    }
  }

  /** utf8_to_utf16_no_null_terminator on the first `n` bytes of memory; returns how many units
      were written. */
  method Utf8ToUtf16(m: seq<Byte>, n: nat, dst: array<Unit>) returns (written: nat)
    requires n + 3 <= |m| && |To16(m, 0, n)| <= dst.Length
    modifies dst
    ensures written == |To16(m, 0, n)| && dst[..] == Spliced(old(dst[..]), 0, To16(m, 0, n))
  {
    ghost var out := To16(m, 0, n);
    var i: nat := 0;
    written := 0;
    while i < n
      invariant written <= |out| && dst[..] == Partly(out, old(dst[..]), written) && out[written..] == To16(m, i, n)
      decreases n - i
    {
      i, written := Next16Units(m, i, n, dst, written, out, old(dst[..]));
    }
  }

  /** One sequence of utf8_to_utf16. */
  method Next16Units(m: seq<Byte>, i: nat, n: nat, dst: array<Unit>, cur: nat, ghost out: seq<Unit>,
    ghost was: seq<Unit>)
    returns (j: nat, next: nat)
    requires i < n && n + 3 <= |m| && cur <= |out| <= |was| && |was| == dst.Length
    requires dst[..] == Partly(out, was, cur) && out[cur..] == To16(m, i, n)
    modifies dst
    ensures i < j && next <= |out| && dst[..] == Partly(out, was, next) && out[next..] == To16(m, j, n)
  {
    j := i + SequenceLength(m[i]);
    var units := Encode16(Decode8(m, i));
    Grows(out, was, cur, units, To16(m, j, n));
    Write(dst, cur, units);
    next := cur + |units|;
  }

  /** utf8_to_utf16_length. */
  method Utf8ToUtf16Length(m: seq<Byte>, n: nat) returns (r: int)
    requires n + 3 <= |m|
    ensures r == if EndsAt(m, 0, n) then |To16(m, 0, n)| else -1
  {
    Measure16IsExact(m, 0, n);
    var i: nat, measured := 0, 0;
    while i < n
      invariant EndsAt(m, i, n) == EndsAt(m, 0, n) && measured + |To16(m, i, n)| == |To16(m, 0, n)|
      decreases n - i
    {
      measured := measured + 1;
      if Decode8(m, i) > 0xFFFF {
        measured := measured + 1;
      }
      i := i + SequenceLength(m[i]);
    }
    return if i != n then -1 else measured;
  }
}
