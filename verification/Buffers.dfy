/** Buffers of bytes and words: writing a stretch in place, and numbers in little-endian order. */
module Buffers {
  newtype byte = x: int | 0 <= x < 256

  /** The first `k` elements of `out`, then what was in the buffer. */
  ghost function Partly<T>(out: seq<T>, was: seq<T>, k: nat): seq<T>
    requires k <= |out| && k <= |was|
  {
    out[..k] + was[k..]
  }

  ghost function Spliced<T>(s: seq<T>, at: nat, x: seq<T>): seq<T>
    requires at + |x| <= |s|
  {
    s[..at] + x + s[at + |x|..]
  }

  lemma Grows<T>(out: seq<T>, was: seq<T>, k: nat, x: seq<T>, rest: seq<T>)
    requires k <= |out| <= |was| && out[k..] == x + rest
    ensures k + |x| <= |out| && Spliced(Partly(out, was, k), k, x) == Partly(out, was, k + |x|) &&
      out[k + |x|..] == rest
  {
    assert out[k..][..|x|] == out[k..k + |x|] && out[k..][|x|..] == out[k + |x|..];
  }

  /** Writes `x` at position `at`. */
  method Write<T>(dst: array<T>, at: nat, x: seq<T>)
    requires at + |x| <= dst.Length
    modifies dst
    ensures dst[..] == Spliced(old(dst[..]), at, x)
  {
    for k := 0 to |x|
      invariant dst[..] == Spliced(old(dst[..]), at, x[..k])
    {
      dst[at + k] := x[k];
      assert x[..k + 1] == x[..k] + [x[k]];
    }
    assert x[..|x|] == x;
  }

  /** Reading back a stretch: the one written, or one that was not touched. */
  lemma SpliceReads<T>(s: seq<T>, at: nat, x: seq<T>, from: nat, to: nat)
    requires at + |x| <= |s| && from <= to <= |s|
    ensures from == at && to == at + |x| ==> Spliced(s, at, x)[from..to] == x
    ensures to <= at || at + |x| <= from ==> Spliced(s, at, x)[from..to] == s[from..to]
  {
  }

  // ---------------------------------------------------------------- little-endian numbers

  function Power(k: nat): nat {
    if k == 0 then 1 else 256 * Power(k - 1)
  }

  /** `n` in `k` bytes, the lowest first; higher bits are dropped. */
  function Little(n: nat, k: nat): (r: seq<byte>)
    ensures |r| == k
  {
    if k == 0 then [] else [(n % 256) as byte] + Little(n / 256, k - 1)
  }

  function Value(bs: seq<byte>): nat {
    if bs == [] then 0 else bs[0] as nat + 256 * Value(bs[1..])
  }

  lemma {:induction false} LittleReads(n: nat, k: nat)
    requires n < Power(k)
    ensures Value(Little(n, k)) == n
  {
    if k > 0 {
      LittleReads(n / 256, k - 1);
      assert Little(n, k)[1..] == Little(n / 256, k - 1);
    }
  }

  lemma Powers()
    ensures Power(4) == 0x1_0000_0000 && Power(8) == 0x1_0000_0000_0000_0000
  {
    assert Power(2) == 65536;
    assert Power(4) == 256 * (256 * Power(2));
    assert Power(6) == 256 * (256 * Power(4));
  }

  // ---------------------------------------------------------------- stretches of a buffer

  /** A size rounded up to a multiple of four. */
  function Align4(n: nat): nat {
    (n + 3) / 4 * 4
  }

  lemma AlignIs(n: nat)
    ensures n <= Align4(n) < n + 4 && Align4(n) % 4 == 0
  {
  }

  function Zeros(n: nat): (r: seq<byte>)
    ensures |r| == n
  {
    seq(n, _ => 0)
  }

  /** `x` is in the buffer at `at`. */
  ghost predicate Holds(buf: seq<byte>, at: nat, x: seq<byte>) {
    at + |x| <= |buf| && buf[at..at + |x|] == x
  }

  /** The number in the `k` bytes at `at`. */
  function Number(buf: seq<byte>, at: nat, k: nat): nat
    requires at + k <= |buf|
  {
    Value(buf[at..at + k])
  }

  lemma Slice(buf: seq<byte>, at: nat, x: seq<byte>, d: nat, e: nat)
    requires Holds(buf, at, x) && d <= e <= |x|
    ensures buf[at + d..at + e] == x[d..e]
  {
    var y := buf[at..at + |x|];
    assert forall i :: d <= i < e ==> buf[at + i] == y[i] == x[i];
  }

  lemma NumberHeld(buf: seq<byte>, at: nat, n: nat, k: nat, x: seq<byte>, d: nat)
    requires Holds(buf, at, x) && n < Power(k) && d + k <= |x| && x[d..d + k] == Little(n, k)
    ensures Number(buf, at + d, k) == n
  {
    LittleReads(n, k);
    Slice(buf, at, x, d, d + k);
  }
}
