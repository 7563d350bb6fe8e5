/**
 The bytes themselves: where the fields of a serialized cache (libs/utils/BlobCache.cpp) and of the
 values in a Parcel (libs/binder/Parcel.cpp) lie, and what every byte of them is.
 */
module Layouts {
  import opened Wrappers
  import opened Buffers
  import BlobCache
  import Parcel

  /** Byte number `i` of a word, the lowest being number 0. */
  function Part(n: nat, unit: nat): byte
    requires unit > 0
  {
    (n / unit % 256) as byte
  }

  function Four(n: nat): seq<byte> {
    [Part(n, 1), Part(n, 0x100), Part(n, 0x1_0000), Part(n, 0x100_0000)]
  }

  function Eight(n: nat): seq<byte> {
    Four(n) + Four(n / 0x1_0000_0000)
  }

  lemma Quarter(n: nat)
    ensures n / 256 / 256 == n / 0x1_0000 && n / 256 / 256 / 256 == n / 0x100_0000
    ensures n / 256 / 256 / 256 / 256 == n / 0x1_0000_0000
  {
  }

  lemma LittleIsFour(n: nat, k: nat)
    requires k >= 4
    ensures Little(n, k) == Four(n) + Little(n / 0x1_0000_0000, k - 4)
  {
    Quarter(n);
    var a, b, c := n / 256, n / 256 / 256, n / 256 / 256 / 256;
    assert Little(n, k) == [(n % 256) as byte] + Little(a, k - 1);
    assert Little(a, k - 1) == [(a % 256) as byte] + Little(b, k - 2);
    assert Little(b, k - 2) == [(b % 256) as byte] + Little(c, k - 3);
    assert Little(c, k - 3) == [(c % 256) as byte] + Little(c / 256, k - 4);
  }

  /** Words of four and of eight bytes are stored with the lowest byte first. */
  lemma WordsAreLittle(n: nat)
    ensures Little(n, 4) == Four(n) && Little(n, 8) == Eight(n)
  {
    var k: nat := 4;
    LittleIsFour(n, k);
    LittleIsFour(n, k + k);
    LittleIsFour(n / 0x1_0000_0000, k);
    assert Little(n, k) == Four(n) + [];
    assert Little(n / 0x1_0000_0000, k) == Four(n / 0x1_0000_0000) + [];
  }

  // ---------------------------------------------------------------- a serialized cache

  /** The first fields of the header: "$bB_", version 3, device version 1. */
  lemma VersionBytes()
    ensures BlobCache.Versions() == [0x24, 0x62, 0x42, 0x5F] + [3, 0, 0, 0] + [1, 0, 0, 0]
  {
    WordsAreLittle(BlobCache.MAGIC);
    WordsAreLittle(3);
    WordsAreLittle(1);
  }

  /** The serialized cache: versions at 0, the number of entries at 16, the length of the build id at
      24 and the build id at 28. */
  lemma HeaderBytes(buf: seq<byte>, m: BlobCache.Entries, keys: seq<BlobCache.Blob>, id: seq<byte>)
    requires (forall k: BlobCache.Blob :: k in keys ==> k in m) && BlobCache.Flat(buf, m, keys, id)
    ensures |buf| >= 28 + |id|
    ensures buf[0..12] == [0x24, 0x62, 0x42, 0x5F] + [3, 0, 0, 0] + [1, 0, 0, 0]
    ensures buf[16..24] == Eight(|keys|) && buf[24..28] == Four(|id|) && buf[28..28 + |id|] == id
  {
    VersionBytes();
    WordsAreLittle(|keys|);
    WordsAreLittle(|id|);
    var y := BlobCache.Counts(|keys|, id);
    assert y[0..8] == Eight(|keys|) && y[8..12] == Four(|id|) && y[12..12 + |id|] == id;
    Slice(buf, 16, y, 0, 8);
    Slice(buf, 16, y, 8, 12);
    Slice(buf, 16, y, 12, 12 + |id|);
  }

  /** One entry: the size of the key at 0, of the value at 8, the key at 16, the value behind it, and
      zeros up to the next multiple of four. */
  lemma EntryIs(k: BlobCache.Blob, v: BlobCache.Blob)
    ensures var x, n := BlobCache.EntryBytes(k, v), 16 + |k| + |v|;
      && n <= |x| < n + 4 && |x| % 4 == 0
      && x[0..8] == Eight(|k|) && x[8..16] == Eight(|v|) && x[16..16 + |k|] == k && x[16 + |k|..n] == v
      && forall i: int :: n <= i < |x| ==> x[i] == 0
  {
    WordsAreLittle(|k|);
    WordsAreLittle(|v|);
    BlobCache.EntryLayout(k, v);
    AlignIs(16 + |k| + |v|);
    Tail(Little(|k|, 8) + Little(|v|, 8) + k + v, Align4(16 + |k| + |v|) - (16 + |k| + |v|));
  }

  lemma Tail(x: seq<byte>, n: nat)
    ensures |x + Zeros(n)| == |x| + n && (x + Zeros(n))[..|x|] == x
    ensures forall i: int :: |x| <= i < |x| + n ==> (x + Zeros(n))[i] == 0
  {
  }

  // ---------------------------------------------------------------- values in a parcel

  /** The number as an unsigned word. */
  lemma Wraps(v: int, m: nat)
    requires m > 0 && 0 - m < v < m
    ensures Parcel.Unsigned(v, m) == v % m
  {
  }

  /** Numbers are stored in two's complement. */
  lemma NumberBytes(i: int, l: int)
    requires Parcel.InRange(Parcel.Int32(i)) && Parcel.InRange(Parcel.Int64(l))
    ensures Parcel.Encode(Parcel.Int32(i)) == Four(i % 0x1_0000_0000)
    ensures Parcel.Encode(Parcel.Int64(l)) == Eight(l % 0x1_0000_0000_0000_0000)
  {
    Wraps(i, Parcel.U32);
    Wraps(l, Parcel.U64);
    WordsAreLittle(i % 0x1_0000_0000);
    WordsAreLittle(l % 0x1_0000_0000_0000_0000);
  }

  /** `x` is `head`, then `body`, then zeros up to a multiple of four. */
  ghost predicate PaddedTo(x: seq<byte>, head: seq<byte>, body: seq<byte>) {
    && |head| + |body| <= |x| < |head| + |body| + 4 && |x| % 4 == |head| % 4
    && x[..|head|] == head && x[|head|..|head| + |body|] == body
    && forall i: int :: |head| + |body| <= i < |x| ==> x[i] == 0
  }

  lemma PaddedIs(head: seq<byte>, body: seq<byte>)
    ensures PaddedTo(head + Parcel.Padded(body), head, body)
  {
    AlignIs(|body|);
    var n := Align4(|body|) - |body|;
    assert head + Parcel.Padded(body) == head + body + Zeros(n);
    Tail(head + body, n);
    var x := head + body + Zeros(n);
    assert x[..|head|] == head && x[|head|..|head| + |body|] == body;
  }

  /** A block is its bytes, padded. */
  lemma BlockBytes(b: seq<byte>)
    requires Parcel.InRange(Parcel.Block(b))
    ensures PaddedTo(Parcel.Encode(Parcel.Block(b)), [], b)
  {
    PaddedIs([], b);
    assert [] + Parcel.Padded(b) == Parcel.Padded(b);
  }

  /** A String8 is its length and its characters with a terminator, padded; an empty one is a zero. */
  lemma String8Bytes(s: seq<byte>)
    requires Parcel.InRange(Parcel.Str8(s))
    ensures s == [] ==> Parcel.Encode(Parcel.Str8(s)) == [0, 0, 0, 0]
    ensures s != [] ==> PaddedTo(Parcel.Encode(Parcel.Str8(s)), Four(|s|), s + [0])
  {
    WordsAreLittle(|s|);
    PaddedIs(Four(|s|), s + [0]);
  }

  /** The units of a UTF-16 string are stored with the lower byte first. */
  lemma {:induction false} UnitsAre(u: seq<Parcel.char16>, i: nat)
    requires i < |u|
    ensures var x := Parcel.UnitBytes(u);
      x[2 * i] == Part(u[i] as nat, 1) && x[2 * i + 1] == Part(u[i] as nat, 0x100)
  {
    var k: nat := 2;
    assert Little(u[0] as nat, k) == [(u[0] as nat % 256) as byte] + Little(u[0] as nat / 256, k - 1);
    assert Little(u[0] as nat / 256, k - 1) == [(u[0] as nat / 256 % 256) as byte] + Little(u[0] as nat / 256 / 256,
      k - 2);
    if i > 0 {
      UnitsAre(u[1..], i - 1);
    }
  }

  /** A String16 is its length and its units with a terminator, padded; a null one is a -1. */
  lemma String16Bytes(u: seq<Parcel.char16>)
    requires Parcel.InRange(Parcel.Str16(Some(u)))
    ensures Parcel.Encode(Parcel.Str16(None)) == [255, 255, 255, 255]
    ensures PaddedTo(Parcel.Encode(Parcel.Str16(Some(u))), Four(|u|), Parcel.UnitBytes(u) + [0, 0])
  {
    WordsAreLittle(|u|);
    PaddedIs(Four(|u|), Parcel.UnitBytes(u) + [0, 0]);
    MinusOne();
  }

  lemma MinusOne()
    ensures Parcel.Int32Bytes(-1) == [255, 255, 255, 255]
  {
    WordsAreLittle(0xFFFF_FFFF);
  }

  /** Raw bytes are read exactly if there are no more than 0x7FFF_FFFF of them and they lie in the data
      with the bytes that round their number up to a multiple of four. */
  lemma BlockIsReadIff(b: seq<byte>, pos: nat, len: nat)
    ensures Parcel.ReadItem(b, pos, Parcel.IsBlock(len)).Some? <==>
      len <= 0x7FFF_FFFF && pos + (len + 3) / 4 * 4 <= |b|
    ensures Parcel.ReadItem(b, pos, Parcel.IsBlock(len)).Some? ==>
      pos + len <= |b| && Parcel.ReadItem(b, pos, Parcel.IsBlock(len)).value ==
        (Parcel.Block(b[pos..pos + len]), pos + (len + 3) / 4 * 4)
  {
    AlignIs(len);
  }
}
