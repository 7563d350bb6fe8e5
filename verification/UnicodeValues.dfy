/**
 The two encodings against their definitions (libs/utils/Unicode.cpp): which bits of the code point
 each byte of section 3 of RFC 3629 and each unit of section 2 of RFC 2781 carries.
 */
module UnicodeValues {
  import opened UnicodeBits
  import opened Unicode

  /** The low bits of a byte, as a word. */
  function Low8(b: Byte, mask: Byte): CodePoint {
    (b & mask) as bv32
  }

  /** 110xxxxx 10xxxxxx. */
  predicate Is2(c: CodePoint, a: Byte, b: Byte) {
    a & 0xE0 == 0xC0 && b & 0xC0 == 0x80 && c == (Low8(a, 0x1F) << 6) | Low8(b, 0x3F)
  }

  /** 1110xxxx 10xxxxxx 10xxxxxx. */
  predicate Is3(c: CodePoint, a: Byte, b: Byte, d: Byte) {
    && a & 0xF0 == 0xE0 && b & 0xC0 == 0x80 && d & 0xC0 == 0x80
    && c == (Low8(a, 0x0F) << 12) | (Low8(b, 0x3F) << 6) | Low8(d, 0x3F)
  }

  /** 11110xxx 10xxxxxx 10xxxxxx 10xxxxxx. */
  predicate Is4(c: CodePoint, a: Byte, b: Byte, d: Byte, e: Byte) {
    && a & 0xF8 == 0xF0 && b & 0xC0 == 0x80 && d & 0xC0 == 0x80 && e & 0xC0 == 0x80
    && c == (Low8(a, 0x07) << 18) | (Low8(b, 0x3F) << 12) | (Low8(d, 0x3F) << 6) | Low8(e, 0x3F)
  }

  lemma Bits2(c: CodePoint)
    requires 0x80 <= c < 0x800
    ensures Is2(c, Lead2(c), Trail(c))
  {
  }

  lemma Bits3(c: CodePoint)
    requires 0x800 <= c < 0x10000
    ensures Is3(c, Lead3(c), Trail(c >> 6), Trail(c))
  {
  }

  lemma Bits4(c: CodePoint)
    requires 0x10000 <= c <= 0x10FFFF
    ensures Is4(c, Lead4(c), Trail(c >> 12), Trail(c >> 6), Trail(c))
  {
  }

  /** The bytes of the definition, in the shortest form. */
  predicate Defines(e: seq<Byte>, c: CodePoint) {
    if c < 0x80 then |e| == 1 && e[0] as bv32 == c
    else if c < 0x800 then |e| == 2 && Is2(c, e[0], e[1])
    else if c < 0x10000 then |e| == 3 && Is3(c, e[0], e[1], e[2])
    else |e| == 4 && Is4(c, e[0], e[1], e[2], e[3])
  }

  lemma Two(c: CodePoint, a: Byte, b: Byte)
    requires 0x80 <= c < 0x800 && Is2(c, a, b)
    ensures Defines([a, b], c)
  {
  }

  lemma Three(c: CodePoint, a: Byte, b: Byte, d: Byte)
    requires 0x800 <= c < 0x10000 && Is3(c, a, b, d)
    ensures Defines([a, b, d], c)
  {
  }

  lemma OfFour(c: CodePoint, a: Byte, b: Byte, d: Byte, e: Byte)
    requires 0x10000 <= c && Is4(c, a, b, d, e)
    ensures Defines([a, b, d, e], c)
  {
  }

  lemma Encodes(c: CodePoint)
    requires Scalar(c) && c >= 0x80
    ensures c < 0x800 ==> Encode8(c) == [Lead2(c), Trail(c)]
    ensures 0x800 <= c < 0x10000 ==> Encode8(c) == [Lead3(c), Trail(c >> 6), Trail(c)]
    ensures c >= 0x10000 ==> Encode8(c) == [Lead4(c), Trail(c >> 12), Trail(c >> 6), Trail(c)]
  {
  }

  /** The bytes written for a scalar value are those of the definition, in the shortest form. */
  lemma BytesAreDefined(c: CodePoint)
    requires Scalar(c)
    ensures Defines(Encode8(c), c)
  {
    if c < 0x80 {
      Ascii(c);
    } else {
      Encodes(c);
      MoreBytes(c);
    }
  }

  lemma MoreBytes(c: CodePoint)
    requires Scalar(c) && c >= 0x80
    ensures c < 0x800 ==> Defines([Lead2(c), Trail(c)], c)
    ensures 0x800 <= c < 0x10000 ==> Defines([Lead3(c), Trail(c >> 6), Trail(c)], c)
    ensures c >= 0x10000 ==> Defines([Lead4(c), Trail(c >> 12), Trail(c >> 6), Trail(c)], c)
  {
    if c < 0x800 {
      Bits2(c);
      Two(c, Lead2(c), Trail(c));
    } else if c < 0x10000 {
      Bits3(c);
      Three(c, Lead3(c), Trail(c >> 6), Trail(c));
    } else {
      Bits4(c);
      OfFour(c, Lead4(c), Trail(c >> 12), Trail(c >> 6), Trail(c));
    }
  }

  lemma Ascii(c: CodePoint)
    requires c < 0x80
    ensures Lead1(c) as bv32 == c
  {
  }

  /** 110110xxxxxxxxxx 110111xxxxxxxxxx, for the code point less 0x10000. */
  predicate IsPair(c: CodePoint, h: Unit, l: Unit) {
    && h & 0xFC00 == 0xD800 && l & 0xFC00 == 0xDC00
    && c - 0x10000 == (((h & 0x3FF) as bv32) << 10) | ((l & 0x3FF) as bv32)
  }

  lemma PairBits(c: CodePoint)
    requires 0x10000 <= c <= 0x10FFFF
    ensures IsPair(c, HighOf(c), LowOf(c))
  {
  }

  lemma Single(c: CodePoint)
    requires c <= 0xFFFF
    ensures (c as bv16) as bv32 == c
  {
  }

  /** The units written for a scalar value are those of the definition. */
  lemma UnitsAreDefined(c: CodePoint)
    requires Scalar(c)
    ensures var e := Encode16(c);
      if c <= 0xFFFF then |e| == 1 && e[0] as bv32 == c else |e| == 2 && IsPair(c, e[0], e[1])
  {
    if c <= 0xFFFF {
      Single(c);
    } else {
      PairBits(c);
    }
  }

  lemma Joined2(a: Byte, b: Byte)
    ensures Value2(a, b) == (Low8(a, 0x1F) << 6) | Low8(b, 0x3F)
  {
  }

  lemma Joined3(a: Byte, b: Byte, d: Byte)
    ensures Value3(a, b, d) == (Low8(a, 0x0F) << 12) | (Low8(b, 0x3F) << 6) | Low8(d, 0x3F)
  {
  }

  lemma Joined4(a: Byte, b: Byte, d: Byte, e: Byte)
    ensures Value4(a, b, d, e) == (Low8(a, 0x07) << 18) | (Low8(b, 0x3F) << 12) | (Low8(d, 0x3F) << 6) | Low8(e, 0x3F)
  {
  }

  /** Any bytes, well-formed or not, are decoded to the low bits of the first joined with the low six
      of each that follows. */
  lemma AnyBytesAreJoined(m: seq<Byte>, i: nat)
    requires i + 3 < |m|
    ensures var a, b, d, e, c := m[i], Low8(m[i + 1], 0x3F), Low8(m[i + 2], 0x3F), Low8(m[i + 3], 0x3F), Decode8(m, i);
      match SequenceLength(a)
      case 1 => c == a as bv32
      case 2 => c == (Low8(a, 0x1F) << 6) | b
      case 3 => c == (Low8(a, 0x0F) << 12) | (b << 6) | d
      case _ => c == (Low8(a, 0x07) << 18) | (b << 12) | (d << 6) | e
  {
    Joined2(m[i], m[i + 1]);
    Joined3(m[i], m[i + 1], m[i + 2]);
    Joined4(m[i], m[i + 1], m[i + 2], m[i + 3]);
  }
}
