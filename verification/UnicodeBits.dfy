/**
 The masks and shifts of the UTF-8 and UTF-16 conversions (libs/utils/Unicode.cpp) on words of
 8, 16 and 32 bits, one character at a time.
 */
module UnicodeBits {
  type Byte = bv8
  type Unit = bv16
  type CodePoint = bv32

  /** utf32_codepoint_utf8_length: 0 for surrogates and for numbers above 0x10FFFF. */
  function Length8(c: CodePoint): nat {
    if c < 0x80 then 1
    else if c < 0x800 then 2
    else if c < 0x10000 then (if c < 0xD800 || c > 0xDFFF then 3 else 0)
    else if c <= 0x10FFFF then 4
    else 0
  }

  /** A Unicode scalar value. */
  predicate Scalar(c: CodePoint) {
    c <= 0x10FFFF && !(0xD800 <= c <= 0xDFFF)
  }

  // The bytes utf32_codepoint_to_utf8 writes: a first byte for each length, and the others.

  function Lead1(c: CodePoint): Byte
    requires c < 0x80
  {
    c as bv8
  }

  function Lead2(c: CodePoint): Byte
    requires c < 0x800
  {
    ((c >> 6) | 0xC0) as bv8
  }

  function Lead3(c: CodePoint): Byte
    requires c < 0x10000
  {
    ((c >> 12) | 0xE0) as bv8
  }

  function Lead4(c: CodePoint): Byte
    requires c <= 0x10FFFF
  {
    ((c >> 18) | 0xF0) as bv8
  }

  function Trail(c: CodePoint): Byte {
    ((c | 0x80) & 0xBF) as bv8
  }

  /** utf8_shift_and_mask. */
  function ShiftIn(u: CodePoint, b: Byte): CodePoint {
    (u << 6) | ((0x3F & b) as bv32)
  }

  // utf8_to_utf32_codepoint for each length.

  function Value1(a: Byte): CodePoint {
    a as bv32
  }

  function Value2(a: Byte, b: Byte): CodePoint {
    ShiftIn((a & 0x1F) as bv32, b)
  }

  function Value3(a: Byte, b: Byte, d: Byte): CodePoint {
    ShiftIn(ShiftIn((a & 0x0F) as bv32, b), d)
  }

  function Value4(a: Byte, b: Byte, d: Byte, e: Byte): CodePoint {
    ShiftIn(ShiftIn(ShiftIn((a & 0x07) as bv32, b), d), e)
  }

  /** utf8_codepoint_len: a table of two-bit entries indexed by the upper half of the byte. */
  function SequenceLength(b: Byte): nat {
    (((0xE5000000 as bv32) >> ((b >> 3) & 0x1E)) & 3) as nat + 1
  }

  lemma SequenceLengthIs(b: Byte)
    ensures SequenceLength(b) == if b >= 0xF0 then 4 else if b >= 0xE0 then 3 else if b >= 0xC0 then 2 else 1
  {
  }

  /** A continuation byte. */
  predicate Tail(b: Byte) {
    0x80 <= b <= 0xBF
  }

  // The byte ranges of section 4 of RFC 3629.

  predicate Pair8(a: Byte, b: Byte) {
    0xC2 <= a <= 0xDF && Tail(b)
  }

  predicate Triple8(a: Byte, b: Byte, d: Byte) {
    && Tail(d)
    && ((a == 0xE0 && 0xA0 <= b <= 0xBF) || (0xE1 <= a <= 0xEC && Tail(b))
        || (a == 0xED && 0x80 <= b <= 0x9F) || (0xEE <= a <= 0xEF && Tail(b)))
  }

  predicate Quad8(a: Byte, b: Byte, d: Byte, e: Byte) {
    && Tail(d) && Tail(e)
    && ((a == 0xF0 && 0x90 <= b <= 0xBF) || (0xF1 <= a <= 0xF3 && Tail(b)) || (a == 0xF4 && 0x80 <= b <= 0x8F))
  }

  // ---------------------------------------------------------------- encode, then decode

  lemma Decode1(c: CodePoint)
    requires c < 0x80
    ensures Lead1(c) <= 0x7F && Value1(Lead1(c)) == c
  {
  }

  lemma Decode2(c: CodePoint)
    requires 0x80 <= c < 0x800
    ensures Pair8(Lead2(c), Trail(c)) && Value2(Lead2(c), Trail(c)) == c
  {
  }

  lemma Range3(c: CodePoint)
    requires 0x800 <= c < 0x10000 && Scalar(c)
    ensures Triple8(Lead3(c), Trail(c >> 6), Trail(c))
  {
  }

  lemma Decode3(c: CodePoint)
    requires 0x800 <= c < 0x10000
    ensures Value3(Lead3(c), Trail(c >> 6), Trail(c)) == c
  {
  }

  lemma Range4(c: CodePoint)
    requires 0x10000 <= c <= 0x10FFFF
    ensures Quad8(Lead4(c), Trail(c >> 12), Trail(c >> 6), Trail(c))
  {
  }

  lemma Decode4(c: CodePoint)
    requires 0x10000 <= c <= 0x10FFFF
    ensures Value4(Lead4(c), Trail(c >> 12), Trail(c >> 6), Trail(c)) == c
  {
  }

  lemma ValueBounds(a: Byte, b: Byte, d: Byte, e: Byte)
    ensures Value1(a) <= 0x1FFFFF && Value2(a, b) <= 0x1FFFFF && Value3(a, b, d) <= 0x1FFFFF &&
      Value4(a, b, d, e) <= 0x1FFFFF
  {
  }

  // ---------------------------------------------------------------- decode, then encode

  lemma Encode2(a: Byte, b: Byte)
    requires Pair8(a, b)
    ensures 0x80 <= Value2(a, b) < 0x800 && Lead2(Value2(a, b)) == a && Trail(Value2(a, b)) == b
  {
  }

  lemma Encode3(a: Byte, b: Byte, d: Byte)
    requires Triple8(a, b, d)
    ensures 0x800 <= Value3(a, b, d) < 0x10000 && Scalar(Value3(a, b, d))
    ensures Lead3(Value3(a, b, d)) == a && Trail(Value3(a, b, d) >> 6) == b && Trail(Value3(a, b, d)) == d
  {
  }

  lemma ValueRange4(a: Byte, b: Byte, d: Byte, e: Byte, c: CodePoint)
    requires Quad8(a, b, d, e) && c == Value4(a, b, d, e)
    ensures 0x10000 <= c <= 0x10FFFF
  {
  }

  lemma EncodeLead4(a: Byte, b: Byte, d: Byte, e: Byte, c: CodePoint)
    requires Quad8(a, b, d, e) && c == Value4(a, b, d, e) && c <= 0x10FFFF
    ensures Lead4(c) == a
  {
  }

  lemma EncodeTrails4(a: Byte, b: Byte, d: Byte, e: Byte, c: CodePoint)
    requires Quad8(a, b, d, e) && c == Value4(a, b, d, e)
    ensures Trail(c >> 12) == b && Trail(c >> 6) == d && Trail(c) == e
  {
  }

  // ---------------------------------------------------------------- surrogates

  predicate High(u: Unit) {
    u & 0xFC00 == 0xD800
  }

  predicate Low(u: Unit) {
    u & 0xFC00 == 0xDC00
  }

  /** The code point of a surrogate pair. */
  function Join(h: Unit, l: Unit): CodePoint
    requires High(h) && Low(l)
  {
    (((h as bv32 - 0xD800) << 10) | (l as bv32 - 0xDC00)) + 0x10000
  }

  /** The two units utf8_to_utf16 writes; three-bit leads reach up to 0x1FFFFF. */
  function HighOf(c: CodePoint): Unit
    requires 0x10000 <= c <= 0x1FFFFF
  {
    (((c - 0x10000) >> 10) + 0xD800) as bv16
  }

  function LowOf(c: CodePoint): Unit
    requires 0x10000 <= c <= 0x1FFFFF
  {
    (((c - 0x10000) & 0x3FF) + 0xDC00) as bv16
  }

  lemma JoinRange(h: Unit, l: Unit)
    requires High(h) && Low(l)
    ensures 0x10000 <= Join(h, l) <= 0x10FFFF
  {
  }

  lemma JoinSplits(h: Unit, l: Unit)
    requires High(h) && Low(l) && 0x10000 <= Join(h, l) <= 0x10FFFF
    ensures HighOf(Join(h, l)) == h && LowOf(Join(h, l)) == l
  {
  }

  lemma SplitKinds(c: CodePoint)
    requires 0x10000 <= c <= 0x10FFFF
    ensures High(HighOf(c)) && Low(LowOf(c)) && !High(LowOf(c))
  {
  }

  lemma SplitJoins(c: CodePoint)
    requires 0x10000 <= c <= 0x10FFFF && High(HighOf(c)) && Low(LowOf(c))
    ensures Join(HighOf(c), LowOf(c)) == c
  {
  }

  lemma HighIsNotLow(u: Unit)
    ensures !(High(u) && Low(u)) && (High(u) || Low(u) <==> Length8(u as bv32) == 0)
  {
  }

  lemma PairLength(h: Unit, l: Unit)
    requires High(h) && Low(l)
    ensures Length8(Join(h, l)) == 4
  {
  }

  lemma SingleIsScalar(u: Unit)
    requires !High(u) && !Low(u)
    ensures Scalar(u as bv32) && u as bv32 <= 0xFFFF && (u as bv32) as bv16 == u
  {
  }

  lemma ScalarIsSingle(c: CodePoint)
    requires Scalar(c) && c <= 0xFFFF
    ensures !High(c as bv16) && !Low(c as bv16) && (c as bv16) as bv32 == c
  {
  }
}
