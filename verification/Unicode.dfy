/**
 Conversions of whole strings between UTF-16 and UTF-8 (libs/utils/Unicode.cpp).
 Well-formedness is that of section 4 of RFC 3629 for UTF-8 and of section 2 of RFC 2781 for
 UTF-16.  A UTF-8 string is the first `n` bytes of a memory `m`: the code reads up to three
 bytes beyond the end of a string whose last sequence is cut off.
 */
module Unicode {
  import opened UnicodeBits

  /** utf32_codepoint_to_utf8. */
  function Encode8(c: CodePoint): (r: seq<Byte>)
    ensures |r| == Length8(c)
  {
    if Length8(c) == 1 then [Lead1(c)]
    else if Length8(c) == 2 then [Lead2(c), Trail(c)]
    else if Length8(c) == 3 then [Lead3(c), Trail(c >> 6), Trail(c)]
    else if Length8(c) == 4 then [Lead4(c), Trail(c >> 12), Trail(c >> 6), Trail(c)]
    else []
  }

  /** utf8_to_utf32_codepoint on the sequence that starts at position `i`. */
  function Decode8(m: seq<Byte>, i: nat): (c: CodePoint)
    requires i + 3 < |m|
    ensures c <= 0x1FFFFF
  {
    ValueBounds(m[i], m[i + 1], m[i + 2], m[i + 3]);
    if SequenceLength(m[i]) == 1 then Value1(m[i])
    else if SequenceLength(m[i]) == 2 then Value2(m[i], m[i + 1])
    else if SequenceLength(m[i]) == 3 then Value3(m[i], m[i + 1], m[i + 2])
    else Value4(m[i], m[i + 1], m[i + 2], m[i + 3])
  }

  /** Decoding an encoded scalar value gives it back. */
  lemma DecodesBack(c: CodePoint, m: seq<Byte>, i: nat)
    requires Scalar(c) && i + 3 < |m| && i + Length8(c) <= |m| && m[i..i + Length8(c)] == Encode8(c)
    ensures SequenceLength(m[i]) == Length8(c) && Decode8(m, i) == c
  {
    SequenceLengthIs(m[i]);
    var e := m[i..i + Length8(c)];
    assert m[i] == e[0];
    if c < 0x80 {
      Decode1(c);
    } else if c < 0x800 {
      assert m[i + 1] == e[1];
      Decode2(c);
    } else if c < 0x10000 {
      assert m[i + 1] == e[1] && m[i + 2] == e[2];
      Range3(c);
      Decode3(c);
    } else {
      assert m[i + 1] == e[1] && m[i + 2] == e[2] && m[i + 3] == e[3];
      Range4(c);
      Decode4(c);
    }
  }

  /** The length of the well-formed sequence at position `i`, 0 if there is none. */
  function Sequence(s: seq<Byte>, i: nat): (n: nat)
    requires i < |s|
    ensures i + n <= |s| && n <= 4
  {
    if s[i] <= 0x7F then 1
    else if i + 1 < |s| && Pair8(s[i], s[i + 1]) then 2
    else if i + 2 < |s| && Triple8(s[i], s[i + 1], s[i + 2]) then 3
    else if i + 3 < |s| && Quad8(s[i], s[i + 1], s[i + 2], s[i + 3]) then 4
    else 0
  }

  predicate WellFormed8(s: seq<Byte>, i: nat)
    requires i <= |s|
    decreases |s| - i
  {
    i == |s| || (Sequence(s, i) > 0 && WellFormed8(s, i + Sequence(s, i)))
  }

  lemma Encodes2(a: Byte, b: Byte)
    requires Pair8(a, b)
    ensures SequenceLength(a) == 2 && Scalar(Value2(a, b)) && Encode8(Value2(a, b)) == [a, b]
  {
    SequenceLengthIs(a);
    Encode2(a, b);
  }

  lemma Encodes3(a: Byte, b: Byte, d: Byte)
    requires Triple8(a, b, d)
    ensures SequenceLength(a) == 3 && Scalar(Value3(a, b, d)) && Encode8(Value3(a, b, d)) == [a, b, d]
  {
    SequenceLengthIs(a);
    Encode3(a, b, d);
  }

  lemma FourBytes(c: CodePoint, a: Byte, b: Byte, d: Byte, e: Byte)
    requires 0x10000 <= c <= 0x10FFFF && Lead4(c) == a && Trail(c >> 12) == b && Trail(c >> 6) == d && Trail(c) == e
    ensures Scalar(c) && Encode8(c) == [a, b, d, e]
  {
  }

  lemma Encodes4(a: Byte, b: Byte, d: Byte, e: Byte, c: CodePoint)
    requires Quad8(a, b, d, e) && c == Value4(a, b, d, e)
    ensures Scalar(c) && Encode8(c) == [a, b, d, e]
  {
    ValueRange4(a, b, d, e, c);
    EncodeLead4(a, b, d, e, c);
    EncodeTrails4(a, b, d, e, c);
    FourBytes(c, a, b, d, e);
  }

  lemma Encodes1(a: Byte)
    requires a <= 0x7F
    ensures SequenceLength(a) == 1 && Scalar(Value1(a)) && Encode8(Value1(a)) == [a]
  {
    SequenceLengthIs(a);
  }

  /** The decoder sees the length of a well-formed sequence in its first byte. */
  lemma LengthSeen(s: seq<Byte>, i: nat)
    requires i < |s| && Sequence(s, i) > 0
    ensures SequenceLength(s[i]) == Sequence(s, i)
  {
    SequenceLengthIs(s[i]);
  }

  /** A well-formed sequence is what the encoder makes of the character it decodes to. */
  lemma EncodesBack(s: seq<Byte>, m: seq<Byte>, i: nat)
    requires i < |s| && Sequence(s, i) > 0 && s <= m && i + 3 < |m|
    ensures SequenceLength(m[i]) == Sequence(s, i) && Scalar(Decode8(m, i))
    ensures Encode8(Decode8(m, i)) == s[i..i + Sequence(s, i)]
  {
    LengthSeen(s, i);
    if Sequence(s, i) == 1 {
      Encodes1(s[i]);
    } else if Sequence(s, i) == 2 {
      Encodes2(s[i], s[i + 1]);
    } else if Sequence(s, i) == 3 {
      Encodes3(s[i], s[i + 1], s[i + 2]);
    } else {
      Encodes4(s[i], s[i + 1], s[i + 2], s[i + 3], Decode8(m, i));
    }
  }

  /** Every encoded scalar value is a well-formed sequence. */
  lemma EncodedIsSequence(c: CodePoint, s: seq<Byte>, i: nat)
    requires Scalar(c) && i + Length8(c) <= |s| && s[i..i + Length8(c)] == Encode8(c)
    ensures i < |s| && Sequence(s, i) == Length8(c)
  {
    var e := s[i..i + Length8(c)];
    assert s[i] == e[0];
    if c < 0x80 {
      Decode1(c);
    } else if c < 0x800 {
      assert s[i + 1] == e[1];
      Decode2(c);
    } else if c < 0x10000 {
      assert s[i + 1] == e[1] && s[i + 2] == e[2];
      Range3(c);
      Decode3(c);
    } else {
      assert s[i + 1] == e[1] && s[i + 2] == e[2] && s[i + 3] == e[3];
      Range4(c);
      Decode4(c);
    }
  }

  // ---------------------------------------------------------------- UTF-16

  /** The units utf8_to_utf16 writes for a code point. */
  function Encode16(c: CodePoint): (r: seq<Unit>)
    requires c <= 0x1FFFFF
    ensures |r| == if c <= 0xFFFF then 1 else 2
  {
    if c <= 0xFFFF then [c as bv16] else [HighOf(c), LowOf(c)]
  }

  /** The number of units of the character at position `i`, as utf16_to_utf8 sees it. */
  function Width16(s: seq<Unit>, i: nat): nat
    requires i < |s|
  {
    if High(s[i]) && i + 1 < |s| && Low(s[i + 1]) then 2 else 1
  }

  /** The code point utf16_to_utf8 takes from position `i`. */
  function Decode16(s: seq<Unit>, i: nat): CodePoint
    requires i < |s|
  {
    if Width16(s, i) == 2 then Join(s[i], s[i + 1]) else s[i] as bv32
  }

  /** Surrogates come in pairs. */
  predicate WellFormed16(s: seq<Unit>, i: nat)
    requires i <= |s|
    decreases |s| - i
  {
    i == |s| ||
    if High(s[i]) then i + 1 < |s| && Low(s[i + 1]) && WellFormed16(s, i + 2) else !Low(s[i]) && WellFormed16(s, i + 1)
  }

  lemma PairBack(h: Unit, l: Unit)
    requires High(h) && Low(l)
    ensures Scalar(Join(h, l)) && Encode16(Join(h, l)) == [h, l]
  {
    JoinRange(h, l);
    JoinSplits(h, l);
  }

  lemma SingleBack(u: Unit)
    requires !High(u) && !Low(u)
    ensures Scalar(u as bv32) && Encode16(u as bv32) == [u]
  {
    SingleIsScalar(u);
  }

  /** In a well-formed string the character at `i` is a scalar value, written back as it was. */
  lemma Encodes16Back(s: seq<Unit>, i: nat)
    requires i < |s| && WellFormed16(s, i)
    ensures i + Width16(s, i) <= |s| && WellFormed16(s, i + Width16(s, i))
    ensures Scalar(Decode16(s, i)) && Encode16(Decode16(s, i)) == s[i..i + Width16(s, i)]
  {
    if High(s[i]) {
      PairBack(s[i], s[i + 1]);
    } else {
      SingleBack(s[i]);
    }
  }

  lemma Decodes16Back(c: CodePoint, s: seq<Unit>, i: nat)
    requires Scalar(c) && i + |Encode16(c)| <= |s| && s[i..i + |Encode16(c)|] == Encode16(c)
    ensures i < |s| && Width16(s, i) == |Encode16(c)| && Decode16(s, i) == c
    ensures WellFormed16(s, i + |Encode16(c)|) ==> WellFormed16(s, i)
  {
    var e := s[i..i + |Encode16(c)|];
    assert s[i] == e[0];
    if c <= 0xFFFF {
      ScalarIsSingle(c);
    } else {
      assert s[i + 1] == e[1];
      SplitKinds(c);
      SplitJoins(c);
    }
  }

  // ---------------------------------------------------------------- whole strings

  /** What utf16_to_utf8 writes from position `i` on. */
  function To8(s: seq<Unit>, i: nat): seq<Byte>
    requires i <= |s|
    decreases |s| - i
  {
    if i == |s| then [] else Encode8(Decode16(s, i)) + To8(s, i + Width16(s, i))
  }

  /** What utf8_to_utf16 writes from position `i` on. */
  function To16(m: seq<Byte>, i: nat, n: nat): seq<Unit>
    requires n + 3 <= |m|
    decreases n - i
  {
    if i >= n then [] else Encode16(Decode8(m, i)) + To16(m, i + SequenceLength(m[i]), n)
  }

  ghost predicate Scalars(cs: seq<CodePoint>) {
    forall k: int :: 0 <= k < |cs| ==> Scalar(cs[k])
  }

  /** The two encodings of a text. */
  ghost function Bytes(cs: seq<CodePoint>): seq<Byte> {
    if cs == [] then [] else Encode8(cs[0]) + Bytes(cs[1..])
  }

  ghost function Units(cs: seq<CodePoint>): seq<Unit>
    requires Scalars(cs)
  {
    if cs == [] then [] else Encode16(cs[0]) + Units(cs[1..])
  }

  lemma Prepend(c: CodePoint, cs: seq<CodePoint>)
    requires Scalar(c) && Scalars(cs)
    ensures Scalars([c] + cs) && Bytes([c] + cs) == Encode8(c) + Bytes(cs) && Units([c] + cs) == Encode16(c) + Units(cs)
  {
    assert ([c] + cs)[1..] == cs;
  }

  lemma Next16(s: seq<Unit>, i: nat) returns (c: CodePoint, w: nat)
    requires i < |s| && WellFormed16(s, i)
    ensures Scalar(c) && 0 < w && i + w <= |s| && WellFormed16(s, i + w)
    ensures To8(s, i) == Encode8(c) + To8(s, i + w) && s[i..] == Encode16(c) + s[i + w..]
  {
    Encodes16Back(s, i);
    c, w := Decode16(s, i), Width16(s, i);
    assert s[i..] == s[i..i + w] + s[i + w..];
  }

  /** A well-formed UTF-16 string is the encoding of a text, which utf16_to_utf8 encodes. */
  lemma {:induction false} TextOf16(s: seq<Unit>, i: nat) returns (cs: seq<CodePoint>)
    requires i <= |s| && WellFormed16(s, i)
    ensures Scalars(cs) && s[i..] == Units(cs) && To8(s, i) == Bytes(cs)
    decreases |s| - i
  {
    if i == |s| {
      return [];
    }
    var c, w := Next16(s, i);
    var rest := TextOf16(s, i + w);
    Prepend(c, rest);
    return [c] + rest;
  }

  lemma Next8(b: seq<Byte>, i: nat, m: seq<Byte>) returns (c: CodePoint, l: nat)
    requires i < |b| && WellFormed8(b, i) && b <= m && |b| + 3 <= |m|
    ensures Scalar(c) && 0 < l && i + l <= |b| && WellFormed8(b, i + l)
    ensures To16(m, i, |b|) == Encode16(c) + To16(m, i + l, |b|) && b[i..] == Encode8(c) + b[i + l..]
  {
    EncodesBack(b, m, i);
    c, l := Decode8(m, i), Sequence(b, i);
    assert b[i..] == b[i..i + l] + b[i + l..];
  }

  /** From `i` on the string is the encoding of the text, which utf8_to_utf16 encodes. */
  ghost predicate IsTextOf8(b: seq<Byte>, i: nat, m: seq<Byte>, cs: seq<CodePoint>)
    requires i <= |b| && |b| + 3 <= |m|
  {
    Scalars(cs) && b[i..] == Bytes(cs) && To16(m, i, |b|) == Units(cs)
  }

  lemma TextStep8(b: seq<Byte>, i: nat, m: seq<Byte>, c: CodePoint, l: nat, rest: seq<CodePoint>)
    requires i + l <= |b| && |b| + 3 <= |m| && Scalar(c) && IsTextOf8(b, i + l, m, rest)
    requires To16(m, i, |b|) == Encode16(c) + To16(m, i + l, |b|) && b[i..] == Encode8(c) + b[i + l..]
    ensures IsTextOf8(b, i, m, [c] + rest)
  {
    Prepend(c, rest);
  }

  /** A well-formed UTF-8 string is the encoding of a text. */
  lemma {:induction false} TextOf8(b: seq<Byte>, i: nat, m: seq<Byte>) returns (cs: seq<CodePoint>)
    requires i <= |b| && WellFormed8(b, i) && b <= m && |b| + 3 <= |m|
    ensures IsTextOf8(b, i, m, cs)
    decreases |b| - i
  {
    if i == |b| {
      return [];
    }
    var c, l := Next8(b, i, m);
    var rest := TextOf8(b, i + l, m);
    TextStep8(b, i, m, c, l, rest);
    return [c] + rest;
  }

  lemma Front(m: seq<Byte>, k: nat, n: nat, x: seq<Byte>, rest: seq<Byte>)
    requires k <= n <= |m| && m[k..n] == x + rest
    ensures k + |x| <= n && m[k..k + |x|] == x && m[k + |x|..n] == rest
  {
    assert m[k..n][..|x|] == m[k..k + |x|] && m[k..n][|x|..] == m[k + |x|..n];
  }

  lemma Step8(c: CodePoint, rest: seq<Byte>, m: seq<Byte>, k: nat, n: nat)
    requires Scalar(c) && k <= n && n + 3 <= |m| && m[k..n] == Encode8(c) + rest
    ensures k + Length8(c) <= n && Length8(c) > 0 && m[k + Length8(c)..n] == rest
    ensures To16(m, k, n) == Encode16(c) + To16(m, k + Length8(c), n)
  {
    Front(m, k, n, Encode8(c), rest);
    DecodesBack(c, m, k);
  }

  /** utf8_to_utf16 reads an encoded text as it is. */
  lemma {:induction false} Reads8(cs: seq<CodePoint>, m: seq<Byte>, k: nat, n: nat)
    requires Scalars(cs) && k <= n && n + 3 <= |m| && m[k..n] == Bytes(cs)
    ensures To16(m, k, n) == Units(cs)
    decreases |cs|
  {
    if cs != [] {
      var c, rest := cs[0], cs[1..];
      var tail, text := Bytes(rest), Units(rest);
      assert Bytes(cs) == Encode8(c) + tail && Units(cs) == Encode16(c) + text;
      Step8(c, tail, m, k, n);
      Reads8(rest, m, k + Length8(c), n);
    }
  }

  /** utf16_to_utf8 reads an encoded text as it is. */
  lemma {:induction false} Reads16(cs: seq<CodePoint>, u: seq<Unit>, k: nat)
    requires Scalars(cs) && k <= |u| && u[k..] == Units(cs)
    ensures To8(u, k) == Bytes(cs) && WellFormed16(u, k)
    decreases |cs|
  {
    if cs != [] {
      var w := |Encode16(cs[0])|;
      assert u[k..][..w] == u[k..k + w] && u[k..][w..] == u[k + w..];
      Reads16(cs[1..], u, k + w);
      Decodes16Back(cs[0], u, k);
    }
  }

  lemma {:induction false} BytesAreWellFormed(cs: seq<CodePoint>, b: seq<Byte>, k: nat)
    requires Scalars(cs) && k <= |b| && b[k..] == Bytes(cs)
    ensures WellFormed8(b, k)
    decreases |cs|
  {
    if cs != [] {
      var l := Length8(cs[0]);
      assert b[k..][..l] == b[k..k + l] && b[k..][l..] == b[k + l..];
      EncodedIsSequence(cs[0], b, k);
      BytesAreWellFormed(cs[1..], b, k + l);
    }
  }

  /** UTF-16 to UTF-8 and back is the identity on well-formed strings, whatever lies in memory
      behind the UTF-8, which is well-formed too. */
  lemma RoundTrip16(s: seq<Unit>, m: seq<Byte>)
    requires WellFormed16(s, 0) && To8(s, 0) <= m && |To8(s, 0)| + 3 <= |m|
    ensures WellFormed8(To8(s, 0), 0) && To16(m, 0, |To8(s, 0)|) == s
  {
    var cs := TextOf16(s, 0);
    var b := To8(s, 0);
    assert m[0..|b|] == b && s[0..] == s && b[0..] == b;
    Reads8(cs, m, 0, |b|);
    BytesAreWellFormed(cs, b, 0);
  }

  /** UTF-8 to UTF-16 and back is the identity on well-formed strings. */
  lemma RoundTrip8(b: seq<Byte>, m: seq<Byte>)
    requires WellFormed8(b, 0) && b <= m && |b| + 3 <= |m|
    ensures WellFormed16(To16(m, 0, |b|), 0) && To8(To16(m, 0, |b|), 0) == b
  {
    var cs := TextOf8(b, 0, m);
    var u := To16(m, 0, |b|);
    assert u[0..] == u && b[0..] == b;
    Reads16(cs, u, 0);
  }

  // ---------------------------------------------------------------- the length functions

  /** utf8_to_utf16_length from position `i`: -1 when the last sequence runs over the end. */
  function Measure16(m: seq<Byte>, i: nat, n: nat): int
    requires n + 3 <= |m|
    decreases n - i
  {
    if i >= n then (if i == n then 0 else -1)
    else
      var rest := Measure16(m, i + SequenceLength(m[i]), n);
      if rest < 0 then -1 else rest + if Decode8(m, i) > 0xFFFF then 2 else 1
  }

  /** Whether the sequences from position `i` end exactly at `n`. */
  predicate EndsAt(m: seq<Byte>, i: nat, n: nat)
    requires n + 3 <= |m|
    decreases n - i
  {
    if i >= n then i == n else EndsAt(m, i + SequenceLength(m[i]), n)
  }

  /** For every input, well-formed or not, the measured length is the number of units written,
      and -1 is reported exactly when the last sequence runs over the end. */
  lemma {:induction false} Measure16IsExact(m: seq<Byte>, i: nat, n: nat)
    requires n + 3 <= |m|
    ensures Measure16(m, i, n) == if EndsAt(m, i, n) then |To16(m, i, n)| else -1
    decreases n - i
  {
    if i < n {
      Measure16IsExact(m, i + SequenceLength(m[i]), n);
    }
  }

  /** utf16_to_utf8_length from position `i`: behind an unpaired high surrogate the next unit is
      measured as well and skipped. */
  function Measure8(s: seq<Unit>, i: nat): nat
    requires i <= |s|
    decreases |s| - i
  {
    if i == |s| then 0
    else if High(s[i]) && i + 1 < |s| then
      if Low(s[i + 1]) then 4 + Measure8(s, i + 2) else Length8(s[i + 1] as bv32) + Measure8(s, i + 2)
    else Length8(s[i] as bv32) + Measure8(s, i + 1)
  }

  // What the two loops see of a unit.
  datatype Kind = HighUnit | LowUnit | Other(bytes: nat)

  function KindOf(u: Unit): Kind {
    if High(u) then HighUnit else if Low(u) then LowUnit else Other(Length8(u as bv32))
  }

  function Kinds(s: seq<Unit>): (r: seq<Kind>)
    ensures |r| == |s| && forall i :: 0 <= i < |s| ==> r[i] == KindOf(s[i])
  {
    if s == [] then [] else [KindOf(s[0])] + Kinds(s[1..])
  }

  function Cost(k: Kind): nat {
    if k.Other? then k.bytes else 0
  }

  function Measured(ks: seq<Kind>, i: nat): nat
    requires i <= |ks|
    decreases |ks| - i
  {
    if i == |ks| then 0
    else if ks[i].HighUnit? && i + 1 < |ks| then
      (if ks[i + 1].LowUnit? then 4 else Cost(ks[i + 1])) + Measured(ks, i + 2)
    else Cost(ks[i]) + Measured(ks, i + 1)
  }

  function Written(ks: seq<Kind>, i: nat): nat
    requires i <= |ks|
    decreases |ks| - i
  {
    if i == |ks| then 0
    else if ks[i].HighUnit? && i + 1 < |ks| && ks[i + 1].LowUnit? then 4 + Written(ks, i + 2)
    else Cost(ks[i]) + Written(ks, i + 1)
  }

  lemma UnitCost(u: Unit)
    ensures Cost(KindOf(u)) == Length8(u as bv32) && !(High(u) && Low(u))
  {
    HighIsNotLow(u);
  }

  lemma {:induction false} MeasuresKinds(s: seq<Unit>, i: nat)
    requires i <= |s|
    ensures Measure8(s, i) == Measured(Kinds(s), i)
    decreases |s| - i
  {
    if i < |s| {
      UnitCost(s[i]);
      if High(s[i]) && i + 1 < |s| {
        UnitCost(s[i + 1]);
        MeasuresKinds(s, i + 2);
      } else {
        MeasuresKinds(s, i + 1);
      }
    }
  }

  lemma CharacterCost(s: seq<Unit>, i: nat)
    requires i < |s|
    ensures Length8(Decode16(s, i)) == if Width16(s, i) == 2 then 4 else Cost(KindOf(s[i]))
  {
    if Width16(s, i) == 2 {
      PairLength(s[i], s[i + 1]);
    } else {
      UnitCost(s[i]);
    }
  }

  lemma WidthOfKinds(s: seq<Unit>, i: nat)
    requires i < |s|
    ensures Width16(s, i) == 2 <==> Kinds(s)[i].HighUnit? && i + 1 < |s| && Kinds(s)[i + 1].LowUnit?
  {
    if i + 1 < |s| {
      HighIsNotLow(s[i + 1]);
    }
  }

  lemma {:induction false} WritesKinds(s: seq<Unit>, i: nat)
    requires i <= |s|
    ensures |To8(s, i)| == Written(Kinds(s), i)
    decreases |s| - i
  {
    if i < |s| {
      CharacterCost(s, i);
      WidthOfKinds(s, i);
      WritesKinds(s, i + Width16(s, i));
    }
  }

  /** The number of consecutive high surrogates just before position `j`. */
  function HighsBefore(ks: seq<Kind>, j: nat): nat
    requires j <= |ks|
  {
    if j > 0 && ks[j - 1].HighUnit? then 1 + HighsBefore(ks, j - 1) else 0
  }

  /** A low surrogate that follows an even number of high ones, but not none. */
  ghost predicate Mispaired(ks: seq<Kind>, j: int) {
    0 <= j < |ks| && ks[j].LowUnit? && HighsBefore(ks, j) > 0 && HighsBefore(ks, j) % 2 == 0
  }

  ghost predicate Measurable(ks: seq<Kind>, i: nat) {
    forall j: int {:trigger Mispaired(ks, j)} :: i <= j < |ks| ==> !Mispaired(ks, j)
  }

  lemma SkipMeasured(ks: seq<Kind>, i: nat, w: nat)
    requires i + w <= |ks| && forall j: int :: i <= j < i + w ==> !Mispaired(ks, j)
    ensures Measurable(ks, i) <==> Measurable(ks, i + w)
  {
  }

  lemma {:induction false} MeasuredIsWritten(ks: seq<Kind>, i: nat)
    requires i <= |ks| && HighsBefore(ks, i) % 2 == 0
    requires i < |ks| && ks[i].LowUnit? ==> HighsBefore(ks, i) == 0
    ensures Measured(ks, i) <= Written(ks, i)
    ensures Measured(ks, i) == Written(ks, i) <==> Measurable(ks, i)
    decreases |ks| - i
  {
    if i < |ks| {
      if !ks[i].HighUnit? {
        MeasuredIsWritten(ks, i + 1);
        SkipMeasured(ks, i, 1);
      } else if i + 1 == |ks| {
        SkipMeasured(ks, i, 1);
      } else if ks[i + 1].HighUnit? && i + 2 < |ks| && ks[i + 2].LowUnit? {
        assert HighsBefore(ks, i + 1) == 1 + HighsBefore(ks, i);
        assert HighsBefore(ks, i + 2) == 2 + HighsBefore(ks, i);
        assert Mispaired(ks, i + 2);
        MeasuredIsWritten(ks, i + 3);
      } else {
        assert HighsBefore(ks, i + 1) == 1 + HighsBefore(ks, i);
        MeasuredIsWritten(ks, i + 2);
        SkipMeasured(ks, i, 2);
      }
    }
  }

  /** The measured length never exceeds what is written, and equals it exactly when no low
      surrogate follows an even, positive number of high ones. */
  lemma Measure8IsExact(s: seq<Unit>)
    ensures Measure8(s, 0) <= |To8(s, 0)|
    ensures Measure8(s, 0) == |To8(s, 0)| <==> Measurable(Kinds(s), 0)
  {
    MeasuresKinds(s, 0);
    WritesKinds(s, 0);
    MeasuredIsWritten(Kinds(s), 0);
  }

  /** Two high surrogates and a low one: four bytes are written, none is measured. */
  lemma UnpairedIsNotMeasured()
    ensures var s: seq<Unit> := [0xD800, 0xD800, 0xDC00];
      Measure8(s, 0) == 0 && |To8(s, 0)| == 4 && Mispaired(Kinds(s), 2)
  {
    var s: seq<Unit> := [0xD800, 0xD800, 0xDC00];
    assert KindOf(s[0]) == HighUnit && KindOf(s[1]) == HighUnit && KindOf(s[2]) == LowUnit;
    var ks := Kinds(s);
    MeasuresKinds(s, 0);
    WritesKinds(s, 0);
    assert Measured(ks, 2) == 0 && Written(ks, 1) == 4 + Written(ks, 3);
    assert HighsBefore(ks, 0) == 0 && HighsBefore(ks, 1) == 1 && HighsBefore(ks, 2) == 2;
  }

  /** A well-formed string is measured exactly. */
  lemma {:induction false} WellFormedIsMeasured(s: seq<Unit>, i: nat)
    requires i <= |s| && WellFormed16(s, i)
    ensures Measure8(s, i) == |To8(s, i)|
    decreases |s| - i
  {
    if i < |s| {
      HighIsNotLow(s[i]);
      if High(s[i]) {
        PairLength(s[i], s[i + 1]);
        WellFormedIsMeasured(s, i + 2);
      } else {
        WellFormedIsMeasured(s, i + 1);
      }
    }
  }
}
