/**
 The marshalling format of a Parcel (libs/binder/Parcel.cpp): typed values written one after
 the other, each padded to a multiple of four bytes, and the table of object offsets.
 */
module Parcel {
  import opened Wrappers
  import opened Buffers

  const INT32_MAX := 0x7FFF_FFFF
  const U32 := 0x1_0000_0000
  const U64 := 0x1_0000_0000_0000_0000
  const OBJECT := 24

  newtype char16 = x: int | 0 <= x < 0x1_0000

  /** What a client writes, and what it asks for when it reads. */
  datatype Item =
    | Int32(i: int)
    | Int64(l: int)
    | Block(bytes: seq<byte>)
    | Str8(chars: seq<byte>)
    | Str16(units: Option<seq<char16>>)

  datatype Shape = IsInt32 | IsInt64 | IsBlock(len: nat) | IsStr8 | IsStr16

  function ShapeOf(x: Item): Shape {
    match x
    case Int32(_) => IsInt32
    case Int64(_) => IsInt64
    case Block(b) => IsBlock(|b|)
    case Str8(_) => IsStr8
    case Str16(_) => IsStr16
  }

  /** Values whose sizes stay in the range of an int32_t. */
  predicate InRange(x: Item) {
    match x
    case Int32(i) => -0x8000_0000 <= i < 0x8000_0000
    case Int64(l) => -0x8000_0000_0000_0000 <= l < 0x8000_0000_0000_0000
    case Block(b) => |b| <= INT32_MAX
    case Str8(s) => |s| < INT32_MAX
    case Str16(u) => u.Some? ==> 2 * |u.value| + 2 <= INT32_MAX
  }

  // ---------------------------------------------------------------- the bytes of a value

  /** A block and the zeros that pad it. */
  function Padded(b: seq<byte>): (r: seq<byte>)
    ensures |r| == Align4(|b|)
  {
    AlignIs(|b|);
    b + Zeros(Align4(|b|) - |b|)
  }

  function Unsigned(v: int, m: nat): nat
    requires m > 0 && 0 - m < v < m
  {
    if v < 0 then v + m else v
  }

  function Signed(u: nat, m: nat): int {
    if 2 * u < m then u else u - m
  }

  /** The bytes of UTF-16 units. */
  function UnitBytes(u: seq<char16>): (r: seq<byte>)
    ensures |r| == 2 * |u|
  {
    if u == [] then [] else Little(u[0] as nat, 2) + UnitBytes(u[1..])
  }

  function Int32Bytes(v: int): seq<byte>
    requires -U32 < v < U32
  {
    Little(Unsigned(v, U32), 4)
  }

  function Encode(x: Item): seq<byte>
    requires InRange(x)
  {
    match x
    case Int32(i) => Int32Bytes(i)
    case Int64(l) => Little(Unsigned(l, U64), 8)
    case Block(b) => Padded(b)
    case Str8(s) => if s == [] then Int32Bytes(0) else Int32Bytes(|s|) + Padded(s + [0])
    case Str16(None) => Int32Bytes(-1)
    case Str16(Some(u)) => Int32Bytes(|u|) + Padded(UnitBytes(u) + [0, 0])
  }

  predicate AllInRange(xs: seq<Item>) {
    xs == [] || (InRange(xs[0]) && AllInRange(xs[1..]))
  }

  /** A sequence of writes from an empty parcel: the bytes depend on the values alone. */
  function EncodeAll(xs: seq<Item>): seq<byte>
    requires AllInRange(xs)
  {
    if xs == [] then [] else Encode(xs[0]) + EncodeAll(xs[1..])
  }

  // ---------------------------------------------------------------- reading

  /** read and readInplace: whether `len` bytes and their padding are there. */
  predicate Available(b: seq<byte>, pos: nat, len: nat) {
    len <= INT32_MAX && pos + Align4(len) <= |b|
  }

  /** readAligned<int32_t>: None for NOT_ENOUGH_DATA. */
  function ReadInt32(b: seq<byte>, pos: nat): Option<int> {
    if pos + 4 <= |b| then Some(Signed(Number(b, pos, 4), U32)) else None
  }

  function ReadInt64(b: seq<byte>, pos: nat): Option<int> {
    if pos + 8 <= |b| then Some(Signed(Number(b, pos, 8), U64)) else None
  }

  /** The form without a status: 0 when there is not enough data. */
  function Int32OrZero(b: seq<byte>, pos: nat): (int, nat) {
    match ReadInt32(b, pos) case None => (0, pos) case Some(v) => (v, pos + 4)
  }

  /** readString8: the string, empty if anything is wrong, and the new position. */
  function ReadString8(b: seq<byte>, pos: nat): (seq<byte>, nat) {
    var (size, p) := Int32OrZero(b, pos);
    if 0 < size < INT32_MAX && Available(b, p, size + 1) then
      AlignIs(size + 1);
      (b[p..p + size], p + Align4(size + 1))
    else ([], p)
  }

  function UnitsOf(b: seq<byte>): seq<char16>
    requires |b| % 2 == 0
  {
    if b == [] then [] else [(b[0] as int + 256 * b[1] as int) as char16] + UnitsOf(b[2..])
  }

  /** readString16Inplace: None for a null string. */
  function ReadString16(b: seq<byte>, pos: nat): (Option<seq<char16>>, nat) {
    var (size, p) := Int32OrZero(b, pos);
    if 0 <= size < INT32_MAX && Available(b, p, 2 * (size + 1)) then
      AlignIs(2 * (size + 1));
      (Some(UnitsOf(b[p..p + 2 * size])), p + Align4(2 * (size + 1)))
    else (None, p)
  }

  /** The value of a given shape at `pos`, and the position behind it. */
  function ReadItem(b: seq<byte>, pos: nat, shape: Shape): Option<(Item, nat)> {
    match shape
    case IsInt32 => (match ReadInt32(b, pos) case None => None case Some(v) => Some((Int32(v), pos + 4)))
    case IsInt64 => (match ReadInt64(b, pos) case None => None case Some(v) => Some((Int64(v), pos + 8)))
    case IsBlock(len) =>
      if Available(b, pos, len) then
        AlignIs(len);
        Some((Block(b[pos..pos + len]), pos + Align4(len)))
      else None
    case IsStr8 => var (s, p) := ReadString8(b, pos); Some((Str8(s), p))
    case IsStr16 => var (u, p) := ReadString16(b, pos); Some((Str16(u), p))
  }

  function ReadAll(b: seq<byte>, pos: nat, shapes: seq<Shape>): Option<(seq<Item>, nat)>
    decreases |shapes|
  {
    if shapes == [] then Some(([], pos))
    else match ReadItem(b, pos, shapes[0])
      case None => None
      case Some((x, p)) =>
        match ReadAll(b, p, shapes[1..])
        case None => None
        case Some((xs, q)) => Some(([x] + xs, q))
  }

  // ---------------------------------------------------------------- round trips

  lemma SignedUnsigned(v: int, m: nat)
    requires m > 0 && 0 - m <= 2 * v < m
    ensures 0 - m < v < m && Unsigned(v, m) < m && Signed(Unsigned(v, m), m) == v
  {
  }

  lemma {:induction false} UnitsBack(u: seq<char16>)
    ensures UnitsOf(UnitBytes(u)) == u
  {
    if u != [] {
      UnitsBack(u[1..]);
      var b := UnitBytes(u);
      assert b[2..] == UnitBytes(u[1..]);
      var l := Little(u[0] as nat, 2);
      assert l == [(u[0] as nat % 256) as byte] + Little(u[0] as nat / 256, 1);
      assert Little(u[0] as nat / 256, 1) == [(u[0] as nat / 256 % 256) as byte] + Little(u[0] as nat / 256 / 256, 0);
      assert b[0] == l[0] && b[1] == l[1];
      assert u == [u[0]] + u[1..];
    }
  }

  lemma Int32Back(b: seq<byte>, pos: nat, v: int)
    requires -0x8000_0000 <= v < 0x8000_0000 && Holds(b, pos, Int32Bytes(v))
    ensures ReadInt32(b, pos) == Some(v)
  {
    Powers();
    SignedUnsigned(v, U32);
    var x := Int32Bytes(v);
    assert x[0..4] == x;
    NumberHeld(b, pos, Unsigned(v, U32), 4, x, 0);
  }

  lemma Int64Back(b: seq<byte>, pos: nat, v: int)
    requires -0x8000_0000_0000_0000 <= v < 0x8000_0000_0000_0000 && Holds(b, pos, Little(Unsigned(v, U64), 8))
    ensures ReadInt64(b, pos) == Some(v)
  {
    Powers();
    SignedUnsigned(v, U64);
    var x := Little(Unsigned(v, U64), 8);
    assert x[0..8] == x;
    NumberHeld(b, pos, Unsigned(v, U64), 8, x, 0);
  }

  lemma BlockBack(b: seq<byte>, pos: nat, x: seq<byte>)
    requires Holds(b, pos, Padded(x)) && |x| <= INT32_MAX
    ensures Available(b, pos, |x|) && pos + |x| <= |b| && b[pos..pos + |x|] == x
  {
    AlignIs(|x|);
    assert Padded(x)[0..|x|] == x;
    Slice(b, pos, Padded(x), 0, |x|);
  }

  /** A length and a padded block: the two parts of a string. */
  lemma TwoParts(b: seq<byte>, pos: nat, x: seq<byte>, y: seq<byte>)
    requires Holds(b, pos, x + y)
    ensures Holds(b, pos, x) && Holds(b, pos + |x|, y)
  {
    assert (x + y)[0..|x|] == x && (x + y)[|x|..|x + y|] == y;
    Slice(b, pos, x + y, 0, |x|);
    Slice(b, pos, x + y, |x|, |x + y|);
  }

  lemma String8Back(b: seq<byte>, pos: nat, s: seq<byte>)
    requires |s| < INT32_MAX && Holds(b, pos, Encode(Str8(s)))
    ensures ReadString8(b, pos) == (s, pos + |Encode(Str8(s))|)
  {
    if s == [] {
      Int32Back(b, pos, 0);
    } else {
      TwoParts(b, pos, Int32Bytes(|s|), Padded(s + [0]));
      Int32Back(b, pos, |s|);
      BlockBack(b, pos + 4, s + [0]);
      assert b[pos + 4..pos + 4 + |s| + 1][..|s|] == b[pos + 4..pos + 4 + |s|];
      assert (s + [0])[..|s|] == s;
    }
  }

  lemma String16Back(b: seq<byte>, pos: nat, u: Option<seq<char16>>)
    requires InRange(Str16(u)) && Holds(b, pos, Encode(Str16(u)))
    ensures ReadString16(b, pos) == (u, pos + |Encode(Str16(u))|)
  {
    match u
    case None => Int32Back(b, pos, -1);
    case Some(w) =>
      var x := UnitBytes(w);
      TwoParts(b, pos, Int32Bytes(|w|), Padded(x + [0, 0]));
      Int32Back(b, pos, |w|);
      BlockBack(b, pos + 4, x + [0, 0]);
      assert b[pos + 4..pos + 4 + |x| + 2][..|x|] == b[pos + 4..pos + 4 + |x|];
      assert (x + [0, 0])[..|x|] == x;
      UnitsBack(w);
  }

  /** A value that is in the data at `pos` is read back. */
  lemma ItemBack(b: seq<byte>, pos: nat, x: Item)
    requires InRange(x) && Holds(b, pos, Encode(x))
    ensures ReadItem(b, pos, ShapeOf(x)) == Some((x, pos + |Encode(x)|))
  {
    match x
    case Int32(i) => Int32Back(b, pos, i);
    case Int64(l) => Int64Back(b, pos, l);
    case Block(d) => BlockBack(b, pos, d);
    case Str8(s) => String8Back(b, pos, s);
    case Str16(u) => String16Back(b, pos, u);
  }

  function Shapes(xs: seq<Item>): seq<Shape> {
    if xs == [] then [] else [ShapeOf(xs[0])] + Shapes(xs[1..])
  }

  /** The read delivers `xs` and ends at `q`. */
  ghost predicate Delivers(b: seq<byte>, pos: nat, shapes: seq<Shape>, xs: seq<Item>, q: nat) {
    var r := ReadAll(b, pos, shapes);
    r.Some? && r.value.0 == xs && r.value.1 == q
  }

  lemma ReadCons(b: seq<byte>, pos: nat, shape: Shape, rest: seq<Shape>, x: Item, p: nat, xs: seq<Item>, q: nat)
    requires ReadItem(b, pos, shape) == Some((x, p)) && Delivers(b, p, rest, xs, q)
    ensures Delivers(b, pos, [shape] + rest, [x] + xs, q)
  {
    assert ([shape] + rest)[1..] == rest;
  }

  lemma FirstBack(b: seq<byte>, pos: nat, x: Item, rest: seq<byte>)
    requires InRange(x) && Holds(b, pos, Encode(x) + rest)
    ensures ReadItem(b, pos, ShapeOf(x)) == Some((x, pos + |Encode(x)|)) && Holds(b, pos + |Encode(x)|, rest)
  {
    TwoParts(b, pos, Encode(x), rest);
    ItemBack(b, pos, x);
  }

  lemma ConsBack(b: seq<byte>, pos: nat, x: Item, tail: seq<Item>, shapes: seq<Shape>, rest: seq<byte>)
    requires InRange(x) && Holds(b, pos, Encode(x) + rest)
    requires Delivers(b, pos + |Encode(x)|, shapes, tail, pos + |Encode(x)| + |rest|)
    ensures Delivers(b, pos, [ShapeOf(x)] + shapes, [x] + tail, pos + |Encode(x) + rest|)
  {
    FirstBack(b, pos, x, rest);
    ReadCons(b, pos, ShapeOf(x), shapes, x, pos + |Encode(x)|, tail, pos + |Encode(x)| + |rest|);
  }

  lemma Unfold(xs: seq<Item>)
    requires xs != [] && AllInRange(xs)
    ensures xs == [xs[0]] + xs[1..] && EncodeAll(xs) == Encode(xs[0]) + EncodeAll(xs[1..])
    ensures Shapes(xs) == [ShapeOf(xs[0])] + Shapes(xs[1..])
  {
  }

  /** Any sequence of typed writes is read back unchanged, to the end and no further. */
  lemma {:induction false} RoundTrip(b: seq<byte>, pos: nat, xs: seq<Item>)
    requires AllInRange(xs) && Holds(b, pos, EncodeAll(xs))
    ensures Delivers(b, pos, Shapes(xs), xs, pos + |EncodeAll(xs)|)
    decreases |xs|
  {
    if xs != [] {
      Unfold(xs);
      var rest := EncodeAll(xs[1..]);
      FirstBack(b, pos, xs[0], rest);
      RoundTrip(b, pos + |Encode(xs[0])|, xs[1..]);
      ConsBack(b, pos, xs[0], xs[1..], Shapes(xs[1..]), rest);
    }
  }

  // ---------------------------------------------------------------- the object table

  /** The check of ipcSetDataReference from position `i`; the sum is a 64-bit one. */
  predicate Accepted(objs: seq<nat>, i: nat, min: nat)
    requires i <= |objs|
    decreases |objs| - i
  {
    i == |objs| || (objs[i] >= min && Accepted(objs, i + 1, (objs[i] + OBJECT) % U64))
  }

  ghost predicate SpacedAt(objs: seq<nat>, i: int) {
    0 < i < |objs| ==> objs[i - 1] + OBJECT <= objs[i]
  }

  /** Offsets ascend by at least the size of an object. */
  ghost predicate Spaced(objs: seq<nat>) {
    forall i: int {:trigger SpacedAt(objs, i)} :: SpacedAt(objs, i)
  }

  /** No object ends beyond the 64-bit range. */
  ghost predicate NoWrap(objs: seq<nat>) {
    forall i: int :: 0 <= i < |objs| ==> objs[i] + OBJECT < U64
  }

  lemma {:induction false} AcceptedFrom(objs: seq<nat>, i: nat, min: nat, j: int)
    requires i <= |objs| && Accepted(objs, i, min) && NoWrap(objs) && i < j < |objs|
    ensures objs[j - 1] + OBJECT <= objs[j]
    decreases |objs| - i
  {
    if j > i + 1 {
      AcceptedFrom(objs, i + 1, (objs[i] + OBJECT) % U64, j);
    }
  }

  /** Without wrap-around the table is accepted exactly when its objects do not overlap. */
  lemma {:induction false} AcceptedIsSpaced(objs: seq<nat>)
    requires NoWrap(objs)
    ensures Accepted(objs, 0, 0) <==> Spaced(objs)
  {
    if Accepted(objs, 0, 0) {
      forall j: int ensures SpacedAt(objs, j) {
        if 0 < j < |objs| {
          AcceptedFrom(objs, 0, 0, j);
        }
      }
    }
    if Spaced(objs) {
      SpacedAccepted(objs, 0, 0);
    }
  }

  lemma {:induction false} SpacedAccepted(objs: seq<nat>, i: nat, min: nat)
    requires i <= |objs| && Spaced(objs) && NoWrap(objs)
    requires min == if i == 0 then 0 else objs[i - 1] + OBJECT
    ensures Accepted(objs, i, min)
    decreases |objs| - i
  {
    if i < |objs| {
      assert SpacedAt(objs, i) && SpacedAt(objs, i + 1);
      SpacedAccepted(objs, i + 1, objs[i] + OBJECT);
    }
  }

  /** Offsets never go back. */
  ghost predicate Ascends(objs: seq<nat>) {
    forall i: int, j: int :: 0 <= i < j < |objs| ==> objs[i] <= objs[j]
  }

  /** No offset occurs twice. */
  ghost predicate Once(objs: seq<nat>) {
    forall i: int, j: int :: 0 <= i < j < |objs| ==> objs[i] != objs[j]
  }

  lemma {:induction false} Ascending(objs: seq<nat>, i: nat, j: nat)
    requires Spaced(objs) && i < j < |objs|
    ensures objs[i] < objs[j]
    decreases j
  {
    assert SpacedAt(objs, j);
    if i < j - 1 {
      Ascending(objs, i, j - 1);
    }
  }

  /** Without wrap-around an accepted table ascends and repeats nothing. */
  lemma AcceptedAscends(objs: seq<nat>)
    requires Accepted(objs, 0, 0) && NoWrap(objs)
    ensures Ascends(objs) && Once(objs)
  {
    AcceptedIsSpaced(objs);
    forall i: int, j: int | 0 <= i < j < |objs| ensures objs[i] < objs[j] {
      Ascending(objs, i, j);
    }
  }

  /** The forward search of readObject. */
  function Forward(objs: seq<nat>, i: nat, pos: nat): (r: nat)
    requires i < |objs|
    ensures r < |objs|
    decreases |objs| - i
  {
    if i + 1 < |objs| && objs[i] < pos then Forward(objs, i + 1, pos) else i
  }

  /** The backward search. */
  function Backward(objs: seq<nat>, i: nat, pos: nat): (r: nat)
    requires i < |objs|
    ensures r <= i
  {
    if i > 0 && objs[i] > pos then Backward(objs, i - 1, pos) else i
  }

  /** The index at which readObject finds an object at `pos`, starting from a hint. */
  function FindObject(objs: seq<nat>, hint: nat, pos: nat): (r: Option<nat>)
    ensures r.Some? ==> r.value < |objs| && objs[r.value] == pos
  {
    if objs == [] then None
    else
      var f := if hint < |objs| then Forward(objs, hint, pos) else |objs| - 1;
      if objs[f] == pos then Some(f)
      else
        var k := Backward(objs, f, pos);
        if objs[k] == pos then Some(k) else None
  }

  lemma {:induction false} ForwardEnds(objs: seq<nat>, i: nat, pos: nat)
    requires i < |objs|
    ensures var f := Forward(objs, i, pos);
      i <= f && (f + 1 < |objs| ==> objs[f] >= pos)
    decreases |objs| - i
  {
    if i + 1 < |objs| && objs[i] < pos {
      ForwardEnds(objs, i + 1, pos);
    }
  }

  lemma {:induction false} BackwardEnds(objs: seq<nat>, i: nat, pos: nat)
    requires i < |objs|
    ensures var k := Backward(objs, i, pos);
      && (k > 0 ==> objs[k] <= pos) && forall j: int :: k < j <= i ==> objs[j] > pos
  {
    if i > 0 && objs[i] > pos {
      BackwardEnds(objs, i - 1, pos);
    }
  }

  /** The offset `v` is not below the first one, not above the last one, and no step up of the
      table passes over it. */
  ghost predicate Findable(objs: seq<nat>, v: nat)
    requires objs != []
  {
    objs[0] <= v <= objs[|objs| - 1] && forall k: int :: 0 < k < |objs| ==> !(objs[k - 1] < v < objs[k])
  }

  ghost predicate Searchable(objs: seq<nat>) {
    forall v: nat {:trigger v in objs} :: v in objs ==> Findable(objs, v)
  }

  lemma StepsOver(objs: seq<nat>, k: int, v: nat)
    requires v in objs && Findable(objs, v) && 0 <= k < |objs| && objs[k] < v
    ensures k + 1 < |objs| && objs[k + 1] <= v
  {
    assert k + 1 < |objs| ==> !(objs[k + 1 - 1] < v < objs[k + 1]);
  }

  /** Such an object is found whatever the hint. */
  lemma FoundFromAnywhere(objs: seq<nat>, hint: nat, pos: nat)
    requires pos in objs && Findable(objs, pos)
    ensures FindObject(objs, hint, pos).Some?
  {
    var f := if hint < |objs| then Forward(objs, hint, pos) else |objs| - 1;
    if hint < |objs| {
      ForwardEnds(objs, hint, pos);
    }
    BackwardEnds(objs, f, pos);
    if objs[Backward(objs, f, pos)] < pos {
      StepsOver(objs, Backward(objs, f, pos), pos);
    }
  }

  /** In such a table an object is found exactly when its position is there, whatever the hint. */
  lemma HintDoesNotMatter(objs: seq<nat>, hint: nat, pos: nat)
    requires Searchable(objs)
    ensures FindObject(objs, hint, pos).Some? <==> pos in objs
  {
    if pos in objs {
      FoundFromAnywhere(objs, hint, pos);
    }
  }

  /** An offset below the first, above the last, or passed over by a step up is missed from
      there. */
  lemma MissedFrom(objs: seq<nat>, v: nat, k: int)
    requires objs != [] && v in objs
    ensures v < objs[0] ==> FindObject(objs, 0, v).None?
    ensures v > objs[|objs| - 1] ==> FindObject(objs, |objs| - 1, v).None?
    ensures 0 < k < |objs| && objs[k - 1] < v < objs[k] ==> FindObject(objs, k, v).None?
  {
    if 0 < k < |objs| && objs[k - 1] < v < objs[k] {
      assert Backward(objs, k, v) == Backward(objs, k - 1, v) == k - 1;
    }
  }

  /** An object of the table is found from every hint if and only if it is such; what is not in the
      table is never found. */
  lemma ObjectIsFoundIff(objs: seq<nat>, pos: nat)
    ensures pos in objs ==> ((forall hint: nat :: FindObject(objs, hint, pos).Some?) <==> Findable(objs, pos))
    ensures pos !in objs ==> forall hint: nat :: FindObject(objs, hint, pos).None?
  {
    if pos in objs {
      if Findable(objs, pos) {
        forall hint: nat ensures FindObject(objs, hint, pos).Some? {
          FoundFromAnywhere(objs, hint, pos);
        }
      } else if objs[0] <= pos <= objs[|objs| - 1] {
        var k: int :| 0 < k < |objs| && objs[k - 1] < pos < objs[k];
        MissedFrom(objs, pos, k);
        assert FindObject(objs, k, pos).None?;
      } else {
        MissedFrom(objs, pos, 0);
        assert FindObject(objs, 0, pos).None? || FindObject(objs, |objs| - 1, pos).None?;
      }
    }
  }

  /** The search is exact for every hint and every position below `end` if and only if every offset
      of the table below `end` is such; readObject searches for positions inside the data only. */
  lemma SearchIsExactIff(objs: seq<nat>, end: nat)
    ensures (forall pos: nat :: pos < end ==> ExactAt(objs, pos)) <==>
      forall v: nat {:trigger v in objs} :: v in objs && v < end ==> Findable(objs, v)
  {
    forall pos: nat ensures ExactAt(objs, pos) <==> (pos in objs ==> Findable(objs, pos)) {
      ObjectIsFoundIff(objs, pos);
    }
  }

  /** Whatever the hint, an object is found at `pos` exactly when the table has one there. */
  ghost predicate ExactAt(objs: seq<nat>, pos: nat) {
    forall hint: nat :: FindObject(objs, hint, pos).Some? <==> pos in objs
  }

  /** An ascending table is one of these, and for a table that repeats nothing the two are the
      same. */
  lemma AscendingIsSearchable(objs: seq<nat>)
    ensures Ascends(objs) ==> Searchable(objs)
    ensures Once(objs) && Searchable(objs) ==> Ascends(objs)
  {
    if Once(objs) && Searchable(objs) {
      forall i: int, j: int | 0 <= i < j < |objs| ensures objs[i] <= objs[j] {
        NoWayBack(objs, i, j);
      }
    }
  }

  /** From below `objs[i]` no step leads up past it, and the table ends above it. */
  lemma {:induction false} NoWayBack(objs: seq<nat>, i: int, j: int)
    requires 0 <= i < j < |objs| && Once(objs) && Searchable(objs)
    ensures objs[i] <= objs[j]
    decreases |objs| - j
  {
    assert objs[i] in objs;
    if j < |objs| - 1 {
      NoWayBack(objs, i, j + 1);
    }
  }

  /** A table that is accepted, goes back, and is searched rightly for all that. */
  lemma RepeatedTableIsSearchable()
    ensures var objs := [0, U64 - OBJECT, 0, U64 - OBJECT];
      Accepted(objs, 0, 0) && !Ascends(objs) && Searchable(objs)
  {
    var objs := [0, U64 - OBJECT, 0, U64 - OBJECT];
    assert Accepted(objs, 4, 0) && Accepted(objs, 3, OBJECT) && Accepted(objs, 2, 0) && Accepted(objs, 1, OBJECT);
    assert objs[1] > objs[2];
  }

  /** An offset whose object would end beyond the 64-bit range is accepted too, and hides the
      objects behind it from a search that starts before it. */
  lemma WrappedTableHidesObject()
    ensures var objs := [U64 - OBJECT, 0];
      Accepted(objs, 0, 0) && 0 in objs && FindObject(objs, 0, 0).None?
  {
    var objs := [U64 - OBJECT, 0];
    assert objs[1] == 0;
    assert Accepted(objs, 2, OBJECT);
    assert Accepted(objs, 1, 0);
  }
}
