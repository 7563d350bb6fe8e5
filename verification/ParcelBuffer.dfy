/**
 Parcel as its methods change it (libs/binder/Parcel.cpp): a growing byte buffer with a
 position, and the search for an object in the table of offsets.  The parcel owns its data, and
 allocations succeed; fresh bytes of a larger buffer may hold anything.
 */
module ParcelBuffer {
  import opened Wrappers
  import opened Buffers
  import opened Parcel
  import opened ParcelWrites

  /** `s` with `x` written over it at `pos`, longer if `x` reaches beyond its end. */
  ghost function Overwrite(s: seq<byte>, pos: nat, x: seq<byte>): seq<byte>
    requires pos <= |s|
  {
    s[..pos] + x + if pos + |x| <= |s| then s[pos + |x|..] else []
  }

  class ParcelData {
    var data: array<byte>
    var size: nat
    var pos: nat
    var objects: seq<nat>
    var hint: nat

    ghost predicate Valid()
      reads this
    {
      pos <= size <= data.Length
    }

    ghost function Contents(): seq<byte>
      reads this, data
      requires Valid()
    {
      data[..size]
    }

    ghost function Space(): Room
      reads this
    {
      Room(pos, size, data.Length)
    }

    /** A write at `at` into what was `was` had the outcome `o`, status included. */
    ghost predicate Did(o: Outcome, status: Status, was: seq<byte>, at: nat)
      requires at <= |was|
      reads this, data
    {
      Valid() && status == o.status && Space() == o.room && Contents() == Overwrite(was, at, o.stored)
    }

    constructor ()
      ensures Valid() && fresh(data) && Contents() == [] && Space() == Room(0, 0, 0)
    {
      data, size, pos, objects, hint := new byte[0], 0, 0, [], 0;
    }

    /** growData and continueWrite: a larger buffer with the old contents. */
    method GrowData(len: nat) returns (ok: bool)
      requires Valid() && len > 0 && pos + len > data.Length
      modifies this`data
      ensures Valid() && Contents() == old(Contents())
      ensures ok <==> !TooLarge(size, len)
      ensures if ok then fresh(data) && data.Length == (size + len) * 3 / 2 else data == old(data)
    {
      if len > INT32_MAX {
        return false;
      }
      var newSize := (size + len) * 3 / 2;
      if newSize <= size {
        return false;
      }
      if newSize > INT32_MAX {
        return false;
      }
      if newSize > data.Length {
        var larger := new byte[newSize];
        ghost var was := data[..];
        var i := 0;
        while i < data.Length
          invariant 0 <= i <= data.Length && data[..] == was && larger[..i] == was[..i]
        {
          larger[i] := data[i];
          i := i + 1;
        }
        assert larger[..size] == larger[..i][..size] == was[..size];
        data := larger;
      }
      return true;
    }

    /** finishWrite. */
    method FinishWrite(len: nat)
      requires Valid() && pos + len <= data.Length
      modifies this`pos, this`size
      ensures pos == old(pos) + len && size == if old(size) < pos then pos else old(size)
      ensures Valid() && data[..size] == old(data[..size]) + data[old(size)..size]
    {
      pos := pos + len;
      if pos > size {
        size := pos;
      }
      assert data[..size] == data[..old(size)] + data[old(size)..size];
    }

    /** Grows unless there is room for `n` bytes at the position. */
    method EnsureRoom(n: nat) returns (ok: bool)
      requires Valid()
      modifies this`data
      ensures Valid() && Contents() == old(Contents()) && (data == old(data) || fresh(data))
      ensures ok <==> Fits(old(Space()), n)
      ensures data.Length == if ok then Advanced(old(Space()), n).capacity else old(data.Length)
      ensures ok ==> pos + n <= data.Length
    {
      ok := true;
      if pos + n > data.Length {
        ok := GrowData(n);
      }
    }

    /** writeAligned: the bytes of a number. */
    method WriteAligned(x: seq<byte>) returns (status: Status)
      requires Valid() && |x| > 0
      modifies this`data, this`pos, this`size, data
      ensures Did(AlignedOutcome(old(Space()), x), status, old(Contents()), old(pos)) &&
        (data == old(data) || fresh(data))
    {
      ghost var was := Contents();
      var ok := EnsureRoom(|x|);
      if !ok {
        OverwriteNothing(was, pos);
        return BadValue;
      }
      ghost var mid := data[..];
      assert mid[..size] == was;
      Write(data, pos, x);
      FinishWrite(|x|);
      OverwriteIs(was, mid, old(pos), x, size);
      return NoError;
    }

    /** writeInplace: room for `len` bytes, `junk` until the caller fills it, and zeros up to
        the end of the last word; None for NULL. */
    method WriteInplace(len: nat) returns (at: Option<nat>, ghost junk: seq<byte>)
      requires Valid()
      modifies this`data, this`pos, this`size, data
      ensures Valid() && (data == old(data) || fresh(data))
      ensures at.Some? <==> len <= INT32_MAX && Fits(old(Space()), Align4(len))
      ensures at.Some? ==>
        && at.value == old(pos) && |junk| == len && Space() == Advanced(old(Space()), Align4(len))
        && Contents() == Overwrite(old(Contents()), old(pos), junk + Zeros(PadOf(len)))
      ensures at.None? ==> Contents() == old(Contents()) && Space() == old(Space())
    {
      junk := [];
      if len > INT32_MAX {
        return None, junk;
      }
      var ok := EnsureRoom(Align4(len));
      if !ok {
        return None, junk;
      }
      at := Some(pos);
      junk := MakeRoom(len);
    }

    /** Masks the padding of the last word and moves the position. */
    method MakeRoom(len: nat) returns (ghost junk: seq<byte>)
      requires Valid() && pos + Align4(len) <= data.Length
      modifies this`pos, this`size, data
      ensures Valid() && |junk| == len && pos == old(pos) + Align4(len) &&
        size == if old(size) < pos then pos else old(size)
      ensures Contents() == Overwrite(old(Contents()), old(pos), junk + Zeros(PadOf(len)))
    {
      AlignIs(len);
      ghost var was, mid := Contents(), data[..];
      ghost var zeros := Zeros(PadOf(len));
      junk := mid[pos..pos + len];
      Write(data, pos + len, Zeros(PadOf(len)));
      MaskIs(mid, pos, len, zeros);
      FinishWrite(Align4(len));
      OverwriteIs(was, mid, old(pos), junk + zeros, size);
    }

    /** The memcpy of write: the padding stays. */
    method FillRoom(at: nat, bytes: seq<byte>, ghost was: seq<byte>, ghost junk: seq<byte>)
      requires Valid() && at <= |was| && |junk| == |bytes| && at + Align4(|bytes|) <= size
      requires Contents() == Overwrite(was, at, junk + Zeros(PadOf(|bytes|)))
      modifies data
      ensures Contents() == Overwrite(was, at, Padded(bytes))
    {
      ghost var mid := data[..];
      AlignIs(|bytes|);
      assert mid[..size] == Contents();
      Write(data, at, bytes);
      FillIs(was, mid, at, junk, bytes, Zeros(PadOf(|bytes|)), size);
    }

    /** write: the block is copied into the room writeInplace made.  Without room the result is
        mError, which a refused growth leaves at NO_ERROR. */
    method WriteBlock(bytes: seq<byte>) returns (status: Status)
      requires Valid()
      modifies this`data, this`pos, this`size, data
      ensures data == old(data) || fresh(data)
      ensures if |bytes| <= INT32_MAX
        then Did(BlockOutcome(old(Space()), Padded(bytes)), status, old(Contents()), old(pos))
        else Did(Outcome(BadValue, [], old(Space())), status, old(Contents()), old(pos))
    {
      ghost var was := Contents();
      OverwriteNothing(was, pos);
      if |bytes| > INT32_MAX {
        return BadValue;
      }
      var at, junk := WriteInplace(|bytes|);
      if at.None? {
        return NoError;
      }
      FillRoom(at.value, bytes, was, junk);
      return NoError;
    }

    /** A length field and then a padded block: writeString8 and writeString16. */
    method WriteCounted(n: int, bytes: seq<byte>) returns (status: Status)
      requires Valid() && -U32 < n < U32 && |bytes| <= INT32_MAX
      modifies this`data, this`pos, this`size, data
      ensures data == old(data) || fresh(data)
      ensures Did(CountedOutcome(old(Space()), Int32Bytes(n), Padded(bytes)), status, old(Contents()), old(pos))
    {
      ghost var was, r := Contents(), Space();
      status := WriteAligned(Int32Bytes(n));
      if status != NoError {
        return;
      }
      status := WriteBlock(bytes);
      OverwriteTwice(was, old(pos), Int32Bytes(n), BlockOutcome(Advanced(r, 4), Padded(bytes)).stored);
    }

    /** Any of the typed writes. */
    method WriteItem(x: Item) returns (status: Status)
      requires Valid() && InRange(x)
      modifies this`data, this`pos, this`size, data
      ensures data == old(data) || fresh(data)
      ensures Did(ItemOutcome(old(Space()), x), status, old(Contents()), old(pos))
    {
      match x
      case Int32(i) =>
        status := WriteAligned(Int32Bytes(i));
      case Int64(l) =>
        status := WriteAligned(Little(Unsigned(l, U64), 8));
      case Block(b) =>
        status := WriteBlock(b);
      case Str8(s) =>
        if s == [] {
          status := WriteAligned(Int32Bytes(0));
        } else {
          status := WriteCounted(|s|, s + [0]);
        }
      case Str16(None) =>
        status := WriteAligned(Int32Bytes(-1));
      case Str16(Some(u)) =>
        status := WriteCounted(|u|, UnitBytes(u) + [0, 0]);
    }

    /** A sequence of writes at the end of the data: it grows by what they store, which are their
        values' bytes alone if every write fits. */
    method WriteAll(xs: seq<Item>) returns (status: Status)
      requires Valid() && pos == size && AllInRange(xs)
      modifies this`data, this`pos, this`size, data
      ensures Valid() && (data == old(data) || fresh(data)) && pos == size
      ensures status == AllOutcome(old(Space()), xs).status && Space() == AllOutcome(old(Space()), xs).room
      ensures Contents() == old(Contents()) + AllOutcome(old(Space()), xs).stored
      decreases |xs|
    {
      ghost var was, r := Contents(), Space();
      if xs == [] {
        return NoError;
      }
      status := WriteItem(xs[0]);
      WrittenIff(r, xs[0]);
      AtEnd(was, ItemOutcome(r, xs[0]).stored);
      if status == NoError {
        ghost var rest := AllOutcome(Space(), xs[1..]).stored;
        status := WriteAll(xs[1..]);
        Appended(was, ItemOutcome(r, xs[0]).stored, rest);
      }
    }

    /** setDataPosition. */
    method SetDataPosition(p: nat)
      requires Valid() && p <= size
      modifies this`pos, this`hint
      ensures Valid() && pos == p && hint == 0
    {
      pos, hint := p, 0;
    }

    /** readInplace: where the bytes are, None for NULL. */
    method ReadInplace(len: nat) returns (at: Option<nat>)
      requires Valid()
      modifies this`pos
      ensures Valid()
      ensures at == (if Available(Contents(), old(pos), len) then Some(old(pos)) else None)
      ensures pos == if at.Some? then old(pos) + Align4(len) else old(pos)
    {
      if len > INT32_MAX {
        return None;
      }
      AlignIs(len);
      if pos + Align4(len) <= size {
        at := Some(pos);
        pos := pos + Align4(len);
      } else {
        at := None;
      }
    }

    /** readAligned of `k` bytes as a signed number modulo `m`. */
    method ReadAligned(k: nat, m: nat) returns (v: Option<int>)
      requires Valid()
      modifies this`pos
      ensures Valid()
      ensures v == (if old(pos) + k <= size then Some(Signed(Number(Contents(), old(pos), k), m)) else None)
      ensures pos == if v.Some? then old(pos) + k else old(pos)
    {
      if pos + k <= size {
        assert data[pos..pos + k] == Contents()[pos..pos + k];
        v := Some(Signed(Value(data[pos..pos + k]), m));
        pos := pos + k;
      } else {
        v := None;
      }
    }

    /** readInt32 without a status: 0 when there is not enough data. */
    method ReadCount() returns (n: int)
      requires Valid()
      modifies this`pos
      ensures Valid() && (n, pos) == Int32OrZero(Contents(), old(pos))
    {
      var v := ReadAligned(4, U32);
      return if v.Some? then v.value else 0;
    }

    /** readString8. */
    method ReadString() returns (s: seq<byte>)
      requires Valid()
      modifies this`pos
      ensures Valid() && (s, pos) == ReadString8(Contents(), old(pos))
    {
      var n := ReadCount();
      ghost var p := pos;
      String8At(Contents(), old(pos), n, p);
      if 0 < n < INT32_MAX {
        var b := ReadBlock(n + 1);
        if b.Some? {
          return b.value[..n];
        }
      }
      return [];
    }

    /** readString16Inplace. */
    method ReadWideString() returns (u: Option<seq<char16>>)
      requires Valid()
      modifies this`pos
      ensures Valid() && (u, pos) == ReadString16(Contents(), old(pos))
    {
      var n := ReadCount();
      ghost var p := pos;
      String16At(Contents(), old(pos), n, p);
      if 0 <= n < INT32_MAX {
        var b := ReadBlock(2 * (n + 1));
        if b.Some? {
          return Some(UnitsOf(b.value[..2 * n]));
        }
      }
      return None;
    }

    /** read: the bytes, or NOT_ENOUGH_DATA. */
    method ReadBlock(len: nat) returns (b: Option<seq<byte>>)
      requires Valid()
      modifies this`pos
      ensures Valid() && b == (if Available(Contents(), old(pos), len) then Some(Contents()[old(pos)..old(pos) + len])
        else None)
      ensures pos == if b.Some? then old(pos) + Align4(len) else old(pos)
    {
      AlignIs(len);
      var at := ReadInplace(len);
      if at.None? {
        return None;
      }
      assert data[at.value..at.value + len] == Contents()[at.value..at.value + len];
      return Some(data[at.value..at.value + len]);
    }

    /** Any of the typed reads. */
    method ReadTyped(shape: Shape) returns (x: Option<Item>)
      requires Valid()
      modifies this`pos
      ensures Valid() && x.Some? == ReadItem(Contents(), old(pos), shape).Some?
      ensures x.Some? ==> ReadItem(Contents(), old(pos), shape) == Some((x.value, pos))
      ensures x.None? ==> pos == old(pos)
    {
      match shape
      case IsInt32 =>
        var v := ReadAligned(4, U32);
        return if v.None? then None else Some(Int32(v.value));
      case IsInt64 =>
        var v := ReadAligned(8, U64);
        return if v.None? then None else Some(Int64(v.value));
      case IsBlock(len) =>
        var b := ReadBlock(len);
        return if b.None? then None else Some(Block(b.value));
      case IsStr8 =>
        var c := ReadString();
        return Some(Str8(c));
      case IsStr16 =>
        var u := ReadWideString();
        return Some(Str16(u));
    }

    /** Typed reads one after the other, as long as there is data. */
    method ReadEach(shapes: seq<Shape>) returns (xs: Option<seq<Item>>)
      requires Valid()
      modifies this`pos
      ensures Valid() && xs.Some? == ReadAll(Contents(), old(pos), shapes).Some?
      ensures xs.Some? ==> ReadAll(Contents(), old(pos), shapes) == Some((xs.value, pos))
    {
      var got: seq<Item>, i := [], 0;
      ghost var b := Contents();
      assert shapes[0..] == shapes;
      OnwardNone(ReadAll(b, pos, shapes));
      while i < |shapes|
        invariant 0 <= i <= |shapes| && Valid() && Contents() == b
        invariant ReadAll(b, old(pos), shapes) == Onward(got, ReadAll(b, pos, shapes[i..]))
      {
        assert shapes[i..][0] == shapes[i] && shapes[i..][1..] == shapes[i + 1..];
        ghost var p := pos;
        var x := ReadTyped(shapes[i]);
        if x.None? {
          return None;
        }
        OnwardTwice(got, x.value, ReadAll(b, pos, shapes[i + 1..]));
        got := got + [x.value];
        i := i + 1;
      }
      assert shapes[|shapes|..] == [] && got + [] == got;
      return Some(got);
    }

    /** ipcSetDataReference: the table is dropped when its objects overlap or descend. */
    method SetReference(bytes: array<byte>, table: seq<nat>)
      modifies this
      ensures Valid() && data == bytes && size == bytes.Length && pos == 0 && hint == 0
      ensures objects == if Accepted(table, 0, 0) then table else []
    {
      data, size, pos, hint, objects := bytes, bytes.Length, 0, 0, table;
      var min: nat, i := 0, 0;
      while i < |table|
        invariant 0 <= i <= |table| && Accepted(table, i, min) == Accepted(table, 0, 0)
      {
        if table[i] < min {
          objects := [];
          return;
        }
        min := (table[i] + OBJECT) % U64;
        i := i + 1;
      }
    }

    /** The two searches of readObject. */
    method Search(dpos: nat) returns (found: Option<nat>)
      ensures found == FindObject(objects, hint, dpos)
    {
      if |objects| == 0 {
        return None;
      }
      var opos := hint;
      if opos < |objects| {
        while opos < |objects| - 1 && objects[opos] < dpos
          invariant 0 <= opos < |objects| && Forward(objects, opos, dpos) == Forward(objects, hint, dpos)
        {
          opos := opos + 1;
        }
      } else {
        opos := |objects| - 1;
      }
      if objects[opos] == dpos {
        return Some(opos);
      }
      ghost var f := opos;
      while opos > 0 && objects[opos] > dpos
        invariant 0 <= opos < |objects| && Backward(objects, opos, dpos) == Backward(objects, f, dpos)
      {
        opos := opos - 1;
      }
      if objects[opos] == dpos {
        return Some(opos);
      }
      return None;
    }

    /** The object at `at` is null, and the caller does not ask for its offset to be in the table. */
    ghost predicate IsExempt(at: nat, nullMetaData: bool)
      requires Valid() && at + OBJECT <= size
      reads this, data
    {
      !nullMetaData && Number(Contents(), at + 8, 8) == 0 && Number(Contents(), at + 16, 8) == 0
    }

    /** readObject: where the object is, None for NULL.  An object of zero is not in the table
        and not looked for unless `nullMetaData`. */
    method ReadObject(nullMetaData: bool) returns (at: Option<nat>)
      requires Valid()
      modifies this`pos, this`hint
      ensures Valid() && (at.Some? ==> at.value == old(pos))
      ensures pos == if old(pos) + OBJECT <= size then old(pos) + OBJECT else old(pos)
      ensures old(pos) in objects && Findable(objects, old(pos)) ==> FindObject(objects, old(hint), old(pos)).Some?
      ensures at.Some? <==>
        && old(pos) + OBJECT <= size
        && (FindObject(objects, old(hint), old(pos)).Some? || IsExempt(old(pos), nullMetaData))
      ensures hint ==
        var f := FindObject(objects, old(hint), old(pos));
        if f.Some? && old(pos) + OBJECT <= size && !IsExempt(old(pos), nullMetaData) then f.value + 1 else old(hint)
    {
      var dpos := pos;
      if dpos in objects && Findable(objects, dpos) {
        FoundFromAnywhere(objects, hint, dpos);
      }
      if dpos + OBJECT > size {
        return None;
      }
      pos := dpos + OBJECT;
      assert data[dpos + 8..dpos + 16] == Contents()[dpos + 8..dpos + 16];
      assert data[dpos + 16..dpos + 24] == Contents()[dpos + 16..dpos + 24];
      if !nullMetaData && Value(data[dpos + 8..dpos + 16]) == 0 && Value(data[dpos + 16..dpos + 24]) == 0 {
        return Some(dpos);
      }
      var found := Search(dpos);
      if found.Some? {
        hint := found.value + 1;
        return Some(dpos);
      }
      return None;
    }
  }

  /** Values written to a fresh parcel and read back from its start: the same values, if every
      write fits. */
  method CopyThroughParcel(xs: seq<Item>) returns (status: Status, ys: Option<seq<Item>>)
    requires AllInRange(xs)
    ensures status == AllOutcome(Room(0, 0, 0), xs).status
    ensures AllFit(Room(0, 0, 0), xs) ==> status == NoError && ys == Some(xs)
  {
    var p := new ParcelData();
    status := p.WriteAll(xs);
    p.SetDataPosition(0);
    ys := p.ReadEach(Shapes(xs));
    AllWrittenIff(Room(0, 0, 0), xs);
    if AllFit(Room(0, 0, 0), xs) {
      assert [] + EncodeAll(xs) == EncodeAll(xs);
      CopyIsRead(p.Contents(), xs);
    }
  }

  /** A string by its count and the block behind it. */
  lemma String8At(b: seq<byte>, pos: nat, n: int, p: nat)
    requires Int32OrZero(b, pos) == (n, p)
    ensures 0 < n < INT32_MAX && Available(b, p, n + 1) ==>
      && p + n + 1 <= |b| && ReadString8(b, pos) == (b[p..p + n + 1][..n], p + Align4(n + 1))
    ensures !(0 < n < INT32_MAX && Available(b, p, n + 1)) ==> ReadString8(b, pos) == ([], p)
  {
    if 0 < n < INT32_MAX && Available(b, p, n + 1) {
      AlignIs(n + 1);
      assert b[p..p + n + 1][..n] == b[p..p + n];
    }
  }

  lemma String16At(b: seq<byte>, pos: nat, n: int, p: nat)
    requires Int32OrZero(b, pos) == (n, p)
    ensures 0 <= n < INT32_MAX && Available(b, p, 2 * (n + 1)) ==>
      && p + 2 * (n + 1) <= |b| &&
        ReadString16(b, pos) == (Some(UnitsOf(b[p..p + 2 * (n + 1)][..2 * n])), p + Align4(2 * (n + 1)))
    ensures !(0 <= n < INT32_MAX && Available(b, p, 2 * (n + 1))) ==> ReadString16(b, pos) == (None, p)
  {
    if 0 <= n < INT32_MAX && Available(b, p, 2 * (n + 1)) {
      AlignIs(2 * (n + 1));
      assert b[p..p + 2 * (n + 1)][..2 * n] == b[p..p + 2 * n];
    }
  }

  lemma WhatIsDelivered(b: seq<byte>, pos: nat, shapes: seq<Shape>, xs: seq<Item>, q: nat)
    requires Delivers(b, pos, shapes, xs, q)
    ensures ReadAll(b, pos, shapes) == Some((xs, q))
  {
  }

  lemma HoldsItself(b: seq<byte>)
    ensures Holds(b, 0, b)
  {
  }

  lemma CopyIsRead(b: seq<byte>, xs: seq<Item>)
    requires AllInRange(xs) && b == EncodeAll(xs)
    ensures ReadAll(b, 0, Shapes(xs)) == Some((xs, |b|))
  {
    HoldsItself(b);
    RoundTrip(b, 0, xs);
    WhatIsDelivered(b, 0, Shapes(xs), xs, |b|);
  }

  lemma Appended(was: seq<byte>, x: seq<byte>, y: seq<byte>)
    ensures was + x + y == was + (x + y)
  {
  }

  /** The values `xs`, then what a read gives. */
  ghost function Onward(xs: seq<Item>, r: Option<(seq<Item>, nat)>): Option<(seq<Item>, nat)> {
    if r.None? then None else Some((xs + r.value.0, r.value.1))
  }

  lemma OnwardNone(r: Option<(seq<Item>, nat)>)
    ensures Onward([], r) == r
  {
    assert r.Some? ==> [] + r.value.0 == r.value.0;
  }

  lemma OnwardTwice(xs: seq<Item>, x: Item, r: Option<(seq<Item>, nat)>)
    ensures Onward(xs, Onward([x], r)) == Onward(xs + [x], r)
  {
    if r.Some? {
      assert xs + ([x] + r.value.0) == xs + [x] + r.value.0;
    }
  }

  lemma OverwriteNothing(was: seq<byte>, pos: nat)
    requires pos <= |was|
    ensures Overwrite(was, pos, []) == was
  {
  }

  function PadOf(len: nat): nat {
    AlignIs(len);
    Align4(len) - len
  }

  lemma OverwriteIs(was: seq<byte>, mid: seq<byte>, pos: nat, x: seq<byte>, size: nat)
    requires pos <= |was| <= |mid| && mid[..|was|] == was && pos + |x| <= |mid|
    requires size == if |was| < pos + |x| then pos + |x| else |was|
    ensures Spliced(mid, pos, x)[..size] == Overwrite(was, pos, x)
  {
    assert forall i :: 0 <= i < |was| ==> mid[i] == mid[..|was|][i] == was[i];
  }

  lemma OverwriteTwice(was: seq<byte>, pos: nat, x: seq<byte>, y: seq<byte>)
    requires pos <= |was|
    ensures pos + |x| <= |Overwrite(was, pos, x)|
    ensures Overwrite(Overwrite(was, pos, x), pos + |x|, y) == Overwrite(was, pos, x + y)
  {
  }

  /** Masking the last word: what was there, then zeros. */
  lemma MaskIs(mid: seq<byte>, pos: nat, len: nat, z: seq<byte>)
    requires pos + len + |z| <= |mid|
    ensures Spliced(mid, pos + len, z) == Spliced(mid, pos, mid[pos..pos + len] + z)
  {
  }

  /** Filling the room: the padding stays. */
  lemma FillIs(was: seq<byte>, mid: seq<byte>, pos: nat, junk: seq<byte>, x: seq<byte>, z: seq<byte>, size: nat)
    requires pos <= |was| && |junk| == |x| && pos + |x| + |z| <= size <= |mid|
    requires mid[..size] == Overwrite(was, pos, junk + z)
    ensures Spliced(mid, pos, x)[..size] == Overwrite(was, pos, x + z)
  {
    var o := Overwrite(was, pos, junk + z);
    assert forall i :: 0 <= i < size ==> mid[i] == mid[..size][i] == o[i];
    assert forall i :: pos + |x| <= i < size ==> Spliced(mid, pos, x)[i] == mid[i];
    assert forall i :: pos + |x| <= i < |o| ==> o[i] == Overwrite(was, pos, x + z)[i];
  }

  lemma AtEnd(was: seq<byte>, x: seq<byte>)
    ensures Overwrite(was, |was|, x) == was + x
  {
  }
}
