/**
 What the typed writes of a Parcel store and what they report (libs/binder/Parcel.cpp).  When a
 parcel cannot grow, a number is refused with BAD_VALUE.  A block is not: writeInplace returns
 NULL, write and writeString16 then return mError, and the refused growth has not set it.
 */
module ParcelWrites {
  import opened Buffers
  import opened Parcel

  datatype Status = NoError | BadValue

  /** The position, the size and the capacity of a parcel. */
  datatype Room = Room(pos: nat, size: nat, capacity: nat)

  predicate Proper(r: Room) {
    r.pos <= r.size <= r.capacity
  }

  /** Growing for `n` more bytes would leave the range of an int32_t. */
  predicate TooLarge(size: nat, n: nat) {
    (size + n) * 3 / 2 > INT32_MAX
  }

  /** `n` bytes can be written: there is room, or the parcel can grow. */
  predicate Fits(r: Room, n: nat) {
    r.pos + n <= r.capacity || !TooLarge(r.size, n)
  }

  /** The parcel after `n` bytes were written. */
  function Advanced(r: Room, n: nat): (q: Room)
    requires Proper(r)
    ensures Proper(q) && q.pos == r.pos + n
  {
    Room(r.pos + n, if r.size < r.pos + n then r.pos + n else r.size,
         if r.pos + n <= r.capacity then r.capacity else (r.size + n) * 3 / 2)
  }

  /** What a write reports, the bytes it stores, and the parcel afterwards. */
  datatype Outcome = Outcome(status: Status, stored: seq<byte>, room: Room)

  /** writeAligned. */
  function AlignedOutcome(r: Room, x: seq<byte>): Outcome
    requires Proper(r)
  {
    if Fits(r, |x|) then Outcome(NoError, x, Advanced(r, |x|)) else Outcome(BadValue, [], r)
  }

  /** write, of a block that is not longer than an int32_t can say. */
  function BlockOutcome(r: Room, x: seq<byte>): Outcome
    requires Proper(r)
  {
    if Fits(r, |x|) then Outcome(NoError, x, Advanced(r, |x|)) else Outcome(NoError, [], r)
  }

  /** writeString8 and writeString16: a length field, then a block. */
  function CountedOutcome(r: Room, n: seq<byte>, x: seq<byte>): Outcome
    requires Proper(r)
  {
    if !Fits(r, |n|) then Outcome(BadValue, [], r)
    else
      var b := BlockOutcome(Advanced(r, |n|), x);
      Outcome(NoError, n + b.stored, b.room)
  }

  function ItemOutcome(r: Room, x: Item): Outcome
    requires Proper(r) && InRange(x)
  {
    match x
    case Int32(i) => AlignedOutcome(r, Int32Bytes(i))
    case Int64(l) => AlignedOutcome(r, Little(Unsigned(l, U64), 8))
    case Block(b) => BlockOutcome(r, Padded(b))
    case Str8(s) => if s == [] then AlignedOutcome(r, Int32Bytes(0))
      else CountedOutcome(r, Int32Bytes(|s|), Padded(s + [0]))
    case Str16(None) => AlignedOutcome(r, Int32Bytes(-1))
    case Str16(Some(u)) => CountedOutcome(r, Int32Bytes(|u|), Padded(UnitBytes(u) + [0, 0]))
  }

  // ---------------------------------------------------------------- when NO_ERROR means written

  /** The bytes of the last block a value ends with. */
  function BlockSize(x: Item): nat {
    match x
    case Int32(_) => 0
    case Int64(_) => 0
    case Block(b) => Align4(|b|)
    case Str8(s) => if s == [] then 0 else Align4(|s| + 1)
    case Str16(u) => if u.None? then 0 else Align4(2 * |u.value| + 2)
  }

  /** How many bytes come before that block: a number, or a length field. */
  function FieldSize(x: Item): nat {
    match x
    case Int32(_) => 4
    case Int64(_) => 8
    case Block(_) => 0
    case Str8(_) => 4
    case Str16(_) => 4
  }

  lemma Sizes(x: Item)
    requires InRange(x)
    ensures |Encode(x)| == FieldSize(x) + BlockSize(x)
  {
  }

  /** The field fits and the block behind it does not: no room for it at the position, and the
      parcel is too large to grow for it. */
  predicate Drops(r: Room, x: Item)
    requires Proper(r)
  {
    Fits(r, FieldSize(x)) && !Fits(Advanced(r, FieldSize(x)), BlockSize(x))
  }

  lemma Unmoved(r: Room)
    requires Proper(r)
    ensures Fits(r, 0) && Advanced(r, 0) == r
  {
  }

  /** What is stored is the value or less, and the status is NO_ERROR if and only if the field fits:
      the value is stored exactly when its field and its block fit, and it is reported as written
      and is not exactly when its block is dropped. */
  lemma WrittenIff(r: Room, x: Item)
    requires Proper(r) && InRange(x)
    ensures var o := ItemOutcome(r, x);
      && Proper(o.room) && o.room.pos == r.pos + |o.stored|
      && (o.status == NoError <==> Fits(r, FieldSize(x)))
      && (o.stored == Encode(x) <==> Fits(r, FieldSize(x)) && !Drops(r, x))
      && (o.status == NoError && o.stored != Encode(x) <==> Drops(r, x))
      && (o.stored != Encode(x) ==> |o.stored| < |Encode(x)|)
  {
    Unmoved(r);
    Sizes(x);
    AlignIs(BlockSize(x));
    if Fits(r, FieldSize(x)) {
      Unmoved(Advanced(r, FieldSize(x)));
    }
  }

  /** A large block written to a fresh parcel: NO_ERROR, and nothing is stored. */
  lemma LargeBlockIsDropped(b: seq<byte>)
    requires |b| == 1_500_000_000
    ensures InRange(Block(b)) && Encode(Block(b)) != [] &&
      ItemOutcome(Room(0, 0, 0), Block(b)) == Outcome(NoError, [], Room(0, 0, 0))
  {
    assert Align4(|b|) == 1_500_000_000;
  }

  /** A block written to a fresh parcel is stored if and only if it has at most 1,431,655,764 bytes;
      the parcel has room for half as much again then.  A longer one is dropped with NO_ERROR. */
  lemma FreshBlockIsStoredIff(b: seq<byte>)
    requires 0 < |b| <= INT32_MAX
    ensures InRange(Block(b))
    ensures var o := ItemOutcome(Room(0, 0, 0), Block(b));
      && o.status == NoError
      && (o.stored == Encode(Block(b)) <==> |b| <= 1_431_655_764)
      && (o.stored == Encode(Block(b)) ==> o.room.capacity == |o.stored| + |o.stored| / 2)
      && (o.stored != Encode(Block(b)) ==> o.stored == [] && o.room == Room(0, 0, 0))
  {
    AlignIs(|b|);
    WrittenIff(Room(0, 0, 0), Block(b));
    Unmoved(Room(0, 0, 0));
  }

  // ---------------------------------------------------------------- a sequence of writes

  /** Writes one after the other as long as they report NO_ERROR. */
  function AllOutcome(r: Room, xs: seq<Item>): Outcome
    requires Proper(r) && AllInRange(xs)
    decreases |xs|
  {
    if xs == [] then Outcome(NoError, [], r)
    else
      WrittenIff(r, xs[0]);
      var o := ItemOutcome(r, xs[0]);
      if o.status != NoError then o
      else
        var p := AllOutcome(o.room, xs[1..]);
        Outcome(p.status, o.stored + p.stored, p.room)
  }

  /** Every write fits into what the ones before it have left. */
  predicate AllFit(r: Room, xs: seq<Item>)
    requires Proper(r) && AllInRange(xs)
    decreases |xs|
  {
    xs == [] ||
    (&& Fits(r, FieldSize(xs[0])) && !Drops(r, xs[0])
     && (WrittenIff(r, xs[0]); AllFit(ItemOutcome(r, xs[0]).room, xs[1..])))
  }

  /** Every number and every length field fits. */
  predicate FieldsFit(r: Room, xs: seq<Item>)
    requires Proper(r) && AllInRange(xs)
    decreases |xs|
  {
    xs == [] || (Fits(r, FieldSize(xs[0])) && (WrittenIff(r, xs[0]); FieldsFit(ItemOutcome(r, xs[0]).room, xs[1..])))
  }

  /** A sequence of writes reports NO_ERROR if and only if every field fits, and stores its values,
      to the last byte, if and only if every block fits as well. */
  lemma {:induction false} AllWrittenIff(r: Room, xs: seq<Item>)
    requires Proper(r) && AllInRange(xs)
    ensures var o := AllOutcome(r, xs);
      && (o.status == NoError <==> FieldsFit(r, xs)) && (AllFit(r, xs) ==> FieldsFit(r, xs))
      && (o.stored == EncodeAll(xs) <==> AllFit(r, xs)) && (AllFit(r, xs) || |o.stored| < |EncodeAll(xs)|)
    decreases |xs|
  {
    if xs != [] {
      WrittenIff(r, xs[0]);
      Sizes(xs[0]);
      var o := ItemOutcome(r, xs[0]);
      if o.status == NoError {
        AllWrittenIff(o.room, xs[1..]);
      }
    }
  }
}
