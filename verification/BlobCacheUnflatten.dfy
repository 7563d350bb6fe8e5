/**
 What unflatten makes of a buffer (libs/utils/BlobCache.cpp): when it fails, what an error leaves
 behind, and that it undoes flatten.  `past` are the bytes that lie behind the buffer in memory;
 unflatten looks at them when it compares the build id in a buffer that is too short for it.
 */
module BlobCacheUnflatten {
  import opened Buffers
  import opened BlobCache

  // ---------------------------------------------------------------- the walk

  /** The header is one of this version and of this build. */
  predicate HeaderMatches(buf: seq<byte>, past: seq<byte>, id: seq<byte>)
    requires |buf| >= HEADER && |past| >= ID_MAX && |id| < ID_MAX
  {
    && Number(buf, 4, 4) == 3 && Number(buf, 8, 4) == 1 && Number(buf, 24, 4) == |id|
    && (buf + past)[ID_OFFSET..ID_OFFSET + |id|] == id
  }

  function First(cs: seq<set<Blob>>): set<Blob> {
    if cs == [] then {} else cs[0]
  }

  function Rest(cs: seq<set<Blob>>): seq<set<Blob>> {
    if cs == [] then [] else cs[1..]
  }

  /** How unflatten ends: it returns OK or BAD_VALUE, goes on to read outside the buffer, or has
      clean() take a random number modulo zero. */
  datatype Ending = Done | BadValue | Outside | Broken

  /** The entry loop of unflatten; `cs` are the entries evicted at each step, if any.  An entry
      that passes without lying in the buffer is turned down, or read from outside of it. */
  ghost function UnflattenFrom(s: State, c: Limits, buf: seq<byte>, at: nat, n: nat, cs: seq<set<Blob>>): (State,
    Ending)
    requires Loose(s, c)
    decreases n
  {
    if n == 0 then (s, Done)
    else if !Passes(buf, at) then (s.(entries := map[]), BadValue)
    else if Strays(c, buf, at) then (s, Outside)
    else
      var y := Taken(s, c, buf, at, First(cs));
      if Halts(s, c, buf, at) then (y, Broken) else UnflattenFrom(y, c, buf, NextAt(buf, at), n - 1, Rest(cs))
  }

  /** What the entry at `at` makes of the cache. */
  ghost function Taken(s: State, c: Limits, buf: seq<byte>, at: nat, gone: set<Blob>): (y: State)
    requires Loose(s, c)
    ensures Loose(y, c) && Extra(y) == Extra(s)
  {
    if !EntryFits(buf, at) then s
    else
      SetKeeps(s, c, KeyAt(buf, at), ValueAt(buf, at), gone);
      Set(s, c, KeyAt(buf, at), ValueAt(buf, at), gone)
  }

  ghost predicate Halts(s: State, c: Limits, buf: seq<byte>, at: nat) {
    EntryFits(buf, at) && Breaks(s, c, KeyAt(buf, at), ValueAt(buf, at))
  }

  /** unflatten: the entries are cleared, mTotalSize is not. */
  ghost function Unflattened(s: State, c: Limits, buf: seq<byte>, past: seq<byte>, id: seq<byte>,
    cs: seq<set<Blob>>): (State, Ending)
    requires s.total <= c.total && |past| >= ID_MAX && |id| < ID_MAX
  {
    var e := s.(entries := map[]);
    if |buf| < HEADER || Number(buf, 0, 4) != MAGIC then (e, BadValue)
    else if !HeaderMatches(buf, past, id) then (e, Done)
    else UnflattenFrom(e, c, buf, Start(id), Number(buf, 16, 8), cs)
  }

  // ---------------------------------------------------------------- when it fails

  /** unflatten gets to the entries. */
  predicate Opens(buf: seq<byte>, past: seq<byte>, id: seq<byte>)
    requires |past| >= ID_MAX && |id| < ID_MAX
  {
    |buf| >= HEADER && Number(buf, 0, 4) == MAGIC && HeaderMatches(buf, past, id)
  }

  /** Of the `n` entries from `at` on, one does not pass, and none before it strays. */
  predicate CutShort(c: Limits, buf: seq<byte>, at: nat, n: nat)
    decreases n
  {
    n > 0 && (!Passes(buf, at) || (!Strays(c, buf, at) && CutShort(c, buf, NextAt(buf, at), n - 1)))
  }

  /** Of the `n` entries from `at` on, one strays, and all before it pass. */
  predicate StraysSome(c: Limits, buf: seq<byte>, at: nat, n: nat)
    decreases n
  {
    n > 0 && Passes(buf, at) && (Strays(c, buf, at) || StraysSome(c, buf, NextAt(buf, at), n - 1))
  }

  /** The entry at `at` lies in the buffer and is not too large for the cache. */
  predicate StorableAt(c: Limits, buf: seq<byte>, at: nat) {
    EntryFits(buf, at) && Storable(c, KeyAt(buf, at), ValueAt(buf, at))
  }

  /** Among the entries that are read is one the cache can store. */
  predicate StorableBefore(c: Limits, buf: seq<byte>, at: nat, n: nat)
    decreases n
  {
    && n > 0 && Passes(buf, at) && !Strays(c, buf, at)
    && (StorableAt(c, buf, at) || StorableBefore(c, buf, NextAt(buf, at), n - 1))
  }

  /** Among the entries that are read is one that takes the entries `m` stored so far and the `x`
      bytes counted for no entry over the limit. */
  ghost predicate OverfullBefore(c: Limits, x: int, m: Entries, buf: seq<byte>, at: nat, n: nat)
    decreases n
  {
    && n > 0 && Passes(buf, at) && !Strays(c, buf, at)
    && if !StorableAt(c, buf, at) then OverfullBefore(c, x, m, buf, NextAt(buf, at), n - 1)
       else
         var m' := m[KeyAt(buf, at) := ValueAt(buf, at)];
         x + Sum(m') > c.total || OverfullBefore(c, x, m', buf, NextAt(buf, at), n - 1)
  }

  /** The loop breaks: more than half the limit is counted for no entry, and it gets over the limit. */
  ghost predicate WalkBreaks(s: State, c: Limits, buf: seq<byte>, at: nat, n: nat) {
    Extra(s) > c.total / 2 && OverfullBefore(c, Extra(s), s.entries, buf, at, n)
  }

  /** A pair that is not too large fills even an empty cache: whatever is evicted on the way, the
      total is not zero afterwards. */
  lemma StorableFills(s: State, c: Limits, k: Blob, v: Blob, gone: set<Blob>)
    requires Loose(s, c) && Storable(c, k, v)
    ensures Set(s, c, k, v, gone).total > 0
  {
    NewTotalIsSum(s, k, v);
    SumWithout(s.entries[k := v], k);
    var u := Cleaned(s, gone);
    CleanedKeeps(s, c, gone);
    NewTotalIsSum(u, k, v);
    SumWithout(u.entries[k := v], k);
  }

  lemma TakenFills(s: State, c: Limits, buf: seq<byte>, at: nat, gone: set<Blob>)
    requires Loose(s, c)
    ensures Taken(s, c, buf, at, gone).total == 0 <==> s.total == 0 && !StorableAt(c, buf, at)
  {
    if StorableAt(c, buf, at) {
      StorableFills(s, c, KeyAt(buf, at), ValueAt(buf, at), gone);
    }
  }

  /** One entry breaks the loop exactly if it is the one that gets over the limit; with more than
      half the limit counted for no entry nothing is ever evicted before. */
  lemma TakenOrOverfull(s: State, c: Limits, buf: seq<byte>, at: nat, gone: set<Blob>)
    requires Loose(s, c)
    ensures Halts(s, c, buf, at) <==>
      && Extra(s) > c.total / 2 && StorableAt(c, buf, at)
      && Extra(s) + Sum(s.entries[KeyAt(buf, at) := ValueAt(buf, at)]) > c.total
    ensures Extra(s) > c.total / 2 && !Halts(s, c, buf, at) ==>
      Taken(s, c, buf, at, gone).entries ==
      if StorableAt(c, buf, at) then s.entries[KeyAt(buf, at) := ValueAt(buf, at)] else s.entries
  {
    if StorableAt(c, buf, at) {
      NewTotalIsSum(s, KeyAt(buf, at), ValueAt(buf, at));
    }
  }

  /** How the loop ends, from the buffer alone. */
  ghost function WalkEnding(s: State, c: Limits, buf: seq<byte>, at: nat, n: nat): Ending {
    if WalkBreaks(s, c, buf, at, n) then Broken
    else if CutShort(c, buf, at, n) then BadValue
    else if StraysSome(c, buf, at, n) then Outside
    else Done
  }

  lemma BreaksStep(s: State, y: State, c: Limits, buf: seq<byte>, at: nat, n: nat, gone: set<Blob>)
    requires Loose(s, c) && n > 0 && Passes(buf, at) && !Strays(c, buf, at) && !Halts(s, c, buf, at)
    requires y == Taken(s, c, buf, at, gone)
    ensures WalkBreaks(s, c, buf, at, n) <==> WalkBreaks(y, c, buf, NextAt(buf, at), n - 1)
  {
    TakenOrOverfull(s, c, buf, at, gone);
  }

  /** The loop ends as stated.  On BAD_VALUE no entry is left, and the total is zero exactly when
      it was before and nothing was stored. */
  lemma {:induction false} WalkFails(s: State, c: Limits, buf: seq<byte>, at: nat, n: nat, cs: seq<set<Blob>>)
    requires Loose(s, c)
    ensures var (y, end) := UnflattenFrom(s, c, buf, at, n, cs);
      && end == WalkEnding(s, c, buf, at, n) && y.total <= c.total
      && (end == Done ==> Loose(y, c) && Extra(y) == Extra(s))
      && (end == BadValue ==> y.entries == map[] && (y.total == 0 <==> s.total == 0 && !StorableBefore(c, buf, at, n)))
    decreases n
  {
    if n > 0 && Passes(buf, at) && !Strays(c, buf, at) {
      var y := Taken(s, c, buf, at, First(cs));
      TakenFills(s, c, buf, at, First(cs));
      if Halts(s, c, buf, at) {
        TakenOrOverfull(s, c, buf, at, First(cs));
      } else {
        BreaksStep(s, y, c, buf, at, n, First(cs));
        WalkFails(y, c, buf, NextAt(buf, at), n - 1, Rest(cs));
      }
    }
  }

  /** How unflatten ends, from the buffer and what mTotalSize counted before. */
  ghost function EndingOf(x: nat, c: Limits, buf: seq<byte>, past: seq<byte>, id: seq<byte>): Ending
    requires |past| >= ID_MAX && |id| < ID_MAX
  {
    if |buf| < HEADER || Number(buf, 0, 4) != MAGIC then BadValue
    else if !HeaderMatches(buf, past, id) then Done
    else WalkEnding(State(map[], x, map[]), c, buf, Start(id), Number(buf, 16, 8))
  }

  /** unflatten gets to the entries, and one it can store is among those it reads. */
  predicate StoresSome(c: Limits, buf: seq<byte>, past: seq<byte>, id: seq<byte>)
    requires |past| >= ID_MAX && |id| < ID_MAX
  {
    Opens(buf, past, id) && StorableBefore(c, buf, Start(id), Number(buf, 16, 8))
  }

  /** unflatten ends exactly as stated.  An error leaves the empty cache its comment promises if
      and only if nothing was counted before and no entry that is read can be stored.  On OK the
      total counts the entries and, still, what was counted before. */
  lemma FailureIsEmptyIff(s: State, c: Limits, buf: seq<byte>, past: seq<byte>, id: seq<byte>, cs: seq<set<Blob>>)
    requires s.total <= c.total && |past| >= ID_MAX && |id| < ID_MAX
    ensures var (y, end) := Unflattened(s, c, buf, past, id, cs);
      && end == EndingOf(s.total, c, buf, past, id)
      && (end == Done ==> Loose(y, c) && y.total == s.total + Sum(y.entries))
      && (end == BadValue ==>
            && y.entries == map[] && y.total <= c.total && (Inv(y, c) <==> y.total == 0)
            && (y.total == 0 <==> s.total == 0 && !StoresSome(c, buf, past, id)))
  {
    var e := s.(entries := map[]);
    assert Loose(e, c) && Extra(e) == s.total;
    if Opens(buf, past, id) {
      WalkFails(e, c, buf, Start(id), Number(buf, 16, 8), cs);
    }
  }

  /** Into a cache that counts no more than half its limit, with limits and a buffer well below the
      size of the address space, unflatten returns. */
  lemma UnflattenReturns(x: nat, c: Limits, buf: seq<byte>, past: seq<byte>, id: seq<byte>)
    requires |past| >= ID_MAX && |id| < ID_MAX && x <= c.total / 2
    requires c.key + c.value + |buf| + ENTRY_HEADER + 3 < WORD
    ensures EndingOf(x, c, buf, past, id) in {Done, BadValue}
  {
    if Opens(buf, past, id) {
      NoneStrays(c, buf, Start(id), Number(buf, 16, 8));
    }
  }

  lemma {:induction false} NoneStrays(c: Limits, buf: seq<byte>, at: nat, n: nat)
    requires c.key + c.value + |buf| + ENTRY_HEADER + 3 < WORD
    ensures !StraysSome(c, buf, at, n)
    decreases n
  {
    if n > 0 && Passes(buf, at) {
      NothingStrays(c, buf, at);
      NoneStrays(c, buf, NextAt(buf, at), n - 1);
    }
  }

  // ---------------------------------------------------------------- what an error leads to

  /** set() calls clean() on a cache without entries, which takes a random number modulo zero. */
  predicate CleansNothing(s: State, c: Limits, k: Blob, v: Blob) {
    s.entries == map[] && Storable(c, k, v) && NewTotal(s, k, v) > c.total && Cleanable(s, c)
  }

  function Smaller(a: nat, b: nat): nat {
    if a < b then a else b
  }

  /** After an error the next set does it for some pair if and only if more than half the limit is
      counted and a pair may be larger than the rest. */
  lemma CleansNothingIff(y: State, c: Limits)
    requires y.entries == map[] && y.total <= c.total
    ensures (exists k: Blob, v: Blob :: CleansNothing(y, c, k, v)) <==>
      Cleanable(y, c) && c.key > 0 && c.value > 0 && c.total > 1 &&
        Smaller(c.key + c.value, c.total) > c.total - y.total
  {
    if Cleanable(y, c) && c.key > 0 && c.value > 0 && c.total > 1 &&
      Smaller(c.key + c.value, c.total) > c.total - y.total {
      var n := Smaller(c.key + c.value, c.total);
      var a := Smaller(c.key, n - 1);
      assert CleansNothing(y, c, Zeros(a), Zeros(n - a));
    }
  }

  /** After an error some sequence of sets does it if and only if more than half the limit is
      counted and the keys there are, with their longest values, are more than the rest; and one
      set does it if it gets over the limit at once. */
  lemma BreaksAfterErrorIff(s: State, c: Limits, buf: seq<byte>, past: seq<byte>, id: seq<byte>, cs: seq<set<Blob>>)
    requires s.total <= c.total && |past| >= ID_MAX && |id| < ID_MAX && EndingOf(s.total, c, buf, past, id) == BadValue
    ensures var (y, end) := Unflattened(s, c, buf, past, id, cs);
      && end == BadValue && Loose(y, c)
      && (CanBreak(y, c) <==> y.total > c.total / 2 && y.total + Sum(Full(c)) > c.total)
      && forall k: Blob, v: Blob :: CleansNothing(y, c, k, v) <==> Breaks(y, c, k, v)
  {
    FailureIsEmptyIff(s, c, buf, past, id, cs);
    CanBreakIff(Unflattened(s, c, buf, past, id, cs).0, c);
  }

  // ---------------------------------------------------------------- buffers that fail

  /** A buffer with the count `n` and `body` as its entries, made without a build id. */
  function Framed(n: nat, body: seq<byte>): (r: seq<byte>)
    ensures |r| == 32 + |body|
  {
    Versions() + Zeros(4) + Counts(n, []) + Zeros(4) + body
  }

  lemma Layout(a: seq<byte>, b: seq<byte>, e: seq<byte>)
    requires |a| == 12 && |b| == 12
    ensures var x := a + Zeros(4) + b + Zeros(4) + e;
      Holds(x, 0, a) && Holds(x, 16, b) && Holds(x, 32, e) && |x| == 32 + |e|
  {
  }

  lemma FramedReads(n: nat, body: seq<byte>, past: seq<byte>)
    requires |past| >= ID_MAX && n < WORD
    ensures var buf := Framed(n, body);
      Opens(buf, past, []) && Number(buf, 16, 8) == n && Holds(buf, 32, body)
  {
    var buf := Framed(n, body);
    Layout(Versions(), Counts(n, []), body);
    Powers();
    VersionsRead(buf);
    CountsRead(buf, n, []);
    assert (buf + past)[ID_OFFSET..ID_OFFSET] == [];
  }

  /** The limits that just admit one pair. */
  function JustFor(k: Blob, v: Blob): Limits {
    Limits(|k|, |v|, |k| + |v|)
  }

  lemma FirstPairStored(k: Blob, v: Blob, gone: set<Blob>)
    requires k != [] && v != []
    ensures Loose(Fresh, JustFor(k, v)) && Set(Fresh, JustFor(k, v), k, v, gone) == Holding(map[k := v])
  {
    var none: Entries := map[];
    SumWith(none, k, v);
    assert none[k := v] == map[k := v];
  }

  /** The pair is at `at`, and nothing behind it. */
  ghost predicate PairLast(buf: seq<byte>, at: nat, k: Blob, v: Blob) {
    && EntryFits(buf, at) && KeyAt(buf, at) == k && ValueAt(buf, at) == v
    && Passes(buf, at) && NextAt(buf, at) == |buf|
  }

  lemma TwoSteps(buf: seq<byte>, at: nat, k: Blob, v: Blob, cs: seq<set<Blob>>)
    requires k != [] && v != [] && PairLast(buf, at, k, v)
    ensures Loose(Fresh, JustFor(k, v))
    ensures UnflattenFrom(Fresh, JustFor(k, v), buf, at, 2, cs) == (Holding(map[k := v]).(entries := map[]), BadValue)
  {
    var c, gone := JustFor(k, v), First(cs);
    FirstPairStored(k, v, gone);
    var u := Taken(Fresh, c, buf, at, gone);
    assert UnflattenFrom(u, c, buf, |buf|, 1, Rest(cs)) == (u.(entries := map[]), BadValue);
  }

  /** What is left of a pair that was stored before the failure: no entry, its size as total, and
      setting the pair again sends clean() to a cache without entries. */
  ghost predicate KeepsTotal(r: (State, Ending), k: Blob, v: Blob) {
    && r.1 == BadValue && r.0.entries == map[] && r.0.total == |k| + |v| && !Inv(r.0, JustFor(k, v))
    && CleansNothing(r.0, JustFor(k, v), k, v)
  }

  lemma StoredThenLost(k: Blob, v: Blob)
    requires k != [] && v != []
    ensures KeepsTotal((Holding(map[k := v]).(entries := map[]), BadValue), k, v)
  {
    SumOfOne(k, v);
  }

  /** Inputs that fail: a buffer that announces two entries and holds one. */
  lemma CutShortKeepsTotal(k: Blob, v: Blob, past: seq<byte>, cs: seq<set<Blob>>)
    requires k != [] && v != [] && |EntryBytes(k, v)| + 32 < WORD && |past| >= ID_MAX
    ensures KeepsTotal(Unflattened(Fresh, JustFor(k, v), Framed(2, EntryBytes(k, v)), past, [], cs), k, v)
  {
    var buf := Framed(2, EntryBytes(k, v));
    FramedReads(2, EntryBytes(k, v), past);
    assert Start([]) == 32;
    EntryHeld(buf, 32, k, v);
    TwoSteps(buf, 32, k, v, cs);
    StoredThenLost(k, v);
  }

  lemma OnePairSize(k: Blob, v: Blob)
    requires |k| == 1 && |v| == 1
    ensures |EntryBytes(k, v)| == 20
  {
  }

  /** The smallest such buffers: a key and a value of one byte, 52 bytes. */
  lemma CutShortExample(k: Blob, v: Blob, past: seq<byte>, cs: seq<set<Blob>>)
    requires |k| == 1 && |v| == 1 && |past| >= ID_MAX
    ensures KeepsTotal(Unflattened(Fresh, JustFor(k, v), Framed(2, EntryBytes(k, v)), past, [], cs), k, v)
    ensures 32 + |EntryBytes(k, v)| == 52 && JustFor(k, v) == Limits(1, 1, 2)
  {
    OnePairSize(k, v);
    CutShortKeepsTotal(k, v, past, cs);
  }

  /** A full cache that is given its own serialized form again: what it held is still counted, and
      clean() takes a random number modulo zero. */
  lemma ReloadBreaks(k: Blob, v: Blob, past: seq<byte>, cs: seq<set<Blob>>)
    requires k != [] && v != [] && |EntryBytes(k, v)| + 32 < WORD && |past| >= ID_MAX
    ensures Inv(Holding(map[k := v]), JustFor(k, v))
    ensures Unflattened(Holding(map[k := v]), JustFor(k, v), Framed(1, EntryBytes(k, v)), past, [], cs).1 == Broken
  {
    var buf, c := Framed(1, EntryBytes(k, v)), JustFor(k, v);
    FramedReads(1, EntryBytes(k, v), past);
    assert Start([]) == 32;
    EntryHeld(buf, 32, k, v);
    SumOfOne(k, v);
    var e := Holding(map[k := v]).(entries := map[]);
    EmptyIsFine(e, c);
    assert Halts(e, c, buf, 32);
  }

  lemma SumOfOne(k: Blob, v: Blob)
    ensures Sum(map[k := v]) == |k| + |v|
  {
    var none: Entries := map[];
    SumWith(none, k, v);
    assert none[k := v] == map[k := v];
  }

  /** An entry whose sizes wrap around: with its header it seems to have 32 bytes. */
  function Wrapping(): (r: seq<byte>)
    ensures |r| == 32
  {
    Little(WORD - 16, 8) + Little(32, 8) + Zeros(16)
  }

  /** Such an entry and then a proper one. */
  function WrappedEntry(n: nat, k: Blob, v: Blob): (r: seq<byte>)
    ensures |r| == 64 + |EntryBytes(k, v)|
  {
    Framed(n, Wrapping() + EntryBytes(k, v))
  }

  lemma TwoNumbers(a: seq<byte>, b: seq<byte>, z: seq<byte>)
    requires |a| == 8 && |b| == 8
    ensures (a + b + z)[0..8] == a && (a + b + z)[8..16] == b
  {
  }

  lemma WrappingRead(buf: seq<byte>, at: nat)
    requires Holds(buf, at, Wrapping())
    ensures Number(buf, at, 8) == WORD - 16 && Number(buf, at + 8, 8) == 32
  {
    Powers();
    TwoNumbers(Little(WORD - 16, 8), Little(32, 8), Zeros(16));
    SizesRead(buf, at, Wrapping(), WORD - 16, 32);
  }

  lemma WrappedSums(a: nat, b: nat, at: nat)
    requires a == WORD - 16 && b == 32 && at + 32 < WORD
    ensures (at + WordAlign4((ENTRY_HEADER + a + b) % WORD)) % WORD == at + 32
    ensures Align4(ENTRY_HEADER + a + b) > WORD && (a + b) % WORD == 16
  {
    assert (ENTRY_HEADER + a + b) % WORD == 32;
  }

  /** It passes, does not lie in the buffer, and the walk goes on 32 bytes behind. */
  lemma WrappingPasses(buf: seq<byte>, at: nat, c: Limits)
    requires Holds(buf, at, Wrapping()) && |buf| < WORD
    ensures Passes(buf, at) && NextAt(buf, at) == at + 32 && !EntryFits(buf, at)
    ensures Strays(c, buf, at) <==> c.key >= WORD - 16 && c.value >= 32 && c.total >= 16
  {
    WrappingRead(buf, at);
    WrappedSums(Number(buf, at, 8), Number(buf, at + 8, 8), at);
  }

  lemma WrappedReads(n: nat, k: Blob, v: Blob, past: seq<byte>)
    requires |past| >= ID_MAX && n < WORD && |WrappedEntry(n, k, v)| < WORD
    ensures var buf := WrappedEntry(n, k, v);
      && Opens(buf, past, []) && Number(buf, 16, 8) == n
      && Holds(buf, 32, Wrapping()) && PairLast(buf, 64, k, v)
  {
    var buf := WrappedEntry(n, k, v);
    FramedReads(n, Wrapping() + EntryBytes(k, v), past);
    HeldParts(buf, 32, Wrapping(), EntryBytes(k, v));
    EntryHeld(buf, 64, k, v);
  }

  /** Inputs whose first entry wraps: it is turned down and the walk goes on.  With the count 3 the
      pair is stored and the failure comes behind it; with the count 1 unflatten returns OK. */
  lemma WrappedEntryKeepsTotal(k: Blob, v: Blob, past: seq<byte>, cs: seq<set<Blob>>)
    requires k != [] && v != [] && |WrappedEntry(3, k, v)| < WORD && |past| >= ID_MAX
    ensures KeepsTotal(Unflattened(Fresh, JustFor(k, v), WrappedEntry(3, k, v), past, [], cs), k, v)
    ensures Unflattened(Fresh, JustFor(k, v), WrappedEntry(1, k, v), past, [], cs) == (Fresh, Done)
  {
    var c := JustFor(k, v);
    WrappedReads(3, k, v, past);
    WrappedReads(1, k, v, past);
    assert Start([]) == 32;
    FreshOk(c);
    WrappedStep(WrappedEntry(1, k, v), 32, c, 1, cs);
    WrappedStep(WrappedEntry(3, k, v), 32, c, 3, cs);
    TwoSteps(WrappedEntry(3, k, v), 64, k, v, Rest(cs));
    StoredThenLost(k, v);
  }

  lemma WrappedStep(buf: seq<byte>, at: nat, c: Limits, n: nat, cs: seq<set<Blob>>)
    requires Holds(buf, at, Wrapping()) && |buf| < WORD && c.key < WORD - 16 && n > 0 && Loose(Fresh, c)
    ensures UnflattenFrom(Fresh, c, buf, at, n, cs) == UnflattenFrom(Fresh, c, buf, at + 32, n - 1, Rest(cs))
  {
    WrappingPasses(buf, at, c);
  }

  /** The smallest such buffers: a key and a value of one byte, 84 bytes. */
  lemma WrappedEntryExample(k: Blob, v: Blob, past: seq<byte>, cs: seq<set<Blob>>)
    requires |k| == 1 && |v| == 1 && |past| >= ID_MAX
    ensures KeepsTotal(Unflattened(Fresh, JustFor(k, v), WrappedEntry(3, k, v), past, [], cs), k, v)
    ensures 64 + |EntryBytes(k, v)| == 84 && JustFor(k, v) == Limits(1, 1, 2)
  {
    OnePairSize(k, v);
    WrappedEntryKeepsTotal(k, v, past, cs);
  }

  /** With limits of the size of the address space the same entry is read from outside the buffer. */
  lemma HugeLimitsReadOutside(n: nat, k: Blob, v: Blob, past: seq<byte>, cs: seq<set<Blob>>)
    requires |past| >= ID_MAX && 0 < n < WORD && |WrappedEntry(n, k, v)| < WORD
    ensures Unflattened(Fresh, Limits(WORD - 1, 32, 16), WrappedEntry(n, k, v), past, [], cs).1 == Outside
  {
    WrappedReads(n, k, v, past);
    assert Start([]) == 32;
    WrappingPasses(WrappedEntry(n, k, v), 32, Limits(WORD - 1, 32, 16));
  }

  // ---------------------------------------------------------------- a buffer too short for the build id

  /** The comparison of the build id runs past the end of the buffer: it is too short, and all of
      the header that is in it matches. */
  predicate ComparesPast(buf: seq<byte>, id: seq<byte>)
    requires |buf| >= HEADER && |id| < ID_MAX
  {
    && |buf| < ID_OFFSET + |id|
    && Number(buf, 4, 4) == 3 && Number(buf, 8, 4) == 1 && Number(buf, 24, 4) == |id|
    && buf[ID_OFFSET..] == id[..|buf| - ID_OFFSET]
  }

  /** Whether the header matches depends on what lies behind the buffer exactly in that case. */
  lemma MatchNeedsPastIff(buf: seq<byte>, id: seq<byte>)
    requires |buf| >= HEADER && |id| < ID_MAX
    ensures ComparesPast(buf, id) <==>
      exists p: seq<byte>, q: seq<byte> :: |p| >= ID_MAX && |q| >= ID_MAX &&
        HeaderMatches(buf, p, id) != HeaderMatches(buf, q, id)
  {
    if ComparesPast(buf, id) {
      var m := |buf| - ID_OFFSET;
      var p := id[m..] + Zeros(ID_MAX);
      var first: byte := if id[m] == 0 then 1 else 0;
      var q := [first] + Zeros(ID_MAX);
      MatchesInside(buf, p, id);
      MatchesInside(buf, q, id);
      assert p[..|id| - m] == id[m..];
      assert q[..|id| - m][0] != id[m..][0];
      assert HeaderMatches(buf, p, id) != HeaderMatches(buf, q, id);
    } else {
      forall p: seq<byte>, q: seq<byte> | |p| >= ID_MAX && |q| >= ID_MAX
        ensures HeaderMatches(buf, p, id) == HeaderMatches(buf, q, id)
      {
        MatchesInside(buf, p, id);
        MatchesInside(buf, q, id);
      }
    }
  }

  /** The build id against the part in the buffer and the part behind it. */
  lemma MatchesInside(buf: seq<byte>, past: seq<byte>, id: seq<byte>)
    requires |buf| >= HEADER && |past| >= ID_MAX && |id| < ID_MAX
    ensures |buf| >= ID_OFFSET + |id| ==> (buf + past)[ID_OFFSET..ID_OFFSET + |id|] == buf[ID_OFFSET..ID_OFFSET + |id|]
    ensures |buf| < ID_OFFSET + |id| ==>
      var m := |buf| - ID_OFFSET;
      (buf + past)[ID_OFFSET..ID_OFFSET + |id|] == id <==> buf[ID_OFFSET..] == id[..m] && past[..|id| - m] == id[m..]
  {
    var x := (buf + past)[ID_OFFSET..ID_OFFSET + |id|];
    if |buf| < ID_OFFSET + |id| {
      var m := |buf| - ID_OFFSET;
      assert x == buf[ID_OFFSET..] + past[..|id| - m];
      assert id == id[..m] + id[m..];
      assert x[..m] == buf[ID_OFFSET..] && x[m..] == past[..|id| - m];
    }
  }

  // ---------------------------------------------------------------- it undoes flatten

  /** The cache that holds `m`. */
  ghost function Holding(m: Entries): State {
    State(m, Sum(m), m)
  }

  /** The buffer holds a cache with the entries `m` within the limits. */
  ghost predicate Serialized(c: Limits, buf: seq<byte>, id: seq<byte>, m: Entries, keys: seq<Blob>) {
    Inv(Holding(m), c) && Lists(m, keys) && Flat(buf, m, keys, id) && |buf| < WORD
  }

  /** unflatten finds the entries of `m` from `at` on, in the order of `keys` from `i` on. */
  ghost predicate Reads(buf: seq<byte>, at: nat, m: Entries, keys: seq<Blob>, i: nat)
    requires i <= |keys| && forall k: Blob :: k in keys ==> k in m
    decreases |keys| - i
  {
    i == |keys| ||
    (EntryFits(buf, at) && KeyAt(buf, at) == keys[i] && ValueAt(buf, at) == m[keys[i]] && Passes(buf, at) &&
     Reads(buf, NextAt(buf, at), m, keys, i + 1))
  }

  lemma {:induction false} HeldIsRead(buf: seq<byte>, at: nat, m: Entries, keys: seq<Blob>, i: nat)
    requires (forall k: Blob :: k in keys ==> k in m) && |buf| < WORD && i <= |keys|
    requires Holds(buf, at, Body(m, keys[i..]))
    ensures Reads(buf, at, m, keys, i)
    decreases |keys| - i
  {
    if i < |keys| {
      NextEntry(buf, at, m, keys, i);
      HeldIsRead(buf, NextAt(buf, at), m, keys, i + 1);
    }
  }

  /** `i` entries of the serialized cache `h` have been read, `n` are still to come; there is room
      for all of them. */
  ghost predicate Restoring(s: State, c: Limits, buf: seq<byte>, at: nat, h: State, keys: seq<Blob>, i: nat, n: nat) {
    && Loose(s, c) && Inv(h, c) && Extra(s) + h.total <= c.total && Lists(h.entries, keys) && i + n == |keys|
    && s.entries == Part(h.entries, keys, i) && Reads(buf, at, h.entries, keys, i)
  }

  lemma RestoreStep(s: State, c: Limits, buf: seq<byte>, at: nat, h: State, keys: seq<Blob>, i: nat, n: nat,
    cs: seq<set<Blob>>) returns (u: State)
    requires Restoring(s, c, buf, at, h, keys, i, n) && n > 0
    ensures Passes(buf, at) && Restoring(u, c, buf, NextAt(buf, at), h, keys, i + 1, n - 1)
    ensures UnflattenFrom(s, c, buf, at, n, cs) == UnflattenFrom(u, c, buf, NextAt(buf, at), n - 1, Rest(cs))
  {
    EntryIsStored(h, s, c, keys, i, First(cs));
    u := Taken(s, c, buf, at, First(cs));
  }

  lemma WalkEnds(s: State, c: Limits, buf: seq<byte>, at: nat, h: State, keys: seq<Blob>, i: nat, cs: seq<set<Blob>>)
    requires Restoring(s, c, buf, at, h, keys, i, 0)
    ensures UnflattenFrom(s, c, buf, at, 0, cs) == (s, Done) && s.entries == h.entries
  {
    PartAll(h.entries, keys);
  }

  lemma {:induction false} WalkRestores(s: State, c: Limits, buf: seq<byte>, at: nat, h: State, keys: seq<Blob>, i: nat,
    n: nat, cs: seq<set<Blob>>, r: (State, Ending))
    requires Restoring(s, c, buf, at, h, keys, i, n) && r == UnflattenFrom(s, c, buf, at, n, cs)
    ensures r.1 == Done && r.0.entries == h.entries
    decreases n
  {
    if n == 0 {
      WalkEnds(s, c, buf, at, h, keys, i, cs);
    } else {
      var u := RestoreStep(s, c, buf, at, h, keys, i, n, cs);
      WalkRestores(u, c, buf, NextAt(buf, at), h, keys, i + 1, n - 1, Rest(cs), r);
    }
  }

  lemma SerializedHeader(c: Limits, buf: seq<byte>, past: seq<byte>, id: seq<byte>, m: Entries, keys: seq<Blob>)
    requires |past| >= ID_MAX && |id| < ID_MAX && Serialized(c, buf, id, m, keys)
    ensures Opens(buf, past, id) && Number(buf, 16, 8) == |keys|
  {
    HeaderReads(buf, m, keys, id);
    MatchesInside(buf, past, id);
  }

  lemma PartNone(m: Entries, keys: seq<Blob>)
    requires forall k: Blob :: k in keys ==> k in m
    ensures Part(m, keys, 0) == map[] && keys[0..] == keys
  {
  }

  lemma EmptyIsFine(e: State, c: Limits)
    requires e.entries == map[] && e.total <= c.total
    ensures Loose(e, c) && Extra(e) == e.total
  {
  }

  /** Unflattening a serialized cache gives its entries, whatever clean() would evict, if and only
      if they have room beside what mTotalSize counted before; a fresh cache has that room. */
  lemma RestoresIff(s: State, c: Limits, buf: seq<byte>, past: seq<byte>, id: seq<byte>, m: Entries,
    keys: seq<Blob>, cs: seq<set<Blob>>)
    requires s.total <= c.total && |past| >= ID_MAX && |id| < ID_MAX && Serialized(c, buf, id, m, keys)
    ensures var (y, end) := Unflattened(s, c, buf, past, id, cs);
      && (end == Done && y.entries == m <==> s.total + Sum(m) <= c.total)
      && (end == Done && y.entries == m ==> y.total == s.total + Sum(m))
  {
    FailureIsEmptyIff(s, c, buf, past, id, cs);
    if s.total + Sum(m) <= c.total {
      UnflattenRestores(s, c, buf, past, id, m, keys, cs);
    }
  }

  /** With that room the entries come back, in particular into a fresh cache. */
  lemma UnflattenRestores(s: State, c: Limits, buf: seq<byte>, past: seq<byte>, id: seq<byte>, m: Entries,
    keys: seq<Blob>, cs: seq<set<Blob>>)
    requires s.total + Sum(m) <= c.total && |past| >= ID_MAX && |id| < ID_MAX && Serialized(c, buf, id, m, keys)
    ensures var (y, end) := Unflattened(s, c, buf, past, id, cs);
      end == Done && y.entries == m && y.total == s.total + Sum(m)
  {
    var e := s.(entries := map[]);
    SerializedHeader(c, buf, past, id, m, keys);
    PartNone(m, keys);
    EmptyIsFine(e, c);
    HeldIsRead(buf, Start(id), m, keys, 0);
    var r := UnflattenFrom(e, c, buf, Start(id), |keys|, cs);
    WalkRestores(e, c, buf, Start(id), Holding(m), keys, 0, |keys|, cs, r);
    FailureIsEmptyIff(s, c, buf, past, id, cs);
  }

  /** What unflatten meets at entry `i`. */
  lemma NextEntry(buf: seq<byte>, offset: nat, m: Entries, keys: seq<Blob>, i: nat)
    requires (forall k: Blob :: k in keys ==> k in m) && |buf| < WORD && i < |keys|
    requires Holds(buf, offset, Body(m, keys[i..]))
    ensures EntryFits(buf, offset) && KeyAt(buf, offset) == keys[i] && ValueAt(buf, offset) == m[keys[i]]
    ensures Passes(buf, offset) && Holds(buf, NextAt(buf, offset), Body(m, keys[i + 1..]))
  {
    BodyStep(m, keys, i);
    HeldParts(buf, offset, EntryBytes(keys[i], m[keys[i]]), Body(m, keys[i + 1..]));
    EntryHeld(buf, offset, keys[i], m[keys[i]]);
  }

  lemma ThreeParts(a: seq<byte>, b: seq<byte>, c: seq<byte>)
    requires |a| == |b| == |c| == 4
    ensures var x := a + b + c;
      |x| == 12 && x[0..4] == a && x[4..8] == b && x[8..12] == c
  {
  }

  lemma PartRead(buf: seq<byte>, x: seq<byte>, d: nat, k: nat, n: nat)
    requires Holds(buf, 0, x) && d + k <= |x| && x[d..d + k] == Little(n, k) && n < Power(k)
    ensures Number(buf, d, k) == n
  {
    NumberHeld(buf, 0, n, k, x, d);
  }

  lemma VersionsRead(buf: seq<byte>)
    requires Holds(buf, 0, Versions())
    ensures Number(buf, 0, 4) == MAGIC && Number(buf, 4, 4) == 3 && Number(buf, 8, 4) == 1
  {
    Powers();
    ThreeParts(Little(MAGIC, 4), Little(3, 4), Little(1, 4));
    PartRead(buf, Versions(), 0, 4, MAGIC);
    PartRead(buf, Versions(), 4, 4, 3);
    PartRead(buf, Versions(), 8, 4, 1);
  }

  lemma CountsRead(buf: seq<byte>, n: nat, id: seq<byte>)
    requires Holds(buf, 16, Counts(n, id)) && n < Power(8) && |id| < Power(4)
    ensures Number(buf, 16, 8) == n && Number(buf, 24, 4) == |id| && buf[28..28 + |id|] == id
  {
    var y := Counts(n, id);
    assert y[0..8] == Little(n, 8) && y[8..12] == Little(|id|, 4) && y[12..12 + |id|] == id;
    NumberHeld(buf, 16, n, 8, y, 0);
    NumberHeld(buf, 16, |id|, 4, y, 8);
    Slice(buf, 16, y, 12, 12 + |id|);
  }

  /** The header of a serialized cache passes every test of unflatten. */
  lemma HeaderReads(buf: seq<byte>, m: Entries, keys: seq<Blob>, id: seq<byte>)
    requires Lists(m, keys) && Flat(buf, m, keys, id) && |id| < ID_MAX && |buf| < WORD
    ensures |buf| >= Start(id) && Start(id) >= HEADER && Start(id) >= ID_OFFSET + |id|
    ensures Number(buf, 0, 4) == MAGIC && Number(buf, 4, 4) == 3 && Number(buf, 8, 4) == 1
    ensures Number(buf, 16, 8) == |keys| && Number(buf, 24, 4) == |id| && buf[28..28 + |id|] == id
  {
    Powers();
    FewKeys(m, keys);
    VersionsRead(buf);
    CountsRead(buf, |keys|, id);
  }

  /** There are no more entries than bytes. */
  lemma {:induction false} FewKeys(m: Entries, keys: seq<Blob>)
    requires forall k: Blob :: k in keys ==> k in m
    ensures |keys| <= |Body(m, keys)|
  {
    if keys != [] {
      FewKeys(m, keys[1..]);
      AlignIs(ENTRY_HEADER + |keys[0]| + |m[keys[0]]|);
    }
  }
}
