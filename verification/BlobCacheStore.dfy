/**
 BlobCache as its methods change it (libs/utils/BlobCache.cpp): the retry loop of set, the
 random eviction of clean, and the walks of flatten and unflatten over a byte buffer.
 */
module BlobCacheStore {
  import opened Buffers
  import opened BlobCache
  import opened BlobCacheUnflatten

  class Store {
    const limits: Limits
    var entries: Entries
    var total: nat
    ghost var last: Entries

    ghost function View(): State
      reads this
    {
      State(entries, total, last)
    }

    constructor (limits: Limits)
      ensures this.limits == limits && View() == Fresh && Inv(View(), limits)
    {
      this.limits := limits;
      entries, total, last := map[], 0, map[];
      new;
      FreshOk(limits);
    }

    /** clean: random entries go until the total is at most half the limit; `broken` if there is
        none left to take before that, where the code takes a random number modulo zero. */
    method Clean() returns (broken: bool, ghost gone: set<Blob>)
      requires Loose(View(), limits)
      modifies this`entries, this`total
      ensures Loose(View(), limits) && View() == Cleaned(old(View()), gone)
      ensures broken <==> Extra(old(View())) > limits.total / 2
      ensures if broken then gone == old(entries).Keys else Victims(old(View()), limits, gone)
    {
      ghost var s := View();
      ghost var newest: Blob := [];
      gone := {};
      assert s.entries - {} == s.entries;
      while total > limits.total / 2
        invariant Cleaning(s, limits, gone, newest, View())
        decreases |entries|
      {
        if |entries| == 0 {
          AllGone(s, limits, gone, newest, View());
          return true, gone;
        }
        ghost var u := View();
        var k := EvictOne();
        EvictStep(s, limits, gone, newest, u, k);
        gone, newest := gone + {k}, k;
      }
      CleanEnds(s, limits, gone, newest, View());
      broken := false;
    }

    /** One iteration of clean. */
    method EvictOne() returns (k: Blob)
      requires Extra(View()) >= 0 && |entries| > 0
      modifies this`entries, this`total
      ensures k in old(entries) && View() == Cleaned(old(View()), {k}) && |entries| < |old(entries)|
    {
      k :| k in entries;
      SumWithout(entries, k);
      total := total - (|k| + |entries[k]|);
      entries := entries - {k};
    }

    /** set, with at most one cleaning; `broken` if the cleaning is. */
    method SetValue(k: Blob, v: Blob) returns (broken: bool, ghost gone: set<Blob>, ghost cleanings: nat)
      requires Loose(View(), limits)
      modifies this`entries, this`total, this`last
      ensures SetDone(old(View()), limits, k, v, gone, View(), broken)
      ensures cleanings <= 1 && (cleanings == 1 && !broken ==> Victims(old(View()), limits, gone)) &&
        (cleanings == 0 ==> gone == {})
    {
      ghost var s := View();
      broken, gone, cleanings := false, {}, 0;
      if limits.key < |k| || limits.value < |v| || limits.total < |k| + |v| || |k| == 0 || |v| == 0 {
        SetKeeps(s, limits, k, v, gone);
        return;
      }
      while true
        invariant Setting(s, limits, k, v, gone, cleanings, View()) && !broken
        decreases 1 - cleanings
      {
        ghost var u := View();
        var again;
        ghost var tried;
        again, broken, tried := TryStore(k, v);
        TrialEnds(s, limits, k, v, gone, cleanings, u, again, broken, tried, View());
        if !again && !broken {
          return;
        }
        gone, cleanings := tried, cleanings + 1;
        if broken {
          return;
        }
      }
    }

    /** One turn of the retry loop of set. */
    method TryStore(k: Blob, v: Blob) returns (again: bool, broken: bool, ghost gone: set<Blob>)
      requires Loose(View(), limits)
      modifies this`entries, this`total, this`last
      ensures Tried(old(View()), limits, k, v, again, broken, gone, View())
    {
      NewTotalIsSum(View(), k, v);
      again, broken, gone := false, false, {};
      var newTotal := if k !in entries then total + |k| + |v| else total + |v| - |entries[k]|;
      if limits.total < newTotal {
        if total > limits.total / 2 {
          broken, gone := Clean();
          again := !broken;
        }
        return;
      }
      entries := entries[k := v];
      last := last[k := v];
      total := newTotal;
    }

    /** get: the size of the value, 0 when there is none; the value itself if the buffer is
        large enough. */
    method GetValue(k: Blob, value: array<byte>) returns (size: nat)
      requires Loose(View(), limits)
      modifies value
      ensures Get(View(), limits, k).None? ==> size == 0 && value[..] == old(value[..])
      ensures Get(View(), limits, k).Some? ==>
        var v := Get(View(), limits, k).value;
        && size == |v| > 0
        && value[..] == if |v| <= value.Length then Spliced(old(value[..]), 0, v) else old(value[..])
    {
      if limits.key < |k| {
        return 0;
      }
      if k !in entries {
        return 0;
      }
      assert EntryOk(View(), limits, k);
      var v := entries[k];
      if |v| <= value.Length {
        Write(value, 0, v);
      }
      return |v|;
    }

    /** The header is in the buffer, as far as it goes. */
    ghost predicate HeaderIn(b: seq<byte>, n: nat, id: seq<byte>) {
      && |b| >= HEADER && Holds(b, 0, Versions())
      && var x := Counts(n, id);
         if |x| <= |b| - 16 then Holds(b, 16, x) else b[16..] == x[..|b| - 16]
    }

    /** flatten into a buffer; false for BAD_VALUE.  `keys` is the order of the sorted vector,
        `id` the build id.  The room for the build id is not checked: `beyond` is the number of its
        bytes that are written behind the end of the buffer. */
    method Flatten(buf: array<byte>, keys: seq<Blob>, id: seq<byte>) returns (ok: bool, beyond: nat)
      requires Lists(entries, keys) && |id| < ID_MAX
      modifies buf
      ensures ok <==> FlattenOk(buf.Length, entries, keys, id)
      ensures ok && Start(id) + |Body(entries, keys)| <= buf.Length ==> Flat(buf[..], entries, keys, id)
      ensures if buf.Length < HEADER then buf[..] == old(buf[..]) else HeaderIn(buf[..], |keys|, id)
      ensures beyond == Beyond(buf.Length, id)
    {
      if buf.Length < HEADER {
        return false, 0;
      }
      beyond := WriteHeader(buf, |keys|, id);
      if Start(id) > buf.Length {
        return keys == [], beyond;
      }
      ghost var b := buf[..];
      ghost var n;
      ok, n := FlattenEntries(buf, keys, Start(id));
      HeaderStays(b, Versions(), Counts(|keys|, id), Start(id), Body(entries, keys)[..n]);
      assert ok ==> Body(entries, keys)[..n] == Body(entries, keys);
    }

    /** The header of flatten, with the build id as far as the buffer goes. */
    method WriteHeader(buf: array<byte>, n: nat, id: seq<byte>) returns (beyond: nat)
      requires buf.Length >= HEADER
      modifies buf
      ensures HeaderIn(buf[..], n, id) && beyond == Beyond(buf.Length, id)
    {
      var counts := Counts(n, id);
      var room := buf.Length - 16;
      Write(buf, 0, Versions());
      if |counts| > room {
        Write(buf, 16, counts[..room]);
        HeaderWritten(old(buf[..]), Versions(), counts[..room]);
        assert buf[..][16..] == buf[..][16..16 + room];
        return |counts| - room;
      }
      Write(buf, 16, counts);
      HeaderWritten(old(buf[..]), Versions(), counts);
      return 0;
    }

    /** The entry loop of flatten; `n` bytes of the entries were written. */
    method FlattenEntries(buf: array<byte>, keys: seq<Blob>, start: nat) returns (ok: bool, ghost n: nat)
      requires (forall k: Blob :: k in keys ==> k in entries) && start <= buf.Length
      modifies buf
      ensures ok <==> start + |Body(entries, keys)| <= buf.Length
      ensures n <= |Body(entries, keys)| && start + n <= buf.Length && (ok ==> n == |Body(entries, keys)|)
      ensures buf[..] == Spliced(old(buf[..]), start, Body(entries, keys)[..n])
    {
      ghost var out, was := Body(entries, keys), buf[..];
      var i, at: nat := 0, 0;
      while i < |keys|
        invariant 0 <= i <= |keys| && at <= |out| && out[at..] == Body(entries, keys[i..])
        invariant start + at <= buf.Length && buf[..] == Spliced(was, start, out[..at])
        decreases |keys| - i
      {
        BodyStep(entries, keys, i);
        ok, at := FlattenEntry(buf, start, at, EntryBytes(keys[i], entries[keys[i]]), was, out,
          Body(entries, keys[i + 1..]));
        if !ok {
          return false, at;
        }
        i := i + 1;
      }
      return true, at;
    }

    method FlattenEntry(buf: array<byte>, start: nat, n: nat, entry: seq<byte>, ghost was: seq<byte>,
      ghost out: seq<byte>, ghost rest: seq<byte>)
      returns (ok: bool, next: nat)
      requires n <= |out| && out[n..] == entry + rest && start + n <= buf.Length == |was|
      requires buf[..] == Spliced(was, start, out[..n])
      modifies buf
      ensures if ok then next <= |out| && out[next..] == rest else next == n && start + |out| > buf.Length
      ensures start + next <= buf.Length && buf[..] == Spliced(was, start, out[..next])
    {
      if start + n + |entry| > buf.Length {
        return false, n;
      }
      Extends(was, start, out, n, entry, rest);
      Write(buf, start + n, entry);
      return true, n + |entry|;
    }

    /** One entry of unflatten: its sizes are read and checked, then it is set.  The sums are those
        of size_t; with sizes that wrapped around, set turns the entry down or reads outside the
        buffer. */
    method UnflattenEntry(buf: seq<byte>, offset: nat) returns (end: Ending, next: nat, ghost gone: set<Blob>)
      requires Loose(View(), limits)
      modifies this`entries, this`total, this`last
      ensures (View(), end) == EntryStep(old(View()), limits, buf, offset, gone)
      ensures end == Done ==> Loose(View(), limits) && next == NextAt(buf, offset)
    {
      next, gone := offset, {};
      if offset + ENTRY_HEADER > |buf| {
        entries := map[];
        return BadValue, next, gone;
      }
      var totalSize := EntrySize(buf, offset);
      if (offset + totalSize) % WORD > |buf| {
        entries := map[];
        return BadValue, next, gone;
      }
      next := (offset + totalSize) % WORD;
      end, gone := SetEntry(buf, offset);
    }

    /** The call of set for an entry that passed. */
    method SetEntry(buf: seq<byte>, offset: nat) returns (end: Ending, ghost gone: set<Blob>)
      requires Loose(View(), limits) && Passes(buf, offset)
      modifies this`entries, this`total, this`last
      ensures (View(), end) == EntryStep(old(View()), limits, buf, offset, gone)
    {
      var keySize, valueSize := Number(buf, offset, 8), Number(buf, offset + 8, 8);
      if !EntryFits(buf, offset) {
        gone := {};
        return if Admits(limits, keySize, valueSize) then Outside else Done, gone;
      }
      var broken;
      ghost var cleanings;
      broken, gone, cleanings := SetValue(KeyAt(buf, offset), ValueAt(buf, offset));
      end := if broken then Broken else Done;
    }

    /** The entry loop of unflatten. */
    method UnflattenEntries(buf: seq<byte>, at: nat, count: nat) returns (end: Ending, ghost cs: seq<set<Blob>>)
      requires Loose(View(), limits)
      modifies this`entries, this`total, this`last
      ensures (View(), end) == UnflattenFrom(old(View()), limits, buf, at, count, cs)
    {
      cs := [];
      ghost var s := View();
      var i, offset: nat := 0, at;
      ChosenNone(s, limits, buf, at, count);
      while i < count
        invariant 0 <= i <= count && Loose(View(), limits)
        invariant Walked(s, limits, buf, at, count, cs, View(), offset, count - i)
      {
        ghost var u, done := View(), cs;
        var ended, next, gone := UnflattenEntry(buf, offset);
        if ended != Done {
          ChosenLast(s, limits, buf, at, count, done, u, offset, count - i, gone);
          return ended, done + [gone];
        }
        ChosenStep(s, limits, buf, at, count, done, u, offset, count - i, gone);
        offset, cs := next, cs + [gone];
        i := i + 1;
      }
      Chosen(s, limits, buf, at, count, cs, View(), offset, count - i);
      return Done, cs;
    }

    /** unflatten into any cache.  `past` is what lies behind the buffer. */
    method Unflatten(buf: seq<byte>, past: seq<byte>, id: seq<byte>) returns (end: Ending, ghost cs: seq<set<Blob>>)
      requires total <= limits.total && |past| >= ID_MAX && |id| < ID_MAX
      modifies this`entries, this`total, this`last
      ensures (View(), end) == Unflattened(old(View()), limits, buf, past, id, cs)
      ensures end == EndingOf(old(total), limits, buf, past, id)
      ensures end == Done ==> Loose(View(), limits) && total == old(total) + Sum(entries)
      ensures end == BadValue ==>
        entries == map[] && (total == 0 <==> old(total) == 0 && !StoresSome(limits, buf, past, id))
      ensures forall m: Entries, keys: seq<Blob> :: Serialized(limits, buf, id, m, keys) ==>
        (end == Done && entries == m <==> old(total) + Sum(m) <= limits.total)
    {
      ghost var s := View();
      end, cs := UnflattenBuffer(buf, past, id);
      FailureIsEmptyIff(s, limits, buf, past, id, cs);
      forall m: Entries, keys: seq<Blob> | Serialized(limits, buf, id, m, keys)
        ensures end == Done && entries == m <==> s.total + Sum(m) <= limits.total
      {
        RestoresIff(s, limits, buf, past, id, m, keys, cs);
      }
    }

    method UnflattenBuffer(buf: seq<byte>, past: seq<byte>, id: seq<byte>)
      returns (end: Ending, ghost cs: seq<set<Blob>>)
      requires total <= limits.total && |past| >= ID_MAX && |id| < ID_MAX
      modifies this`entries, this`total, this`last
      ensures (View(), end) == Unflattened(old(View()), limits, buf, past, id, cs)
    {
      cs := [];
      entries := map[];
      EmptyIsFine(View(), limits);
      if |buf| < HEADER {
        return BadValue, cs;
      }
      if Number(buf, 0, 4) != MAGIC {
        return BadValue, cs;
      }
      if !HeaderMatches(buf, past, id) {
        return Done, cs;
      }
      end, cs := UnflattenEntries(buf, Start(id), Number(buf, 16, 8));
    }
  }

  /** One turn of the loop: how it ends and the state then. */
  ghost function EntryStep(s: State, c: Limits, buf: seq<byte>, at: nat, gone: set<Blob>): (State, Ending)
    requires Loose(s, c)
  {
    if !Passes(buf, at) then (s.(entries := map[]), BadValue)
    else if Strays(c, buf, at) then (s, Outside)
    else (Taken(s, c, buf, at, gone), if Halts(s, c, buf, at) then Broken else Done)
  }

  /** The loop took the choices `cs` and stands at `u`. */
  ghost predicate Walked(s: State, c: Limits, buf: seq<byte>, at: nat, n: nat, cs: seq<set<Blob>>, u: State, at': nat,
    n': nat) {
    && Loose(s, c) && Loose(u, c)
    && forall more: seq<set<Blob>> {:trigger cs + more} ::
         UnflattenFrom(s, c, buf, at, n, cs + more) == UnflattenFrom(u, c, buf, at', n', more)
  }

  lemma ChosenNone(s: State, c: Limits, buf: seq<byte>, at: nat, n: nat)
    requires Loose(s, c)
    ensures Walked(s, c, buf, at, n, [], s, at, n)
  {
    forall more: seq<set<Blob>> ensures [] + more == more {
    }
  }

  lemma Chosen(s: State, c: Limits, buf: seq<byte>, at: nat, n: nat, cs: seq<set<Blob>>, u: State, at': nat, n': nat)
    requires Walked(s, c, buf, at, n, cs, u, at', n')
    ensures UnflattenFrom(s, c, buf, at, n, cs) == UnflattenFrom(u, c, buf, at', n', [])
  {
    assert cs + [] == cs;
  }

  lemma ChosenLast(s: State, c: Limits, buf: seq<byte>, at: nat, n: nat, cs: seq<set<Blob>>, u: State, at': nat,
    n': nat, gone: set<Blob>)
    requires Walked(s, c, buf, at, n, cs, u, at', n') && n' > 0 && EntryStep(u, c, buf, at', gone).1 != Done
    ensures UnflattenFrom(s, c, buf, at, n, cs + [gone]) == EntryStep(u, c, buf, at', gone)
  {
  }

  lemma ChosenStep(s: State, c: Limits, buf: seq<byte>, at: nat, n: nat, cs: seq<set<Blob>>, u: State, at': nat,
    n': nat, gone: set<Blob>)
    requires Walked(s, c, buf, at, n, cs, u, at', n') && n' > 0 && EntryStep(u, c, buf, at', gone).1 == Done
    ensures Walked(s, c, buf, at, n, cs + [gone], Taken(u, c, buf, at', gone), NextAt(buf, at'), n' - 1)
  {
    forall more: seq<set<Blob>>
      ensures UnflattenFrom(s, c, buf, at, n, cs + [gone] + more)
        == UnflattenFrom(Taken(u, c, buf, at', gone), c, buf, NextAt(buf, at'), n' - 1, more)
    {
      assert cs + [gone] + more == cs + ([gone] + more);
      assert ([gone] + more)[1..] == more;
    }
  }

  /** A cache flattened into a buffer of the advertised size and unflattened into a fresh cache
      with the same limits is the same cache. */
  method CopyThroughBuffer(a: Store, keys: seq<Blob>, id: seq<byte>) returns (b: Store)
    requires Inv(a.View(), a.limits) && Lists(a.entries, keys) && |id| < ID_MAX && FlattenedSize(a.entries, keys) < WORD
    ensures fresh(b) && b.limits == a.limits && b.entries == a.entries && b.total == a.total && Inv(b.View(), b.limits)
  {
    FlattenedSizeSuffices(a.entries, keys, id);
    var buf := new byte[FlattenedSize(a.entries, keys)](_ => 0);
    var ok, beyond := a.Flatten(buf, keys, id);
    b := new Store(a.limits);
    ghost var cs;
    HoldsIts(a.View(), a.limits);
    assert Serialized(a.limits, buf[..], id, a.entries, keys);
    var end;
    end, cs := b.Unflatten(buf[..], Zeros(ID_MAX), id);
  }

  lemma HoldsIts(s: State, c: Limits)
    requires Inv(s, c)
    ensures Inv(Holding(s.entries), c)
  {
    forall k: Blob ensures EntryOk(Holding(s.entries), c, k) {
      assert EntryOk(s, c, k);
    }
  }

  /** clean has evicted `gone` and stands at `u`; before `newest` went, more than half the limit
      was left. */
  ghost predicate Cleaning(s: State, c: Limits, gone: set<Blob>, newest: Blob, u: State) {
    && Loose(s, c) && gone <= s.entries.Keys && u == Cleaned(s, gone)
    && (gone != {} ==> newest in gone && Extra(s) + Sum(s.entries - (gone - {newest})) > c.total / 2)
  }

  lemma EvictStep(s: State, c: Limits, gone: set<Blob>, newest: Blob, u: State, k: Blob)
    requires Cleaning(s, c, gone, newest, u) && Cleanable(u, c) && k in u.entries
    ensures Extra(u) >= 0 && Cleaning(s, c, gone + {k}, k, Cleaned(u, {k}))
  {
    assert (gone + {k}) - {k} == gone;
    assert s.entries - (gone + {k}) == (s.entries - gone) - {k};
  }

  lemma CleanEnds(s: State, c: Limits, gone: set<Blob>, newest: Blob, u: State)
    requires Cleaning(s, c, gone, newest, u) && !Cleanable(u, c)
    ensures Victims(s, c, gone) && Loose(u, c) && Extra(s) <= c.total / 2
  {
    assert s.entries - {} == s.entries;
    CleanedKeeps(s, c, gone);
  }

  /** No entry is left and still more than half the limit is counted. */
  lemma AllGone(s: State, c: Limits, gone: set<Blob>, newest: Blob, u: State)
    requires Cleaning(s, c, gone, newest, u) && Cleanable(u, c) && |u.entries| == 0
    ensures gone == s.entries.Keys && Extra(s) > c.total / 2 && Loose(u, c)
  {
    assert u.entries == map[];
    forall k: Blob | k in s.entries.Keys ensures k in gone {
      assert k !in s.entries - gone;
    }
    CleanedKeeps(s, c, gone);
  }

  /** The retry loop of set after this many cleanings. */
  ghost predicate Setting(s: State, c: Limits, k: Blob, v: Blob, gone: set<Blob>, cleanings: nat, u: State) {
    && Loose(s, c) && Loose(u, c) && Storable(c, k, v) && cleanings <= 1
    && (cleanings == 0 ==> u == s && gone == {})
    && (cleanings == 1 ==>
          && u == Cleaned(s, gone) && Victims(s, c, gone) && Extra(s) <= c.total / 2
          && NewTotal(s, k, v) > c.total && Cleanable(s, c) && !Cleanable(u, c))
  }

  /** set is over: the state is as specified, and a proper cache is still one. */
  ghost predicate SetDone(s: State, c: Limits, k: Blob, v: Blob, gone: set<Blob>, u: State, broken: bool)
    requires Loose(s, c)
  {
    && Loose(u, c) && u == Set(s, c, k, v, gone) && (broken <==> Breaks(s, c, k, v))
    && (Inv(s, c) ==> Inv(u, c) && !broken)
  }

  /** What one turn of the loop does. */
  ghost predicate Tried(s: State, c: Limits, k: Blob, v: Blob, again: bool, broken: bool, gone: set<Blob>, u: State)
    requires Loose(s, c)
  {
    if NewTotal(s, k, v) <= c.total then !again && !broken && NewTotal(s, k, v) >= 0 && u == Stored(s, k, v)
    else if !Cleanable(s, c) then !again && !broken && u == s
    else
      && (broken <==> Extra(s) > c.total / 2) && again == !broken && u == Cleaned(s, gone)
      && if broken then gone == s.entries.Keys else Victims(s, c, gone)
  }

  lemma TrialEnds(s: State, c: Limits, k: Blob, v: Blob, gone: set<Blob>, cleanings: nat, u: State, again: bool,
    broken: bool, tried: set<Blob>, y: State)
    requires Setting(s, c, k, v, gone, cleanings, u) && Tried(u, c, k, v, again, broken, tried, y)
    ensures again || broken ==> cleanings == 0
    ensures again ==> Setting(s, c, k, v, tried, 1, y)
    ensures !again ==> SetDone(s, c, k, v, if broken then tried else gone, y, broken)
  {
    SetKeeps(s, c, k, v, if broken then tried else gone);
    CleanedKeeps(u, c, tried);
    if again {
      OneCleanIsEnough(s, c, tried);
    }
  }

  lemma HeaderWritten(was: seq<byte>, x: seq<byte>, y: seq<byte>)
    requires |x| == 12 && 16 + |y| <= |was|
    ensures var b := Spliced(Spliced(was, 0, x), 16, y);
      Holds(b, 0, x) && Holds(b, 16, y)
  {
  }

  /** Writing the entries leaves the header alone. */
  lemma HeaderStays(b: seq<byte>, x: seq<byte>, y: seq<byte>, at: nat, body: seq<byte>)
    requires Holds(b, 0, x) && Holds(b, 16, y) && |x| == 12 && 16 + |y| <= at && at + |body| <= |b|
    ensures var e := Spliced(b, at, body);
      Holds(e, 0, x) && Holds(e, 16, y) && Holds(e, at, body)
  {
    SpliceReads(b, at, body, 0, 12);
    SpliceReads(b, at, body, 16, 16 + |y|);
    SpliceReads(b, at, body, at, at + |body|);
  }

  lemma Extends(was: seq<byte>, start: nat, out: seq<byte>, n: nat, x: seq<byte>, rest: seq<byte>)
    requires n <= |out| && out[n..] == x + rest && start + n + |x| <= |was|
    ensures n + |x| <= |out| && out[n + |x|..] == rest
    ensures Spliced(Spliced(was, start, out[..n]), start + n, x) == Spliced(was, start, out[..n + |x|])
  {
    assert out[n..][..|x|] == out[n..n + |x|] && out[n..][|x|..] == out[n + |x|..];
    assert out[..n + |x|] == out[..n] + x;
  }
}
