/**
 A bounded cache of blobs and its serialized form (libs/utils/BlobCache.cpp).

 The sorted vector of entries is a map from keys to values; the order in which it is walked is
 any listing of its keys.  Which entries clean() evicts is random: a set request names them.
 `last` is history: the value each key was last given by a set that was accepted.
 */
module BlobCache {
  import opened Wrappers
  import opened Buffers

  type Blob = seq<byte>
  type Entries = map<Blob, Blob>

  datatype Limits = Limits(key: nat, value: nat, total: nat)
  datatype State = State(entries: Entries, total: nat, last: Entries)

  const Fresh := State(map[], 0, map[])

  // ---------------------------------------------------------------- sizes

  function Size(k: Blob, v: Blob): nat {
    |k| + |v|
  }

  ghost function Sum(m: Entries): nat {
    if m == map[] then 0
    else
      var k :| k in m;
      Size(k, m[k]) + Sum(m - {k})
  }

  lemma {:induction false} SumWithout(m: Entries, k: Blob)
    requires k in m
    ensures Sum(m) == Size(k, m[k]) + Sum(m - {k})
    decreases |m|
  {
    var c :| c in m && Sum(m) == Size(c, m[c]) + Sum(m - {c});
    if c != k {
      SumWithout(m - {c}, k);
      SumWithout(m - {k}, c);
      assert m - {c} - {k} == m - {k} - {c};
    }
  }

  lemma SumWith(m: Entries, k: Blob, v: Blob)
    ensures Sum(m[k := v]) == Sum(m) + Size(k, v) - if k in m then Size(k, m[k]) else 0
  {
    SumWithout(m[k := v], k);
    if k in m {
      SumWithout(m, k);
      assert m[k := v] - {k} == m - {k};
    } else {
      assert m[k := v] - {k} == m;
    }
  }

  lemma {:induction false} SumRemoved(m: Entries, gone: set<Blob>)
    ensures Sum(m - gone) <= Sum(m)
    decreases |gone|
  {
    if gone == {} {
      assert m - gone == m;
    } else {
      var k :| k in gone;
      SumRemoved(m, gone - {k});
      if k in m {
        SumWithout(m - (gone - {k}), k);
        assert m - (gone - {k}) - {k} == m - gone;
      } else {
        assert m - (gone - {k}) == m - gone;
      }
    }
  }

  // ---------------------------------------------------------------- the invariant

  /** An entry set() would not turn down for its size alone. */
  predicate Storable(c: Limits, k: Blob, v: Blob) {
    0 < |k| <= c.key && 0 < |v| <= c.value && |k| + |v| <= c.total
  }

  ghost predicate EntryOk(s: State, c: Limits, k: Blob) {
    k in s.entries ==> Storable(c, k, s.entries[k]) && k in s.last && s.last[k] == s.entries[k]
  }

  /** mTotalSize counts at least the stored sizes and is within the limit; every stored value is
      the last one accepted for its key. */
  ghost predicate Loose(s: State, c: Limits) {
    && Sum(s.entries) <= s.total <= c.total
    && (forall k: Blob {:trigger EntryOk(s, c, k)} :: EntryOk(s, c, k))
  }

  /** What mTotalSize counts beyond the stored sizes. */
  ghost function Extra(s: State): int {
    s.total - Sum(s.entries)
  }

  /** As a proper cache has it: mTotalSize is the sum of the stored sizes. */
  ghost predicate Inv(s: State, c: Limits) {
    Loose(s, c) && Extra(s) == 0
  }

  // ---------------------------------------------------------------- clean and set

  predicate Cleanable(s: State, c: Limits) {
    s.total > c.total / 2
  }

  /** What clean() may evict: it stops as soon as no more than half the limit is left, so without
      the entry evicted last more than half would be left; it evicts nothing only if nothing has
      to go. */
  ghost predicate Victims(s: State, c: Limits, gone: set<Blob>) {
    && gone <= s.entries.Keys && Extra(s) + Sum(s.entries - gone) <= c.total / 2
    && (gone != {} ==> exists k: Blob :: k in gone && Extra(s) + Sum(s.entries - (gone - {k})) > c.total / 2)
    && (gone == {} ==> !Cleanable(s, c))
  }

  ghost function Cleaned(s: State, gone: set<Blob>): State
    requires Extra(s) >= 0
  {
    s.(entries := s.entries - gone, total := Extra(s) + Sum(s.entries - gone))
  }

  lemma CleanedKeeps(s: State, c: Limits, gone: set<Blob>)
    requires Loose(s, c)
    ensures Loose(Cleaned(s, gone), c) && Extra(Cleaned(s, gone)) == Extra(s)
  {
    SumRemoved(s.entries, gone);
    forall k: Blob ensures EntryOk(Cleaned(s, gone), c, k) {
      assert EntryOk(s, c, k);
    }
  }

  /** mTotalSize after storing the pair. */
  function NewTotal(s: State, k: Blob, v: Blob): int {
    s.total + Size(k, v) - if k in s.entries then Size(k, s.entries[k]) else 0
  }

  function Stored(s: State, k: Blob, v: Blob): State
    requires NewTotal(s, k, v) >= 0
  {
    State(s.entries[k := v], NewTotal(s, k, v), s.last[k := v])
  }

  /** set() of this pair has to clean, and what is counted beyond the stored sizes is more than
      half the limit: clean() evicts every entry and then takes a random number modulo zero. */
  ghost predicate Breaks(s: State, c: Limits, k: Blob, v: Blob) {
    Storable(c, k, v) && NewTotal(s, k, v) > c.total && Extra(s) > c.total / 2
  }

  /** BlobCache::set, when clean() would evict `gone`: a pair that is too large is turned down;
      one that does not fit is tried again after one cleaning, and turned down if it still does
      not fit.  If set() breaks, the state is the one in which it does. */
  ghost function Set(s: State, c: Limits, k: Blob, v: Blob, gone: set<Blob>): State
    requires Loose(s, c)
  {
    if !Storable(c, k, v) then s
    else
      NewTotalIsSum(s, k, v);
      if NewTotal(s, k, v) <= c.total then Stored(s, k, v)
      else if Breaks(s, c, k, v) then Cleaned(s, s.entries.Keys)
      else if !Cleanable(s, c) then s
      else
        var u := Cleaned(s, gone);
        CleanedKeeps(s, c, gone);
        NewTotalIsSum(u, k, v);
        if NewTotal(u, k, v) <= c.total then Stored(u, k, v) else u
  }

  lemma NewTotalIsSum(s: State, k: Blob, v: Blob)
    requires Extra(s) >= 0
    ensures NewTotal(s, k, v) == Extra(s) + Sum(s.entries[k := v]) >= 0
  {
    SumWith(s.entries, k, v);
  }

  lemma StoredKeeps(s: State, c: Limits, k: Blob, v: Blob)
    requires Loose(s, c) && Storable(c, k, v) && NewTotal(s, k, v) <= c.total
    ensures NewTotal(s, k, v) >= 0 && Loose(Stored(s, k, v), c) && Extra(Stored(s, k, v)) == Extra(s)
  {
    NewTotalIsSum(s, k, v);
    forall q: Blob ensures EntryOk(Stored(s, k, v), c, q) {
      assert EntryOk(s, c, q);
    }
  }

  /** set() keeps what is counted beyond the stored sizes, so it keeps a proper cache proper. */
  lemma SetKeeps(s: State, c: Limits, k: Blob, v: Blob, gone: set<Blob>)
    requires Loose(s, c)
    ensures Loose(Set(s, c, k, v, gone), c) && Extra(Set(s, c, k, v, gone)) == Extra(s)
    ensures Inv(s, c) ==> Inv(Set(s, c, k, v, gone), c) && !Breaks(s, c, k, v)
  {
    CleanedKeeps(s, c, s.entries.Keys);
    if Storable(c, k, v) {
      if NewTotal(s, k, v) <= c.total {
        StoredKeeps(s, c, k, v);
      } else if Cleanable(s, c) {
        CleanedKeeps(s, c, gone);
        if NewTotal(Cleaned(s, gone), k, v) <= c.total {
          StoredKeeps(Cleaned(s, gone), c, k, v);
        }
      }
    }
  }

  /** One cleaning is enough for set() to end: the cleaned cache is not cleanable. */
  lemma OneCleanIsEnough(s: State, c: Limits, gone: set<Blob>)
    requires Victims(s, c, gone) && Extra(s) >= 0
    ensures !Cleanable(Cleaned(s, gone), c)
  {
  }

  /** BlobCache::get: the value, if the key is not too large and is stored. */
  function Get(s: State, c: Limits, k: Blob): Option<Blob> {
    if c.key < |k| then None else if k in s.entries then Some(s.entries[k]) else None
  }

  // ---------------------------------------------------------------- runs

  datatype Request = Request(k: Blob, v: Blob, gone: set<Blob>)

  ghost function Next(s: State, c: Limits, r: Request): (y: State)
    requires Loose(s, c)
    ensures Loose(y, c) && Extra(y) == Extra(s)
  {
    SetKeeps(s, c, r.k, r.v, r.gone);
    Set(s, c, r.k, r.v, r.gone)
  }

  ghost function Run(s: State, c: Limits, rs: seq<Request>): (y: State)
    requires Loose(s, c)
    ensures Loose(y, c) && Extra(y) == Extra(s)
    decreases |rs|
  {
    if rs == [] then s else Run(Next(s, c, rs[0]), c, rs[1..])
  }

  /** One of the requests breaks. */
  ghost predicate RunBreaks(s: State, c: Limits, rs: seq<Request>)
    requires Loose(s, c)
    decreases |rs|
  {
    rs != [] && (Breaks(s, c, rs[0].k, rs[0].v) || RunBreaks(Next(s, c, rs[0]), c, rs[1..]))
  }

  lemma FreshOk(c: Limits)
    ensures Inv(Fresh, c)
  {
  }

  /** In every run from a fresh cache no set breaks, the total is the sum of the stored sizes and
      within the limit, and get returns the last value accepted for the key or nothing. */
  lemma GetIsLastAccepted(c: Limits, rs: seq<Request>, k: Blob)
    requires Inv(Fresh, c)
    ensures var s := Run(Fresh, c, rs);
      && !RunBreaks(Fresh, c, rs)
      && s.total == Sum(s.entries) && s.total <= c.total
      && (Get(s, c, k).Some? ==> k in s.last && Get(s, c, k).value == s.last[k])
      && (Get(s, c, k).None? <==> k !in s.entries)
  {
    ProperRunIsSafe(Fresh, c, rs);
    assert EntryOk(Run(Fresh, c, rs), c, k);
  }

  lemma {:induction false} ProperRunIsSafe(s: State, c: Limits, rs: seq<Request>)
    requires Loose(s, c) && Extra(s) <= c.total / 2
    ensures !RunBreaks(s, c, rs)
    decreases |rs|
  {
    if rs != [] {
      ProperRunIsSafe(Next(s, c, rs[0]), c, rs[1..]);
    }
  }

  /** Whether set() stores the pair: it is not too large, and fits as it is or after a cleaning. */
  ghost predicate Accepts(s: State, c: Limits, k: Blob, v: Blob, gone: set<Blob>)
    requires Extra(s) >= 0
  {
    && Storable(c, k, v)
    && (NewTotal(s, k, v) <= c.total || (Cleanable(s, c) && NewTotal(Cleaned(s, gone), k, v) <= c.total))
  }

  /** A pair that is accepted can be read back at once; one that is turned down leaves no trace.
      Every other key keeps its value or is evicted, and is evicted only by a cleaning. */
  lemma SetMeans(s: State, c: Limits, k: Blob, v: Blob, gone: set<Blob>, q: Blob)
    requires Loose(s, c) && !Breaks(s, c, k, v)
    ensures var y := Set(s, c, k, v, gone);
      && (Accepts(s, c, k, v, gone) ==> Get(y, c, k) == Some(v) && y.last == s.last[k := v])
      && (!Accepts(s, c, k, v, gone) ==> y.last == s.last && (Get(y, c, k) == Get(s, c, k) || Get(y, c, k).None?))
      && (q != k ==> Get(y, c, q) == Get(s, c, q) || (Get(y, c, q).None? && q in gone))
  {
  }

  // ---------------------------------------------------------------- when set breaks

  /** Every key of length `n`. */
  function KeysOf(n: nat): set<Blob> {
    if n == 0 then {[]} else set b: byte, t: Blob | t in KeysOf(n - 1) :: [b] + t
  }

  /** Every key of a length from 1 to `n`. */
  function KeysUpTo(n: nat): set<Blob> {
    if n == 0 then {} else KeysUpTo(n - 1) + KeysOf(n)
  }

  lemma {:induction false} AllKeysOf(k: Blob)
    ensures k in KeysOf(|k|)
  {
    if k != [] {
      AllKeysOf(k[1..]);
      assert k == [k[0]] + k[1..];
    }
  }

  lemma {:induction false} KeysOfLength(n: nat, k: Blob)
    requires k in KeysOf(n)
    ensures |k| == n
  {
    if n > 0 {
      var b: byte, t: Blob :| t in KeysOf(n - 1) && k == [b] + t;
      KeysOfLength(n - 1, t);
    }
  }

  lemma {:induction false} AllKeysUpTo(n: nat, k: Blob)
    ensures k in KeysUpTo(n) <==> 0 < |k| <= n
  {
    if n > 0 {
      AllKeysUpTo(n - 1, k);
      if k in KeysOf(n) {
        KeysOfLength(n, k);
      }
      if |k| == n {
        AllKeysOf(k);
      }
    }
  }

  /** The longest value that may go with the key. */
  function Longest(c: Limits, k: Blob): nat {
    if |k| >= c.total then 0 else if c.value < c.total - |k| then c.value else c.total - |k|
  }

  /** Every key that can be stored at all, with the longest value that may go with it. */
  function Full(c: Limits): Entries {
    map k | k in KeysUpTo(c.key) && Longest(c, k) > 0 :: Zeros(Longest(c, k))
  }

  lemma FullStores(c: Limits, k: Blob)
    ensures k in Full(c) ==> Storable(c, k, Full(c)[k])
    ensures forall v: Blob :: Storable(c, k, v) ==> k in Full(c) && Size(k, v) <= Size(k, Full(c)[k])
  {
    AllKeysUpTo(c.key, k);
  }

  ghost predicate AllStorable(c: Limits, m: Entries) {
    forall k: Blob :: k in m ==> Storable(c, k, m[k])
  }

  /** With entries that are no larger, the sum is no larger. */
  lemma {:induction false} NoLargerSum(m: Entries, f: Entries)
    requires forall k: Blob :: k in m ==> k in f && Size(k, m[k]) <= Size(k, f[k])
    ensures Sum(m) <= Sum(f)
    decreases |m|
  {
    if m != map[] {
      var k :| k in m;
      SumWithout(m, k);
      SumWithout(f, k);
      NoLargerSum(m - {k}, f - {k});
    }
  }

  /** If more is to be stored than fits, setting it pair by pair breaks. */
  lemma {:induction false} FillingBreaks(s: State, c: Limits, m: Entries) returns (rs: seq<Request>)
    requires Loose(s, c) && Extra(s) > c.total / 2 && AllStorable(c, m)
    requires m.Keys !! s.entries.Keys && s.total + Sum(m) > c.total
    ensures RunBreaks(s, c, rs)
    decreases |m|
  {
    if m == map[] {
      assert false;
    } else {
      var k :| k in m;
      var r := Request(k, m[k], {});
      SumWithout(m, k);
      if NewTotal(s, k, m[k]) > c.total {
        rs := [r];
      } else {
        var more := FillingBreaks(Next(s, c, r), c, m - {k});
        rs := [r] + more;
        assert rs[1..] == more;
      }
    }
  }

  /** If a run breaks, the pairs stored by then and the one set last are more than fits. */
  lemma {:induction false} BreakingFills(s: State, c: Limits, rs: seq<Request>)
    requires Loose(s, c) && RunBreaks(s, c, rs)
    ensures Extra(s) > c.total / 2 && Extra(s) + Sum(Full(c)) > c.total
    decreases |rs|
  {
    if Breaks(s, c, rs[0].k, rs[0].v) {
      var m := s.entries[rs[0].k := rs[0].v];
      NewTotalIsSum(s, rs[0].k, rs[0].v);
      forall k: Blob | k in m ensures k in Full(c) && Size(k, m[k]) <= Size(k, Full(c)[k]) {
        assert EntryOk(s, c, k);
        FullStores(c, k);
      }
      NoLargerSum(m, Full(c));
    } else {
      BreakingFills(Next(s, c, rs[0]), c, rs[1..]);
    }
  }

  /** Some sequence of sets breaks. */
  ghost predicate CanBreak(s: State, c: Limits)
    requires Loose(s, c)
  {
    exists rs: seq<Request> :: RunBreaks(s, c, rs)
  }

  /** A cache without entries that counts `s.total` all the same: some sequence of sets ends in
      clean() taking a random number modulo zero if and only if more than half the limit is
      counted and the keys there are, with their longest values, are more than the rest. */
  lemma CanBreakIff(s: State, c: Limits)
    requires s.entries == map[] && s.total <= c.total
    ensures Loose(s, c) && (CanBreak(s, c) <==> s.total > c.total / 2 && s.total + Sum(Full(c)) > c.total)
  {
    assert Loose(s, c) && Extra(s) == s.total;
    if s.total > c.total / 2 && s.total + Sum(Full(c)) > c.total {
      forall k: Blob | k in Full(c) ensures Storable(c, k, Full(c)[k]) {
        FullStores(c, k);
      }
      var rs := FillingBreaks(s, c, Full(c));
      assert CanBreak(s, c);
    }
    if CanBreak(s, c) {
      var rs: seq<Request> :| RunBreaks(s, c, rs);
      BreakingFills(s, c, rs);
    }
  }

  // ---------------------------------------------------------------- the serialized form

  const MAGIC := 0x5F426224
  const HEADER := 32
  const ID_OFFSET := 28
  const ENTRY_HEADER := 16
  const ID_MAX := 92

  /** One entry: the two sizes, key, value, and zeros up to a multiple of four. */
  function EntryBytes(k: Blob, v: Blob): (r: seq<byte>)
    ensures |r| == Align4(ENTRY_HEADER + |k| + |v|)
  {
    AlignIs(ENTRY_HEADER + |k| + |v|);
    Little(|k|, 8) + Little(|v|, 8) + k + v + Zeros(Align4(ENTRY_HEADER + |k| + |v|) - (ENTRY_HEADER + |k| + |v|))
  }

  /** The entries in the order of their listing. */
  function Body(m: Entries, keys: seq<Blob>): seq<byte>
    requires forall k: Blob :: k in keys ==> k in m
  {
    if keys == [] then [] else EntryBytes(keys[0], m[keys[0]]) + Body(m, keys[1..])
  }

  function Start(id: seq<byte>): nat {
    Align4(HEADER + |id|)
  }

  function Versions(): seq<byte> {
    Little(MAGIC, 4) + Little(3, 4) + Little(1, 4)
  }

  function Counts(n: nat, id: seq<byte>): seq<byte> {
    Little(n, 8) + Little(|id|, 4) + id
  }

  /** A buffer that holds the serialized cache; the padding of the header may hold anything. */
  ghost predicate Flat(buf: seq<byte>, m: Entries, keys: seq<Blob>, id: seq<byte>)
    requires forall k: Blob :: k in keys ==> k in m
  {
    Holds(buf, 0, Versions()) && Holds(buf, 16, Counts(|keys|, id)) && Holds(buf, Start(id), Body(m, keys))
  }

  /** Each key once. */
  ghost predicate Lists(m: Entries, keys: seq<Blob>) {
    && (forall k: Blob :: k in keys <==> k in m)
    && (forall i: int, j: int {:trigger Apart(keys, i, j)} :: Apart(keys, i, j))
  }

  ghost predicate Apart(keys: seq<Blob>, i: int, j: int) {
    0 <= i < j < |keys| ==> keys[i] != keys[j]
  }

  /** BlobCache::getFlattenedSize. */
  function FlattenedSize(m: Entries, keys: seq<Blob>): nat
    requires forall k: Blob :: k in keys ==> k in m
  {
    Align4(HEADER + ID_MAX) + |Body(m, keys)|
  }

  /** A buffer of that size is large enough whatever the build id is. */
  lemma FlattenedSizeSuffices(m: Entries, keys: seq<Blob>, id: seq<byte>)
    requires (forall k: Blob :: k in keys ==> k in m) && |id| < ID_MAX
    ensures Start(id) + |Body(m, keys)| <= FlattenedSize(m, keys) && ID_OFFSET + |id| <= Start(id)
  {
  }

  /** flatten returns OK: the header fits, and the entries do if there are any. */
  predicate FlattenOk(size: nat, m: Entries, keys: seq<Blob>, id: seq<byte>)
    requires forall k: Blob :: k in keys ==> k in m
  {
    size >= HEADER && (keys != [] ==> Start(id) + |Body(m, keys)| <= size)
  }

  /** How many bytes of the build id flatten writes behind a buffer of this size. */
  function Beyond(size: nat, id: seq<byte>): nat {
    if HEADER <= size < ID_OFFSET + |id| then ID_OFFSET + |id| - size else 0
  }

  /** flatten runs over the end of the buffer and still returns OK if and only if the cache is
      empty and the buffer has room for the header but not for the build id behind it; a buffer of
      the advertised size is never one of these. */
  lemma SilentOverrunIff(size: nat, m: Entries, keys: seq<Blob>, id: seq<byte>)
    requires forall k: Blob :: k in keys ==> k in m
    ensures FlattenOk(size, m, keys, id) && Beyond(size, id) > 0 <==> keys == [] && HEADER <= size < ID_OFFSET + |id|
    ensures |id| < ID_MAX ==> Beyond(FlattenedSize(m, keys), id) == 0
  {
    AlignIs(HEADER + |id|);
    AlignIs(HEADER + ID_MAX);
  }

  /** An empty cache, 32 bytes and a build id of ten letters: six of them land behind the buffer. */
  lemma OverrunExample()
    ensures var id: seq<byte> := seq(10, _ => 65);
      FlattenOk(32, map[], [], id) && Beyond(32, id) == 6
  {
  }

  // ---------------------------------------------------------------- reading it back

  const WORD := 0x1_0000_0000_0000_0000

  /** The size of the entry at `at` and its padding.  The two sizes come from the buffer and are
      added and rounded up in size_t. */
  function EntrySize(buf: seq<byte>, at: nat): nat
    requires at + ENTRY_HEADER <= |buf|
  {
    WordAlign4((ENTRY_HEADER + Number(buf, at, 8) + Number(buf, at + 8, 8)) % WORD)
  }

  function WordAlign4(n: nat): nat {
    (n + 3) % WORD / 4 * 4
  }

  /** The entry at `at` passes the two tests for room. */
  predicate Passes(buf: seq<byte>, at: nat) {
    at + ENTRY_HEADER <= |buf| && (at + EntrySize(buf, at)) % WORD <= |buf|
  }

  /** Where the walk goes on: behind the entry, or anywhere in the buffer if a sum wrapped. */
  function NextAt(buf: seq<byte>, at: nat): nat
    requires Passes(buf, at)
  {
    (at + EntrySize(buf, at)) % WORD
  }

  /** The entry at `at` lies in the buffer. */
  predicate EntryFits(buf: seq<byte>, at: nat) {
    && at + ENTRY_HEADER <= |buf|
    && at + Align4(ENTRY_HEADER + Number(buf, at, 8) + Number(buf, at + 8, 8)) <= |buf|
  }

  /** Sums that do not wrap are exact. */
  lemma ExactSum(n: nat, at: nat)
    requires at + Align4(n) < WORD
    ensures WordAlign4(n % WORD) == Align4(n) && (at + WordAlign4(n % WORD)) % WORD == at + Align4(n)
  {
    AlignIs(n);
    assert n < WORD;
    assert n + 3 < WORD;
  }

  /** An entry that lies in the buffer passes, and the walk goes on behind it. */
  lemma FittingPasses(buf: seq<byte>, at: nat)
    requires EntryFits(buf, at) && |buf| < WORD
    ensures Passes(buf, at)
    ensures NextAt(buf, at) == at + Align4(ENTRY_HEADER + Number(buf, at, 8) + Number(buf, at + 8, 8))
  {
    ExactSum(ENTRY_HEADER + Number(buf, at, 8) + Number(buf, at + 8, 8), at);
  }

  /** set() does not turn down an entry of these sizes for its size; their sum is one of size_t. */
  predicate Admits(c: Limits, key: nat, value: nat) {
    0 < key <= c.key && 0 < value <= c.value && (key + value) % WORD <= c.total
  }

  /** The entry at `at` passes, does not lie in the buffer, and set() does not turn it down: what
      is stored is read from outside the buffer. */
  predicate Strays(c: Limits, buf: seq<byte>, at: nat) {
    Passes(buf, at) && !EntryFits(buf, at) && Admits(c, Number(buf, at, 8), Number(buf, at + 8, 8))
  }

  /** Only limits of about the size of the address space admit such an entry. */
  lemma NothingStrays(c: Limits, buf: seq<byte>, at: nat)
    requires c.key + c.value + |buf| + ENTRY_HEADER + 3 < WORD
    ensures !Strays(c, buf, at)
  {
    if Strays(c, buf, at) {
      var n := ENTRY_HEADER + Number(buf, at, 8) + Number(buf, at + 8, 8);
      AlignIs(n);
      ExactSum(n, at);
      assert false;
    }
  }

  function KeyAt(buf: seq<byte>, at: nat): Blob
    requires EntryFits(buf, at)
  {
    AlignIs(ENTRY_HEADER + Number(buf, at, 8) + Number(buf, at + 8, 8));
    buf[at + 16..at + 16 + Number(buf, at, 8)]
  }

  function ValueAt(buf: seq<byte>, at: nat): Blob
    requires EntryFits(buf, at)
  {
    AlignIs(ENTRY_HEADER + Number(buf, at, 8) + Number(buf, at + 8, 8));
    buf[at + 16 + Number(buf, at, 8)..at + 16 + Number(buf, at, 8) + Number(buf, at + 8, 8)]
  }

  lemma EntryLayout(k: Blob, v: Blob)
    ensures var x := EntryBytes(k, v);
      && ENTRY_HEADER + |k| + |v| <= |x|
      && x[0..8] == Little(|k|, 8) && x[8..16] == Little(|v|, 8)
      && x[16..16 + |k|] == k && x[16 + |k|..16 + |k| + |v|] == v
  {
    AlignIs(ENTRY_HEADER + |k| + |v|);
    var a, b := Little(|k|, 8), Little(|v|, 8);
    var z := Zeros(Align4(ENTRY_HEADER + |k| + |v|) - (ENTRY_HEADER + |k| + |v|));
    Pieces(a, b, k, v, z);
  }

  lemma Pieces(a: seq<byte>, b: seq<byte>, k: seq<byte>, v: seq<byte>, z: seq<byte>)
    requires |a| == 8 && |b| == 8
    ensures var x := a + b + k + v + z;
      x[0..8] == a && x[8..16] == b && x[16..16 + |k|] == k && x[16 + |k|..16 + |k| + |v|] == v
  {
  }

  /** Sizes and contents found in the buffer make an entry. */
  lemma EntryFound(buf: seq<byte>, at: nat, k: Blob, v: Blob)
    requires at + Align4(ENTRY_HEADER + |k| + |v|) <= |buf| && at + ENTRY_HEADER + |k| + |v| <= |buf|
    requires Number(buf, at, 8) == |k| && Number(buf, at + 8, 8) == |v|
    requires buf[at + 16..at + 16 + |k|] == k && buf[at + 16 + |k|..at + 16 + |k| + |v|] == v && |buf| < WORD
    ensures EntryFits(buf, at) && KeyAt(buf, at) == k && ValueAt(buf, at) == v
    ensures Passes(buf, at) && NextAt(buf, at) == at + Align4(ENTRY_HEADER + |k| + |v|)
  {
    FittingPasses(buf, at);
  }

  lemma SizesRead(buf: seq<byte>, at: nat, x: seq<byte>, a: nat, b: nat)
    requires Holds(buf, at, x) && a < Power(8) && b < Power(8) && 16 <= |x|
    requires x[0..8] == Little(a, 8) && x[8..16] == Little(b, 8)
    ensures Number(buf, at, 8) == a && Number(buf, at + 8, 8) == b
  {
    NumberHeld(buf, at, a, 8, x, 0);
    NumberHeld(buf, at, b, 8, x, 8);
  }

  lemma ContentsRead(buf: seq<byte>, at: nat, x: seq<byte>, k: Blob, v: Blob)
    requires Holds(buf, at, x) && ENTRY_HEADER + |k| + |v| <= |x| && x[16..16 + |k|] == k &&
      x[16 + |k|..16 + |k| + |v|] == v
    ensures buf[at + 16..at + 16 + |k|] == k && buf[at + 16 + |k|..at + 16 + |k| + |v|] == v
  {
    Slice(buf, at, x, 16, 16 + |k|);
    Slice(buf, at, x, 16 + |k|, 16 + |k| + |v|);
  }

  /** What unflatten finds at the position of an entry is that entry. */
  lemma EntryHeld(buf: seq<byte>, at: nat, k: Blob, v: Blob)
    requires Holds(buf, at, EntryBytes(k, v)) && |buf| < WORD
    ensures EntryFits(buf, at) && KeyAt(buf, at) == k && ValueAt(buf, at) == v
    ensures Passes(buf, at) && NextAt(buf, at) == at + |EntryBytes(k, v)|
  {
    Powers();
    EntryLayout(k, v);
    SizesRead(buf, at, EntryBytes(k, v), |k|, |v|);
    ContentsRead(buf, at, EntryBytes(k, v), k, v);
    EntryFound(buf, at, k, v);
  }

  /** What is held splits. */
  lemma HeldParts(buf: seq<byte>, at: nat, x: seq<byte>, rest: seq<byte>)
    requires Holds(buf, at, x + rest)
    ensures Holds(buf, at, x) && Holds(buf, at + |x|, rest)
  {
    var b := x + rest;
    assert b[0..|x|] == x && b[|x|..|b|] == rest;
    Slice(buf, at, b, 0, |x|);
    Slice(buf, at, b, |x|, |b|);
  }

  /** The entries from `i` on are entry `i` and the rest. */
  lemma BodyStep(m: Entries, keys: seq<Blob>, i: nat)
    requires (forall k: Blob :: k in keys ==> k in m) && i < |keys|
    ensures Body(m, keys[i..]) == EntryBytes(keys[i], m[keys[i]]) + Body(m, keys[i + 1..])
  {
    assert keys[i..][0] == keys[i] && keys[i..][1..] == keys[i + 1..];
  }

  /** The entries listed before position `i`. */
  function Part(m: Entries, keys: seq<Blob>, i: nat): Entries
    requires i <= |keys| && forall k: Blob :: k in keys ==> k in m
  {
    map k | k in keys[..i] :: m[k]
  }

  lemma PartGrows(m: Entries, keys: seq<Blob>, i: nat)
    requires Lists(m, keys) && i < |keys|
    ensures keys[i] !in Part(m, keys, i) && Part(m, keys, i + 1) == Part(m, keys, i)[keys[i] := m[keys[i]]]
    ensures Sum(Part(m, keys, i + 1)) == Sum(Part(m, keys, i)) + Size(keys[i], m[keys[i]])
  {
    assert keys[..i + 1] == keys[..i] + [keys[i]];
    forall j: int | 0 <= j < i ensures keys[..i][j] != keys[i] {
      assert Apart(keys, j, i);
    }
    SumWith(Part(m, keys, i), keys[i], m[keys[i]]);
  }

  lemma PartAll(m: Entries, keys: seq<Blob>)
    requires Lists(m, keys)
    ensures Part(m, keys, |keys|) == m
  {
    assert keys[..|keys|] == keys;
  }

  lemma PartSum(m: Entries, keys: seq<Blob>, i: nat)
    requires Lists(m, keys) && i <= |keys|
    ensures Sum(Part(m, keys, i)) <= Sum(m)
  {
    var gone := set k | k in m && k !in keys[..i];
    forall k: Blob ensures k in Part(m, keys, i) <==> k in m - gone {
      assert k in keys[..i] ==> k in keys;
    }
    assert Part(m, keys, i) == m - gone;
    SumRemoved(m, gone);
  }

  /** The step of unflatten for entry `i` of a serialized cache, when there is room for all of it:
      the entry is stored, nothing is evicted. */
  lemma EntryIsStored(h: State, s: State, c: Limits, keys: seq<Blob>, i: nat, gone: set<Blob>)
    requires Inv(h, c) && Loose(s, c) && Lists(h.entries, keys) && i < |keys| && s.entries == Part(h.entries, keys, i)
    requires Extra(s) + h.total <= c.total
    ensures Storable(c, keys[i], h.entries[keys[i]]) && NewTotal(s, keys[i], h.entries[keys[i]]) <= c.total
    ensures Set(s, c, keys[i], h.entries[keys[i]], gone).entries == Part(h.entries, keys, i + 1)
  {
    assert EntryOk(h, c, keys[i]);
    PartGrows(h.entries, keys, i);
    PartSum(h.entries, keys, i + 1);
    NewTotalIsSum(s, keys[i], h.entries[keys[i]]);
  }
}
