/**
 The heap allocator of MemoryDealer (libs/binder/MemoryDealer.cpp) as a list of chunks.  Starts
 and sizes are in units of ALIGN bytes; `page` is the number of units of a memory page.
 */
module BestFit {
  import opened Wrappers

  const ALIGN := 32
  const WORD := 0x1_0000_0000_0000_0000
  /** Sizes are kept in a bit field of 28 bits. */
  const SIZE_LIMIT := 0x1000_0000

  datatype Chunk = Chunk(start: nat, size: nat, free: bool)

  type Heap = seq<Chunk>

  // ---------------------------------------------------------------- the invariant

  ghost predicate StartOk(l: Heap, i: int) {
    0 <= i < |l| ==> l[i].size > 0 && l[i].start == if i == 0 then 0 else l[i - 1].start + l[i - 1].size
  }

  /** The chunks follow each other without gaps and overlaps and fill the heap. */
  ghost predicate Tiled(l: Heap, total: nat) {
    && |l| > 0 && l[|l| - 1].start + l[|l| - 1].size == total
    && (forall i: int {:trigger StartOk(l, i)} :: StartOk(l, i))
  }

  ghost predicate ApartOk(l: Heap, i: int) {
    0 < i < |l| ==> !(l[i - 1].free && l[i].free)
  }

  /** No two neighbouring chunks are free. */
  ghost predicate Coalesced(l: Heap) {
    forall i: int {:trigger ApartOk(l, i)} :: ApartOk(l, i)
  }

  ghost predicate Inv(l: Heap, total: nat) {
    Tiled(l, total) && Coalesced(l)
  }

  /** The allocated chunks. */
  ghost function Live(l: Heap): set<Chunk> {
    set i: int | 0 <= i < |l| && !l[i].free :: l[i]
  }

  lemma {:induction false} Ordered(l: Heap, i: nat, j: nat)
    requires i < j < |l| && forall k: int {:trigger StartOk(l, k)} :: StartOk(l, k)
    ensures l[i].start + l[i].size <= l[j].start
    decreases j
  {
    assert StartOk(l, j) && StartOk(l, j - 1);
    if i < j - 1 {
      Ordered(l, i, j - 1);
    }
  }

  lemma InHeap(l: Heap, total: nat, i: nat)
    requires Tiled(l, total) && i < |l|
    ensures l[i].start + l[i].size <= total && 0 < l[i].size
  {
    assert StartOk(l, i) && StartOk(l, |l| - 1);
    if i < |l| - 1 {
      Ordered(l, i, |l| - 1);
    }
  }

  /** Live chunks are inside the heap and do not overlap. */
  lemma LiveChunksAreApart(l: Heap, total: nat, a: Chunk, b: Chunk)
    requires Inv(l, total) && a in Live(l) && b in Live(l) && a != b
    ensures a.start + a.size <= total && 0 < a.size
    ensures a.start + a.size <= b.start || b.start + b.size <= a.start
  {
    var i: int :| 0 <= i < |l| && l[i] == a;
    var j: int :| 0 <= j < |l| && l[j] == b;
    InHeap(l, total, i);
    if i < j {
      Ordered(l, i, j);
    } else {
      Ordered(l, j, i);
    }
  }

  // ---------------------------------------------------------------- alloc

  /** The units of a request in bytes; the addition is done in a size_t. */
  function Units(bytes: nat): nat {
    (bytes + ALIGN - 1) % WORD / ALIGN
  }

  /** Exactly the requests of the last 31 sizes wrap, and are taken for empty ones. */
  lemma UnitsWrap(bytes: nat)
    requires 0 < bytes < WORD
    ensures Units(bytes) == 0 <==> bytes > WORD - ALIGN
    ensures bytes <= WORD - ALIGN ==> bytes <= Units(bytes) * ALIGN < bytes + ALIGN
  {
  }

  /** What is needed to bring a start to a page boundary. */
  function Extra(start: nat, page: nat, aligned: bool): nat
    requires page > 0
  {
    if aligned then (page - start % page) % page else 0
  }

  lemma ExtraAligns(start: nat, page: nat, aligned: bool)
    requires page > 0
    ensures Extra(start, page, aligned) < page && (aligned ==> (start + Extra(start, page, aligned)) % page == 0)
  {
    var q, r := start / page, start % page;
    assert start == q * page + r;
    if aligned && r != 0 {
      assert Extra(start, page, aligned) == page - r;
      assert start + Extra(start, page, aligned) == (q + 1) * page;
      Multiple(q + 1, page);
    }
  }

  lemma Multiple(q: nat, page: nat)
    requires page > 0
    ensures (q * page) % page == 0
  {
    var a := q * page;
    var d, r := a / page, a % page;
    assert a == d * page + r;
    assert (q - d) * page == r;
    assert q - d >= 1 ==> (q - d) * page >= page;
    assert d - q >= 1 ==> (d - q) * page >= page;
  }

  predicate Fits(c: Chunk, size: nat, page: nat, aligned: bool)
    requires page > 0
  {
    c.free && c.size >= size + Extra(c.start, page, aligned)
  }

  /** The first of the smallest chunks that fit. */
  ghost predicate IsBest(l: Heap, k: nat, size: nat, page: nat, aligned: bool)
    requires page > 0
  {
    && k < |l| && Fits(l[k], size, page, aligned)
    && (forall j: int :: 0 <= j < |l| && Fits(l[j], size, page, aligned) ==> l[k].size <= l[j].size)
    && (forall j: int :: 0 <= j < k && Fits(l[j], size, page, aligned) ==> l[k].size < l[j].size)
  }

  function Opt(c: Chunk): seq<Chunk> {
    if c.size > 0 then [c] else []
  }

  /** Chunk `c` with `size` units allocated after `extra` ones, the rest left free. */
  function Pieces(c: Chunk, size: nat, extra: nat): seq<Chunk>
    requires size + extra <= c.size
  {
    Opt(Chunk(c.start, extra, true)) + [Chunk(c.start + extra, size, false)]
    + Opt(Chunk(c.start + extra + size, c.size - (size + extra), true))
  }

  /** A list with one more chunk before or after position `k`, unless that chunk is empty. */
  function WithBefore(l: Heap, k: nat, c: Chunk): Heap
    requires k < |l|
  {
    if c.size > 0 then l[..k] + [c] + l[k..] else l
  }

  function WithAfter(l: Heap, k: nat, c: Chunk): Heap
    requires k < |l|
  {
    if c.size > 0 then l[..k + 1] + [c] + l[k + 1..] else l
  }

  function Carve(l: Heap, k: nat, size: nat, extra: nat): Heap
    requires k < |l| && size + extra <= l[k].size
  {
    l[..k] + Pieces(l[k], size, extra) + l[k + 1..]
  }

  /** A replacement of one chunk by pieces that tile it keeps the heap tiled. */
  lemma SpliceTiles(l: Heap, total: nat, k: nat, ps: seq<Chunk>)
    requires Tiled(l, total) && k < |l| && |ps| > 0
    requires ps[0].start == l[k].start && ps[|ps| - 1].start + ps[|ps| - 1].size == l[k].start + l[k].size
    requires forall i :: 0 <= i < |ps| ==> ps[i].size > 0
    requires forall i :: 0 < i < |ps| ==> ps[i].start == ps[i - 1].start + ps[i - 1].size
    ensures Tiled(l[..k] + ps + l[k + 1..], total)
  {
    var r := l[..k] + ps + l[k + 1..];
    forall i: int ensures StartOk(r, i) {
      if 0 <= i < |r| {
        if i < k {
          assert StartOk(l, i);
        } else if i < k + |ps| {
          assert r[i] == ps[i - k] && StartOk(l, k);
          assert i > k ==> r[i - 1] == ps[i - k - 1];
          assert i == k && k > 0 ==> r[i - 1] == l[k - 1];
        } else {
          var j := i - |ps| + 1;
          assert r[i] == l[j] && StartOk(l, j);
          assert i > k + |ps| ==> r[i - 1] == l[j - 1];
          assert i == k + |ps| ==> r[i - 1] == ps[|ps| - 1];
        }
      }
    }
    assert k < |l| - 1 ==> r[|r| - 1] == l[|l| - 1];
    assert k == |l| - 1 ==> r[|r| - 1] == ps[|ps| - 1];
  }

  lemma SpliceCoalesces(l: Heap, k: nat, ps: seq<Chunk>)
    requires Coalesced(l) && k < |l| && |ps| > 0
    requires k > 0 && l[k - 1].free ==> !ps[0].free
    requires k + 1 < |l| && l[k + 1].free ==> !ps[|ps| - 1].free
    requires forall i :: 0 < i < |ps| ==> !(ps[i - 1].free && ps[i].free)
    ensures Coalesced(l[..k] + ps + l[k + 1..])
  {
    var r := l[..k] + ps + l[k + 1..];
    forall i: int ensures ApartOk(r, i) {
      if 0 < i < |r| {
        if i < k {
          assert ApartOk(l, i);
        } else if i < k + |ps| {
          assert r[i] == ps[i - k];
          assert i > k ==> r[i - 1] == ps[i - k - 1];
          assert i == k ==> r[i - 1] == l[k - 1];
        } else {
          var j := i - |ps| + 1;
          assert r[i] == l[j] && ApartOk(l, j);
          assert i > k + |ps| ==> r[i - 1] == l[j - 1];
          assert i == k + |ps| ==> r[i - 1] == ps[|ps| - 1];
        }
      }
    }
  }

  /** An allocation keeps the heap tiled and coalesced. */
  lemma CarveKeeps(l: Heap, total: nat, k: nat, size: nat, extra: nat)
    requires Inv(l, total) && k < |l| && l[k].free && 0 < size && size + extra <= l[k].size
    ensures Inv(Carve(l, k, size, extra), total)
  {
    assert ApartOk(l, k) && ApartOk(l, k + 1);
    SpliceTiles(l, total, k, Pieces(l[k], size, extra));
    SpliceCoalesces(l, k, Pieces(l[k], size, extra));
  }

  /** It makes one more chunk live and leaves the others alone. */
  lemma CarveLive(l: Heap, k: nat, size: nat, extra: nat)
    requires k < |l| && l[k].free && size + extra <= l[k].size
    ensures Live(Carve(l, k, size, extra)) == Live(l) + {Chunk(l[k].start + extra, size, false)}
  {
    var ps := Pieces(l[k], size, extra);
    SpliceLive(l, k, ps);
    var e := if extra > 0 then 1 else 0;
    assert ps[e] == Chunk(l[k].start + extra, size, false);
    assert forall i :: 0 <= i < |ps| && !ps[i].free ==> i == e;
    assert Live(ps) == {ps[e]};
    assert Live([l[k]]) == {};
  }

  /** Live chunks of a list whose position `k` is replaced. */
  lemma SpliceLive(l: Heap, k: nat, ps: seq<Chunk>)
    requires k < |l|
    ensures Live(l[..k] + ps + l[k + 1..]) == Live(l[..k]) + Live(ps) + Live(l[k + 1..])
    ensures Live(l) == Live(l[..k]) + Live([l[k]]) + Live(l[k + 1..])
  {
    assert l == l[..k] + [l[k]] + l[k + 1..];
    LiveConcat(l[..k], ps);
    LiveConcat(l[..k] + ps, l[k + 1..]);
    LiveConcat(l[..k], [l[k]]);
    LiveConcat(l[..k] + [l[k]], l[k + 1..]);
  }

  lemma LiveConcat(a: Heap, b: Heap)
    ensures Live(a + b) == Live(a) + Live(b)
  {
    var c := a + b;
    forall x: Chunk ensures x in Live(c) <==> x in Live(a) + Live(b) {
      if x in Live(a) {
        var i: int :| 0 <= i < |a| && !a[i].free && a[i] == x;
        assert c[i] == x;
      }
      if x in Live(b) {
        var i: int :| 0 <= i < |b| && !b[i].free && b[i] == x;
        assert c[|a| + i] == x;
      }
      if x in Live(c) {
        var i: int :| 0 <= i < |c| && !c[i].free && c[i] == x;
        assert if i < |a| then a[i] == x else b[i - |a|] == x;
      }
    }
  }

  // ---------------------------------------------------------------- dealloc

  /** The stretch of chunks that becomes one when chunk `k` is freed. */
  function From(l: Heap, k: nat): nat
    requires k < |l|
  {
    if k > 0 && l[k - 1].free then k - 1 else k
  }

  function To(l: Heap, k: nat): nat
    requires k < |l|
  {
    if k + 1 < |l| && l[k + 1].free then k + 2 else k + 1
  }

  function Total(l: Heap): nat {
    if l == [] then 0 else l[0].size + Total(l[1..])
  }

  /** Chunk `k` is freed and merged with the free chunks beside it. */
  function FreeAt(l: Heap, k: nat): Heap
    requires k < |l|
  {
    var a, b := From(l, k), To(l, k);
    l[..a] + [Chunk(l[a].start, Total(l[a..b]), true)] + l[b..]
  }

  lemma {:induction false} StretchEnds(l: Heap, a: nat, b: nat)
    requires a < b <= |l| && forall i: int {:trigger StartOk(l, i)} :: StartOk(l, i)
    ensures l[a].start + Total(l[a..b]) == l[b - 1].start + l[b - 1].size && Total(l[a..b]) > 0
    decreases b - a
  {
    assert l[a..b] == [l[a]] + l[a + 1..b];
    assert StartOk(l, a) && StartOk(l, a + 1);
    if a + 1 == b {
      assert l[a + 1..b] == [];
    } else {
      StretchEnds(l, a + 1, b);
    }
  }

  /** Replacing a stretch of chunks by one of the same extent keeps the heap tiled. */
  lemma MergeTiles(l: Heap, total: nat, a: nat, b: nat, free: bool)
    requires Tiled(l, total) && a < b <= |l|
    ensures Tiled(l[..a] + [Chunk(l[a].start, Total(l[a..b]), free)] + l[b..], total)
  {
    var r := l[..a] + [Chunk(l[a].start, Total(l[a..b]), free)] + l[b..];
    StretchEnds(l, a, b);
    forall i: int ensures StartOk(r, i) {
      if 0 <= i < |r| {
        if i <= a {
          assert StartOk(l, i);
          assert i > 0 ==> r[i - 1] == l[i - 1];
        } else {
          assert r[i] == l[i - a - 1 + b] && StartOk(l, i - a - 1 + b);
          assert i > a + 1 ==> r[i - 1] == l[i - a - 2 + b];
        }
      }
    }
    assert r[|r| - 1] == if b < |l| then l[|l| - 1] else r[a];
  }

  lemma FreeCoalesces(l: Heap, k: nat)
    requires Coalesced(l) && k < |l|
    ensures Coalesced(FreeAt(l, k))
  {
    var r, a, b := FreeAt(l, k), From(l, k), To(l, k);
    forall i: int ensures ApartOk(r, i) {
      if 0 < i < |r| {
        assert ApartOk(l, k - 1) && ApartOk(l, k + 2);
        if i <= a {
          assert ApartOk(l, i) && r[i - 1] == l[i - 1];
          assert i < a ==> r[i] == l[i];
        } else {
          assert r[i] == l[i - a - 1 + b] && ApartOk(l, i - a - 1 + b);
          assert i > a + 1 ==> r[i - 1] == l[i - a - 2 + b];
        }
      }
    }
  }

  /** Freeing a live chunk keeps the heap tiled and fully coalesced. */
  lemma FreeKeeps(l: Heap, total: nat, k: nat)
    requires Inv(l, total) && k < |l|
    ensures Inv(FreeAt(l, k), total)
  {
    MergeTiles(l, total, From(l, k), To(l, k), true);
    FreeCoalesces(l, k);
  }

  /** A chunk is listed once. */
  lemma ListedOnce(l: Heap, total: nat, k: nat, a: nat, b: nat)
    requires Tiled(l, total) && k < |l| && a <= b <= |l| && !(a <= k < b)
    ensures l[k] !in Live(l[a..b])
  {
    var m := l[a..b];
    InHeap(l, total, k);
    forall i: int ensures 0 <= i < |m| ==> m[i] != l[k] {
      if 0 <= i < |m| {
        InHeap(l, total, a + i);
        if a + i < k {
          Ordered(l, a + i, k);
        } else {
          Ordered(l, k, a + i);
        }
      }
    }
  }

  lemma LiveAround(l: Heap, total: nat, k: nat, a: nat, b: nat)
    requires Tiled(l, total) && a <= k < b <= |l| && !l[k].free && forall i :: a <= i < b && i != k ==> l[i].free
    ensures Live(l) == Live(l[..a]) + {l[k]} + Live(l[b..]) && l[k] !in Live(l[..a]) && l[k] !in Live(l[b..])
  {
    LiveOfThree(l[..a], l[a..b], l[b..]);
    assert l == l[..a] + l[a..b] + l[b..];
    MiddleLive(l[a..b], k - a);
    assert l[..a] == l[0..a] && l[b..] == l[b..|l|];
    ListedOnce(l, total, k, 0, a);
    ListedOnce(l, total, k, b, |l|);
  }

  lemma FreeChunkIsNotLive(x: Chunk)
    requires x.free
    ensures Live([x]) == {}
  {
  }

  /** Freeing a chunk takes exactly that one from the live chunks. */
  lemma FreeLive(l: Heap, total: nat, k: nat)
    requires Inv(l, total) && k < |l| && !l[k].free
    ensures Live(FreeAt(l, k)) == Live(l) - {l[k]}
  {
    var a, b := From(l, k), To(l, k);
    var x := Chunk(l[a].start, Total(l[a..b]), true);
    LiveOfThree(l[..a], [x], l[b..]);
    FreeChunkIsNotLive(x);
    LiveAround(l, total, k, a, b);
  }

  lemma LiveOfThree(a: Heap, b: Heap, c: Heap)
    ensures Live(a + b + c) == Live(a) + Live(b) + Live(c)
  {
    LiveConcat(a, b);
    LiveConcat(a + b, c);
  }

  lemma MiddleLive(m: Heap, k: nat)
    requires k < |m| && !m[k].free && forall i :: 0 <= i < |m| && i != k ==> m[i].free
    ensures Live(m) == {m[k]}
  {
  }

  lemma {:induction false} TotalConcat(a: Heap, b: Heap)
    ensures Total(a + b) == Total(a) + Total(b)
  {
    if a == [] {
      assert a + b == b;
    } else {
      assert (a + b)[1..] == a[1..] + b;
      TotalConcat(a[1..], b);
    }
  }

  lemma PiecesTotal(c: Chunk, size: nat, extra: nat)
    requires size + extra <= c.size
    ensures Total(Pieces(c, size, extra)) == c.size && Pieces(c, size, extra)[0].start == c.start
  {
    var a, m, b := Opt(Chunk(c.start, extra, true)), [Chunk(c.start + extra, size, false)],
      Opt(Chunk(c.start + extra + size, c.size - (size + extra), true));
    TotalConcat(a, m);
    TotalConcat(a + m, b);
    assert forall x: Chunk :: Total([x]) == x.size + Total([x][1..]) && [x][1..] == [];
  }

  /** Around the freed chunk exactly the pieces are free. */
  lemma CarveStretch(l: Heap, k: nat, size: nat, extra: nat)
    requires Coalesced(l) && k < |l| && l[k].free && 0 < size && size + extra <= l[k].size
    ensures var r, n := Carve(l, k, size, extra), |Pieces(l[k], size, extra)|;
      var p := if extra > 0 then k + 1 else k;
      && p < |r| && From(r, p) == k && To(r, p) == k + n
      && r[..k] == l[..k] && r[k..k + n] == Pieces(l[k], size, extra) && r[k + n..] == l[k + 1..]
  {
    assert ApartOk(l, k) && ApartOk(l, k + 1);
    var r, ps := Carve(l, k, size, extra), Pieces(l[k], size, extra);
    assert forall i :: 0 <= i < |ps| ==> r[k + i] == ps[i];
    assert k > 0 ==> r[k - 1] == l[k - 1];
    assert k + |ps| < |r| ==> r[k + |ps|] == l[k + 1];
  }

  /** Freeing what was just allocated gives the heap back. */
  lemma FreeUndoesCarve(l: Heap, k: nat, size: nat, extra: nat)
    requires Coalesced(l) && k < |l| && l[k].free && 0 < size && size + extra <= l[k].size
    ensures var p := if extra > 0 then k + 1 else k;
      p < |Carve(l, k, size, extra)| && FreeAt(Carve(l, k, size, extra), p) == l
  {
    CarveStretch(l, k, size, extra);
    PiecesTotal(l[k], size, extra);
    var r := Carve(l, k, size, extra);
    assert r[k] == Pieces(l[k], size, extra)[0];
    assert l == l[..k] + [l[k]] + l[k + 1..];
  }

  /** Chunk `i` goes into the one before it. */
  function Absorb(l: Heap, i: nat): Heap
    requires 0 < i < |l|
  {
    l[..i - 1] + [Chunk(l[i - 1].start, l[i - 1].size + l[i].size, l[i - 1].free)] + l[i + 1..]
  }

  predicate Absorbs(l: Heap, i: nat)
    requires i < |l|
  {
    i > 0 && (l[i - 1].free || l[i].size == 0)
  }

  /** The merge loop of dealloc from position `i`: a chunk goes into the one before it if that
      one is free, and the loop goes on as long as the next chunk is free. */
  function MergeLoop(l: Heap, i: nat): Heap
    requires i < |l|
    decreases |l| - i
  {
    var m := if Absorbs(l, i) then Absorb(l, i) else l;
    var n := if Absorbs(l, i) then i else i + 1;
    if n < |m| && m[n].free then MergeLoop(m, n) else m
  }

  lemma MergeBoth(l: Heap, k: nat)
    requires 0 < k && k + 1 < |l| && l[k - 1].free && l[k + 1].free && (k + 2 < |l| ==> !l[k + 2].free)
    ensures MergeLoop(l[k := l[k].(free := true)], k) == FreeAt(l, k)
  {
    var m := l[k := l[k].(free := true)];
    var a := Absorb(m, k);
    assert a == l[..k - 1] + [Chunk(l[k - 1].start, l[k - 1].size + l[k].size, true)] + l[k + 1..];
    assert a[k] == l[k + 1] && a[k - 1].free;
    var b := Absorb(a, k);
    StretchTotal(l, k - 1, k + 2);
    assert b == FreeAt(l, k);
    assert k < |b| ==> b[k] == l[k + 2];
    assert MergeLoop(a, k) == b;
  }

  lemma MergeBefore(l: Heap, k: nat)
    requires 0 < k < |l| && l[k - 1].free && (k + 1 < |l| ==> !l[k + 1].free)
    ensures MergeLoop(l[k := l[k].(free := true)], k) == FreeAt(l, k)
  {
    var m := l[k := l[k].(free := true)];
    var a := Absorb(m, k);
    StretchTotal(l, k - 1, k + 1);
    assert a == FreeAt(l, k);
    assert k < |a| ==> a[k] == l[k + 1];
  }

  lemma MergeAfter(l: Heap, k: nat)
    requires k + 1 < |l| && l[k].size > 0 && !(k > 0 && l[k - 1].free) && l[k + 1].free &&
      (k + 2 < |l| ==> !l[k + 2].free)
    ensures MergeLoop(l[k := l[k].(free := true)], k) == FreeAt(l, k)
  {
    var m := l[k := l[k].(free := true)];
    var b := Absorb(m, k + 1);
    StretchTotal(l, k, k + 2);
    assert b == FreeAt(l, k);
    assert k + 1 < |b| ==> b[k + 1] == l[k + 2];
    assert MergeLoop(m, k + 1) == b;
  }

  lemma MergeNone(l: Heap, k: nat)
    requires k < |l| && l[k].size > 0 && !(k > 0 && l[k - 1].free) && !(k + 1 < |l| && l[k + 1].free)
    ensures MergeLoop(l[k := l[k].(free := true)], k) == FreeAt(l, k)
  {
    var m := l[k := l[k].(free := true)];
    StretchTotal(l, k, k + 1);
    assert m == l[..k] + [l[k].(free := true)] + l[k + 1..];
    assert !Absorbs(m, k);
  }

  /** On a coalesced heap the loop merges the freed chunk with its neighbours and nothing else. */
  lemma MergeLoopFrees(l: Heap, total: nat, k: nat)
    requires Inv(l, total) && k < |l|
    ensures MergeLoop(l[k := l[k].(free := true)], k) == FreeAt(l, k)
  {
    assert StartOk(l, k) && ApartOk(l, k + 2);
    if k > 0 && l[k - 1].free {
      if k + 1 < |l| && l[k + 1].free {
        MergeBoth(l, k);
      } else {
        MergeBefore(l, k);
      }
    } else if k + 1 < |l| && l[k + 1].free {
      MergeAfter(l, k);
    } else {
      MergeNone(l, k);
    }
  }

  lemma StretchTotal(l: Heap, a: nat, b: nat)
    requires a < b <= |l| && b - a <= 3
    ensures Total(l[a..b]) == l[a].size + (if b - a > 1 then l[a + 1].size else 0) + (if b - a > 2 then l[a + 2].size
      else 0)
  {
    assert l[a..b][1..] == l[a + 1..b];
    assert Total(l[a..b]) == l[a].size + Total(l[a + 1..b]);
    if b - a > 1 {
      assert l[a + 1..b][1..] == l[a + 2..b];
      assert Total(l[a + 1..b]) == l[a + 1].size + Total(l[a + 2..b]);
      if b - a > 2 {
        assert l[a + 2..b][1..] == [];
      }
    }
  }

  lemma AbsorbTiles(l: Heap, total: nat, i: nat)
    requires Tiled(l, total) && 0 < i < |l|
    ensures Tiled(Absorb(l, i), total)
  {
    MergeTiles(l, total, i - 1, i + 1, l[i - 1].free);
    StretchTotal(l, i - 1, i + 1);
  }

  // ---------------------------------------------------------------- allocate and deallocate

  /** The search loop of alloc from position `i`, with the best chunk so far: it stops early at
      a chunk of exactly the size. */
  function Search(l: Heap, i: nat, best: Option<nat>, size: nat, page: nat, aligned: bool): Option<nat>
    requires page > 0 && i <= |l| && (best.Some? ==> best.value < |l|)
    decreases |l| - i
  {
    if i == |l| then best
    else if Fits(l[i], size, page, aligned) then
      var b := if best.None? || l[i].size < l[best.value].size then Some(i) else best;
      if l[i].size == size then b else Search(l, i + 1, b, size, page, aligned)
    else Search(l, i + 1, best, size, page, aligned)
  }

  /** `best` is the best of the chunks before position `i`. */
  ghost predicate BestSoFar(l: Heap, i: nat, best: Option<nat>, size: nat, page: nat, aligned: bool)
    requires page > 0 && i <= |l|
  {
    && (best.Some? ==> best.value < i && IsBest(l[..i], best.value, size, page, aligned))
    && (best.None? ==> forall j: int :: 0 <= j < i ==> !Fits(l[j], size, page, aligned))
  }

  /** The search finds the first of the smallest chunks that fit, or there is none. */
  lemma {:induction false} SearchFindsBest(l: Heap, i: nat, best: Option<nat>, size: nat, page: nat, aligned: bool)
    requires page > 0 && i <= |l| && BestSoFar(l, i, best, size, page, aligned)
    requires best.Some? ==> l[best.value].size > size
    ensures var r := Search(l, i, best, size, page, aligned);
      && (r.Some? ==> IsBest(l, r.value, size, page, aligned))
      && (r.None? <==> forall j: int :: 0 <= j < |l| ==> !Fits(l[j], size, page, aligned))
    decreases |l| - i
  {
    if i == |l| {
      assert l[..i] == l;
    } else if Fits(l[i], size, page, aligned) {
      var b := if best.None? || l[i].size < l[best.value].size then Some(i) else best;
      assert forall j: int :: 0 <= j < i ==> l[..i][j] == l[j];
      if l[i].size != size {
        SearchFindsBest(l, i + 1, b, size, page, aligned);
      } else {
        assert b == Some(i);
      }
    } else {
      assert forall j: int :: 0 <= j < i ==> l[..i][j] == l[j];
      SearchFindsBest(l, i + 1, best, size, page, aligned);
    }
  }

  /** allocate: the new heap and the offset in bytes, None for NO_MEMORY. */
  function Allocate(l: Heap, bytes: nat, page: nat, aligned: bool): (Heap, Option<nat>)
    requires page > 0
  {
    if bytes == 0 then (l, Some(0))
    else
      var size := Units(bytes);
      match Search(l, 0, None, size, page, aligned)
      case None => (l, None)
      case Some(k) =>
        if k < |l| && Fits(l[k], size, page, aligned) then
          var extra := Extra(l[k].start, page, aligned);
          (Carve(l, k, size, extra), Some((l[k].start + extra) * ALIGN))
        else (l, None)
  }

  /** `size` units from `start` on lie in the chunk. */
  predicate Inside(x: Chunk, start: nat, size: nat) {
    x.start <= start && start + size <= x.start + x.size
  }

  /** An allocation that succeeds hands out a fresh, aligned, large enough block of the best
      chunk; it fails exactly when no chunk fits.  One of no bytes succeeds and takes nothing. */
  lemma AllocateWorks(l: Heap, total: nat, bytes: nat, page: nat, aligned: bool)
    requires page > 0 && Inv(l, total) && bytes <= WORD - ALIGN
    ensures bytes == 0 ==> Allocate(l, bytes, page, aligned) == (l, Some(0))
    ensures bytes > 0 ==> var (r, offset) := Allocate(l, bytes, page, aligned);
      && Inv(r, total)
      && (offset.None? <==> forall j: int :: 0 <= j < |l| ==> !Fits(l[j], Units(bytes), page, aligned))
      && (offset.None? ==> r == l)
      && (offset.Some? ==>
            && offset.value % ALIGN == 0 && (aligned ==> offset.value / ALIGN % page == 0)
            && Live(r) == Live(l) + {Chunk(offset.value / ALIGN, Units(bytes), false)}
            && Chunk(offset.value / ALIGN, Units(bytes), false) !in Live(l)
            && bytes <= Units(bytes) * ALIGN
            && exists k: nat ::
                 && k < |l| && IsBest(l, k, Units(bytes), page, aligned)
                 && Inside(l[k], offset.value / ALIGN, Units(bytes)))
  {
    if bytes > 0 {
      UnitsWrap(bytes);
      var size := Units(bytes);
      SearchFindsBest(l, 0, None, size, page, aligned);
      match Search(l, 0, None, size, page, aligned)
      case None =>
      case Some(k) =>
        CarveWorks(l, total, k, size, page, aligned);
        OffsetUnits(l[k].start + Extra(l[k].start, page, aligned));
        assert IsBest(l, k, size, page, aligned) && Inside(l[k], l[k].start + Extra(l[k].start, page, aligned), size);
    }
  }

  lemma OffsetUnits(u: nat)
    ensures u * ALIGN % ALIGN == 0 && u * ALIGN / ALIGN == u
  {
  }

  lemma CarveWorks(l: Heap, total: nat, k: nat, size: nat, page: nat, aligned: bool)
    requires page > 0 && Inv(l, total) && k < |l| && 0 < size && Fits(l[k], size, page, aligned)
    ensures var extra := Extra(l[k].start, page, aligned);
      var x := Chunk(l[k].start + extra, size, false);
      && Inv(Carve(l, k, size, extra), total) && (aligned ==> x.start % page == 0)
      && Live(Carve(l, k, size, extra)) == Live(l) + {x} && x !in Live(l)
  {
    var extra := Extra(l[k].start, page, aligned);
    CarveKeeps(l, total, k, size, extra);
    CarveLive(l, k, size, extra);
    ExtraAligns(l[k].start, page, aligned);
    NotLive(l, total, k, Chunk(l[k].start + extra, size, false));
  }

  /** A block inside a free chunk is not live. */
  lemma NotLive(l: Heap, total: nat, k: nat, x: Chunk)
    requires Tiled(l, total) && k < |l| && l[k].free && x.size > 0
    requires l[k].start <= x.start && x.start + x.size <= l[k].start + l[k].size
    ensures x !in Live(l)
  {
    forall i: int ensures 0 <= i < |l| && !l[i].free ==> l[i] != x {
      if 0 <= i < |l| && !l[i].free {
        if i < k {
          Ordered(l, i, k);
        } else {
          Ordered(l, k, i);
        }
      }
    }
  }

  function Find(l: Heap, i: nat, unit: nat): Option<nat>
    requires i <= |l|
    decreases |l| - i
  {
    if i == |l| then None else if l[i].start == unit then Some(i) else Find(l, i + 1, unit)
  }

  lemma {:induction false} FindFinds(l: Heap, i: nat, unit: nat)
    requires i <= |l|
    ensures Find(l, i, unit).Some? ==> i <= Find(l, i, unit).value < |l| && l[Find(l, i, unit).value].start == unit
    ensures Find(l, i, unit).None? ==> forall j: int :: i <= j < |l| ==> l[j].start != unit
    decreases |l| - i
  {
    if i < |l| && l[i].start != unit {
      FindFinds(l, i + 1, unit);
    }
  }

  /** deallocate: the new heap, and whether a chunk starts at the offset. */
  function Deallocate(l: Heap, offset: nat): (Heap, bool) {
    match Find(l, 0, offset / ALIGN)
    case None => (l, false)
    case Some(k) => if k < |l| then (FreeAt(l, k), true) else (l, false)
  }

  /** A live chunk is found at its offset and is the only one to go; freeing a free chunk again,
      or an offset where no chunk starts, changes nothing. */
  lemma DeallocateWorks(l: Heap, total: nat, offset: nat)
    requires Inv(l, total)
    ensures var (r, ok) := Deallocate(l, offset);
      && Inv(r, total)
      && (ok <==> exists i: int :: 0 <= i < |l| && l[i].start == offset / ALIGN)
      && (forall c: Chunk :: c in Live(l) && c.start == offset / ALIGN ==> ok && Live(r) == Live(l) - {c})
      && ((forall c: Chunk :: c in Live(l) ==> c.start != offset / ALIGN) ==> r == l)
  {
    FindFinds(l, 0, offset / ALIGN);
    match Find(l, 0, offset / ALIGN)
    case None =>
    case Some(k) =>
      FreeKeeps(l, total, k);
      if l[k].free {
        FreeAgain(l, k);
      } else {
        FreeLive(l, total, k);
        assert l[k] in Live(l);
      }
      forall c: Chunk ensures c in Live(l) && c.start == offset / ALIGN ==> c == l[k] {
        if c in Live(l) && c.start == offset / ALIGN {
          var i: int :| 0 <= i < |l| && !l[i].free && l[i] == c;
          SameStart(l, total, i, k);
        }
      }
  }

  lemma SameStart(l: Heap, total: nat, i: nat, k: nat)
    requires Tiled(l, total) && i < |l| && k < |l| && l[i].start == l[k].start
    ensures i == k
  {
    InHeap(l, total, i);
    InHeap(l, total, k);
    if i < k {
      Ordered(l, i, k);
    } else if k < i {
      Ordered(l, k, i);
    }
  }

  lemma FreeAgain(l: Heap, k: nat)
    requires Coalesced(l) && k < |l| && l[k].free
    ensures FreeAt(l, k) == l
  {
    assert ApartOk(l, k) && ApartOk(l, k + 1);
    assert l[k..k + 1] == [l[k]] && [l[k]][1..] == [];
    assert Total([l[k]]) == l[k].size + Total([l[k]][1..]);
    assert l == l[..k] + [l[k]] + l[k + 1..];
  }

  // ---------------------------------------------------------------- runs

  datatype Op = Alloc(bytes: nat, aligned: bool) | Dealloc(offset: nat)

  /** Requests of the last 31 sizes of a size_t wrap and are left out. */
  predicate Enabled(op: Op) {
    op.Alloc? ==> op.bytes <= WORD - ALIGN
  }

  function Step(l: Heap, op: Op, page: nat): Heap
    requires page > 0
  {
    match op
    case Alloc(bytes, aligned) => Allocate(l, bytes, page, aligned).0
    case Dealloc(offset) => Deallocate(l, offset).0
  }

  function Run(l: Heap, ops: seq<Op>, page: nat): Heap
    requires page > 0
    decreases |ops|
  {
    if ops == [] then l else Run(Step(l, ops[0], page), ops[1..], page)
  }

  /** After any sequence of requests the chunks tile the heap, none is empty, none of two
      neighbours is free, and no two live ones overlap. */
  lemma {:induction false} RunKeeps(l: Heap, total: nat, ops: seq<Op>, page: nat)
    requires page > 0 && Inv(l, total) && forall op: Op :: op in ops ==> Enabled(op)
    ensures Inv(Run(l, ops, page), total)
    decreases |ops|
  {
    if ops != [] {
      assert ops[0] in ops && forall op: Op :: op in ops[1..] ==> op in ops;
      match ops[0] {
        case Alloc(bytes, aligned) =>
          if bytes > 0 {
            AllocateWorks(l, total, bytes, page, aligned);
          }
        case Dealloc(offset) => DeallocateWorks(l, total, offset);
      }
      RunKeeps(Step(l, ops[0], page), total, ops[1..], page);
    }
  }

  /** A request that wraps makes an empty chunk: the bound on the size is exact. */
  lemma WrappedRequestBreaksHeap(l: Heap, total: nat, bytes: nat, page: nat, k: nat)
    requires page > 0 && Inv(l, total) && 0 < bytes < WORD && k < |l| && l[k].free
    ensures Inv(Allocate(l, bytes, page, false).0, total) <==> bytes <= WORD - ALIGN
  {
    UnitsWrap(bytes);
    if bytes <= WORD - ALIGN {
      AllocateWorks(l, total, bytes, page, false);
    } else {
      SearchFindsBest(l, 0, None, 0, page, false);
      assert Fits(l[k], 0, page, false);
      var m := Search(l, 0, None, 0, page, false).value;
      var r := Carve(l, m, 0, 0);
      assert r[m].size == 0;
      assert !StartOk(r, m);
    }
  }
}
