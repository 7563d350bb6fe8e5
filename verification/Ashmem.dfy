/**
 Pinning and unpinning of ashmem pages (driver/ashmem/ashmem.c).

 An area keeps its unpinned pages as a list of inclusive page ranges in descending order; the
 ranges of all areas that were not purged are also on one list in the order they were unpinned,
 with their number of pages in `count`.  `lost` is history: the pages of an area purged since
 they were unpinned.
 */
module Ashmem {
  import opened Lists

  type AreaId = nat
  type RangeId = nat
  type Page = int

  datatype Range = Range(area: AreaId, lo: Page, hi: Page, purged: bool)

  datatype State = State(
    ranges: map<RangeId, Range>, lists: map<AreaId, seq<RangeId>>, lru: seq<RangeId>, count: int,
    next: RangeId, lost: map<AreaId, set<Page>>)

  const Init := State(map[], map[], [], 0, 0, map[])

  // ---------------------------------------------------------------- the invariant

  function Size(ranges: map<RangeId, Range>, r: RangeId): int {
    if r in ranges then ranges[r].hi - ranges[r].lo + 1 else 0
  }

  function Sum(ranges: map<RangeId, Range>, xs: seq<RangeId>): int {
    if xs == [] then 0 else Size(ranges, xs[0]) + Sum(ranges, xs[1..])
  }

  ghost predicate RangeOk(s: State, r: RangeId) {
    r in s.ranges ==>
      r < s.next && s.ranges[r].lo <= s.ranges[r].hi && s.ranges[r].area in s.lists && r in s.lists[s.ranges[r].area]
  }

  ghost predicate MemberOk(s: State, a: AreaId, i: int) {
    a in s.lists && 0 <= i < |s.lists[a]| ==> s.lists[a][i] in s.ranges && s.ranges[s.lists[a][i]].area == a
  }

  /** The list of an area is sorted, highest pages first, and its ranges do not overlap. */
  ghost predicate OrderOk(s: State, a: AreaId, i: int, j: int) {
    a in s.lists && 0 <= i < j < |s.lists[a]| && s.lists[a][i] in s.ranges && s.lists[a][j] in s.ranges ==>
      s.ranges[s.lists[a][i]].lo > s.ranges[s.lists[a][j]].hi
  }

  ghost predicate Shape(s: State) {
    && (forall r: RangeId {:trigger RangeOk(s, r)} :: RangeOk(s, r))
    && (forall a: AreaId, i: int {:trigger MemberOk(s, a, i)} :: MemberOk(s, a, i))
    && (forall a: AreaId, i: int, j: int {:trigger OrderOk(s, a, i, j)} :: OrderOk(s, a, i, j))
  }

  ghost predicate LruMember(s: State, r: RangeId) {
    r in s.lru <==> r in s.ranges && !s.ranges[r].purged
  }

  /** The least-recently-unpinned list holds exactly the ranges that were not purged. */
  ghost predicate LruOk(s: State) {
    && Distinct(s.lru)
    && (forall r: RangeId {:trigger LruMember(s, r)} :: LruMember(s, r))
    && s.count == Sum(s.ranges, s.lru)
  }

  ghost predicate In(s: State, a: AreaId, p: Page, r: RangeId) {
    r in s.ranges && s.ranges[r].area == a && s.ranges[r].lo <= p <= s.ranges[r].hi
  }

  ghost predicate Unpinned(s: State, a: AreaId, p: Page) {
    exists r: RangeId :: In(s, a, p, r)
  }

  ghost predicate Purged(s: State, a: AreaId, p: Page) {
    exists r: RangeId :: In(s, a, p, r) && s.ranges[r].purged
  }

  /** Every page purged since it was unpinned lies in a range that says so. */
  ghost predicate LostOk(s: State, a: AreaId) {
    && (a in s.lost <==> a in s.lists)
    && (a in s.lost ==> forall p: Page :: p in s.lost[a] ==> Purged(s, a, p))
  }

  ghost predicate Inv(s: State) {
    Shape(s) && LruOk(s) && forall a: AreaId {:trigger LostOk(s, a)} :: LostOk(s, a)
  }

  // ---------------------------------------------------------------- sums over the lru list

  lemma {:induction false} SumAppend(ranges: map<RangeId, Range>, xs: seq<RangeId>, r: RangeId)
    ensures Sum(ranges, xs + [r]) == Sum(ranges, xs) + Size(ranges, r)
  {
    if xs == [] {
      assert xs + [r] == [r];
    } else {
      SumAppend(ranges, xs[1..], r);
      assert (xs + [r])[1..] == xs[1..] + [r];
    }
  }

  lemma {:induction false} SumWithout(ranges: map<RangeId, Range>, xs: seq<RangeId>, r: RangeId)
    requires Distinct(xs) && r in xs
    ensures Sum(ranges, Without(xs, r)) == Sum(ranges, xs) - Size(ranges, r)
  {
    assert xs == [xs[0]] + xs[1..];
    if xs[0] != r {
      SumWithout(ranges, xs[1..], r);
      assert ([xs[0]] + Without(xs[1..], r))[1..] == Without(xs[1..], r);
    }
  }

  lemma {:induction false} SumSame(ranges: map<RangeId, Range>, other: map<RangeId, Range>, xs: seq<RangeId>)
    requires forall r: RangeId :: r in xs ==> Size(ranges, r) == Size(other, r)
    ensures Sum(ranges, xs) == Sum(other, xs)
  {
    if xs != [] {
      assert xs[0] in xs && forall r: RangeId :: r in xs[1..] ==> r in xs;
      SumSame(ranges, other, xs[1..]);
    }
  }

  lemma {:induction false} SumUpdate(ranges: map<RangeId, Range>, xs: seq<RangeId>, r: RangeId, x: Range)
    requires Distinct(xs) && r in ranges && r in xs
    ensures Sum(ranges[r := x], xs) == Sum(ranges, xs) - Size(ranges, r) + (x.hi - x.lo + 1)
  {
    assert xs == [xs[0]] + xs[1..];
    if xs[0] == r {
      assert r !in xs[1..];
      SumSame(ranges, ranges[r := x], xs[1..]);
    } else {
      SumUpdate(ranges, xs[1..], r, x);
    }
  }

  // ---------------------------------------------------------------- range_alloc, range_del, range_shrink

  /** range_alloc: a new range before position `i` of the list of area `a`. */
  function Alloc(s: State, a: AreaId, i: nat, purged: bool, lo: Page, hi: Page): State
    requires a in s.lists && i <= |s.lists[a]|
  {
    var r, l := s.next, s.lists[a];
    s.(ranges := s.ranges[r := Range(a, lo, hi, purged)], lists := s.lists[a := l[..i] + [r] + l[i..]], next := r + 1,
       lru := if purged then s.lru else s.lru + [r],
       count := if purged then s.count else s.count + (hi - lo + 1))
  }

  /** range_del of the range at position `i`. */
  function Del(s: State, a: AreaId, i: nat): State
    requires a in s.lists && i < |s.lists[a]| && s.lists[a][i] in s.ranges
  {
    var r, l := s.lists[a][i], s.lists[a];
    s.(ranges := s.ranges - {r}, lists := s.lists[a := l[..i] + l[i + 1..]],
       lru := if s.ranges[r].purged then s.lru else Without(s.lru, r),
       count := if s.ranges[r].purged then s.count else s.count - Size(s.ranges, r))
  }

  /** range_shrink of range `r`. */
  function Shrink(s: State, r: RangeId, lo: Page, hi: Page): State
    requires r in s.ranges
  {
    var x := s.ranges[r];
    s.(ranges := s.ranges[r := x.(lo := lo, hi := hi)],
       count := if x.purged then s.count else s.count - (Size(s.ranges, r) - (hi - lo + 1)))
  }

  /** The gap in which range_alloc puts a range: above everything from `i` on, below the rest. */
  ghost predicate Fits(s: State, a: AreaId, i: nat, lo: Page, hi: Page)
    requires a in s.lists
  {
    && i <= |s.lists[a]| && lo <= hi
    && (forall k :: 0 <= k < i && s.lists[a][k] in s.ranges ==> s.ranges[s.lists[a][k]].lo > hi)
    && (forall k :: i <= k < |s.lists[a]| && s.lists[a][k] in s.ranges ==> s.ranges[s.lists[a][k]].hi < lo)
  }

  lemma AllocOrder(s: State, a: AreaId, i: nat, purged: bool, lo: Page, hi: Page, k: int, j: int)
    requires Shape(s) && a in s.lists && Fits(s, a, i, lo, hi)
    ensures OrderOk(Alloc(s, a, i, purged, lo, hi), a, k, j)
  {
    var y, l := Alloc(s, a, i, purged, lo, hi), s.lists[a];
    var m := y.lists[a];
    if 0 <= k < j < |m| {
      assert RangeOk(s, s.next);
      assert k != i ==> m[k] == l[Before(i, k)] && MemberOk(s, a, Before(i, k));
      assert j != i ==> m[j] == l[Before(i, j)] && MemberOk(s, a, Before(i, j));
      assert OrderOk(s, a, Before(i, k), Before(i, j));
    }
  }

  lemma AllocShape(s: State, a: AreaId, i: nat, purged: bool, lo: Page, hi: Page)
    requires Shape(s) && a in s.lists && Fits(s, a, i, lo, hi)
    ensures Shape(Alloc(s, a, i, purged, lo, hi))
  {
    var y, n, l := Alloc(s, a, i, purged, lo, hi), s.next, s.lists[a];
    assert RangeOk(s, n);
    forall r: RangeId ensures RangeOk(y, r) {
      assert RangeOk(s, r);
      assert l == l[..i] + l[i..];
      assert n in y.lists[a] && (r in l ==> r in y.lists[a]);
    }
    forall c: AreaId, k: int ensures MemberOk(y, c, k) {
      assert MemberOk(s, c, k) && MemberOk(s, a, Before(i, k));
    }
    forall c: AreaId, k: int, j: int ensures OrderOk(y, c, k, j) {
      if c == a {
        AllocOrder(s, a, i, purged, lo, hi, k, j);
      } else {
        assert OrderOk(s, c, k, j) && MemberOk(s, c, k) && MemberOk(s, c, j);
      }
    }
  }

  lemma AllocLru(s: State, a: AreaId, i: nat, purged: bool, lo: Page, hi: Page)
    requires Shape(s) && LruOk(s) && a in s.lists && i <= |s.lists[a]|
    ensures LruOk(Alloc(s, a, i, purged, lo, hi))
  {
    var y, n := Alloc(s, a, i, purged, lo, hi), s.next;
    assert RangeOk(s, n) && LruMember(s, n);
    forall r: RangeId ensures LruMember(y, r) {
      assert LruMember(s, r);
    }
    SumSame(s.ranges, y.ranges, s.lru);
    SumAppend(y.ranges, s.lru, n);
  }

  lemma DelShape(s: State, a: AreaId, i: nat)
    requires Shape(s) && a in s.lists && i < |s.lists[a]|
    ensures s.lists[a][i] in s.ranges && Shape(Del(s, a, i))
  {
    assert MemberOk(s, a, i);
    var y, n, l := Del(s, a, i), s.lists[a][i], s.lists[a];
    var m := y.lists[a];
    forall r: RangeId ensures RangeOk(y, r) {
      assert RangeOk(s, r);
      assert l == l[..i] + [n] + l[i + 1..];
    }
    forall c: AreaId, k: int ensures MemberOk(y, c, k) {
      if c == a && 0 <= k < |m| {
        assert m[k] == l[Skip(i, k)] && MemberOk(s, a, Skip(i, k)) && RangeOk(s, n);
        assert OrderOk(s, a, k, i) && OrderOk(s, a, i, k + 1);
      } else {
        assert MemberOk(s, c, k);
      }
    }
    forall c: AreaId, k: int, j: int ensures OrderOk(y, c, k, j) {
      if c == a && 0 <= k < j < |m| {
        assert m[k] == l[Skip(i, k)] && m[j] == l[Skip(i, j)] && OrderOk(s, a, Skip(i, k), Skip(i, j));
      } else {
        assert OrderOk(s, c, k, j);
      }
    }
  }

  lemma DelLru(s: State, a: AreaId, i: nat)
    requires LruOk(s) && a in s.lists && i < |s.lists[a]| && s.lists[a][i] in s.ranges
    ensures LruOk(Del(s, a, i))
  {
    var y, n := Del(s, a, i), s.lists[a][i];
    assert LruMember(s, n);
    forall r: RangeId ensures LruMember(y, r) {
      assert LruMember(s, r);
    }
    SumSame(s.ranges, y.ranges, y.lru);
    if !s.ranges[n].purged {
      SumWithout(s.ranges, s.lru, n);
    }
  }

  lemma ShrinkShape(s: State, r: RangeId, lo: Page, hi: Page)
    requires Shape(s) && r in s.ranges && s.ranges[r].lo <= lo <= hi <= s.ranges[r].hi
    ensures Shape(Shrink(s, r, lo, hi))
  {
    var y := Shrink(s, r, lo, hi);
    forall q: RangeId ensures RangeOk(y, q) {
      assert RangeOk(s, q);
    }
    forall c: AreaId, k: int ensures MemberOk(y, c, k) {
      assert MemberOk(s, c, k);
    }
    forall c: AreaId, k: int, j: int ensures OrderOk(y, c, k, j) {
      assert OrderOk(s, c, k, j);
    }
  }

  lemma ShrinkLru(s: State, r: RangeId, lo: Page, hi: Page)
    requires LruOk(s) && r in s.ranges
    ensures LruOk(Shrink(s, r, lo, hi))
  {
    var y := Shrink(s, r, lo, hi);
    assert LruMember(s, r);
    forall q: RangeId ensures LruMember(y, q) {
      assert LruMember(s, q);
    }
    if s.ranges[r].purged {
      SumSame(s.ranges, y.ranges, s.lru);
    } else {
      SumUpdate(s.ranges, s.lru, r, y.ranges[r]);
    }
  }

  /** Two ranges of one area share no page. */
  lemma Disjoint(s: State, a: AreaId, p: Page, r: RangeId, q: RangeId)
    requires Shape(s) && In(s, a, p, r) && In(s, a, p, q)
    ensures r == q
  {
    assert RangeOk(s, r) && RangeOk(s, q);
    var i :| 0 <= i < |s.lists[a]| && s.lists[a][i] == r;
    var j :| 0 <= j < |s.lists[a]| && s.lists[a][j] == q;
    assert OrderOk(s, a, i, j) && OrderOk(s, a, j, i);
  }

  /** Only area `a` changes. */
  ghost predicate Elsewhere(s: State, y: State, a: AreaId) {
    && y.lists.Keys == s.lists.Keys && y.lost == s.lost
    && (forall c: AreaId :: c in s.lists && c != a ==> y.lists[c] == s.lists[c])
    && (forall c: AreaId, p: Page, r: RangeId {:trigger In(y, c, p, r)} {:trigger In(s, c, p, r)} :: c != a ==>
          (In(y, c, p, r) <==> In(s, c, p, r)) &&
            (In(s, c, p, r) && In(y, c, p, r) ==> y.ranges[r].purged == s.ranges[r].purged))
  }

  // ---------------------------------------------------------------- ashmem_unpin

  function Min(x: int, y: int): int {
    if x < y then x else y
  }

  function Max(x: int, y: int): int {
    if x < y then y else x
  }

  predicate PageIn(x: Range, p: Page) {
    x.lo <= p <= x.hi
  }

  /** page_range_in_range. */
  predicate Touches(x: Range, lo: Page, hi: Page) {
    PageIn(x, lo) || PageIn(x, hi) || (x.lo >= lo && x.hi <= hi)
  }

  /** The loop of ashmem_unpin from position `i`; after a deletion it starts over. */
  ghost function UnpinFrom(s: State, a: AreaId, i: nat, lo: Page, hi: Page, purged: bool): State
    requires Shape(s) && a in s.lists && i <= |s.lists[a]|
    decreases |s.lists[a]|, |s.lists[a]| - i
  {
    if i == |s.lists[a]| then Alloc(s, a, i, purged, lo, hi)
    else
      assert MemberOk(s, a, i);
      var x := s.ranges[s.lists[a][i]];
      if x.hi < lo then Alloc(s, a, i, purged, lo, hi)
      else if x.lo <= lo && hi <= x.hi then s
      else if Touches(x, lo, hi) then
        DelShape(s, a, i);
        UnpinFrom(Del(s, a, i), a, 0, Min(x.lo, lo), Max(x.hi, hi), purged || x.purged)
      else UnpinFrom(s, a, i + 1, lo, hi, purged)
  }

  /** No page of the ranges before position `i` is in the interval or below it. */
  ghost predicate PassedAbove(s: State, a: AreaId, i: nat, hi: Page)
    requires a in s.lists && i <= |s.lists[a]|
  {
    forall k :: 0 <= k < i && s.lists[a][k] in s.ranges ==> s.ranges[s.lists[a][k]].lo > hi
  }

  lemma AllocPages(s: State, a: AreaId, i: nat, purged: bool, lo: Page, hi: Page)
    requires Shape(s) && a in s.lists && i <= |s.lists[a]|
    ensures var y := Alloc(s, a, i, purged, lo, hi);
      && Elsewhere(s, y, a)
      && (forall p: Page {:trigger Unpinned(y, a, p)} :: Unpinned(y, a, p) <==> Unpinned(s, a, p) || lo <= p <= hi)
      && (forall p: Page {:trigger Purged(y, a, p)} :: Purged(y, a, p) <==>
        Purged(s, a, p) || (purged && lo <= p <= hi))
  {
    var y, n := Alloc(s, a, i, purged, lo, hi), s.next;
    assert RangeOk(s, n);
    forall c: AreaId, p: Page, r: RangeId ensures In(y, c, p, r) <==>
      In(s, c, p, r) || (r == n && c == a && lo <= p <= hi) {
    }
    forall p: Page ensures Unpinned(y, a, p) <==> Unpinned(s, a, p) || lo <= p <= hi {
      assert In(y, a, p, n) <==> lo <= p <= hi;
      if Unpinned(s, a, p) {
        var r: RangeId :| In(s, a, p, r);
        assert In(y, a, p, r);
      }
      if Unpinned(y, a, p) {
        var r: RangeId :| In(y, a, p, r);
        assert r != n ==> In(s, a, p, r);
      }
    }
    forall p: Page ensures Purged(y, a, p) <==> Purged(s, a, p) || (purged && lo <= p <= hi) {
      assert In(y, a, p, n) <==> lo <= p <= hi;
      if Purged(s, a, p) {
        var r: RangeId :| In(s, a, p, r) && s.ranges[r].purged;
        assert In(y, a, p, r);
      }
      if Purged(y, a, p) {
        var r: RangeId :| In(y, a, p, r) && y.ranges[r].purged;
        assert r != n ==> In(s, a, p, r);
      }
    }
  }

  /** Deleting a range unpins nothing and pins exactly its pages. */
  lemma DelPages(s: State, a: AreaId, i: nat)
    requires Shape(s) && a in s.lists && i < |s.lists[a]| && s.lists[a][i] in s.ranges
    ensures var y, x := Del(s, a, i), s.ranges[s.lists[a][i]];
      && Elsewhere(s, y, a)
      && (forall p: Page {:trigger Unpinned(y, a, p)} :: Unpinned(y, a, p) <==> Unpinned(s, a, p) && !PageIn(x, p))
      && (forall p: Page {:trigger Purged(y, a, p)} :: Purged(y, a, p) <==> Purged(s, a, p) && !PageIn(x, p))
  {
    var y, n := Del(s, a, i), s.lists[a][i];
    assert MemberOk(s, a, i);
    forall p: Page ensures Unpinned(y, a, p) <==> Unpinned(s, a, p) && !PageIn(s.ranges[n], p) {
      if Unpinned(s, a, p) {
        var r: RangeId :| In(s, a, p, r);
        assert r != n ==> In(y, a, p, r);
      }
      if Unpinned(y, a, p) {
        var r: RangeId :| In(y, a, p, r);
        assert In(s, a, p, r);
        if PageIn(s.ranges[n], p) {
          Disjoint(s, a, p, r, n);
        }
      }
    }
    forall p: Page ensures Purged(y, a, p) <==> Purged(s, a, p) && !PageIn(s.ranges[n], p) {
      if Purged(s, a, p) {
        var r: RangeId :| In(s, a, p, r) && s.ranges[r].purged;
        assert r != n ==> In(y, a, p, r);
      }
      if Purged(y, a, p) {
        var r: RangeId :| In(y, a, p, r) && y.ranges[r].purged;
        assert In(s, a, p, r);
        if PageIn(s.ranges[n], p) {
          Disjoint(s, a, p, r, n);
        }
      }
    }
  }

  /** Page `p` is in the interval or in a range that touches it. */
  ghost predicate Merged(s: State, a: AreaId, lo: Page, hi: Page, p: Page) {
    lo <= p <= hi || exists r: RangeId :: In(s, a, p, r) && Touches(s.ranges[r], lo, hi)
  }

  ghost predicate AnyPurged(s: State, a: AreaId, lo: Page, hi: Page) {
    exists q: Page :: lo <= q <= hi && Purged(s, a, q)
  }

  /** What unpinning an interval means: its pages become unpinned and no other; what touches it
      counts as purged if it, or anything else that touches it, did. */
  ghost predicate Unpins(s: State, y: State, a: AreaId, lo: Page, hi: Page, purged: bool) {
    && Elsewhere(s, y, a)
    && (forall p: Page {:trigger Unpinned(y, a, p)} :: Unpinned(y, a, p) <==> Unpinned(s, a, p) || lo <= p <= hi)
    && (forall p: Page {:trigger Purged(y, a, p)} ::
          Purged(y, a, p) <==> Purged(s, a, p) || (Merged(s, a, lo, hi, p) && (purged || AnyPurged(s, a, lo, hi))))
  }

  /** Nothing touches the interval: the new range stands alone. */
  lemma UnpinAlone(s: State, a: AreaId, i: nat, lo: Page, hi: Page, purged: bool)
    requires Shape(s) && LruOk(s) && a in s.lists && Fits(s, a, i, lo, hi)
    ensures var y := Alloc(s, a, i, purged, lo, hi);
      Shape(y) && LruOk(y) && Unpins(s, y, a, lo, hi, purged)
  {
    AllocShape(s, a, i, purged, lo, hi);
    AllocLru(s, a, i, purged, lo, hi);
    AllocPages(s, a, i, purged, lo, hi);
    forall r: RangeId, p: Page ensures In(s, a, p, r) ==> !Touches(s.ranges[r], lo, hi) && !(lo <= p <= hi) {
      assert RangeOk(s, r);
    }
    forall p: Page ensures lo <= p <= hi ==> !Purged(s, a, p) {
    }
  }

  /** The interval lies in one range: there is nothing to do. */
  lemma UnpinNothing(s: State, a: AreaId, r: RangeId, lo: Page, hi: Page)
    requires Shape(s) && r in s.ranges && s.ranges[r].area == a && s.ranges[r].lo <= lo <= hi <= s.ranges[r].hi
    ensures Unpins(s, s, a, lo, hi, false)
  {
    forall q: RangeId, p: Page ensures In(s, a, p, q) && Touches(s.ranges[q], lo, hi) ==> q == r {
      assert RangeOk(s, q);
      if In(s, a, p, q) && Touches(s.ranges[q], lo, hi) {
        var m := Max(lo, s.ranges[q].lo);
        assert In(s, a, m, q) && In(s, a, m, r);
        Disjoint(s, a, m, q, r);
      }
    }
    forall q: Page ensures lo <= q <= hi && Purged(s, a, q) ==> s.ranges[r].purged {
      if lo <= q <= hi && Purged(s, a, q) {
        var u: RangeId :| In(s, a, q, u) && s.ranges[u].purged;
        assert In(s, a, q, r);
        Disjoint(s, a, q, u, r);
      }
    }
    forall p: Page ensures Unpinned(s, a, p) <==> Unpinned(s, a, p) || lo <= p <= hi {
      assert lo <= p <= hi ==> In(s, a, p, r);
    }
    forall p: Page ensures Purged(s, a, p) <==>
      Purged(s, a, p) || (Merged(s, a, lo, hi, p) && AnyPurged(s, a, lo, hi)) {
      assert Merged(s, a, lo, hi, p) ==> In(s, a, p, r);
    }
  }

  /** Taking in a touching range and going on with the wider interval comes to the same. */
  lemma UnpinAbsorbs(s: State, y: State, a: AreaId, i: nat, lo: Page, hi: Page, purged: bool)
    requires Shape(s) && a in s.lists && i < |s.lists[a]| && s.lists[a][i] in s.ranges && lo <= hi
    requires var x := s.ranges[s.lists[a][i]];
      && Touches(x, lo, hi)
      && Unpins(Del(s, a, i), y, a, Min(x.lo, lo), Max(x.hi, hi), purged || x.purged)
    ensures Unpins(s, y, a, lo, hi, purged)
  {
    var n, u := s.lists[a][i], Del(s, a, i);
    var x := s.ranges[n];
    var l, h := Min(x.lo, lo), Max(x.hi, hi);
    assert MemberOk(s, a, i) && RangeOk(s, n);
    DelPages(s, a, i);
    forall p: Page ensures l <= p <= h <==> lo <= p <= hi || PageIn(x, p) {
    }
    forall p: Page ensures Unpinned(y, a, p) <==> Unpinned(s, a, p) || lo <= p <= hi {
      assert Unpinned(y, a, p) <==> Unpinned(u, a, p) || l <= p <= h;
      assert PageIn(x, p) ==> In(s, a, p, n);
    }
    assert AnyPurged(s, a, lo, hi) || purged <==> AnyPurged(u, a, l, h) || purged || x.purged by {
      AbsorbPurged(s, a, i, lo, hi);
    }
    forall p: Page
      ensures Purged(y, a, p) <==> Purged(s, a, p) || (Merged(s, a, lo, hi, p) && (purged || AnyPurged(s, a, lo, hi)))
    {
      AbsorbMerged(s, a, i, lo, hi, p);
      assert Purged(y, a, p) <==>
        Purged(u, a, p) || (Merged(u, a, l, h, p) && (purged || x.purged || AnyPurged(u, a, l, h)));
      if Purged(s, a, p) && PageIn(x, p) {
        var r: RangeId :| In(s, a, p, r) && s.ranges[r].purged;
        Disjoint(s, a, p, r, n);
      }
    }
  }

  lemma AbsorbPurged(s: State, a: AreaId, i: nat, lo: Page, hi: Page)
    requires Shape(s) && a in s.lists && i < |s.lists[a]| && s.lists[a][i] in s.ranges && lo <= hi
    requires Touches(s.ranges[s.lists[a][i]], lo, hi)
    ensures var x := s.ranges[s.lists[a][i]];
      AnyPurged(s, a, lo, hi) <==> AnyPurged(Del(s, a, i), a, Min(x.lo, lo), Max(x.hi, hi)) || x.purged
  {
    var n, u := s.lists[a][i], Del(s, a, i);
    var x := s.ranges[n];
    assert MemberOk(s, a, i) && RangeOk(s, n);
    DelPages(s, a, i);
    if AnyPurged(s, a, lo, hi) {
      var q: Page :| lo <= q <= hi && Purged(s, a, q);
      if PageIn(x, q) {
        var r: RangeId :| In(s, a, q, r) && s.ranges[r].purged;
        Disjoint(s, a, q, r, n);
      } else {
        assert Purged(u, a, q);
      }
    }
    if x.purged {
      var m := Max(lo, x.lo);
      assert In(s, a, m, n) && Purged(s, a, m);
    }
    if AnyPurged(u, a, Min(x.lo, lo), Max(x.hi, hi)) {
      var q: Page :| Min(x.lo, lo) <= q <= Max(x.hi, hi) && Purged(u, a, q);
      assert Purged(s, a, q) && !PageIn(x, q);
    }
  }

  lemma AbsorbMerged(s: State, a: AreaId, i: nat, lo: Page, hi: Page, p: Page)
    requires Shape(s) && a in s.lists && i < |s.lists[a]| && s.lists[a][i] in s.ranges && lo <= hi
    requires Touches(s.ranges[s.lists[a][i]], lo, hi)
    ensures var x := s.ranges[s.lists[a][i]];
      Merged(s, a, lo, hi, p) <==> Merged(Del(s, a, i), a, Min(x.lo, lo), Max(x.hi, hi), p)
  {
    var n, u := s.lists[a][i], Del(s, a, i);
    var x := s.ranges[n];
    var l, h := Min(x.lo, lo), Max(x.hi, hi);
    assert MemberOk(s, a, i) && RangeOk(s, n);
    if Merged(s, a, lo, hi, p) && !(lo <= p <= hi) {
      var r: RangeId :| In(s, a, p, r) && Touches(s.ranges[r], lo, hi);
      assert RangeOk(s, r);
      assert r != n ==> In(u, a, p, r) && Touches(u.ranges[r], l, h);
    }
    if Merged(u, a, l, h, p) && !(l <= p <= h) {
      var r: RangeId :| In(u, a, p, r) && Touches(u.ranges[r], l, h);
      assert RangeOk(s, r) && In(s, a, p, r);
      if !Touches(s.ranges[r], lo, hi) {
        var m := Max(x.lo, s.ranges[r].lo);
        assert In(s, a, m, r) && In(s, a, m, n);
        Disjoint(s, a, m, r, n);
      }
    }
    if l <= p <= h && !(lo <= p <= hi) {
      assert In(s, a, p, n);
    }
  }

  /** The insertion point: the range at `i` and all behind it lie below the interval. */
  lemma UnpinHere(s: State, a: AreaId, i: nat, lo: Page, hi: Page, purged: bool)
    requires Shape(s) && LruOk(s) && a in s.lists && i < |s.lists[a]| && lo <= hi && PassedAbove(s, a, i, hi)
    requires s.lists[a][i] in s.ranges && s.ranges[s.lists[a][i]].hi < lo
    ensures var y := UnpinFrom(s, a, i, lo, hi, purged);
      Shape(y) && LruOk(y) && Unpins(s, y, a, lo, hi, purged)
  {
    forall k | i <= k < |s.lists[a]| && s.lists[a][k] in s.ranges ensures s.ranges[s.lists[a][k]].hi < lo {
      assert OrderOk(s, a, i, k) && MemberOk(s, a, i) && RangeOk(s, s.lists[a][i]) && RangeOk(s, s.lists[a][k]);
    }
    UnpinAlone(s, a, i, lo, hi, purged);
  }

  /** The loop of ashmem_unpin unpins the interval.  `w` is a page of a range already taken in;
      no remaining range contains it, so the early return never follows a deletion. */
  lemma {:induction false} UnpinWorks(s: State, a: AreaId, i: nat, lo: Page, hi: Page, purged: bool, merged: bool,
    w: Page)
    requires Shape(s) && LruOk(s) && a in s.lists && i <= |s.lists[a]| && lo <= hi && PassedAbove(s, a, i, hi)
    requires merged ==> lo <= w <= hi && !Unpinned(s, a, w)
    requires !merged ==> !purged
    ensures var y := UnpinFrom(s, a, i, lo, hi, purged);
      Shape(y) && LruOk(y) && Unpins(s, y, a, lo, hi, purged)
    decreases |s.lists[a]|, |s.lists[a]| - i
  {
    if i == |s.lists[a]| {
      UnpinAlone(s, a, i, lo, hi, purged);
    } else {
      assert MemberOk(s, a, i);
      var n := s.lists[a][i];
      var x := s.ranges[n];
      assert RangeOk(s, n);
      if x.hi < lo {
        UnpinHere(s, a, i, lo, hi, purged);
      } else if x.lo <= lo && hi <= x.hi {
        assert merged ==> In(s, a, w, n);
        UnpinNothing(s, a, n, lo, hi);
      } else if Touches(x, lo, hi) {
        DelShape(s, a, i);
        DelLru(s, a, i);
        DelPages(s, a, i);
        var u := Del(s, a, i);
        assert !Unpinned(u, a, x.lo);
        UnpinWorks(u, a, 0, Min(x.lo, lo), Max(x.hi, hi), purged || x.purged, true, x.lo);
        UnpinAbsorbs(s, UnpinFrom(s, a, i, lo, hi, purged), a, i, lo, hi, purged);
      } else {
        UnpinWorks(s, a, i + 1, lo, hi, purged, merged, w);
      }
    }
  }

  // ---------------------------------------------------------------- ashmem_pin

  /** The loop of ashmem_pin from position `i`, with the purge status found so far. */
  ghost function PinFrom(s: State, a: AreaId, i: nat, lo: Page, hi: Page, ret: bool): (State, bool)
    requires Shape(s) && a in s.lists && i <= |s.lists[a]| && lo <= hi
    decreases |s.lists[a]| - i
  {
    if i == |s.lists[a]| then (s, ret)
    else
      assert MemberOk(s, a, i);
      var n := s.lists[a][i];
      var x := s.ranges[n];
      if x.hi < lo then (s, ret)
      else if !Touches(x, lo, hi) then PinFrom(s, a, i + 1, lo, hi, ret)
      else if x.lo >= lo && x.hi <= hi then
        DelShape(s, a, i);
        PinFrom(Del(s, a, i), a, i, lo, hi, ret || x.purged)
      else if x.lo >= lo then
        ShrinkShape(s, n, hi + 1, x.hi);
        PinFrom(Shrink(s, n, hi + 1, x.hi), a, i + 1, lo, hi, ret || x.purged)
      else if x.hi <= hi then
        ShrinkShape(s, n, x.lo, lo - 1);
        PinFrom(Shrink(s, n, x.lo, lo - 1), a, i + 1, lo, hi, ret || x.purged)
      else (Shrink(Alloc(s, a, i, x.purged, hi + 1, x.hi), n, x.lo, lo - 1), ret || x.purged)
  }

  /** What pinning an interval means: its pages are no longer unpinned, and no other changes. */
  ghost predicate Pins(s: State, y: State, a: AreaId, lo: Page, hi: Page) {
    && Elsewhere(s, y, a)
    && (forall p: Page {:trigger Unpinned(y, a, p)} :: Unpinned(y, a, p) <==> Unpinned(s, a, p) && !(lo <= p <= hi))
    && (forall p: Page {:trigger Purged(y, a, p)} :: Purged(y, a, p) <==> Purged(s, a, p) && !(lo <= p <= hi))
  }

  /** `y` is `s` without the pages that range `n` has in the interval. */
  ghost predicate Trims(s: State, y: State, a: AreaId, n: RangeId, lo: Page, hi: Page)
    requires n in s.ranges
  {
    && Elsewhere(s, y, a)
    && (forall p: Page {:trigger Unpinned(y, a, p)} :: Unpinned(y, a, p) <==>
      Unpinned(s, a, p) && !(PageIn(s.ranges[n], p) && lo <= p <= hi))
    && (forall p: Page {:trigger Purged(y, a, p)} :: Purged(y, a, p) <==>
      Purged(s, a, p) && !(PageIn(s.ranges[n], p) && lo <= p <= hi))
  }

  lemma ShrinkPages(s: State, a: AreaId, n: RangeId, l: Page, h: Page)
    requires Shape(s) && n in s.ranges && s.ranges[n].area == a && s.ranges[n].lo <= l <= h <= s.ranges[n].hi
    ensures var y, x := Shrink(s, n, l, h), s.ranges[n];
      && Elsewhere(s, y, a)
      && (forall p: Page {:trigger Unpinned(y, a, p)} :: Unpinned(y, a, p) <==>
        Unpinned(s, a, p) && !(PageIn(x, p) && !(l <= p <= h)))
      && (forall p: Page {:trigger Purged(y, a, p)} :: Purged(y, a, p) <==>
        Purged(s, a, p) && !(PageIn(x, p) && !(l <= p <= h)))
  {
    var y := Shrink(s, n, l, h);
    var x := s.ranges[n];
    forall p: Page ensures Unpinned(y, a, p) <==> Unpinned(s, a, p) && !(PageIn(x, p) && !(l <= p <= h)) {
      if Unpinned(s, a, p) {
        var r: RangeId :| In(s, a, p, r);
        assert r != n || l <= p <= h ==> In(y, a, p, r);
      }
      if Unpinned(y, a, p) {
        var r: RangeId :| In(y, a, p, r);
        assert In(s, a, p, r);
        if PageIn(x, p) {
          Disjoint(s, a, p, r, n);
        }
      }
    }
    forall p: Page ensures Purged(y, a, p) <==> Purged(s, a, p) && !(PageIn(x, p) && !(l <= p <= h)) {
      if Purged(s, a, p) {
        var r: RangeId :| In(s, a, p, r) && s.ranges[r].purged;
        assert r != n || l <= p <= h ==> In(y, a, p, r);
      }
      if Purged(y, a, p) {
        var r: RangeId :| In(y, a, p, r) && y.ranges[r].purged;
        assert In(s, a, p, r);
        if PageIn(x, p) {
          Disjoint(s, a, p, r, n);
        }
      }
    }
  }

  /** Case 4: the upper half becomes a new range, the lower half stays.  The code allocates
      first and shrinks then; the other order comes to the same. */
  lemma PunchShape(s: State, a: AreaId, i: nat, lo: Page, hi: Page)
    requires Shape(s) && LruOk(s) && a in s.lists && i < |s.lists[a]| && s.lists[a][i] in s.ranges && lo <= hi
    requires s.ranges[s.lists[a][i]].lo < lo && hi < s.ranges[s.lists[a][i]].hi
    ensures var n := s.lists[a][i];
      var x := s.ranges[n];
      var u := Shrink(s, n, x.lo, lo - 1);
      var y := Shrink(Alloc(s, a, i, x.purged, hi + 1, x.hi), n, x.lo, lo - 1);
      Shape(u) && y == Alloc(u, a, i, x.purged, hi + 1, x.hi) && Shape(y) && LruOk(y)
  {
    var n := s.lists[a][i];
    var x := s.ranges[n];
    assert MemberOk(s, a, i) && RangeOk(s, n);
    var y := Shrink(Alloc(s, a, i, x.purged, hi + 1, x.hi), n, x.lo, lo - 1);
    var u := Shrink(s, n, x.lo, lo - 1);
    assert y.ranges == Alloc(u, a, i, x.purged, hi + 1, x.hi).ranges;
    ShrinkShape(s, n, x.lo, lo - 1);
    ShrinkLru(s, n, x.lo, lo - 1);
    forall k | 0 <= k < i && u.lists[a][k] in u.ranges ensures u.ranges[u.lists[a][k]].lo > x.hi {
      assert OrderOk(s, a, k, i) && OrderOk(u, a, k, i);
    }
    forall k | i <= k < |u.lists[a]| && u.lists[a][k] in u.ranges ensures u.ranges[u.lists[a][k]].hi < hi + 1 {
      assert OrderOk(u, a, i, k) && RangeOk(u, u.lists[a][k]);
    }
    AllocShape(u, a, i, x.purged, hi + 1, x.hi);
    AllocLru(u, a, i, x.purged, hi + 1, x.hi);
  }

  lemma PunchHole(s: State, a: AreaId, i: nat, lo: Page, hi: Page)
    requires Shape(s) && LruOk(s) && a in s.lists && i < |s.lists[a]| && s.lists[a][i] in s.ranges && lo <= hi
    requires s.ranges[s.lists[a][i]].lo < lo && hi < s.ranges[s.lists[a][i]].hi
    ensures var n := s.lists[a][i];
      var x := s.ranges[n];
      var y := Shrink(Alloc(s, a, i, x.purged, hi + 1, x.hi), n, x.lo, lo - 1);
      Shape(y) && LruOk(y) && Trims(s, y, a, n, lo, hi)
  {
    PunchShape(s, a, i, lo, hi);
    var n := s.lists[a][i];
    var x := s.ranges[n];
    assert MemberOk(s, a, i) && RangeOk(s, n);
    var u := Shrink(s, n, x.lo, lo - 1);
    var y := Alloc(u, a, i, x.purged, hi + 1, x.hi);
    ShrinkPages(s, a, n, x.lo, lo - 1);
    AllocPages(u, a, i, x.purged, hi + 1, x.hi);
    forall p: Page ensures Unpinned(y, a, p) <==> Unpinned(s, a, p) && !(PageIn(x, p) && lo <= p <= hi) {
      assert PageIn(x, p) ==> In(s, a, p, n);
      assert Unpinned(y, a, p) <==> Unpinned(u, a, p) || hi + 1 <= p <= x.hi;
    }
    forall p: Page ensures Purged(y, a, p) <==> Purged(s, a, p) && !(PageIn(x, p) && lo <= p <= hi) {
      assert Purged(y, a, p) <==> Purged(u, a, p) || (x.purged && hi + 1 <= p <= x.hi);
      assert PageIn(x, p) ==> In(s, a, p, n);
      if Purged(s, a, p) && PageIn(x, p) {
        var r: RangeId :| In(s, a, p, r) && s.ranges[r].purged;
        Disjoint(s, a, p, r, n);
      }
    }
  }

  /** A range whose pages in the interval are trimmed away contributes its purge status. */
  lemma TrimComposes(s: State, u: State, y: State, a: AreaId, n: RangeId, lo: Page, hi: Page)
    requires Shape(s) && n in s.ranges && s.ranges[n].area == a && s.ranges[n].lo <= s.ranges[n].hi
    requires Touches(s.ranges[n], lo, hi) && lo <= hi && Trims(s, u, a, n, lo, hi) && Pins(u, y, a, lo, hi)
    ensures Pins(s, y, a, lo, hi)
    ensures AnyPurged(s, a, lo, hi) <==> s.ranges[n].purged || AnyPurged(u, a, lo, hi)
  {
    var x := s.ranges[n];
    forall p: Page ensures Unpinned(y, a, p) <==> Unpinned(s, a, p) && !(lo <= p <= hi) {
      assert Unpinned(y, a, p) <==> Unpinned(u, a, p) && !(lo <= p <= hi);
    }
    forall p: Page ensures Purged(y, a, p) <==> Purged(s, a, p) && !(lo <= p <= hi) {
      assert Purged(y, a, p) <==> Purged(u, a, p) && !(lo <= p <= hi);
    }
    if x.purged {
      var m := Max(lo, x.lo);
      assert In(s, a, m, n) && Purged(s, a, m);
    }
    if AnyPurged(s, a, lo, hi) {
      var q: Page :| lo <= q <= hi && Purged(s, a, q);
      if PageIn(x, q) {
        var r: RangeId :| In(s, a, q, r) && s.ranges[r].purged;
        assert In(s, a, q, n);
        Disjoint(s, a, q, r, n);
      } else {
        assert Purged(u, a, q);
      }
    }
    if AnyPurged(u, a, lo, hi) {
      var q: Page :| lo <= q <= hi && Purged(u, a, q);
      assert Purged(s, a, q);
    }
  }

  /** No range before position `i` has a page in the interval. */
  ghost predicate PassedClear(s: State, a: AreaId, i: nat, lo: Page, hi: Page)
    requires a in s.lists && i <= |s.lists[a]|
  {
    forall k :: 0 <= k < i && s.lists[a][k] in s.ranges ==>
      s.ranges[s.lists[a][k]].lo > hi || s.ranges[s.lists[a][k]].hi < lo
  }

  lemma PinEnds(s: State, a: AreaId, i: nat, lo: Page, hi: Page)
    requires Shape(s) && a in s.lists && i <= |s.lists[a]| && lo <= hi && PassedClear(s, a, i, lo, hi)
    requires i < |s.lists[a]| && s.lists[a][i] in s.ranges ==> s.ranges[s.lists[a][i]].hi < lo
    ensures Pins(s, s, a, lo, hi) && !AnyPurged(s, a, lo, hi)
  {
    forall p: Page, r: RangeId ensures In(s, a, p, r) ==> !(lo <= p <= hi) {
      if In(s, a, p, r) {
        assert RangeOk(s, r);
        var k :| 0 <= k < |s.lists[a]| && s.lists[a][k] == r;
        assert MemberOk(s, a, i) && OrderOk(s, a, i, k);
        assert k > i ==> RangeOk(s, s.lists[a][i]);
      }
    }
  }

  lemma {:induction false} PinWorks(s: State, a: AreaId, i: nat, lo: Page, hi: Page, ret: bool)
    requires Shape(s) && LruOk(s) && a in s.lists && i <= |s.lists[a]| && lo <= hi && PassedClear(s, a, i, lo, hi)
    ensures var (y, was) := PinFrom(s, a, i, lo, hi, ret);
      Shape(y) && LruOk(y) && Pins(s, y, a, lo, hi) && (was <==> ret || AnyPurged(s, a, lo, hi))
    decreases |s.lists[a]| - i
  {
    if i == |s.lists[a]| {
      PinEnds(s, a, i, lo, hi);
    } else {
      assert MemberOk(s, a, i);
      var n := s.lists[a][i];
      var x := s.ranges[n];
      assert RangeOk(s, n);
      if x.hi < lo {
        PinEnds(s, a, i, lo, hi);
      } else if !Touches(x, lo, hi) {
        PinWorks(s, a, i + 1, lo, hi, ret);
      } else {
        PinTouched(s, a, i, lo, hi, ret);
        if x.lo >= lo && x.hi <= hi {
          PinWorks(Del(s, a, i), a, i, lo, hi, ret || x.purged);
          TrimComposes(s, Del(s, a, i), PinFrom(s, a, i, lo, hi, ret).0, a, n, lo, hi);
        } else if x.lo >= lo {
          PinWorks(Shrink(s, n, hi + 1, x.hi), a, i + 1, lo, hi, ret || x.purged);
          TrimComposes(s, Shrink(s, n, hi + 1, x.hi), PinFrom(s, a, i, lo, hi, ret).0, a, n, lo, hi);
        } else if x.hi <= hi {
          PinWorks(Shrink(s, n, x.lo, lo - 1), a, i + 1, lo, hi, ret || x.purged);
          TrimComposes(s, Shrink(s, n, x.lo, lo - 1), PinFrom(s, a, i, lo, hi, ret).0, a, n, lo, hi);
        } else {
          PinMiddle(s, a, i, lo, hi);
        }
      }
    }
  }

  /** One touched range, cases 1 to 3. */
  lemma PinTouched(s: State, a: AreaId, i: nat, lo: Page, hi: Page, ret: bool)
    requires Shape(s) && LruOk(s) && a in s.lists && i < |s.lists[a]| && s.lists[a][i] in s.ranges && lo <= hi
    requires PassedClear(s, a, i, lo, hi) && Touches(s.ranges[s.lists[a][i]], lo, hi)
    ensures var n := s.lists[a][i];
      var x := s.ranges[n];
      && (x.lo >= lo && x.hi <= hi ==>
            var u := Del(s, a, i);
            Shape(u) && LruOk(u) && PassedClear(u, a, i, lo, hi) && Trims(s, u, a, n, lo, hi))
      && (x.lo >= lo && x.hi > hi ==>
            var u := Shrink(s, n, hi + 1, x.hi);
            Shape(u) && LruOk(u) && PassedClear(u, a, i + 1, lo, hi) && Trims(s, u, a, n, lo, hi))
      && (x.lo < lo && x.hi <= hi ==>
            var u := Shrink(s, n, x.lo, lo - 1);
            Shape(u) && LruOk(u) && PassedClear(u, a, i + 1, lo, hi) && Trims(s, u, a, n, lo, hi))
  {
    var n := s.lists[a][i];
    var x := s.ranges[n];
    assert MemberOk(s, a, i) && RangeOk(s, n);
    if x.lo >= lo && x.hi <= hi {
      DelShape(s, a, i);
      DelLru(s, a, i);
      DelPages(s, a, i);
    } else if x.lo >= lo {
      ShrinkShape(s, n, hi + 1, x.hi);
      ShrinkLru(s, n, hi + 1, x.hi);
      ShrinkPages(s, a, n, hi + 1, x.hi);
    } else if x.hi <= hi {
      ShrinkShape(s, n, x.lo, lo - 1);
      ShrinkLru(s, n, x.lo, lo - 1);
      ShrinkPages(s, a, n, x.lo, lo - 1);
    }
  }

  /** Case 4 ends the loop: nothing below the hole is in the interval. */
  lemma PinMiddle(s: State, a: AreaId, i: nat, lo: Page, hi: Page)
    requires Shape(s) && LruOk(s) && a in s.lists && i < |s.lists[a]| && s.lists[a][i] in s.ranges && lo <= hi
    requires s.ranges[s.lists[a][i]].lo < lo && hi < s.ranges[s.lists[a][i]].hi
    ensures var n := s.lists[a][i];
      var x := s.ranges[n];
      var y := Shrink(Alloc(s, a, i, x.purged, hi + 1, x.hi), n, x.lo, lo - 1);
      Shape(y) && LruOk(y) && Pins(s, y, a, lo, hi) && (x.purged <==> AnyPurged(s, a, lo, hi))
  {
    PunchHole(s, a, i, lo, hi);
    var n := s.lists[a][i];
    var x := s.ranges[n];
    assert MemberOk(s, a, i) && RangeOk(s, n);
    assert In(s, a, lo, n);
    forall p: Page ensures lo <= p <= hi ==> (Purged(s, a, p) <==> x.purged) {
      if lo <= p <= hi {
        assert In(s, a, p, n);
        if Purged(s, a, p) {
          var r: RangeId :| In(s, a, p, r) && s.ranges[r].purged;
          Disjoint(s, a, p, r, n);
        }
      }
    }
    assert x.purged ==> Purged(s, a, lo);
  }

  // ---------------------------------------------------------------- ashmem_shrink_scan

  const WORD := 0x1_0000_0000_0000_0000

  predicate Between(lo: Page, hi: Page, p: Page) {
    lo <= p <= hi
  }

  function Interval(lo: Page, hi: Page): set<Page> {
    set p: Page | lo <= p <= hi && Between(lo, hi, p)
  }

  /** One iteration of the scan: the head of the lru list is purged. */
  function PurgeFirst(s: State): State
    requires s.lru != [] && s.lru[0] in s.ranges && s.ranges[s.lru[0]].area in s.lost
  {
    var r := s.lru[0];
    var x := s.ranges[r];
    s.(ranges := s.ranges[r := x.(purged := true)], lru := s.lru[1..], count := s.count - Size(s.ranges, r),
       lost := s.lost[x.area := s.lost[x.area] + Interval(x.lo, x.hi)])
  }

  lemma PurgeShape(s: State)
    requires Inv(s) && s.lru != []
    ensures s.lru[0] in s.ranges && s.ranges[s.lru[0]].area in s.lost && Shape(PurgeFirst(s)) && LruOk(PurgeFirst(s))
  {
    var r := s.lru[0];
    assert r in s.lru && LruMember(s, r);
    assert RangeOk(s, r) && LostOk(s, s.ranges[r].area);
    var y := PurgeFirst(s);
    forall q: RangeId ensures RangeOk(y, q) && LruMember(y, q) {
      assert RangeOk(s, q) && LruMember(s, q);
      assert s.lru == [r] + s.lru[1..];
    }
    forall c: AreaId, k: int ensures MemberOk(y, c, k) {
      assert MemberOk(s, c, k);
    }
    forall c: AreaId, k: int, j: int ensures OrderOk(y, c, k, j) {
      assert OrderOk(s, c, k, j);
    }
    SumSame(s.ranges, y.ranges, s.lru[1..]);
  }

  lemma PurgeKeeps(s: State)
    requires Inv(s) && s.lru != []
    ensures s.lru[0] in s.ranges && s.ranges[s.lru[0]].area in s.lost && Inv(PurgeFirst(s))
    ensures forall a: AreaId, p: Page {:trigger Unpinned(PurgeFirst(s), a, p)} :: Unpinned(PurgeFirst(s), a, p) <==>
      Unpinned(s, a, p)
  {
    PurgeShape(s);
    var r, y := s.lru[0], PurgeFirst(s);
    var x := s.ranges[r];
    forall a: AreaId, p: Page, q: RangeId ensures In(y, a, p, q) <==> In(s, a, p, q) {
    }
    forall a: AreaId ensures LostOk(y, a) {
      assert LostOk(s, a);
      if a in y.lost {
        forall p: Page | p in y.lost[a] ensures Purged(y, a, p) {
          if a == x.area && p in Interval(x.lo, x.hi) {
            assert In(y, a, p, r);
          } else {
            var q: RangeId :| In(s, a, p, q) && s.ranges[q].purged;
            assert In(y, a, p, q);
          }
        }
      }
    }
    forall a: AreaId, p: Page ensures Unpinned(y, a, p) <==> Unpinned(s, a, p) {
      if Unpinned(s, a, p) {
        var q: RangeId :| In(s, a, p, q);
        assert In(y, a, p, q);
      }
      if Unpinned(y, a, p) {
        var q: RangeId :| In(y, a, p, q);
        assert In(s, a, p, q);
      }
    }
  }

  /** ashmem_shrink_scan with `n` objects still to scan; the counter is an unsigned long, so a
      scan that starts at zero goes on to the end of the list.  The second result is the number
      of pages freed. */
  ghost function ScanFrom(s: State, n: nat): (r: (State, int))
    requires Inv(s)
    ensures Inv(r.0) && r.1 == s.count - r.0.count
    decreases |s.lru|
  {
    if s.lru == [] then (s, 0)
    else
      PurgeKeeps(s);
      var y := PurgeFirst(s);
      if (n + WORD - 1) % WORD == 0 then (y, Size(s.ranges, s.lru[0]))
      else
        var (z, freed) := ScanFrom(y, (n + WORD - 1) % WORD);
        (z, freed + Size(s.ranges, s.lru[0]))
  }

  /** The `k` ranges unpinned longest ago are purged and off the list; no page is pinned. */
  ghost predicate ScannedTo(s: State, y: State, k: nat) {
    && k <= |s.lru| && y.lru == s.lru[k..]
    && (forall r: RangeId :: r in s.lru[..k] ==> r in y.ranges && y.ranges[r].purged)
    && (forall a: AreaId, p: Page {:trigger Unpinned(y, a, p)} {:trigger Unpinned(s, a, p)} :: Unpinned(y, a, p) <==>
      Unpinned(s, a, p))
  }

  /** A scan purges the least recently unpinned ranges, as many as it was asked for, or all if it
      was asked for none, and pins nothing. */
  lemma {:induction false} ScanTakesOldest(s: State, n: nat)
    requires Inv(s) && n < WORD && |s.lru| < WORD
    ensures ScannedTo(s, ScanFrom(s, n).0, if n == 0 then |s.lru| else Min(n, |s.lru|))
    decreases |s.lru|
  {
    if s.lru != [] {
      PurgeKeeps(s);
      ScanOne(s);
      var u := PurgeFirst(s);
      var m := (n + WORD - 1) % WORD;
      CountedDown(n);
      if m != 0 {
        ScanTakesOldest(u, m);
        ScanKeepsPurged(u, m, s.lru[0]);
        ScanChain(s, u, ScanFrom(u, m).0, Min(m, |u.lru|));
      }
    }
  }

  /** The unsigned counter wraps at zero. */
  lemma CountedDown(n: nat)
    requires n < WORD
    ensures (n + WORD - 1) % WORD == if n == 0 then WORD - 1 else n - 1
  {
  }

  lemma ScanOne(s: State)
    requires Inv(s) && s.lru != [] && s.lru[0] in s.ranges && s.ranges[s.lru[0]].area in s.lost
    ensures ScannedTo(s, PurgeFirst(s), 1) && s.lru[0] in PurgeFirst(s).ranges && PurgeFirst(s).ranges[s.lru[0]].purged
  {
    PurgeKeeps(s);
    assert s.lru[..1] == [s.lru[0]];
  }

  lemma ScanChain(s: State, u: State, y: State, j: nat)
    requires s.lru != [] && ScannedTo(s, u, 1) && ScannedTo(u, y, j)
    requires s.lru[0] in y.ranges && y.ranges[s.lru[0]].purged
    ensures ScannedTo(s, y, j + 1)
  {
    assert u.lru[j..] == s.lru[j + 1..];
    OneMore(s.lru, j);
  }

  lemma OneMore(xs: seq<RangeId>, j: nat)
    requires j + 1 <= |xs|
    ensures forall r: RangeId :: r in xs[..j + 1] ==> r == xs[0] || r in xs[1..][..j]
  {
    assert xs[1..][..j] == xs[1..j + 1];
    assert xs[..j + 1] == [xs[0]] + xs[1..j + 1];
  }

  lemma {:induction false} ScanKeepsPurged(s: State, n: nat, r: RangeId)
    requires Inv(s) && r in s.ranges && s.ranges[r].purged
    ensures r in ScanFrom(s, n).0.ranges && ScanFrom(s, n).0.ranges[r].purged
    decreases |s.lru|
  {
    if s.lru != [] {
      PurgeKeeps(s);
      if (n + WORD - 1) % WORD != 0 {
        ScanKeepsPurged(PurgeFirst(s), (n + WORD - 1) % WORD, r);
      }
    }
  }

  // ---------------------------------------------------------------- operations of a client

  /** ashmem_unpin. */
  ghost function Unpin(s: State, a: AreaId, lo: Page, hi: Page): State
    requires Inv(s) && a in s.lists && lo <= hi
  {
    UnpinFrom(s, a, 0, lo, hi, false)
  }

  lemma UnpinKeeps(s: State, a: AreaId, lo: Page, hi: Page)
    requires Inv(s) && a in s.lists && lo <= hi
    ensures Inv(Unpin(s, a, lo, hi)) && Unpins(s, Unpin(s, a, lo, hi), a, lo, hi, false)
  {
    UnpinWorks(s, a, 0, lo, hi, false, false, lo);
    var y := Unpin(s, a, lo, hi);
    forall c: AreaId ensures LostOk(y, c) {
      assert LostOk(s, c);
      if c in y.lost {
        forall p: Page | p in y.lost[c] ensures Purged(y, c, p) {
          if c != a {
            ElsewherePurged(s, y, a, c, p);
          }
        }
      }
    }
  }

  lemma ElsewherePurged(s: State, y: State, a: AreaId, c: AreaId, p: Page)
    requires Elsewhere(s, y, a) && c != a
    ensures Purged(y, c, p) <==> Purged(s, c, p)
  {
    if Purged(s, c, p) {
      var r: RangeId :| In(s, c, p, r) && s.ranges[r].purged;
      assert In(y, c, p, r);
    }
    if Purged(y, c, p) {
      var r: RangeId :| In(y, c, p, r) && y.ranges[r].purged;
      assert In(s, c, p, r);
    }
  }

  /** ashmem_pin: the new state and whether it returns ASHMEM_WAS_PURGED. */
  ghost function Pin(s: State, a: AreaId, lo: Page, hi: Page): (State, bool)
    requires Inv(s) && a in s.lists && a in s.lost && lo <= hi
  {
    var (y, was) := PinFrom(s, a, 0, lo, hi, false);
    (y.(lost := s.lost[a := s.lost[a] - Interval(lo, hi)]), was)
  }

  lemma PinKeeps(s: State, a: AreaId, lo: Page, hi: Page)
    requires Inv(s) && a in s.lists && lo <= hi
    ensures a in s.lost
    ensures var (y, was) := Pin(s, a, lo, hi);
      && Inv(y) && (was <==> AnyPurged(s, a, lo, hi))
      && (forall p: Page {:trigger Unpinned(y, a, p)} :: Unpinned(y, a, p) <==> Unpinned(s, a, p) && !(lo <= p <= hi))
  {
    assert LostOk(s, a);
    PinWorks(s, a, 0, lo, hi, false);
    var u := PinFrom(s, a, 0, lo, hi, false).0;
    var y := Pin(s, a, lo, hi).0;
    SameLists(u, y);
    forall c: AreaId ensures LostOk(y, c) {
      assert LostOk(s, c);
      if c in y.lost {
        forall p: Page | p in y.lost[c] ensures Purged(y, c, p) {
          if c != a {
            ElsewherePurged(s, u, a, c, p);
          }
          assert Purged(u, c, p);
          var r: RangeId :| In(u, c, p, r) && u.ranges[r].purged;
          assert In(y, c, p, r);
        }
      }
    }
    forall p: Page ensures Unpinned(y, a, p) <==> Unpinned(s, a, p) && !(lo <= p <= hi) {
      assert Unpinned(u, a, p) <==> Unpinned(s, a, p) && !(lo <= p <= hi);
      if Unpinned(u, a, p) {
        var r: RangeId :| In(u, a, p, r);
        assert In(y, a, p, r);
      }
      if Unpinned(y, a, p) {
        var r: RangeId :| In(y, a, p, r);
        assert In(u, a, p, r);
      }
    }
  }

  lemma SameLists(u: State, y: State)
    requires Shape(u) && LruOk(u) && y == u.(lost := y.lost)
    ensures Shape(y) && LruOk(y)
  {
    forall q: RangeId ensures RangeOk(y, q) && LruMember(y, q) {
      assert RangeOk(u, q) && LruMember(u, q);
    }
    forall c: AreaId, k: int ensures MemberOk(y, c, k) {
      assert MemberOk(u, c, k);
    }
    forall c: AreaId, k: int, j: int ensures OrderOk(y, c, k, j) {
      assert OrderOk(u, c, k, j);
    }
  }

  /** ashmem_open makes an area without unpinned pages. */
  function OpenArea(s: State, a: AreaId): State {
    s.(lists := s.lists[a := []], lost := s.lost[a := {}])
  }

  lemma OpenAreaKeeps(s: State, a: AreaId)
    requires Inv(s) && a !in s.lists
    ensures Inv(OpenArea(s, a))
  {
    var y := OpenArea(s, a);
    forall q: RangeId ensures RangeOk(y, q) && LruMember(y, q) {
      assert RangeOk(s, q) && LruMember(s, q);
    }
    forall c: AreaId, k: int ensures MemberOk(y, c, k) {
      assert MemberOk(s, c, k);
    }
    forall c: AreaId, k: int, j: int ensures OrderOk(y, c, k, j) {
      assert OrderOk(s, c, k, j);
    }
    forall c: AreaId ensures LostOk(y, c) {
      assert LostOk(s, c);
      if c in s.lost {
        forall p: Page | p in s.lost[c] ensures Purged(y, c, p) {
          var r: RangeId :| In(s, c, p, r) && s.ranges[r].purged;
          assert In(y, c, p, r);
        }
      }
    }
  }

  /** The loop of ashmem_release deletes every range of the area. */
  ghost function DropRanges(s: State, a: AreaId): (y: State)
    requires Shape(s) && LruOk(s) && a in s.lists
    ensures Shape(y) && LruOk(y) && a in y.lists && y.lists[a] == [] && Elsewhere(s, y, a)
    decreases |s.lists[a]|
  {
    if s.lists[a] == [] then s
    else
      DelShape(s, a, 0);
      DelLru(s, a, 0);
      DelPages(s, a, 0);
      DropRanges(Del(s, a, 0), a)
  }

  ghost function CloseArea(s: State, a: AreaId): State
    requires Inv(s) && a in s.lists
  {
    var u := DropRanges(s, a);
    u.(lists := u.lists - {a}, lost := u.lost - {a})
  }

  lemma CloseAreaKeeps(s: State, a: AreaId)
    requires Inv(s) && a in s.lists
    ensures Inv(CloseArea(s, a)) && forall r: RangeId :: r in CloseArea(s, a).ranges ==>
      CloseArea(s, a).ranges[r].area != a
  {
    var u, y := DropRanges(s, a), CloseArea(s, a);
    forall q: RangeId ensures RangeOk(y, q) && LruMember(y, q) && (q in y.ranges ==> y.ranges[q].area != a) {
      assert RangeOk(u, q) && LruMember(u, q);
    }
    forall c: AreaId, k: int ensures MemberOk(y, c, k) {
      assert MemberOk(u, c, k);
    }
    forall c: AreaId, k: int, j: int ensures OrderOk(y, c, k, j) {
      assert OrderOk(u, c, k, j);
    }
    forall c: AreaId ensures LostOk(y, c) {
      assert LostOk(s, c);
      if c in y.lost {
        forall p: Page | p in y.lost[c] ensures Purged(y, c, p) {
          ElsewherePurged(s, u, a, c, p);
          var r: RangeId :| In(u, c, p, r) && u.ranges[r].purged;
          assert In(y, c, p, r);
        }
      }
    }
  }

  // ---------------------------------------------------------------- runs

  datatype Op =
    | Open(a: AreaId)
    | Release(a: AreaId)
    | DoPin(a: AreaId, lo: Page, hi: Page)
    | DoUnpin(a: AreaId, lo: Page, hi: Page)
    | Scan(n: nat)

  predicate Enabled(s: State, op: Op) {
    match op
    case Open(a) => a !in s.lists
    case Release(a) => a in s.lists
    case DoPin(a, lo, hi) => a in s.lists && lo <= hi
    case DoUnpin(a, lo, hi) => a in s.lists && lo <= hi
    case Scan(n) => n < WORD
  }

  ghost function Step(s: State, op: Op): (y: State)
    requires Inv(s) && Enabled(s, op)
    ensures Inv(y)
  {
    match op
    case Open(a) => OpenAreaKeeps(s, a); OpenArea(s, a)
    case Release(a) => CloseAreaKeeps(s, a); CloseArea(s, a)
    case DoPin(a, lo, hi) => PinKeeps(s, a, lo, hi); Pin(s, a, lo, hi).0
    case DoUnpin(a, lo, hi) => UnpinKeeps(s, a, lo, hi); Unpin(s, a, lo, hi)
    case Scan(n) => ScanFrom(s, n).0
  }

  ghost predicate CanRun(s: State, ops: seq<Op>)
    requires Inv(s)
    decreases |ops|
  {
    ops == [] || (Enabled(s, ops[0]) && CanRun(Step(s, ops[0]), ops[1..]))
  }

  ghost function Run(s: State, ops: seq<Op>): (y: State)
    requires Inv(s) && CanRun(s, ops)
    ensures Inv(y)
    decreases |ops|
  {
    if ops == [] then s else Run(Step(s, ops[0]), ops[1..])
  }

  lemma InitOk()
    ensures Inv(Init)
  {
    forall r: RangeId ensures RangeOk(Init, r) && LruMember(Init, r) && LostOk(Init, r) {
    }
  }

  /** `ops` is a run from the empty driver. */
  ghost predicate IsRun(ops: seq<Op>) {
    InitOk();
    CanRun(Init, ops)
  }

  /** The state after a run; a reachable state is one of these. */
  ghost function After(ops: seq<Op>): (s: State)
    requires IsRun(ops)
    ensures Inv(s)
  {
    InitOk();
    Run(Init, ops)
  }
}
