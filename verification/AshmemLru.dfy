/**
 The order in which ashmem purges (driver/ashmem/ashmem.c): over every run the lru list is in the
 order in which its ranges were made, so a scan purges older ranges before younger ones.
 */
module AshmemLru {
  import opened Lists
  import opened Ashmem
  import opened AshmemResults

  predicate Ascends(xs: seq<nat>) {
    forall i, j :: 0 <= i < j < |xs| ==> xs[i] < xs[j]
  }

  /** Ranges are numbered in the order they are made, and the list is in that order. */
  predicate Aged(s: State) {
    Ascends(s.lru) && forall r: RangeId :: r in s.lru ==> r < s.next
  }

  /** What is in `y` and not in `s` was made after everything in `s`. */
  ghost predicate Grows(s: State, y: State) {
    s.next <= y.next && forall r: RangeId :: r in y.ranges ==> r in s.ranges || r >= s.next
  }

  /** `y` comes after `s`, and its list is in order if that of `s` is. */
  ghost predicate Follows(s: State, y: State) {
    Grows(s, y) && (Aged(s) ==> Aged(y))
  }

  lemma {:induction false} WithoutAscends(xs: seq<nat>, d: nat)
    requires Ascends(xs)
    ensures Ascends(Without(xs, d)) && forall e: nat :: e in Without(xs, d) ==> e in xs
  {
    if xs != [] {
      assert xs == [xs[0]] + xs[1..];
      WithoutAscends(xs[1..], d);
      if xs[0] != d {
        FirstIsLeast(xs, Without(xs[1..], d));
      }
    }
  }

  lemma FirstIsLeast(xs: seq<nat>, ys: seq<nat>)
    requires xs != [] && Ascends(xs) && Ascends(ys) && forall e: nat :: e in ys ==> e in xs[1..]
    ensures Ascends([xs[0]] + ys)
  {
    forall j | 0 <= j < |ys| ensures xs[0] < ys[j] {
      assert ys[j] in xs[1..];
      var i :| 0 <= i < |xs[1..]| && xs[1..][i] == ys[j];
      assert xs[i + 1] == ys[j];
    }
  }

  lemma AllocFollows(s: State, a: AreaId, i: nat, purged: bool, lo: Page, hi: Page)
    requires a in s.lists && i <= |s.lists[a]|
    ensures Follows(s, Alloc(s, a, i, purged, lo, hi))
  {
    var y := Alloc(s, a, i, purged, lo, hi);
    if Aged(s) && !purged {
      forall k, j | 0 <= k < j < |y.lru| ensures y.lru[k] < y.lru[j] {
        assert s.lru[k] in s.lru;
      }
    }
  }

  lemma DelFollows(s: State, a: AreaId, i: nat)
    requires a in s.lists && i < |s.lists[a]| && s.lists[a][i] in s.ranges
    ensures Follows(s, Del(s, a, i))
  {
    if Aged(s) {
      WithoutAscends(s.lru, s.lists[a][i]);
    }
  }

  lemma {:induction false} UnpinFollows(s: State, a: AreaId, i: nat, lo: Page, hi: Page, purged: bool)
    requires Shape(s) && a in s.lists && i <= |s.lists[a]|
    ensures Follows(s, UnpinFrom(s, a, i, lo, hi, purged))
    decreases |s.lists[a]|, |s.lists[a]| - i
  {
    AllocFollows(s, a, i, purged, lo, hi);
    if i < |s.lists[a]| {
      assert MemberOk(s, a, i);
      var x := s.ranges[s.lists[a][i]];
      if x.hi < lo || (x.lo <= lo && hi <= x.hi) {
      } else if Touches(x, lo, hi) {
        DelShape(s, a, i);
        DelFollows(s, a, i);
        UnpinFollows(Del(s, a, i), a, 0, Min(x.lo, lo), Max(x.hi, hi), purged || x.purged);
      } else {
        UnpinFollows(s, a, i + 1, lo, hi, purged);
      }
    }
  }

  lemma {:induction false} PinFollows(s: State, a: AreaId, i: nat, lo: Page, hi: Page, ret: bool)
    requires Shape(s) && a in s.lists && i <= |s.lists[a]| && lo <= hi
    ensures Follows(s, PinFrom(s, a, i, lo, hi, ret).0)
    decreases |s.lists[a]| - i
  {
    if i < |s.lists[a]| {
      assert MemberOk(s, a, i);
      var n := s.lists[a][i];
      var x := s.ranges[n];
      if x.hi < lo {
      } else if !Touches(x, lo, hi) {
        PinFollows(s, a, i + 1, lo, hi, ret);
      } else if x.lo >= lo && x.hi <= hi {
        DelShape(s, a, i);
        DelFollows(s, a, i);
        PinFollows(Del(s, a, i), a, i, lo, hi, ret || x.purged);
      } else if x.lo >= lo {
        ShrinkShape(s, n, hi + 1, x.hi);
        PinFollows(Shrink(s, n, hi + 1, x.hi), a, i + 1, lo, hi, ret || x.purged);
      } else if x.hi <= hi {
        ShrinkShape(s, n, x.lo, lo - 1);
        PinFollows(Shrink(s, n, x.lo, lo - 1), a, i + 1, lo, hi, ret || x.purged);
      } else {
        AllocFollows(s, a, i, x.purged, hi + 1, x.hi);
      }
    }
  }

  lemma {:induction false} DropFollows(s: State, a: AreaId)
    requires Shape(s) && LruOk(s) && a in s.lists
    ensures Follows(s, DropRanges(s, a))
    decreases |s.lists[a]|
  {
    if s.lists[a] != [] {
      assert MemberOk(s, a, 0);
      DelShape(s, a, 0);
      DelLru(s, a, 0);
      DelFollows(s, a, 0);
      DropFollows(Del(s, a, 0), a);
    }
  }

  /** A scan takes ranges off the head of the list, and purges exactly those. */
  lemma {:induction false} ScanTakesPrefix(s: State, n: nat) returns (k: nat)
    requires Inv(s)
    ensures var y := ScanFrom(s, n).0;
      k <= |s.lru| && y.lru == s.lru[k..] && y.ranges.Keys == s.ranges.Keys && y.next == s.next
    decreases |s.lru|
  {
    k := 0;
    if s.lru != [] {
      PurgeKeeps(s);
      k := 1;
      if (n + WORD - 1) % WORD != 0 {
        var j := ScanTakesPrefix(PurgeFirst(s), (n + WORD - 1) % WORD);
        k := 1 + j;
      }
    }
  }

  lemma StepFollows(s: State, op: Op)
    requires Inv(s) && Enabled(s, op)
    ensures Follows(s, Step(s, op))
  {
    match op
    case Open(a) =>
    case Release(a) => DropFollows(s, a);
    case DoPin(a, lo, hi) =>
      assert LostOk(s, a);
      PinFollows(s, a, 0, lo, hi, false);
    case DoUnpin(a, lo, hi) => UnpinFollows(s, a, 0, lo, hi, false);
    case Scan(n) =>
      var k := ScanTakesPrefix(s, n);
      RestAscends(s.lru, k);
  }

  lemma RestAscends(xs: seq<nat>, k: nat)
    requires k <= |xs|
    ensures Ascends(xs) ==> Ascends(xs[k..])
    ensures forall e: nat :: e in xs[k..] ==> e in xs
  {
  }

  lemma {:induction false} RunFollows(s: State, ops: seq<Op>)
    requires Inv(s) && CanRun(s, ops)
    ensures Follows(s, Run(s, ops))
    decreases |ops|
  {
    if ops != [] {
      StepFollows(s, ops[0]);
      RunFollows(Step(s, ops[0]), ops[1..]);
    }
  }

  /** In every reachable state the lru list is in the order in which its ranges were made. */
  lemma LruIsByAge(ops: seq<Op>)
    requires IsRun(ops)
    ensures Aged(After(ops))
  {
    InitOk();
    RunFollows(Init, ops);
  }

  /** In every run a scan that purges a range has purged every range that was there before that one
      was made. */
  lemma OlderGoFirst(before: seq<Op>, later: seq<Op>, n: nat, r: RangeId, q: RangeId)
    requires IsRun(before) && CanRun(After(before), later) && n < WORD
    requires var s, t := After(before), Run(After(before), later);
      && r in s.ranges && r in t.ranges && q !in s.ranges && q in t.ranges && !t.ranges[q].purged
    ensures var u := Step(Run(After(before), later), Scan(n));
      r in u.ranges && q in u.ranges && (u.ranges[q].purged ==> u.ranges[r].purged)
  {
    var s, t := After(before), Run(After(before), later);
    LruIsByAge(before);
    RunFollows(s, later);
    assert RangeOk(s, r);
    assert r < q;
    var u := Step(t, Scan(n));
    var k := ScanTakesPrefix(t, n);
    assert LruMember(t, q) && LruMember(t, r) && LruMember(u, q) && LruMember(u, r);
    if !u.ranges[r].purged {
      YoungerAreLater(t.lru, k, r, q);
    }
  }

  lemma YoungerAreLater(xs: seq<nat>, k: nat, r: nat, q: nat)
    requires Ascends(xs) && k <= |xs| && r in xs[k..] && q in xs && r < q
    ensures q in xs[k..]
  {
    var i :| 0 <= i < |xs| && xs[i] == q;
    var j :| 0 <= j < |xs[k..]| && xs[k..][j] == r;
    assert xs[k + j] == r;
    assert k + j <= i;
    assert xs[k..][i - k] == q;
  }
}
