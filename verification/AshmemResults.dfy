/** What ashmem guarantees, over all runs from the empty driver. */
module AshmemResults {
  import opened Lists
  import opened Ashmem

  /** In every run over all areas the lru list holds exactly the ranges that were not purged,
      each once, and lru_count is the number of their pages. */
  lemma LruIsExact(ops: seq<Op>)
    requires IsRun(ops)
    ensures var s := After(ops);
      && Distinct(s.lru) && s.count == Sum(s.ranges, s.lru)
      && (forall r: RangeId :: r in s.lru <==> r in s.ranges && !s.ranges[r].purged)
  {
    var s := After(ops);
    forall r: RangeId ensures r in s.lru <==> r in s.ranges && !s.ranges[r].purged {
      assert LruMember(s, r);
    }
  }

  /** No purge is lost: if any page of a pinned interval was purged since it was unpinned, the
      pin reports it. */
  lemma NoPurgeIsLost(ops: seq<Op>, a: AreaId, lo: Page, hi: Page, p: Page)
    requires IsRun(ops) && lo <= p <= hi
    requires a in After(ops).lists && a in After(ops).lost && p in After(ops).lost[a]
    ensures Pin(After(ops), a, lo, hi).1
  {
    var s := After(ops);
    assert LostOk(s, a) && Purged(s, a, p);
    PinKeeps(s, a, lo, hi);
  }

  /** Pinning what was just unpinned leaves exactly the other pages unpinned, and unpinning it
      again gives the union back. */
  lemma PinUndoesUnpin(s: State, a: AreaId, lo: Page, hi: Page, p: Page)
    requires Inv(s) && a in s.lists && lo <= hi
    ensures var u := Step(s, DoUnpin(a, lo, hi));
      && Enabled(u, DoPin(a, lo, hi))
      && var y := Step(u, DoPin(a, lo, hi));
         && (Unpinned(y, a, p) <==> Unpinned(s, a, p) && !(lo <= p <= hi))
         && Enabled(y, DoUnpin(a, lo, hi))
         && (Unpinned(Step(y, DoUnpin(a, lo, hi)), a, p) <==> Unpinned(u, a, p))
  {
    UnpinKeeps(s, a, lo, hi);
    var u := Step(s, DoUnpin(a, lo, hi));
    PinKeeps(u, a, lo, hi);
    PinLists(u, a, lo, hi);
    var y := Step(u, DoPin(a, lo, hi));
    UnpinKeeps(y, a, lo, hi);
    assert Unpinned(u, a, p) <==> Unpinned(s, a, p) || lo <= p <= hi;
    assert Unpinned(y, a, p) <==> Unpinned(u, a, p) && !(lo <= p <= hi);
  }

  lemma PinLists(u: State, a: AreaId, lo: Page, hi: Page)
    requires Inv(u) && a in u.lists && lo <= hi
    ensures a in u.lost && a in Pin(u, a, lo, hi).0.lists
  {
    assert LostOk(u, a);
    PinWorks(u, a, 0, lo, hi, false);
  }

  // ---------------------------------------------------------------- pins that report too much

  /** Page `p` counts as purged although it was not purged since it was unpinned. */
  ghost predicate Spread(s: State, a: AreaId, p: Page) {
    Purged(s, a, p) && !(a in s.lost && p in s.lost[a])
  }

  lemma SameRanges(s: State, y: State, a: AreaId, p: Page)
    requires y.ranges == s.ranges
    ensures Purged(y, a, p) <==> Purged(s, a, p)
  {
    forall r: RangeId ensures In(y, a, p, r) <==> In(s, a, p, r) {
    }
  }

  /** A scan purges what it counts as purged. */
  lemma PurgeSpreadsNothing(s: State, a: AreaId, p: Page)
    requires Inv(s) && s.lru != [] && s.lru[0] in s.ranges && s.ranges[s.lru[0]].area in s.lost && !Spread(s, a, p)
    ensures !Spread(PurgeFirst(s), a, p)
  {
    var y := PurgeFirst(s);
    if Purged(y, a, p) {
      var r: RangeId :| In(y, a, p, r) && y.ranges[r].purged;
      assert In(s, a, p, r);
    }
  }

  lemma {:induction false} ScanSpreadsNothing(s: State, n: nat, a: AreaId, p: Page)
    requires Inv(s) && !Spread(s, a, p)
    ensures !Spread(ScanFrom(s, n).0, a, p)
    decreases |s.lru|
  {
    if s.lru != [] {
      PurgeKeeps(s);
      PurgeSpreadsNothing(s, a, p);
      if (n + WORD - 1) % WORD != 0 {
        ScanSpreadsNothing(PurgeFirst(s), (n + WORD - 1) % WORD, a, p);
      }
    }
  }

  lemma PinSpreadsNothing(s: State, a: AreaId, lo: Page, hi: Page, c: AreaId, p: Page)
    requires Inv(s) && a in s.lists && a in s.lost && lo <= hi && !Spread(s, c, p)
    ensures !Spread(Pin(s, a, lo, hi).0, c, p)
  {
    PinWorks(s, a, 0, lo, hi, false);
    var u, y := PinFrom(s, a, 0, lo, hi, false).0, Pin(s, a, lo, hi).0;
    SameRanges(u, y, c, p);
    if c != a {
      ElsewherePurged(s, u, a, c, p);
    }
    assert Purged(u, a, p) <==> Purged(s, a, p) && !(lo <= p <= hi);
  }

  lemma CloseSpreadsNothing(s: State, a: AreaId, c: AreaId, p: Page)
    requires Inv(s) && a in s.lists && !Spread(s, c, p)
    ensures !Spread(CloseArea(s, a), c, p)
  {
    CloseAreaKeeps(s, a);
    var u, y := DropRanges(s, a), CloseArea(s, a);
    SameRanges(u, y, c, p);
    if c != a {
      ElsewherePurged(s, u, a, c, p);
    }
  }

  /** A page comes to count as purged without having been purged if and only if an unpin takes it
      into one range with a page that counts as purged. */
  lemma SpreadOnlyByUnpin(s: State, op: Op, a: AreaId, p: Page)
    requires Inv(s) && Enabled(s, op) && !Spread(s, a, p)
    ensures Spread(Step(s, op), a, p) <==>
      && op.DoUnpin? && op.a == a && Merged(s, a, op.lo, op.hi, p) && AnyPurged(s, a, op.lo, op.hi)
      && a in s.lost && p !in s.lost[a]
  {
    match op
    case Open(c) =>
      assert LostOk(s, a);
      SameRanges(s, OpenArea(s, c), a, p);
      assert a == c ==> !Purged(s, a, p);
    case Release(c) => CloseSpreadsNothing(s, c, a, p);
    case DoPin(c, lo, hi) =>
      assert LostOk(s, c);
      PinSpreadsNothing(s, c, lo, hi, a, p);
    case DoUnpin(c, lo, hi) =>
      UnpinKeeps(s, c, lo, hi);
      assert LostOk(s, c);
      var y := Unpin(s, c, lo, hi);
      if c != a {
        ElsewherePurged(s, y, c, a, p);
      } else {
        assert Purged(y, a, p) <==> Purged(s, a, p) || (Merged(s, a, lo, hi, p) && AnyPurged(s, a, lo, hi));
      }
    case Scan(n) => ScanSpreadsNothing(s, n, a, p);
  }

  /** A range that is purged is on the lru list no more, so a scan does not come to it. */
  lemma PurgeKeepsSpread(s: State, a: AreaId, p: Page)
    requires Inv(s) && s.lru != [] && s.lru[0] in s.ranges && s.ranges[s.lru[0]].area in s.lost && Spread(s, a, p)
    ensures Spread(PurgeFirst(s), a, p)
  {
    var r: RangeId :| In(s, a, p, r) && s.ranges[r].purged;
    assert In(PurgeFirst(s), a, p, r);
    var h := s.lru[0];
    assert h in s.lru && LruMember(s, h);
    if In(s, a, p, h) {
      Disjoint(s, a, p, r, h);
    }
  }

  lemma {:induction false} ScanKeepsSpread(s: State, n: nat, a: AreaId, p: Page)
    requires Inv(s) && Spread(s, a, p)
    ensures Spread(ScanFrom(s, n).0, a, p)
    decreases |s.lru|
  {
    if s.lru != [] {
      PurgeKeeps(s);
      PurgeKeepsSpread(s, a, p);
      if (n + WORD - 1) % WORD != 0 {
        ScanKeepsSpread(PurgeFirst(s), (n + WORD - 1) % WORD, a, p);
      }
    }
  }

  lemma PinOnSpread(s: State, a: AreaId, lo: Page, hi: Page, c: AreaId, p: Page)
    requires Inv(s) && a in s.lists && a in s.lost && lo <= hi && Spread(s, c, p)
    ensures Spread(Pin(s, a, lo, hi).0, c, p) <==> !(c == a && lo <= p <= hi)
  {
    PinWorks(s, a, 0, lo, hi, false);
    var u, y := PinFrom(s, a, 0, lo, hi, false).0, Pin(s, a, lo, hi).0;
    SameRanges(u, y, c, p);
    if c != a {
      ElsewherePurged(s, u, a, c, p);
    }
    assert Purged(u, a, p) <==> Purged(s, a, p) && !(lo <= p <= hi);
  }

  lemma CloseOnSpread(s: State, a: AreaId, c: AreaId, p: Page)
    requires Inv(s) && a in s.lists && Spread(s, c, p)
    ensures Spread(CloseArea(s, a), c, p) <==> c != a
  {
    CloseAreaKeeps(s, a);
    var u, y := DropRanges(s, a), CloseArea(s, a);
    SameRanges(u, y, c, p);
    if c != a {
      ElsewherePurged(s, u, a, c, p);
    }
  }

  /** The step pins the page or releases its area. */
  predicate Ends(op: Op, a: AreaId, p: Page) {
    (op.DoPin? && op.a == a && op.lo <= p <= op.hi) || (op.Release? && op.a == a)
  }

  /** A page stops counting as purged without having been purged if and only if it is pinned or
      its area is released: no later scan and no unpin makes up for it. */
  lemma SpreadEndsIff(s: State, op: Op, a: AreaId, p: Page)
    requires Inv(s) && Enabled(s, op) && Spread(s, a, p)
    ensures !Spread(Step(s, op), a, p) <==> Ends(op, a, p)
  {
    match op
    case Open(c) =>
      var r: RangeId :| In(s, a, p, r) && s.ranges[r].purged;
      assert RangeOk(s, r);
      SameRanges(s, OpenArea(s, c), a, p);
    case Release(c) => CloseOnSpread(s, c, a, p);
    case DoPin(c, lo, hi) =>
      assert LostOk(s, c);
      PinOnSpread(s, c, lo, hi, a, p);
    case DoUnpin(c, lo, hi) =>
      UnpinKeeps(s, c, lo, hi);
      if c != a {
        ElsewherePurged(s, Unpin(s, c, lo, hi), c, a, p);
      }
      assert Purged(Unpin(s, c, lo, hi), a, p);
    case Scan(n) => ScanKeepsSpread(s, n, a, p);
  }

  lemma {:induction false} RunLast(s: State, ops: seq<Op>)
    requires Inv(s) && CanRun(s, ops) && ops != []
    ensures var before := ops[..|ops| - 1];
      && CanRun(s, before) && Enabled(Run(s, before), ops[|ops| - 1])
      && Run(s, ops) == Step(Run(s, before), ops[|ops| - 1])
    decreases |ops|
  {
    if |ops| > 1 {
      RunLast(Step(s, ops[0]), ops[1..]);
      assert ops[1..][..|ops| - 2] == ops[..|ops| - 1][1..];
    }
  }

  lemma AfterLast(ops: seq<Op>)
    requires IsRun(ops) && ops != []
    ensures var before := ops[..|ops| - 1];
      IsRun(before) && Enabled(After(before), ops[|ops| - 1]) && After(ops) == Step(After(before), ops[|ops| - 1])
  {
    InitOk();
    RunLast(Init, ops);
  }

  /** Page `p` shares the status of a purged page through the run: an unpin took it into one range
      with a page that was purged or shared that status, and since then it was not pinned. */
  ghost predicate Shares(ops: seq<Op>, a: AreaId, p: Page)
    requires IsRun(ops)
    decreases |ops|, 0
  {
    ops != [] &&
    (AfterLast(ops);
     var before, op := ops[..|ops| - 1], ops[|ops| - 1];
     var s := After(before);
     if Shares(before, a, p) then !Ends(op, a, p)
     else
       && op.DoUnpin? && op.a == a && Merged(s, a, op.lo, op.hi, p) && a in s.lost && p !in s.lost[a]
       && SharesAny(before, a, op.lo, op.hi))
  }

  /** Some page of the interval was purged since it was unpinned or shares that status. */
  ghost predicate SharesAny(ops: seq<Op>, a: AreaId, lo: Page, hi: Page)
    requires IsRun(ops)
    decreases |ops|, 1
  {
    exists q: Page :: lo <= q <= hi && ((a in After(ops).lost && q in After(ops).lost[a]) || Shares(ops, a, q))
  }

  lemma {:induction false} SharesIsSpread(ops: seq<Op>, a: AreaId, p: Page)
    requires IsRun(ops)
    ensures Shares(ops, a, p) <==> Spread(After(ops), a, p)
    decreases |ops|, 0
  {
    if ops == [] {
      assert !Purged(Init, a, p);
    } else {
      AfterLast(ops);
      var before, op := ops[..|ops| - 1], ops[|ops| - 1];
      var s := After(before);
      SharesIsSpread(before, a, p);
      if Spread(s, a, p) {
        SpreadEndsIff(s, op, a, p);
      } else {
        SpreadOnlyByUnpin(s, op, a, p);
        if op.DoUnpin? && op.a == a {
          SharedIsPurged(before, a, op.lo, op.hi);
        }
      }
    }
  }

  lemma {:induction false} SharedIsPurged(ops: seq<Op>, a: AreaId, lo: Page, hi: Page)
    requires IsRun(ops) && a in After(ops).lists
    ensures a in After(ops).lost
    ensures AnyPurged(After(ops), a, lo, hi) <==> SharesAny(ops, a, lo, hi)
    decreases |ops|, 1
  {
    var s := After(ops);
    assert LostOk(s, a);
    forall q: Page ensures Purged(s, a, q) <==> q in s.lost[a] || Shares(ops, a, q) {
      SharesIsSpread(ops, a, q);
    }
  }

  /** In every run a pin reports a purge if and only if a page of the interval was purged since it
      was unpinned or shares that status through an unpin. */
  lemma PinReportsIff(ops: seq<Op>, a: AreaId, lo: Page, hi: Page)
    requires IsRun(ops) && a in After(ops).lists && lo <= hi
    ensures var s := After(ops);
      a in s.lost && (Pin(s, a, lo, hi).1 <==> SharesAny(ops, a, lo, hi))
  {
    SharedIsPurged(ops, a, lo, hi);
    PinKeeps(After(ops), a, lo, hi);
  }

  /** So a pin may report a page that lost nothing: any page unpinned together with a purged one. */
  lemma UnpinSpreadsPurge(s: State, a: AreaId, lo: Page, hi: Page, p: Page)
    requires Inv(s) && a in s.lists && lo <= p <= hi && AnyPurged(s, a, lo, hi)
    ensures Inv(Unpin(s, a, lo, hi)) && a in Unpin(s, a, lo, hi).lists && a in Unpin(s, a, lo, hi).lost
    ensures Unpin(s, a, lo, hi).lost == s.lost && Pin(Unpin(s, a, lo, hi), a, p, p).1
    ensures p !in s.lost[a] ==> Spread(Unpin(s, a, lo, hi), a, p)
  {
    UnpinKeeps(s, a, lo, hi);
    var y := Unpin(s, a, lo, hi);
    assert LostOk(s, a) && LostOk(y, a) && Purged(y, a, p);
    PinKeeps(y, a, p, p);
  }

  // ---------------------------------------------------------------- a run that reports too much

  lemma {:induction false} RunAppend(s: State, ops: seq<Op>, op: Op)
    requires Inv(s) && CanRun(s, ops) && Enabled(Run(s, ops), op)
    ensures CanRun(s, ops + [op]) && Run(s, ops + [op]) == Step(Run(s, ops), op)
    decreases |ops|
  {
    if ops == [] {
      assert ops + [op] == [op];
    } else {
      RunAppend(Step(s, ops[0]), ops[1..], op);
      assert (ops + [op])[0] == ops[0] && (ops + [op])[1..] == ops[1..] + [op];
    }
  }

  lemma AfterAppend(ops: seq<Op>, op: Op)
    requires IsRun(ops) && Enabled(After(ops), op)
    ensures IsRun(ops + [op]) && After(ops + [op]) == Step(After(ops), op)
  {
    InitOk();
    RunAppend(Init, ops, op);
  }

  /** Page 0 is unpinned in area 0, and no other page anywhere. */
  ghost predicate OnlyPageZero(s: State) {
    && s.lists.Keys == {0} && 0 in s.lost && s.lost[0] == {} && Unpinned(s, 0, 0)
    && (forall p: Page :: Unpinned(s, 0, p) ==> p == 0) && (forall p: Page :: !Purged(s, 0, p))
  }

  lemma OneUnpinned() returns (ops: seq<Op>)
    ensures ops == [Open(0), DoUnpin(0, 0, 0)] && IsRun(ops) && OnlyPageZero(After(ops))
  {
    ops := [];
    assert IsRun(ops);
    AfterAppend(ops, Open(0));
    ops := ops + [Open(0)];
    var u := After(ops);
    assert u.ranges == map[] && u.lists == map[0 := []] && u.lost == map[0 := {}];
    UnpinKeeps(u, 0, 0, 0);
    AfterAppend(ops, DoUnpin(0, 0, 0));
    ops := ops + [DoUnpin(0, 0, 0)];
    var s := After(ops);
    assert forall p: Page :: Purged(s, 0, p) ==> Purged(u, 0, p) || AnyPurged(u, 0, 0, 0);
    assert forall p: Page :: !Purged(u, 0, p);
    assert forall p: Page :: Unpinned(s, 0, p) ==> Unpinned(u, 0, p) || p == 0;
  }

  lemma ScanPurgesPageZero(s: State)
    requires Inv(s) && OnlyPageZero(s)
    ensures var y := ScanFrom(s, 1).0;
      y.lists == s.lists && 0 in y.lost && 1 !in y.lost[0] && Purged(y, 0, 0)
  {
    var r: RangeId :| In(s, 0, 0, r);
    assert !Purged(s, 0, 0) && LruMember(s, r);
    PurgeKeeps(s);
    var h := s.lru[0];
    assert h in s.lru && LruMember(s, h) && RangeOk(s, h);
    var x := s.ranges[h];
    assert In(s, 0, x.lo, h) && Unpinned(s, 0, x.lo);
    assert In(s, 0, x.hi, h) && Unpinned(s, 0, x.hi);
    assert (1 + WORD - 1) % WORD == 0;
    assert In(PurgeFirst(s), 0, 0, h);
  }

  /** Page 0 is unpinned and purged, then pages 0 and 1 are unpinned: pinning page 1 alone reports
      a purge, and page 1 was never purged. */
  lemma PinReportsTooMuch() returns (ops: seq<Op>)
    ensures IsRun(ops) && 0 in After(ops).lists && 0 in After(ops).lost
    ensures 1 !in After(ops).lost[0] && Pin(After(ops), 0, 1, 1).1
    ensures ops == [Open(0), DoUnpin(0, 0, 0), Scan(1), DoUnpin(0, 0, 1)]
  {
    ops := OneUnpinned();
    ScanPurgesPageZero(After(ops));
    AfterAppend(ops, Scan(1));
    ops := ops + [Scan(1)];
    var y := After(ops);
    assert AnyPurged(y, 0, 0, 1);
    UnpinSpreadsPurge(y, 0, 0, 1, 1);
    AfterAppend(ops, DoUnpin(0, 0, 1));
    ops := ops + [DoUnpin(0, 0, 1)];
  }
}
