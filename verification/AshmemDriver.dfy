/**
 The ashmem driver's list-walking loops as they are written (driver/ashmem/ashmem.c), on lists
 and counters changed in place.  Every method takes exactly the step Ashmem specifies.
 */
module AshmemDriver {
  import opened Lists
  import opened Ashmem

  class Driver {
    var ranges: map<RangeId, Range>
    var lists: map<AreaId, seq<RangeId>>
    var lru: seq<RangeId>
    var count: int
    var next: RangeId
    ghost var lost: map<AreaId, set<Page>>

    ghost function View(): State
      reads this
    {
      State(ranges, lists, lru, count, next, lost)
    }

    constructor ()
      ensures View() == Ashmem.Init
    {
      ranges, lists, lru, count, next, lost := map[], map[], [], 0, 0, map[];
    }

    /** range_alloc before position `i`, with lru_add. */
    method RangeAlloc(a: AreaId, i: nat, purged: bool, lo: Page, hi: Page)
      requires a in lists && i <= |lists[a]|
      modifies this`ranges, this`lists, this`lru, this`count, this`next
      ensures View() == Alloc(old(View()), a, i, purged, lo, hi)
    {
      var r := next;
      next := next + 1;
      ranges := ranges[r := Range(a, lo, hi, purged)];
      lists := lists[a := lists[a][..i] + [r] + lists[a][i..]];
      if !purged {
        lru := lru + [r];
        count := count + (hi - lo + 1);
      }
    }

    /** range_del of the range at position `i`, with lru_del. */
    method RangeDel(a: AreaId, i: nat)
      requires a in lists && i < |lists[a]| && lists[a][i] in ranges
      modifies this`ranges, this`lists, this`lru, this`count
      ensures View() == Del(old(View()), a, i)
    {
      var r := lists[a][i];
      lists := lists[a := lists[a][..i] + lists[a][i + 1..]];
      if !ranges[r].purged {
        lru := Without(lru, r);
        count := count - Size(ranges, r);
      }
      ranges := ranges - {r};
    }

    /** range_shrink. */
    method RangeShrink(r: RangeId, lo: Page, hi: Page)
      requires r in ranges
      modifies this`ranges, this`count
      ensures View() == Shrink(old(View()), r, lo, hi)
    {
      var pre := Size(ranges, r);
      ranges := ranges[r := ranges[r].(lo := lo, hi := hi)];
      if !ranges[r].purged {
        count := count - (pre - Size(ranges, r));
      }
    }

    /** ashmem_unpin: after taking in a range that touches the interval the walk starts over. */
    method UnpinPages(a: AreaId, lo: Page, hi: Page)
      requires Inv(View()) && a in lists && lo <= hi
      modifies this`ranges, this`lists, this`lru, this`count, this`next
      ensures Inv(View()) && View() == Step(old(View()), DoUnpin(a, lo, hi))
      ensures Unpins(old(View()), View(), a, lo, hi, false)
    {
      ghost var s := View();
      UnpinKeeps(s, a, lo, hi);
      var pgstart, pgend, purged, i := lo, hi, false, 0;
      while i < |lists[a]|
        invariant Shape(View()) && a in lists && 0 <= i <= |lists[a]|
        invariant UnpinFrom(View(), a, i, pgstart, pgend, purged) == Unpin(s, a, lo, hi)
        decreases |lists[a]|, |lists[a]| - i
      {
        assert MemberOk(View(), a, i);
        var x := ranges[lists[a][i]];
        if x.hi < pgstart {
          break;
        }
        if x.lo <= pgstart && pgend <= x.hi {
          return;
        }
        if Touches(x, pgstart, pgend) {
          DelShape(View(), a, i);
          RangeDel(a, i);
          pgstart, pgend, purged := Min(x.lo, pgstart), Max(x.hi, pgend), purged || x.purged;
          i := 0;
        } else {
          i := i + 1;
        }
      }
      RangeAlloc(a, i, purged, pgstart, pgend);
    }

    /** ashmem_pin with its four cases. */
    method PinPages(a: AreaId, lo: Page, hi: Page) returns (wasPurged: bool)
      requires Inv(View()) && a in lists && lo <= hi
      modifies this`ranges, this`lists, this`lru, this`count, this`next, this`lost
      ensures Inv(View()) && View() == Step(old(View()), DoPin(a, lo, hi))
      ensures wasPurged <==> AnyPurged(old(View()), a, lo, hi)
      ensures forall p: Page {:trigger Unpinned(View(), a, p)} :: Unpinned(View(), a, p) <==>
        old(Unpinned(View(), a, p)) && !(lo <= p <= hi)
    {
      ghost var s := View();
      PinKeeps(s, a, lo, hi);
      wasPurged := PinLoop(a, lo, hi);
      lost := lost[a := lost[a] - Interval(lo, hi)];
    }

    method PinLoop(a: AreaId, lo: Page, hi: Page) returns (ret: bool)
      requires Shape(View()) && a in lists && lo <= hi
      modifies this`ranges, this`lists, this`lru, this`count, this`next
      ensures (View(), ret) == PinFrom(old(View()), a, 0, lo, hi, false)
    {
      ret := false;
      var i := 0;
      while i < |lists[a]|
        invariant Shape(View()) && a in lists && 0 <= i <= |lists[a]|
        invariant PinFrom(View(), a, i, lo, hi, ret) == PinFrom(old(View()), a, 0, lo, hi, false)
        decreases |lists[a]| - i
      {
        assert MemberOk(View(), a, i) && RangeOk(View(), lists[a][i]);
        var n := lists[a][i];
        var x := ranges[n];
        if x.hi < lo {
          break;
        }
        if Touches(x, lo, hi) {
          if x.lo < lo && hi < x.hi {
            // case 4: a hole in the middle
            RangeAlloc(a, i, x.purged, hi + 1, x.hi);
            RangeShrink(n, x.lo, lo - 1);
            return ret || x.purged;
          }
          i := TrimAt(a, i, lo, hi);
          ret := ret || x.purged;
        } else {
          i := i + 1;
        }
      }
    }

    /** Cases 1 to 3 of ashmem_pin; returns the position to go on from. */
    method TrimAt(a: AreaId, i: nat, lo: Page, hi: Page) returns (j: nat)
      requires Shape(View()) && a in lists && i < |lists[a]| && lists[a][i] in ranges && lo <= hi
      requires var x := ranges[lists[a][i]];
        x.lo <= x.hi && !(x.hi < lo) && Touches(x, lo, hi) && !(x.lo < lo && hi < x.hi)
      modifies this`ranges, this`lists, this`lru, this`count
      ensures Shape(View()) && a in lists && j <= |lists[a]| && |lists[a]| - j < |old(lists[a])| - i
      ensures forall ret: bool ::
        PinFrom(View(), a, j, lo, hi, ret || old(ranges[lists[a][i]].purged)) == PinFrom(old(View()), a, i, lo, hi, ret)
    {
      var n := lists[a][i];
      var x := ranges[n];
      if x.lo >= lo && x.hi <= hi {
        DelShape(View(), a, i);
        RangeDel(a, i);
        j := i;
      } else if x.lo >= lo {
        ShrinkShape(View(), n, hi + 1, x.hi);
        RangeShrink(n, hi + 1, x.hi);
        j := i + 1;
      } else {
        ShrinkShape(View(), n, x.lo, lo - 1);
        RangeShrink(n, x.lo, lo - 1);
        j := i + 1;
      }
    }

    /** ashmem_get_pin_status: whether any page of the interval is unpinned. */
    method PinStatus(a: AreaId, lo: Page, hi: Page) returns (unpinned: bool)
      requires Inv(View()) && a in lists && lo <= hi
      ensures unpinned <==> exists p: Page :: lo <= p <= hi && Unpinned(View(), a, p)
    {
      ghost var s := View();
      var i := 0;
      while i < |lists[a]|
        invariant 0 <= i <= |lists[a]| && PassedClear(s, a, i, lo, hi)
      {
        assert MemberOk(s, a, i) && RangeOk(s, lists[a][i]);
        var x := ranges[lists[a][i]];
        if x.hi < lo {
          break;
        }
        if Touches(x, lo, hi) {
          ghost var m := Max(lo, x.lo);
          assert In(s, a, m, lists[a][i]) && Unpinned(s, a, m);
          return true;
        }
        i := i + 1;
      }
      assert i < |lists[a]| ==> MemberOk(s, a, i);
      PinEnds(s, a, i, lo, hi);
      forall p: Page ensures lo <= p <= hi ==> !Unpinned(s, a, p) {
      }
      return false;
    }

    /** ashmem_shrink_scan. */
    method ShrinkScan(nrToScan: nat) returns (freed: int)
      requires Inv(View()) && nrToScan < WORD
      modifies this`ranges, this`lru, this`count, this`lost
      ensures Inv(View()) && View() == Step(old(View()), Scan(nrToScan))
      ensures freed == old(count) - count
    {
      var n: nat := nrToScan;
      freed := 0;
      while lru != []
        invariant Inv(View()) && freed == old(count) - count
        invariant ScanFrom(View(), n).0 == ScanFrom(old(View()), nrToScan).0
        decreases |lru|
      {
        PurgeKeeps(View());
        var r := lru[0];
        var size := Size(ranges, r);
        lost := lost[ranges[r].area := lost[ranges[r].area] + Interval(ranges[r].lo, ranges[r].hi)];
        ranges := ranges[r := ranges[r].(purged := true)];
        lru := lru[1..];
        count := count - size;
        freed := freed + size;
        n := (n + WORD - 1) % WORD;
        if n == 0 {
          break;
        }
      }
    }
  }
}
