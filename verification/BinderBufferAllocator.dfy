/**
 The per-process buffer allocator of the driver as it is written: the buffer list, the page
 slots, the two search trees and the async budget are fields updated in place.  Failing page
 allocations and mappings are a parameter.  BUG_ONs appear as assertions.
 */
module BinderBufferAllocator {
  import opened Wrappers
  import opened SearchTree
  import opened BinderBuffers

  class Allocator {
    const total: int
    const pages: array<bool>
    var buffers: seq<Buffer>
    var freeTree: Tree
    var usedTree: Tree
    var freeAsync: int
    var mapped: bool

    /** A page slot is filled exactly when some buffer needs the page. */
    ghost predicate PagesOk(bs: seq<Buffer>)
      reads this, pages
    {
      forall k :: 0 <= k < pages.Length ==> (pages[k] <==> Needed(bs, total, k))
    }

    ghost predicate FreeTreeOk(bs: seq<Buffer>)
      reads this
    {
      Ordered(freeTree) && forall k, a :: Has(freeTree, k, a) <==> FreeAt(bs, total, k, a)
    }

    ghost predicate UsedTreeOk(bs: seq<Buffer>)
      reads this
    {
      Ordered(usedTree) && forall k, a :: Has(usedTree, k, a) <==> k == a && UsedAt(bs, a)
    }

    ghost predicate Valid()
      reads this, pages
    {
      && LayoutOk(buffers, total) && pages.Length == total / PAGE
      && PagesOk(buffers) && FreeTreeOk(buffers) && UsedTreeOk(buffers)
      && 0 <= freeAsync && freeAsync + Charges(buffers) == total / 2
    }

    /** The allocate half of binder_update_page_range over pages lo..hi; `fault` is the page, if
        any, where allocating or mapping fails.  A failure rolls back completely. */
    method MapPages(lo: int, hi: int, fault: Option<int>) returns (ok: bool)
      requires 0 <= lo && hi <= pages.Length
      requires forall k :: lo <= k < hi ==> !pages[k]
      modifies pages
      ensures ok <==> lo >= hi || (mapped && !(fault.Some? && lo <= fault.value < hi))
      ensures forall k :: 0 <= k < pages.Length ==> pages[k] == (old(pages[k]) || (ok && lo <= k < hi))
    {
      if hi <= lo {
        return true;
      }
      if !mapped {
        return false;
      }
      var page := lo;
      while page < hi
        invariant lo <= page <= hi
        invariant fault.Some? && lo <= fault.value < hi ==> page <= fault.value
        invariant forall k :: 0 <= k < pages.Length ==> pages[k] == (old(pages[k]) || lo <= k < page)
      {
        assert !pages[page];   // BUG_ON(*page)
        if fault == Some(page) {
          UnmapPages(lo, page);
          return false;
        }
        pages[page] := true;
        page := page + 1;
      }
      return true;
    }

    /** The free half of binder_update_page_range: from the last page down to the first. */
    method UnmapPages(lo: int, hi: int)
      requires 0 <= lo && hi <= pages.Length
      requires forall k :: lo <= k < hi ==> pages[k]
      modifies pages
      ensures forall k :: 0 <= k < pages.Length ==> pages[k] == (old(pages[k]) && !(lo <= k < hi))
    {
      var page := hi - 1;
      while page >= lo
        invariant page < hi && (lo <= hi ==> lo - 1 <= page)
        invariant forall k :: 0 <= k < pages.Length ==> pages[k] == (old(pages[k]) && !(page < k < hi && lo <= k))
      {
        assert pages[page];   // __free_page needs a page
        pages[page] := false;
        page := page - 1;
      }
    }

    /** binder_mmap: one free buffer over the whole mapping, its header page present. */
    constructor (size: int)
      requires 0 < size <= MAX_MAPPING && size % PAGE == 0
      ensures Valid() && fresh(pages) && total == size && mapped
      ensures buffers == [Buffer(0, true, 0, 0, false)] && freeAsync == size / 2
    {
      total := size;
      var slots := new bool[size / PAGE](k => k == 0);
      pages := slots;
      var bs := [Buffer(0, true, 0, 0, false)];
      buffers := bs;
      freeTree := Insert(Leaf, size - HDR, 0);
      usedTree := Leaf;
      freeAsync := size / 2;
      mapped := true;
      new;
      assert bs[1..] == [];
      assert LayoutOk(bs, size);
      forall k | 0 <= k < slots.Length ensures slots[k] <==> Needed(bs, size, k) {
        assert MeetsAt(bs, size, 0, k) <==> k == 0;
      }
      assert FreeHere(bs, size, 0, size - HDR, 0);
      forall k, a | FreeAt(bs, size, k, a) ensures k == size - HDR && a == 0 {
      }
    }

    /** Why an allocation can fail. */
    ghost predicate Refused(bs: seq<Buffer>, budget: int, d: int, o: int, isAsync: bool)
      reads this
    {
      || !mapped || !SizesOk(d, o)
      || (isAsync && budget < (Demand(d, o) + HDR) % WORD)
      || forall k, a :: FreeAt(bs, total, k, a) ==> k < Demand(d, o)
    }

    /** Some pages of the buffer at index `i` could not be mapped. */
    predicate Faulty(bs: seq<Buffer>, i: int, size: int, fault: Option<int>)
      reads this
      requires 0 <= i < |bs|
    {
      fault.Some? && FreshPage(bs, total, i, size, fault.value)
    }

    /** The buffer at index `i` is free and one of the smallest that are large enough. */
    ghost predicate IsBest(bs: seq<Buffer>, i: int, size: int)
      reads this
    {
      && 0 <= i < |bs| && bs[i].free && size <= Size(bs, total, i)
      && forall k, a :: FreeAt(bs, total, k, a) && size <= k ==> Size(bs, total, i) <= k
    }

    /** The free buffer leaves the free tree and becomes the allocated one. */
    method Use(ghost i: int, b: Buffer, room: int) returns (at: int)
      requires LayoutOk(buffers, total) && FreeTreeOk(buffers) && UsedTreeOk(buffers)
      requires 0 <= i < |buffers| && buffers[i].free && buffers[i].addr == b.addr && !b.free
      requires room == Size(buffers, total, i)
      modifies this`buffers, this`freeTree, this`usedTree
      ensures at == i && buffers == Put(old(buffers), i, b)
      ensures FreeTreeOk(buffers) && UsedTreeOk(buffers)
    {
      ghost var bs := buffers;
      at := IndexOf(buffers, b.addr);
      AddressIsUnique(bs, total, i, at);
      assert FreeHere(bs, total, i, room, b.addr);
      freeTree := Erase(freeTree, room, b.addr);
      buffers := buffers[at := b];
      ghost var mid := buffers;
      forall k, a ensures (FreeAt(mid, total, k, a) <==> FreeAt(bs, total, k, a) && a != b.addr)
                       && (FreeAt(bs, total, k, b.addr) ==> k == room)
      {
        UseEntries(bs, total, i, b, k, a);
        FreeEntryIsUnique(bs, total, i, k);
      }
      forall a ensures UsedAt(mid, a) <==> UsedAt(bs, a) || a == b.addr {
        UseEntries(bs, total, i, b, 0, a);
      }
      FreeEntryIsUnique(bs, total, i, 0);
      usedTree := Insert(usedTree, b.addr, b.addr);
    }

    /** What is left of it becomes a free buffer. */
    method SplitOff(at: int, cut: int, left: int)
      requires Tiled(buffers, total) && FreeTreeOk(buffers) && UsedTreeOk(buffers)
      requires 0 <= at < |buffers| && buffers[at].addr + HDR <= cut && cut + HDR <= Next(buffers, total, at)
      requires left == Next(buffers, total, at) - (cut + HDR) && !buffers[at].free
      modifies this`buffers, this`freeTree
      ensures buffers == Split(old(buffers), at, cut)
      ensures FreeTreeOk(buffers) && UsedTreeOk(buffers)
    {
      ghost var mid := buffers;
      buffers := buffers[..at + 1] + [Buffer(cut, true, 0, 0, false)] + buffers[at + 1..];
      forall k, a ensures (FreeAt(buffers, total, k, a) <==> FreeAt(mid, total, k, a) || (a == cut && k == left))
                       && !FreeAt(mid, total, k, cut)
      {
        SplitEntries(mid, total, at, cut, k, a);
        NothingAtCut(mid, total, at, cut, k);
      }
      forall a ensures UsedAt(buffers, a) <==> UsedAt(mid, a) {
        SplitEntries(mid, total, at, cut, 0, a);
      }
      freeTree := Insert(freeTree, left, cut);
    }

    /** The bookkeeping of a successful binder_alloc_buf once the pages are present. */
    method Commit(ghost i: int, b: Buffer, size: int, room: int)
      requires LayoutOk(buffers, total) && pages.Length == total / PAGE && FreeTreeOk(buffers) && UsedTreeOk(buffers)
      requires 0 <= i < |buffers| && buffers[i].free && buffers[i].addr == b.addr && !b.free
      requires room == Size(buffers, total, i) && size == Demand(b.dataSize, b.offsetsSize)
      requires 0 <= size <= room && size % 8 == 0
      modifies this`buffers, this`freeTree, this`usedTree
      ensures buffers == Allocated(old(buffers), total, i, b, size)
      ensures FreeTreeOk(buffers) && UsedTreeOk(buffers)
    {
      PutKeepsTiling(buffers, total, i, b);
      assert Inside(buffers, total, i);
      var at := Use(i, b, room);
      if MappedSize(size, room) != size {
        SplitOff(at, b.addr + HDR + size, room - size - HDR);
      }
    }

    /** The checks and the search of binder_alloc_buf: the smallest free buffer that fits. */
    method FindRoom(d: int, o: int, isAsync: bool) returns (best: Option<(int, int)>, exact: bool)
      requires Ordered(freeTree) && FreeTreeOk(buffers) && 0 <= d < WORD && 0 <= o < WORD
      ensures best.None? <==> Refused(buffers, freeAsync, d, o, isAsync)
      ensures best.Some? ==>
                var (room, addr) := best.value;
                && FreeAt(buffers, total, room, addr) && Demand(d, o) <= room && (exact <==> Demand(d, o) == room)
                && (forall k, a :: FreeAt(buffers, total, k, a) && Demand(d, o) <= k ==> room <= k)
    {
      if !mapped {
        return None, false;
      }
      var size := Demand(d, o);
      if size < d || size < o {
        return None, false;
      }
      if isAsync && freeAsync < (size + HDR) % WORD {
        return None, false;
      }
      best, exact := BestFit(freeTree, size);
    }

    /** The page mapping of binder_alloc_buf for the free buffer `i`. */
    method MapBuffer(ghost i: int, addr: int, size: int, room: int, exact: bool, fault: Option<int>) returns (ok: bool)
      requires Tiled(buffers, total) && pages.Length == total / PAGE && PagesOk(buffers) && mapped
      requires FreeHere(buffers, total, i, room, addr) && 0 <= size <= room && (exact <==> size == room)
      modifies pages
      ensures ok <==> !Faulty(buffers, i, size, fault)
      ensures !ok ==> pages[..] == old(pages[..])
      ensures ok ==> forall k :: 0 <= k < pages.Length ==>
                (pages[k] <==> Needed(buffers, total, k) || FreshPage(buffers, total, i, size, k))
    {
      HeaderFits(buffers, total, i);
      assert Inside(buffers, total, i) && Inside(buffers, total, i + 1);
      var data := addr + HDR;
      var hasPage := PageDown(data + room);
      var needed := if exact || size + HDR + 4 >= room then size else size + HDR;
      var endPage := PageUp(data + needed);
      if endPage > hasPage {
        endPage := hasPage;
      }
      forall k ensures FreshPage(buffers, total, i, size, k) <==> PageUp(data) <= k < endPage {
      }
      forall k | PageUp(data) <= k < endPage ensures !pages[k] {
        FreshPageIsUnneeded(buffers, total, i, size, k);
      }
      ok := MapPages(PageUp(data), endPage, fault);
      if !ok {
        assert pages[..] == old(pages[..]);
      }
    }

    /** What binder_alloc_buf does once the pages of buffer `i` are present. */
    method Claim(ghost i: int, b: Buffer, size: int, room: int)
      requires LayoutOk(buffers, total) && pages.Length == total / PAGE && FreeTreeOk(buffers) && UsedTreeOk(buffers)
      requires FreeHere(buffers, total, i, room, b.addr) && !b.free
      requires size == Demand(b.dataSize, b.offsetsSize) && 0 <= size <= room && size % 8 == 0
      requires forall k :: 0 <= k < pages.Length ==>
                 (pages[k] <==> Needed(buffers, total, k) || FreshPage(buffers, total, i, size, k))
      requires 0 <= freeAsync && freeAsync + Charges(buffers) == total / 2 && (b.isAsync ==> size + HDR <= freeAsync)
      modifies this`buffers, this`freeTree, this`usedTree, this`freeAsync
      ensures Valid() && buffers == Allocated(old(buffers), total, i, b, size)
      ensures freeAsync == old(freeAsync) - (if b.isAsync then size + HDR else 0)
    {
      ghost var bs := buffers;
      Commit(i, b, size, room);
      AllocatedKeepsLayout(bs, total, i, b);
      forall k | 0 <= k < pages.Length ensures pages[k] <==> Needed(buffers, total, k) {
        AllocPages(bs, total, i, b, size, k);
      }
      ChargesPut(bs, i, b);
      ChargesSplit(Put(bs, i, b), i, b.addr + HDR + size);
      if b.isAsync {
        freeAsync := freeAsync - (size + HDR);
      }
    }

    /** binder_alloc_buf: best fit, split, pages first, all or nothing.  `at` is the position of
        the buffer chosen. */
    method AllocBuf(d: int, o: int, isAsync: bool, fault: Option<int>) returns (r: Option<int>, ghost at: int)
      requires Valid() && 0 <= d < WORD && 0 <= o < WORD
      modifies this, pages
      ensures Valid() && mapped == old(mapped)
      ensures r.None? ==>
                && buffers == old(buffers) && freeTree == old(freeTree) && usedTree == old(usedTree)
                && freeAsync == old(freeAsync) && pages[..] == old(pages[..])
      ensures !old(Refused(buffers, freeAsync, d, o, isAsync)) ==> IsBest(old(buffers), at, Demand(d, o))
      ensures r.None? <==> old(Refused(buffers, freeAsync, d, o, isAsync)) ||
                           Faulty(old(buffers), at, Demand(d, o), fault)
      ensures r.Some? ==>
                var size, bs := Demand(d, o), old(buffers);
                && bs[at].addr == r.value
                && buffers == Allocated(bs, total, at, Buffer(r.value, false, d, o, isAsync), size)
                && freeAsync == old(freeAsync) - (if isAsync then size + HDR else 0)
    {
      ghost var bs := buffers;
      var best, exact := FindRoom(d, o, isAsync);
      if best.None? {
        return None, 0;
      }
      var (room, addr) := best.value;
      at :| FreeHere(bs, total, at, room, addr);
      var size := Demand(d, o);
      assert Inside(bs, total, at) && Inside(bs, total, at + 1);
      DemandThatFits(d, o, room);
      var ok := MapBuffer(at, addr, size, room, exact, fault);
      if !ok {
        return None, at;
      }
      Claim(at, Buffer(addr, false, d, o, isAsync), size, room);
      return Some(addr), at;
    }

    /** binder_buffer_lookup: finds exactly the live buffer whose data starts at the user address. */
    method Lookup(userPtr: int, userOffset: int) returns (r: Option<int>)
      requires Valid()
      ensures r.Some? <==> UsedAt(buffers, userPtr - userOffset - HDR)
      ensures r.Some? ==> r.value == userPtr - userOffset - HDR
    {
      var kernPtr := userPtr - userOffset - HDR;
      var found := Find(usedTree, kernPtr);
      return if found then Some(kernPtr) else None;
    }

    /** binder_delete_free_buffer: buffer `j` disappears into its free predecessor. */
    method DeleteFreeBuffer(j: int)
      requires Tiled(buffers, total) && pages.Length == total / PAGE && PagesOk(buffers)
      requires 0 < j < |buffers| && buffers[j - 1].free && buffers[j].free
      modifies this`buffers, pages
      ensures buffers == Drop(old(buffers), j) && Tiled(buffers, total) && PagesOk(buffers)
    {
      ghost var bs := buffers;
      assert j != 0;               // BUG_ON(proc->buffers.next == &buffer->entry)
      assert buffers[j - 1].free;  // BUG_ON(!prev->free)
      var prev, b := buffers[j - 1], buffers[j];
      var freeStart, freeEnd := true, true;
      if EndPage(prev) == StartPage(b) {
        freeStart := false;
        if EndPage(prev) == EndPage(b) {
          freeEnd := false;
        }
      }
      if j + 1 < |buffers| {
        var next := buffers[j + 1];
        if StartPage(next) == EndPage(b) {
          freeEnd := false;
          if StartPage(next) == StartPage(b) {
            freeStart := false;
          }
        }
      }
      DropKeepsTiling(bs, total, j);
      assert Inside(bs, total, j);
      forall k ensures StalePage(bs, j, k) ==> 0 <= k < pages.Length {
      }
      buffers := buffers[..j] + buffers[j + 1..];
      forall k
        ensures Needed(buffers, total, k) <==> Needed(bs, total, k) && !StalePage(bs, j, k)
        ensures StalePage(bs, j, k) ==> Needed(bs, total, k)
        ensures StalePage(bs, j, k) <==>
                  && (freeStart || freeEnd)
                  && (if freeStart then StartPage(b) else EndPage(b)) <= k
                  && k < (if freeEnd then EndPage(b) else StartPage(b)) + 1
      {
        DeletePages(bs, total, j, k);
        DeleteRangeIsStale(bs, total, j, k, freeStart, freeEnd);
      }
      if freeStart || freeEnd {
        UnmapPages(if freeStart then StartPage(b) else EndPage(b), (if freeEnd then EndPage(b) else StartPage(b)) + 1);
      }
    }

    /** The page and list part of binder_free_buf: unmap, mark free, merge with free neighbours. */
    method ReleaseBuffer(i: int)
      requires LayoutOk(buffers, total) && pages.Length == total / PAGE && PagesOk(buffers)
      requires 0 <= i < |buffers| && !buffers[i].free
      modifies this`buffers, pages
      ensures buffers == Freed(old(buffers), i) && LayoutOk(buffers, total) && PagesOk(buffers)
    {
      ghost var bs := buffers;
      var data, size := buffers[i].addr + HDR, Size(buffers, total, i);
      HeaderFits(bs, total, i);
      assert Inside(bs, total, i) && Inside(bs, total, i + 1);
      MarkedFree(bs, total, i);
      MergedNext(Put(bs, i, bs[i].(free := true)), total, i);
      MergedPrev(MergeNext(Put(bs, i, bs[i].(free := true)), i), total, i);
      forall k
        ensures PageUp(data) <= k < PageDown(data + size) ==> Needed(bs, total, k)
        ensures Needed(Put(bs, i, bs[i].(free := true)), total, k) <==>
                  Needed(bs, total, k) && !(PageUp(data) <= k < PageDown(data + size))
      {
        FreePages(bs, total, i, k);
      }
      UnmapPages(PageUp(data), PageDown(data + size));
      buffers := buffers[i := buffers[i].(free := true)];
      if i + 1 < |buffers| && buffers[i + 1].free {
        DeleteFreeBuffer(i + 1);
      }
      if 0 < i && buffers[i - 1].free {
        DeleteFreeBuffer(i);
      }
    }

    /** binder_free_buf. */
    method FreeBuf(addr: int) returns (ghost at: int)
      requires Valid() && UsedAt(buffers, addr)
      modifies this, pages
      ensures Valid() && mapped == old(mapped)
      ensures UsedHere(old(buffers), at, addr) && buffers == Freed(old(buffers), at)
      ensures freeAsync == old(freeAsync) + Charge(old(buffers)[at])
      ensures Count(usedTree) == Count(old(usedTree)) - 1
    {
      ghost var bs := buffers;
      ghost var j :| UsedHere(bs, j, addr);
      var i := IndexOf(buffers, addr);
      AddressIsUnique(bs, total, i, j);
      at := i;
      var b := buffers[i];
      var size := Demand(b.dataSize, b.offsetsSize);
      assert !b.free;                                // BUG_ON(buffer->free)
      assert RoomAt(bs, total, i);
      assert size <= Size(buffers, total, i);        // BUG_ON(size > buffer_size)
      assert Inside(bs, total, i);
      assert 0 <= b.addr <= total;                   // BUG_ON(buffer outside the mapping)
      if b.isAsync {
        freeAsync := freeAsync + (size + HDR);
      }
      Reindex(i);
      ChargesFreed(bs, i);
      ReleaseBuffer(i);
    }

    /** The tree updates of binder_free_buf. */
    method Reindex(i: int)
      requires LayoutOk(buffers, total) && FreeTreeOk(buffers) && UsedTreeOk(buffers)
      requires 0 <= i < |buffers| && !buffers[i].free
      modifies this`freeTree, this`usedTree
      ensures FreeTreeOk(Freed(buffers, i)) && UsedTreeOk(Freed(buffers, i))
      ensures Count(usedTree) == Count(old(usedTree)) - 1
    {
      ghost var bs := buffers;
      var addr := buffers[i].addr;
      assert UsedHere(bs, i, addr);
      forall k, a
        ensures FreeAt(Freed(bs, i), total, k, a) <==>
          || (FreeAt(bs, total, k, a)
              && !(i + 1 < |bs| && bs[i + 1].free && a == bs[i + 1].addr)
              && !(0 < i && bs[i - 1].free && a == bs[i - 1].addr))
          || (a == FreedStart(bs, i) && k == FreedEnd(bs, total, i) - (FreedStart(bs, i) + HDR))
        ensures UsedAt(Freed(bs, i), a) <==> UsedAt(bs, a) && a != addr
        ensures !FreeAt(bs, total, k, addr)
      {
        FreedEntries(bs, total, i, k, a);
      }
      usedTree := Erase(usedTree, addr, addr);
      if i + 1 < |buffers| && buffers[i + 1].free {
        freeTree := EraseFree(i + 1);
      }
      if 0 < i && buffers[i - 1].free {
        freeTree := EraseFree(i - 1);
      }
      var start, end := FreedStart(buffers, i), FreedEnd(buffers, total, i);
      freeTree := Insert(freeTree, end - (start + HDR), start);
    }

    /** The buffer loop of binder_deferred_release: no buffer, page or budget is left behind. */
    method FreeAll()
      requires Valid()
      modifies this, pages
      ensures Valid() && usedTree == Leaf && freeAsync == total / 2
      ensures |buffers| == 1 && buffers[0].free
      ensures forall k :: 0 <= k < pages.Length ==> (pages[k] <==> k == 0)
    {
      while usedTree.Node?
        invariant Valid()
        decreases Count(usedTree)
      {
        var _, addr := First(usedTree);
        ghost var at := FreeBuf(addr);
      }
      forall a ensures !UsedAt(buffers, a) {
        assert !Has(usedTree, a, a);
      }
      AllFreeLeavesOnePage(buffers, total, 0);
      forall k ensures Needed(buffers, total, k) <==> k == 0 {
        AllFreeLeavesOnePage(buffers, total, k);
      }
      assert buffers[1..] == [];
    }

    /** rb_erase of a free buffer's node. */
    method EraseFree(i: int) returns (t: Tree)
      requires Ordered(freeTree) && Tiled(buffers, total) && 0 <= i < |buffers| && buffers[i].free
      requires forall k, a :: Has(freeTree, k, a) ==> FreeAt(buffers, total, k, a)
      ensures Ordered(t) && forall k, a :: Has(t, k, a) <==> Has(freeTree, k, a) && a != buffers[i].addr
    {
      t := Erase(freeTree, Size(buffers, total, i), buffers[i].addr);
      forall k ensures FreeAt(buffers, total, k, buffers[i].addr) ==> k == Size(buffers, total, i) {
        FreeEntryIsUnique(buffers, total, i, k);
      }
    }
  }

  lemma ChargesFreed(bs: seq<Buffer>, i: int)
    requires 0 <= i < |bs|
    ensures Charges(Freed(bs, i)) == Charges(bs) - Charge(bs[i])
  {
    var bs1 := Put(bs, i, bs[i].(free := true));
    ChargesPut(bs, i, bs[i].(free := true));
    if i + 1 < |bs1| && bs1[i + 1].free {
      ChargesDrop(bs1, i + 1);
    }
    var bs2 := MergeNext(bs1, i);
    if 0 < i && bs2[i - 1].free {
      ChargesDrop(bs2, i);
    }
  }

  lemma FreeEntryIsUnique(bs: seq<Buffer>, total: int, i: int, k: int)
    requires Tiled(bs, total) && 0 <= i < |bs| && bs[i].free
    ensures FreeAt(bs, total, k, bs[i].addr) ==> k == Size(bs, total, i)
    ensures !UsedAt(bs, bs[i].addr)
  {
    if j :| FreeHere(bs, total, j, k, bs[i].addr) {
      AddressIsUnique(bs, total, i, j);
    }
    if j :| UsedHere(bs, j, bs[i].addr) {
      AddressIsUnique(bs, total, i, j);
    }
  }

  /** No buffer starts strictly inside buffer `i`. */
  lemma NothingAtCut(bs: seq<Buffer>, total: int, i: int, cut: int, k: int)
    requires Tiled(bs, total) && 0 <= i < |bs| && bs[i].addr < cut < Next(bs, total, i)
    ensures !FreeAt(bs, total, k, cut)
  {
    if j :| FreeHere(bs, total, j, k, cut) {
      assert Apart(bs, j, i) && Apart(bs, i + 1, j) && Inside(bs, total, j);
    }
  }
}
