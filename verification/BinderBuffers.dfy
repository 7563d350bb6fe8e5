/**
 The layout of a process's transaction buffers (driver/binder/binder.c): a list of buffers
 that tiles the mapping, and the pages that must be present for it.  Addresses are offsets from
 the page-aligned start of the mapping.  PAGE_SIZE is 4096.
 */
module BinderBuffers {
  const PAGE := 4096

  type HeaderSize = x: int | 0 < x && x % 8 == 0 && x + 4 < PAGE witness 80

  /** sizeof(struct binder_buffer): any size in words that leaves room for a few bytes in a page. */
  const HDR: HeaderSize
  const WORD := 0x1_0000_0000_0000_0000
  const MAX_MAPPING := 0x40_0000

  datatype Buffer = Buffer(addr: int, free: bool, dataSize: int, offsetsSize: int, isAsync: bool)

  /** ALIGN(x, sizeof(void *)) on size_t. */
  function Align8(x: int): int {
    (x + 7) % WORD / 8 * 8
  }

  /** The space asked for, as size_t arithmetic computes it. */
  function Demand(dataSize: int, offsetsSize: int): int {
    (Align8(dataSize) + Align8(offsetsSize)) % WORD
  }

  /** The driver's sanity check on the two sizes. */
  predicate SizesOk(dataSize: int, offsetsSize: int) {
    Demand(dataSize, offsetsSize) >= dataSize && Demand(dataSize, offsetsSize) >= offsetsSize
  }

  lemma AlignExact(x: int)
    requires 0 <= x < WORD
    ensures x + 7 < WORD ==> Align8(x) == (x + 7) / 8 * 8
    ensures x + 7 >= WORD ==> Align8(x) == 0
    ensures x <= (x + 7) / 8 * 8 < x + 8
  {
    if x + 7 >= WORD {
      assert (x + 7) % WORD == x + 7 - WORD;
    }
  }

  /** The check catches exactly the sizes whose sum wraps around. */
  lemma SizesOkMeansNoWrap(d: int, o: int)
    requires 0 <= d < WORD && 0 <= o < WORD
    ensures SizesOk(d, o) <==> (d + 7) / 8 * 8 + (o + 7) / 8 * 8 < WORD
    ensures SizesOk(d, o) ==> Demand(d, o) == (d + 7) / 8 * 8 + (o + 7) / 8 * 8
  {
    AlignExact(d);
    AlignExact(o);
    var sum := Align8(d) + Align8(o);
    if sum >= WORD {
      assert sum % WORD == sum - WORD;
    }
  }

  /** An accepted demand that fits the mapping is word aligned, and its charge does not wrap. */
  lemma DemandThatFits(d: int, o: int, room: int)
    requires 0 <= d < WORD && 0 <= o < WORD && SizesOk(d, o) && Demand(d, o) <= room <= MAX_MAPPING
    ensures 0 <= Demand(d, o) && Demand(d, o) % 8 == 0 && (Demand(d, o) + HDR) % WORD == Demand(d, o) + HDR
  {
    SizesOkMeansNoWrap(d, o);
    WholeWords((d + 7) / 8, (o + 7) / 8);
    SmallIsItself(Demand(d, o) + HDR);
  }

  lemma WholeWords(a: int, b: int)
    ensures (a * 8 + b * 8) % 8 == 0
  {
    assert a * 8 + b * 8 == (a + b) * 8;
  }

  lemma ThreeWords(a: int, b: int, c: int)
    requires a % 8 == 0 && b % 8 == 0 && c % 8 == 0
    ensures (a + b + c) % 8 == 0
  {
  }

  lemma SmallIsItself(x: int)
    requires 0 <= x < WORD
    ensures x % WORD == x
  {
  }

  // ---------------------------------------------------------------- the list

  /** Where buffer `i` ends: at the next buffer, or at the end of the mapping. */
  function Next(bs: seq<Buffer>, total: int, i: int): int
    requires 0 <= i < |bs|
  {
    if i + 1 < |bs| then bs[i + 1].addr else total
  }

  /** binder_buffer_size. */
  function Size(bs: seq<Buffer>, total: int, i: int): int
    requires 0 <= i < |bs|
  {
    Next(bs, total, i) - (bs[i].addr + HDR)
  }

  predicate Inside(bs: seq<Buffer>, total: int, i: int) {
    0 <= i < |bs| ==> bs[i].addr % 8 == 0 && 0 <= bs[i].addr && bs[i].addr + HDR <= total
  }

  predicate Apart(bs: seq<Buffer>, i: int, j: int) {
    0 <= i < j < |bs| ==> bs[i].addr + HDR <= bs[j].addr
  }

  /** The list tiles the mapping in address order. */
  ghost predicate Tiled(bs: seq<Buffer>, total: int) {
    && 0 < total <= MAX_MAPPING && total % PAGE == 0
    && |bs| > 0 && bs[0].addr == 0
    && (forall i {:trigger Inside(bs, total, i)} :: Inside(bs, total, i))
    && (forall i, j {:trigger Apart(bs, i, j)} :: Apart(bs, i, j))
  }

  predicate NotTwin(bs: seq<Buffer>, i: int) {
    0 <= i < |bs| - 1 ==> !(bs[i].free && bs[i + 1].free)
  }

  /** No two neighbouring buffers are both free. */
  ghost predicate NoTwins(bs: seq<Buffer>) {
    forall i {:trigger NotTwin(bs, i)} :: NotTwin(bs, i)
  }

  predicate RoomAt(bs: seq<Buffer>, total: int, i: int) {
    0 <= i < |bs| && !bs[i].free ==> 0 <= Demand(bs[i].dataSize, bs[i].offsetsSize) <= Size(bs, total, i)
  }

  /** An allocated buffer has room for what was asked. */
  ghost predicate Roomy(bs: seq<Buffer>, total: int) {
    forall i {:trigger RoomAt(bs, total, i)} :: RoomAt(bs, total, i)
  }

  /** The bytes of buffer `i` that must be backed by pages: the header, and the data if allocated. */
  function BackedEnd(bs: seq<Buffer>, total: int, i: int): int
    requires 0 <= i < |bs|
  {
    if bs[i].free then bs[i].addr + HDR else Next(bs, total, i)
  }

  predicate Meets(lo: int, hi: int, k: int) {
    lo < (k + 1) * PAGE && k * PAGE < hi
  }

  predicate MeetsAt(bs: seq<Buffer>, total: int, i: int, k: int) {
    0 <= i < |bs| && Meets(bs[i].addr, BackedEnd(bs, total, i), k)
  }

  /** Page `k` meets the header of some buffer or the data of an allocated one. */
  ghost predicate Needed(bs: seq<Buffer>, total: int, k: int) {
    exists i :: MeetsAt(bs, total, i, k)
  }

  function PageUp(x: int): int {
    (x + PAGE - 1) / PAGE
  }

  function PageDown(x: int): int {
    x / PAGE
  }

  // ---------------------------------------------------------------- the four edits

  function Put(bs: seq<Buffer>, i: int, b: Buffer): seq<Buffer>
    requires 0 <= i < |bs|
  {
    bs[i := b]
  }

  /** A new free buffer behind buffer `i`. */
  function Split(bs: seq<Buffer>, i: int, addr: int): seq<Buffer>
    requires 0 <= i < |bs|
  {
    bs[..i + 1] + [Buffer(addr, true, 0, 0, false)] + bs[i + 1..]
  }

  /** What stands at position `j` after Split. */
  function SplitAt(bs: seq<Buffer>, i: int, addr: int, j: int): Buffer
    requires 0 <= i < |bs| && 0 <= j <= |bs|
  {
    if j <= i then bs[j] else if j == i + 1 then Buffer(addr, true, 0, 0, false) else bs[j - 1]
  }

  function Drop(bs: seq<Buffer>, j: int): seq<Buffer>
    requires 0 <= j < |bs|
  {
    bs[..j] + bs[j + 1..]
  }

  lemma PutKeepsTiling(bs: seq<Buffer>, total: int, i: int, b: Buffer)
    requires Tiled(bs, total) && 0 <= i < |bs| && b.addr == bs[i].addr
    ensures Tiled(Put(bs, i, b), total)
  {
    var bs' := Put(bs, i, b);
    forall j ensures Inside(bs', total, j) {
      assert Inside(bs, total, j);
    }
    forall j, k ensures Apart(bs', j, k) {
      assert Apart(bs, j, k);
    }
  }

  lemma SplitKeepsTiling(bs: seq<Buffer>, total: int, i: int, addr: int)
    requires Tiled(bs, total) && 0 <= i < |bs|
    requires addr % 8 == 0 && bs[i].addr + HDR <= addr && addr + HDR <= Next(bs, total, i)
    ensures Tiled(Split(bs, i, addr), total)
  {
    var bs' := Split(bs, i, addr);
    assert Inside(bs, total, i) && Inside(bs, total, i + 1);
    forall j ensures Inside(bs', total, j) {
      if 0 <= j < |bs'| {
        assert bs'[j] == SplitAt(bs, i, addr, j);
        assert Inside(bs, total, j) && Inside(bs, total, j - 1);
      }
    }
    forall j, k ensures Apart(bs', j, k) {
      if 0 <= j < k < |bs'| {
        assert bs'[j] == SplitAt(bs, i, addr, j) && bs'[k] == SplitAt(bs, i, addr, k);
        assert Apart(bs, if j <= i then j else j - 1, if k <= i then k else k - 1);
        assert Apart(bs, j, i) && Apart(bs, i + 1, k - 1);
      }
    }
  }

  lemma DropKeepsTiling(bs: seq<Buffer>, total: int, j: int)
    requires Tiled(bs, total) && 0 < j < |bs|
    ensures Tiled(Drop(bs, j), total)
  {
    var bs' := Drop(bs, j);
    forall i ensures Inside(bs', total, i) {
      assert Inside(bs, total, if i < j then i else i + 1);
      assert 0 <= i < |bs'| ==> bs'[i] == bs[if i < j then i else i + 1];
    }
    forall i, k ensures Apart(bs', i, k) {
      assert Apart(bs, if i < j then i else i + 1, if k < j then k else k + 1);
      assert 0 <= i < k < |bs'| ==>
        bs'[i] == bs[if i < j then i else i + 1] && bs'[k] == bs[if k < j then k else k + 1];
    }
  }

  // ---------------------------------------------------------------- pages

  lemma HeaderFits(bs: seq<Buffer>, total: int, i: int)
    requires Tiled(bs, total) && 0 <= i < |bs|
    ensures bs[i].addr + HDR <= Next(bs, total, i) && bs[i].addr + HDR <= BackedEnd(bs, total, i)
  {
    assert Apart(bs, i, i + 1) && Inside(bs, total, i);
  }

  /** Pages strictly inside the data of buffer `i` meet nothing else. */
  lemma InnerPages(bs: seq<Buffer>, total: int, i: int, k: int, j: int)
    requires Tiled(bs, total) && 0 <= i < |bs| && 0 <= j < |bs| && j != i
    requires PageUp(bs[i].addr + HDR) <= k < PageDown(Next(bs, total, i))
    ensures !MeetsAt(bs, total, j, k)
  {
    assert Apart(bs, j + 1, i) && Apart(bs, j, i) && Apart(bs, i + 1, j);
  }

  lemma PutMeets(bs: seq<Buffer>, total: int, i: int, b: Buffer, j: int, k: int)
    requires 0 <= i < |bs| && b.addr == bs[i].addr
    ensures j != i ==> (MeetsAt(Put(bs, i, b), total, j, k) <==> MeetsAt(bs, total, j, k))
    ensures MeetsAt(Put(bs, i, b), total, i, k) <==>
      Meets(b.addr, if b.free then b.addr + HDR else Next(bs, total, i), k)
  {
  }

  /** What a change of buffer `i` in place does to the needed pages. */
  lemma PutPages(bs: seq<Buffer>, total: int, i: int, b: Buffer, k: int)
    requires 0 <= i < |bs| && b.addr == bs[i].addr
    ensures Needed(Put(bs, i, b), total, k) <==>
      || Meets(b.addr, if b.free then b.addr + HDR else Next(bs, total, i), k)
      || exists j :: j != i && MeetsAt(bs, total, j, k)
  {
    PutMeets(bs, total, i, b, i, k);
    if j :| j != i && MeetsAt(bs, total, j, k) {
      PutMeets(bs, total, i, b, j, k);
      assert MeetsAt(Put(bs, i, b), total, j, k);
    }
    if Needed(Put(bs, i, b), total, k) {
      var j :| MeetsAt(Put(bs, i, b), total, j, k);
      PutMeets(bs, total, i, b, j, k);
    }
  }

  /** binder_free_buf: the pages it unmaps are exactly those needed no more. */
  lemma FreePages(bs: seq<Buffer>, total: int, i: int, k: int)
    requires Tiled(bs, total) && 0 <= i < |bs| && !bs[i].free
    ensures
      var inside := PageUp(bs[i].addr + HDR) <= k < PageDown(Next(bs, total, i));
      && (inside ==> Needed(bs, total, k))
      && (Needed(Put(bs, i, bs[i].(free := true)), total, k) <==> Needed(bs, total, k) && !inside)
  {
    PutPages(bs, total, i, bs[i].(free := true), k);
    PutPages(bs, total, i, bs[i], k);
    HeaderFits(bs, total, i);
    assert Put(bs, i, bs[i]) == bs;
    if PageUp(bs[i].addr + HDR) <= k < PageDown(Next(bs, total, i)) {
      forall j | j != i ensures !MeetsAt(bs, total, j, k) {
        if 0 <= j < |bs| {
          InnerPages(bs, total, i, k, j);
        }
      }
    } else if Meets(bs[i].addr, Next(bs, total, i), k) {
      EdgePage(bs, total, i, k);
    }
  }

  /** A page that meets buffer `i` outside its inner pages meets a header. */
  lemma EdgePage(bs: seq<Buffer>, total: int, i: int, k: int)
    requires Tiled(bs, total) && 0 <= i < |bs| && Meets(bs[i].addr, Next(bs, total, i), k)
    requires !(PageUp(bs[i].addr + HDR) <= k < PageDown(Next(bs, total, i)))
    ensures Meets(bs[i].addr, bs[i].addr + HDR, k) || MeetsAt(bs, total, i + 1, k)
    ensures Needed(bs, total, k)
  {
    assert Apart(bs, i, i + 1) && Inside(bs, total, i);
    if k < PageUp(bs[i].addr + HDR) {
      assert MeetsAt(bs, total, i, k);
    } else {
      assert i + 1 < |bs|;
      HeaderFits(bs, total, i + 1);
      assert MeetsAt(bs, total, i + 1, k);
    }
  }

  // ---- allocation

  /** The size binder_alloc_buf maps pages for: the data, plus a header if the rest is split off. */
  function MappedSize(size: int, room: int): int {
    if size == room || size + HDR + 4 >= room then size else size + HDR
  }

  /** The list after binder_alloc_buf turned free buffer `i` into `b`. */
  function Allocated(bs: seq<Buffer>, total: int, i: int, b: Buffer, size: int): seq<Buffer>
    requires 0 <= i < |bs|
  {
    if MappedSize(size, Size(bs, total, i)) == size then Put(bs, i, b)
    else Split(Put(bs, i, b), i, bs[i].addr + HDR + size)
  }

  /** The pages binder_alloc_buf maps. */
  predicate FreshPage(bs: seq<Buffer>, total: int, i: int, size: int, k: int)
    requires 0 <= i < |bs|
  {
    var data := bs[i].addr + HDR;
    PageUp(data) <= k < PageUp(data + MappedSize(size, Size(bs, total, i))) && k < PageDown(Next(bs, total, i))
  }

  /** Nothing needs a page inside a free buffer. */
  lemma FreshPageIsUnneeded(bs: seq<Buffer>, total: int, i: int, size: int, k: int)
    requires Tiled(bs, total) && 0 <= i < |bs| && bs[i].free && FreshPage(bs, total, i, size, k)
    ensures !Needed(bs, total, k)
  {
    forall j | 0 <= j < |bs| ensures !MeetsAt(bs, total, j, k) {
      if j != i {
        InnerPages(bs, total, i, k, j);
      }
    }
  }

  lemma AllocPagesWhole(bs: seq<Buffer>, total: int, i: int, b: Buffer, size: int, k: int)
    requires Tiled(bs, total) && 0 <= i < |bs| && bs[i].free && !b.free && b.addr == bs[i].addr
    requires 0 <= size <= Size(bs, total, i) && MappedSize(size, Size(bs, total, i)) == size
    ensures Needed(Put(bs, i, b), total, k) <==> Needed(bs, total, k) || FreshPage(bs, total, i, size, k)
  {
    PutPages(bs, total, i, b, k);
    PutPages(bs, total, i, bs[i], k);
    assert Put(bs, i, bs[i]) == bs;
    if Meets(bs[i].addr, Next(bs, total, i), k) && !FreshPage(bs, total, i, size, k) {
      EdgePage(bs, total, i, k);
    }
  }

  /** Splitting an allocated buffer: its pages become those of the first part and the new header. */
  lemma SplitMeets(mid: seq<Buffer>, total: int, i: int, cut: int, n: int, k: int)
    requires 0 <= i < |mid| && !mid[i].free && 0 <= n <= |mid|
    ensures MeetsAt(Split(mid, i, cut), total, n, k) <==>
      if n == i then Meets(mid[i].addr, cut, k)
      else if n == i + 1 then Meets(cut, cut + HDR, k)
      else MeetsAt(mid, total, if n < i then n else n - 1, k)
  {
    var bs' := Split(mid, i, cut);
    assert bs'[n] == SplitAt(mid, i, cut, n);
    if n < |mid| {
      assert bs'[n + 1] == SplitAt(mid, i, cut, n + 1);
    }
  }

  lemma SplitPages(mid: seq<Buffer>, total: int, i: int, cut: int, k: int)
    requires 0 <= i < |mid| && !mid[i].free && mid[i].addr < cut
    ensures Needed(Split(mid, i, cut), total, k) <==>
      Meets(mid[i].addr, cut + HDR, k) || exists j :: j != i && MeetsAt(mid, total, j, k)
  {
    var bs' := Split(mid, i, cut);
    SplitMeets(mid, total, i, cut, i, k);
    SplitMeets(mid, total, i, cut, i + 1, k);
    if j :| j != i && MeetsAt(mid, total, j, k) {
      SplitMeets(mid, total, i, cut, if j < i then j else j + 1, k);
      assert MeetsAt(bs', total, if j < i then j else j + 1, k);
    }
    if Meets(mid[i].addr, cut + HDR, k) {
      assert MeetsAt(bs', total, i, k) || MeetsAt(bs', total, i + 1, k);
    }
    if Needed(bs', total, k) {
      var n :| MeetsAt(bs', total, n, k);
      SplitMeets(mid, total, i, cut, n, k);
    }
  }

  lemma AllocPagesSplit(bs: seq<Buffer>, total: int, i: int, b: Buffer, size: int, k: int)
    requires Tiled(bs, total) && 0 <= i < |bs| && bs[i].free && !b.free && b.addr == bs[i].addr
    requires 0 <= size && size % 8 == 0 && size + HDR + 4 < Size(bs, total, i)
    ensures Needed(Split(Put(bs, i, b), i, bs[i].addr + HDR + size), total, k)
            <==> Needed(bs, total, k) || FreshPage(bs, total, i, size, k)
  {
    var cut := bs[i].addr + HDR + size;
    var mid := Put(bs, i, b);
    SplitPages(mid, total, i, cut, k);
    PutPages(bs, total, i, bs[i], k);
    assert Put(bs, i, bs[i]) == bs;
    if j :| j != i && MeetsAt(bs, total, j, k) {
      PutMeets(bs, total, i, b, j, k);
      assert MeetsAt(mid, total, j, k);
    }
    if j :| j != i && MeetsAt(mid, total, j, k) {
      PutMeets(bs, total, i, b, j, k);
    }
    if Meets(bs[i].addr, cut + HDR, k) && !FreshPage(bs, total, i, size, k) {
      EdgePage(bs, total, i, k);
    }
  }

  /** After an allocation the needed pages are the old ones and the ones just mapped, which
      nothing needed before. */
  lemma AllocPages(bs: seq<Buffer>, total: int, i: int, b: Buffer, size: int, k: int)
    requires Tiled(bs, total) && 0 <= i < |bs| && bs[i].free && !b.free && b.addr == bs[i].addr
    requires 0 <= size <= Size(bs, total, i) && size % 8 == 0
    ensures Needed(Allocated(bs, total, i, b, size), total, k) <==>
      Needed(bs, total, k) || FreshPage(bs, total, i, size, k)
    ensures FreshPage(bs, total, i, size, k) ==> !Needed(bs, total, k)
  {
    if MappedSize(size, Size(bs, total, i)) == size {
      AllocPagesWhole(bs, total, i, b, size, k);
    } else {
      AllocPagesSplit(bs, total, i, b, size, k);
    }
    if FreshPage(bs, total, i, size, k) {
      FreshPageIsUnneeded(bs, total, i, size, k);
    }
  }

  // ---- merging

  function StartPage(b: Buffer): int {
    PageDown(b.addr)
  }

  function EndPage(b: Buffer): int {
    PageDown(b.addr + HDR - 1)
  }

  /** The pages binder_delete_free_buffer unmaps when it removes the header of buffer `j`: the
      header's one or two pages, except those shared with a neighbouring header. */
  predicate StalePage(bs: seq<Buffer>, j: int, k: int)
    requires 0 < j < |bs|
  {
    StartPage(bs[j]) <= k <= EndPage(bs[j]) && EndPage(bs[j - 1]) != k && (j + 1 < |bs| ==> StartPage(bs[j + 1]) != k)
  }

  lemma DropMeets(bs: seq<Buffer>, total: int, j: int, n: int, k: int)
    requires 0 < j < |bs| && bs[j - 1].free && bs[j].free && 0 <= n < |bs| - 1
    ensures MeetsAt(Drop(bs, j), total, n, k) <==> MeetsAt(bs, total, if n < j then n else n + 1, k)
  {
    var bs' := Drop(bs, j);
    assert bs'[n] == bs[if n < j then n else n + 1];
    if n + 1 < |bs'| {
      assert bs'[n + 1] == bs[if n + 1 < j then n + 1 else n + 2];
    }
  }

  /** Removing a free header behind a free buffer removes just that header's pages. */
  lemma DropPages(bs: seq<Buffer>, total: int, j: int, k: int)
    requires 0 < j < |bs| && bs[j - 1].free && bs[j].free
    ensures Needed(Drop(bs, j), total, k) <==> exists i :: i != j && MeetsAt(bs, total, i, k)
  {
    if i :| i != j && MeetsAt(bs, total, i, k) {
      DropMeets(bs, total, j, if i < j then i else i - 1, k);
      assert MeetsAt(Drop(bs, j), total, if i < j then i else i - 1, k);
    }
    if Needed(Drop(bs, j), total, k) {
      var n :| MeetsAt(Drop(bs, j), total, n, k);
      DropMeets(bs, total, j, n, k);
    }
  }

  lemma DeletePages(bs: seq<Buffer>, total: int, j: int, k: int)
    requires Tiled(bs, total) && 0 < j < |bs| && bs[j - 1].free && bs[j].free
    ensures Needed(Drop(bs, j), total, k) <==> Needed(bs, total, k) && !StalePage(bs, j, k)
    ensures StalePage(bs, j, k) ==> Needed(bs, total, k)
  {
    DropPages(bs, total, j, k);
    assert Apart(bs, j - 1, j) && Apart(bs, j, j + 1) && Inside(bs, total, j - 1) && Inside(bs, total, j);
    if StalePage(bs, j, k) {
      assert MeetsAt(bs, total, j, k);
      forall i | 0 <= i < |bs| && i != j ensures !MeetsAt(bs, total, i, k) {
        StaleMeetsNothing(bs, total, j, k, i);
      }
    } else if Needed(bs, total, k) {
      var i :| 0 <= i < |bs| && MeetsAt(bs, total, i, k);
      var n := if i != j then i else if EndPage(bs[j - 1]) == k then j - 1 else j + 1;
      HeaderFits(bs, total, n);
      assert MeetsAt(bs, total, n, k);
    }
  }

  lemma StaleMeetsNothing(bs: seq<Buffer>, total: int, j: int, k: int, i: int)
    requires Tiled(bs, total) && 0 < j < |bs| && bs[j - 1].free && StalePage(bs, j, k)
    requires 0 <= i < |bs| && i != j
    ensures !MeetsAt(bs, total, i, k)
  {
    assert Apart(bs, i, j - 1) && Apart(bs, i + 1, j - 1) && Apart(bs, j - 1, j) && Apart(bs, j, j + 1) &&
      Apart(bs, j + 1, i);
    assert Inside(bs, total, j - 1) && Inside(bs, total, i);
  }

  /** The driver's case analysis on shared pages computes exactly the stale ones. */
  lemma DeleteRangeIsStale(bs: seq<Buffer>, total: int, j: int, k: int, freeStart: bool, freeEnd: bool)
    requires Tiled(bs, total) && 0 < j < |bs|
    requires
      var s, e, pe := StartPage(bs[j]), EndPage(bs[j]), EndPage(bs[j - 1]);
      var hasNext := j + 1 < |bs|;
      && (freeStart <==> pe != s && !(hasNext && StartPage(bs[j + 1]) == e && e == s))
      && (freeEnd <==> !(pe == s && pe == e) && !(hasNext && StartPage(bs[j + 1]) == e))
    ensures StalePage(bs, j, k) <==>
      && (freeStart || freeEnd)
      && (if freeStart then StartPage(bs[j]) else EndPage(bs[j])) <= k
      && k < (if freeEnd then EndPage(bs[j]) else StartPage(bs[j])) + 1
  {
    assert Apart(bs, j - 1, j) && Apart(bs, j, j + 1) && Inside(bs, total, j - 1);
  }

  // ---------------------------------------------------------------- the two indexes

  predicate FreeHere(bs: seq<Buffer>, total: int, i: int, k: int, a: int) {
    0 <= i < |bs| && bs[i].free && bs[i].addr == a && Size(bs, total, i) == k
  }

  predicate UsedHere(bs: seq<Buffer>, i: int, a: int) {
    0 <= i < |bs| && !bs[i].free && bs[i].addr == a
  }

  /** A free buffer of size `k` stands at address `a`. */
  ghost predicate FreeAt(bs: seq<Buffer>, total: int, k: int, a: int) {
    exists i :: FreeHere(bs, total, i, k, a)
  }

  ghost predicate UsedAt(bs: seq<Buffer>, a: int) {
    exists i :: UsedHere(bs, i, a)
  }

  /** Where the buffer with address `a` stands in the list. */
  function IndexOf(bs: seq<Buffer>, a: int): (i: int)
    requires exists j :: 0 <= j < |bs| && bs[j].addr == a
    ensures 0 <= i < |bs| && bs[i].addr == a
  {
    if bs[0].addr == a then 0
    else
      assert exists j :: 0 <= j < |bs[1..]| && bs[1..][j].addr == a by {
        var j :| 0 <= j < |bs| && bs[j].addr == a;
        assert bs[1..][j - 1].addr == a;
      }
      1 + IndexOf(bs[1..], a)
  }

  lemma AddressIsUnique(bs: seq<Buffer>, total: int, i: int, j: int)
    requires Tiled(bs, total) && 0 <= i < |bs| && 0 <= j < |bs| && bs[i].addr == bs[j].addr
    ensures i == j
  {
    assert Apart(bs, i, j) && Apart(bs, j, i);
  }

  /** Buffer `i` becomes allocated: its entry moves from the free index to the allocated one. */
  lemma UseEntries(bs: seq<Buffer>, total: int, i: int, b: Buffer, k: int, a: int)
    requires Tiled(bs, total) && 0 <= i < |bs| && bs[i].free && !b.free && b.addr == bs[i].addr
    ensures FreeAt(Put(bs, i, b), total, k, a) <==> FreeAt(bs, total, k, a) && a != bs[i].addr
    ensures UsedAt(Put(bs, i, b), a) <==> UsedAt(bs, a) || a == bs[i].addr
  {
    var bs' := Put(bs, i, b);
    if FreeAt(bs', total, k, a) {
      var j :| FreeHere(bs', total, j, k, a);
      assert FreeHere(bs, total, j, k, a);
      if a == bs[i].addr {
        AddressIsUnique(bs, total, i, j);
      }
    }
    if FreeAt(bs, total, k, a) && a != bs[i].addr {
      var j :| FreeHere(bs, total, j, k, a);
      assert FreeHere(bs', total, j, k, a);
    }
    if UsedAt(bs, a) {
      var j :| UsedHere(bs, j, a);
      assert UsedHere(bs', j, a);
    }
    if UsedAt(bs', a) {
      var j :| UsedHere(bs', j, a);
      assert j != i ==> UsedHere(bs, j, a);
    }
    assert UsedHere(bs', i, bs[i].addr);
  }

  /** Buffer `i` becomes free. */
  lemma UnuseEntries(bs: seq<Buffer>, total: int, i: int, k: int, a: int)
    requires Tiled(bs, total) && 0 <= i < |bs| && !bs[i].free
    ensures var bs' := Put(bs, i, bs[i].(free := true));
      && (FreeAt(bs', total, k, a) <==> FreeAt(bs, total, k, a) || (a == bs[i].addr && k == Size(bs, total, i)))
      && (UsedAt(bs', a) <==> UsedAt(bs, a) && a != bs[i].addr)
      && !FreeAt(bs, total, k, bs[i].addr)
  {
    var bs' := Put(bs, i, bs[i].(free := true));
    PutKeepsTiling(bs, total, i, bs[i].(free := true));
    UseEntries(bs', total, i, bs[i], k, a);
    UseEntries(bs', total, i, bs[i], k, bs[i].addr);
    assert Put(bs', i, bs[i]) == bs;
    assert FreeHere(bs', total, i, Size(bs, total, i), bs[i].addr);
    if FreeAt(bs', total, k, a) && a == bs[i].addr {
      var j :| FreeHere(bs', total, j, k, a);
      AddressIsUnique(bs', total, i, j);
    }
    if UsedAt(bs', a) && a == bs[i].addr {
      var j :| UsedHere(bs', j, a);
      AddressIsUnique(bs', total, i, j);
    }
  }

  /** A new free header inside an allocated buffer. */
  lemma SplitEntries(mid: seq<Buffer>, total: int, i: int, cut: int, k: int, a: int)
    requires 0 <= i < |mid| && !mid[i].free
    ensures FreeAt(Split(mid, i, cut), total, k, a) <==>
      FreeAt(mid, total, k, a) || (a == cut && k == Next(mid, total, i) - (cut + HDR))
    ensures UsedAt(Split(mid, i, cut), a) <==> UsedAt(mid, a)
  {
    var bs' := Split(mid, i, cut);
    if FreeAt(mid, total, k, a) {
      var j :| FreeHere(mid, total, j, k, a);
      SplitSize(mid, total, i, cut, if j < i then j else j + 1);
      assert FreeHere(bs', total, if j < i then j else j + 1, k, a);
    }
    SplitSize(mid, total, i, cut, i + 1);
    assert FreeHere(bs', total, i + 1, Next(mid, total, i) - (cut + HDR), cut);
    if FreeAt(bs', total, k, a) {
      var n :| FreeHere(bs', total, n, k, a);
      SplitSize(mid, total, i, cut, n);
      assert n != i + 1 ==> FreeHere(mid, total, if n < i then n else n - 1, k, a);
    }
    if UsedAt(mid, a) {
      var j :| UsedHere(mid, j, a);
      assert bs'[if j <= i then j else j + 1] == mid[j] && UsedHere(bs', if j <= i then j else j + 1, a);
    }
    if UsedAt(bs', a) {
      var n :| UsedHere(bs', n, a);
      assert bs'[n] == SplitAt(mid, i, cut, n) && UsedHere(mid, if n <= i then n else n - 1, a);
    }
  }

  lemma SplitSize(mid: seq<Buffer>, total: int, i: int, cut: int, n: int)
    requires 0 <= i < |mid| && 0 <= n <= |mid|
    ensures var bs' := Split(mid, i, cut);
      && bs'[n] == SplitAt(mid, i, cut, n)
      && Size(bs', total, n) ==
         if n < i then Size(mid, total, n)
         else if n == i then cut - (mid[i].addr + HDR)
         else if n == i + 1 then Next(mid, total, i) - (cut + HDR)
         else Size(mid, total, n - 1)
  {
    var bs' := Split(mid, i, cut);
    assert bs'[n] == SplitAt(mid, i, cut, n);
    if n < |mid| {
      assert bs'[n + 1] == SplitAt(mid, i, cut, n + 1);
    }
  }

  lemma DropSize(bs: seq<Buffer>, total: int, j: int, n: int)
    requires 0 < j < |bs| && 0 <= n < |bs| - 1
    ensures var bs' := Drop(bs, j);
      && bs'[n] == bs[if n < j then n else n + 1]
      && Size(bs', total, n) ==
         if n < j - 1 then Size(bs, total, n)
         else if n == j - 1 then Next(bs, total, j) - (bs[j - 1].addr + HDR)
         else Size(bs, total, n + 1)
  {
    var bs' := Drop(bs, j);
    assert bs'[n] == bs[if n < j then n else n + 1];
    if n + 1 < |bs'| {
      assert bs'[n + 1] == bs[if n + 1 < j then n + 1 else n + 2];
    }
  }

  /** Two neighbouring free buffers become one. */
  lemma DropEntries(bs: seq<Buffer>, total: int, j: int, k: int, a: int)
    requires Tiled(bs, total) && 0 < j < |bs| && bs[j - 1].free && bs[j].free
    ensures FreeAt(Drop(bs, j), total, k, a) <==>
      || (FreeAt(bs, total, k, a) && a != bs[j - 1].addr && a != bs[j].addr)
      || (a == bs[j - 1].addr && k == Next(bs, total, j) - (bs[j - 1].addr + HDR))
    ensures UsedAt(Drop(bs, j), a) <==> UsedAt(bs, a)
  {
    var bs' := Drop(bs, j);
    if FreeAt(bs, total, k, a) && a != bs[j - 1].addr && a != bs[j].addr {
      var i :| FreeHere(bs, total, i, k, a);
      DropSize(bs, total, j, if i < j then i else i - 1);
      assert FreeHere(bs', total, if i < j then i else i - 1, k, a);
    }
    DropSize(bs, total, j, j - 1);
    assert FreeHere(bs', total, j - 1, Next(bs, total, j) - (bs[j - 1].addr + HDR), bs[j - 1].addr);
    if FreeAt(bs', total, k, a) {
      var n :| FreeHere(bs', total, n, k, a);
      DropSize(bs, total, j, n);
      if n != j - 1 {
        var i := if n < j then n else n + 1;
        assert FreeHere(bs, total, i, k, a);
        DistinctAddresses(bs, total, i, j - 1);
        DistinctAddresses(bs, total, i, j);
      }
    }
    if UsedAt(bs, a) {
      var i :| UsedHere(bs, i, a);
      DropSize(bs, total, j, if i < j then i else i - 1);
      assert UsedHere(bs', if i < j then i else i - 1, a);
    }
    if UsedAt(bs', a) {
      var n :| UsedHere(bs', n, a);
      DropSize(bs, total, j, n);
      assert UsedHere(bs, if n < j then n else n + 1, a);
    }
  }

  lemma DistinctAddresses(bs: seq<Buffer>, total: int, i: int, j: int)
    requires Tiled(bs, total) && 0 <= i < |bs| && 0 <= j < |bs| && i != j
    ensures bs[i].addr != bs[j].addr
  {
    assert Apart(bs, i, j) && Apart(bs, j, i);
  }

  // ---------------------------------------------------------------- the async budget

  /** What a live one-way buffer is charged. */
  function Charge(b: Buffer): int {
    if !b.free && b.isAsync then Demand(b.dataSize, b.offsetsSize) + HDR else 0
  }

  function Charges(bs: seq<Buffer>): int {
    if bs == [] then 0 else Charge(bs[0]) + Charges(bs[1..])
  }

  lemma ChargesConcat(x: seq<Buffer>, y: seq<Buffer>)
    ensures Charges(x + y) == Charges(x) + Charges(y)
  {
    if x == [] {
      assert x + y == y;
    } else {
      assert (x + y)[1..] == x[1..] + y;
      ChargesConcat(x[1..], y);
    }
  }

  lemma ChargesOfOne(b: Buffer)
    ensures Charges([b]) == Charge(b)
  {
    assert [b][1..] == [];
  }

  lemma ChargesPut(bs: seq<Buffer>, i: int, b: Buffer)
    requires 0 <= i < |bs|
    ensures Charges(Put(bs, i, b)) == Charges(bs) - Charge(bs[i]) + Charge(b)
  {
    assert bs == bs[..i] + ([bs[i]] + bs[i + 1..]);
    assert Put(bs, i, b) == bs[..i] + ([b] + bs[i + 1..]);
    ChargesConcat(bs[..i], [bs[i]] + bs[i + 1..]);
    ChargesConcat(bs[..i], [b] + bs[i + 1..]);
    ChargesConcat([bs[i]], bs[i + 1..]);
    ChargesConcat([b], bs[i + 1..]);
    ChargesOfOne(b);
    ChargesOfOne(bs[i]);
  }

  lemma ChargesSplit(bs: seq<Buffer>, i: int, addr: int)
    requires 0 <= i < |bs|
    ensures Charges(Split(bs, i, addr)) == Charges(bs)
  {
    var n := Buffer(addr, true, 0, 0, false);
    assert bs == bs[..i + 1] + bs[i + 1..];
    ChargesConcat(bs[..i + 1], bs[i + 1..]);
    ChargesConcat(bs[..i + 1] + [n], bs[i + 1..]);
    ChargesConcat(bs[..i + 1], [n]);
    ChargesOfOne(n);
  }

  lemma ChargesDrop(bs: seq<Buffer>, j: int)
    requires 0 <= j < |bs| && bs[j].free
    ensures Charges(Drop(bs, j)) == Charges(bs)
  {
    assert bs == bs[..j] + ([bs[j]] + bs[j + 1..]);
    ChargesConcat(bs[..j], [bs[j]] + bs[j + 1..]);
    ChargesConcat([bs[j]], bs[j + 1..]);
    ChargesConcat(bs[..j], bs[j + 1..]);
    ChargesOfOne(bs[j]);
  }

  // ---------------------------------------------------------------- whole operations

  ghost predicate LayoutOk(bs: seq<Buffer>, total: int) {
    Tiled(bs, total) && NoTwins(bs) && Roomy(bs, total)
  }

  lemma SplitKeepsRules(mid: seq<Buffer>, total: int, i: int, cut: int, n: int)
    requires 0 <= i < |mid| && !mid[i].free && (i + 1 < |mid| ==> !mid[i + 1].free)
    requires 0 <= Demand(mid[i].dataSize, mid[i].offsetsSize) <= cut - (mid[i].addr + HDR)
    requires RoomAt(mid, total, n) && NotTwin(mid, n) && RoomAt(mid, total, n - 1) && NotTwin(mid, n - 1)
    ensures RoomAt(Split(mid, i, cut), total, n) && NotTwin(Split(mid, i, cut), n)
  {
    if 0 <= n <= |mid| {
      SplitSize(mid, total, i, cut, n);
    }
    if 0 <= n < |mid| {
      SplitSize(mid, total, i, cut, n + 1);
    }
  }

  lemma AllocatedKeepsLayout(bs: seq<Buffer>, total: int, i: int, b: Buffer)
    requires LayoutOk(bs, total) && 0 <= i < |bs| && bs[i].free && !b.free && b.addr == bs[i].addr
    requires var size := Demand(b.dataSize, b.offsetsSize); 0 <= size <= Size(bs, total, i) && size % 8 == 0
    ensures LayoutOk(Allocated(bs, total, i, b, Demand(b.dataSize, b.offsetsSize)), total)
  {
    var size := Demand(b.dataSize, b.offsetsSize);
    var mid, bs' := Put(bs, i, b), Allocated(bs, total, i, b, size);
    PutKeepsTiling(bs, total, i, b);
    forall n ensures RoomAt(mid, total, n) && NotTwin(mid, n) {
      assert RoomAt(bs, total, n) && NotTwin(bs, n);
    }
    if bs' != mid {
      var cut := bs[i].addr + HDR + size;
      assert Inside(bs, total, i) && NotTwin(bs, i);
      ThreeWords(bs[i].addr, HDR, size);
      SplitKeepsTiling(mid, total, i, cut);
      forall n ensures RoomAt(bs', total, n) && NotTwin(bs', n) {
        assert RoomAt(mid, total, n) && NotTwin(mid, n) && RoomAt(mid, total, n - 1) && NotTwin(mid, n - 1);
        SplitKeepsRules(mid, total, i, cut, n);
      }
    }
  }

  /** The list after buffer `i` was freed and merged with its free neighbours. */
  function MergeNext(bs: seq<Buffer>, i: int): seq<Buffer>
    requires 0 <= i < |bs|
  {
    if i + 1 < |bs| && bs[i + 1].free then Drop(bs, i + 1) else bs
  }

  function MergePrev(bs: seq<Buffer>, i: int): seq<Buffer>
    requires 0 <= i < |bs|
  {
    if 0 < i && bs[i - 1].free then Drop(bs, i) else bs
  }

  function Freed(bs: seq<Buffer>, i: int): seq<Buffer>
    requires 0 <= i < |bs|
  {
    MergePrev(MergeNext(Put(bs, i, bs[i].(free := true)), i), i)
  }

  /** Buffer `i` is free, and only it may have free neighbours. */
  ghost predicate Freeing(bs: seq<Buffer>, total: int, i: int) {
    && Tiled(bs, total) && Roomy(bs, total) && 0 <= i < |bs| && bs[i].free
    && forall n {:trigger NotTwin(bs, n)} :: n != i && n + 1 != i ==> NotTwin(bs, n)
  }

  lemma MarkedFree(bs: seq<Buffer>, total: int, i: int)
    requires LayoutOk(bs, total) && 0 <= i < |bs| && !bs[i].free
    ensures Freeing(Put(bs, i, bs[i].(free := true)), total, i)
  {
    var bs1 := Put(bs, i, bs[i].(free := true));
    PutKeepsTiling(bs, total, i, bs[i].(free := true));
    forall n ensures RoomAt(bs1, total, n) && (n != i && n + 1 != i ==> NotTwin(bs1, n)) {
      assert RoomAt(bs, total, n) && NotTwin(bs, n);
    }
  }

  lemma DropKeepsRoomy(bs: seq<Buffer>, total: int, j: int)
    requires Roomy(bs, total) && 0 < j < |bs| && bs[j - 1].free && bs[j].free
    ensures Roomy(Drop(bs, j), total)
  {
    var bs' := Drop(bs, j);
    forall n ensures RoomAt(bs', total, n) {
      if 0 <= n < |bs'| {
        DropSize(bs, total, j, n);
        assert RoomAt(bs, total, if n < j then n else n + 1);
      }
    }
  }

  lemma MergedNext(bs: seq<Buffer>, total: int, i: int)
    requires Freeing(bs, total, i)
    ensures var bs2 := MergeNext(bs, i); Freeing(bs2, total, i) && (i + 1 < |bs2| ==> !bs2[i + 1].free)
  {
    if i + 1 < |bs| && bs[i + 1].free {
      var bs2 := Drop(bs, i + 1);
      DropKeepsTiling(bs, total, i + 1);
      DropKeepsRoomy(bs, total, i + 1);
      assert NotTwin(bs, i + 1);
      forall n ensures n != i && n + 1 != i ==> NotTwin(bs2, n) {
        assert n != i && n + 1 != i ==> NotTwin(bs, if n <= i then n else n + 1);
      }
    }
  }

  lemma MergedPrev(bs: seq<Buffer>, total: int, i: int)
    requires Freeing(bs, total, i) && (i + 1 < |bs| ==> !bs[i + 1].free)
    ensures LayoutOk(MergePrev(bs, i), total)
  {
    var bs3 := MergePrev(bs, i);
    if bs3 != bs {
      DropKeepsTiling(bs, total, i);
      DropKeepsRoomy(bs, total, i);
    }
    forall n ensures NotTwin(bs3, n) {
      assert NotTwin(bs, n) || n == i || n + 1 == i;
      assert NotTwin(bs, n + 1) || n + 1 == i || n + 2 == i;
    }
  }

  lemma FreedKeepsLayout(bs: seq<Buffer>, total: int, i: int)
    requires LayoutOk(bs, total) && 0 <= i < |bs| && !bs[i].free
    ensures LayoutOk(Freed(bs, i), total)
  {
    MarkedFree(bs, total, i);
    MergedNext(Put(bs, i, bs[i].(free := true)), total, i);
    MergedPrev(MergeNext(Put(bs, i, bs[i].(free := true)), i), total, i);
  }

  /** Where the free buffer left by freeing buffer `i` starts, and where it ends. */
  function FreedStart(bs: seq<Buffer>, i: int): int
    requires 0 <= i < |bs|
  {
    if 0 < i && bs[i - 1].free then bs[i - 1].addr else bs[i].addr
  }

  function FreedEnd(bs: seq<Buffer>, total: int, i: int): int
    requires 0 <= i < |bs|
  {
    if i + 1 < |bs| && bs[i + 1].free then Next(bs, total, i + 1) else Next(bs, total, i)
  }

  /** Freeing replaces the entries of the free neighbours by one entry for the merged buffer. */
  lemma FreedEntries(bs: seq<Buffer>, total: int, i: int, k: int, a: int)
    requires LayoutOk(bs, total) && 0 <= i < |bs| && !bs[i].free
    ensures FreeAt(Freed(bs, i), total, k, a) <==>
      || (FreeAt(bs, total, k, a)
          && !(i + 1 < |bs| && bs[i + 1].free && a == bs[i + 1].addr)
          && !(0 < i && bs[i - 1].free && a == bs[i - 1].addr))
      || (a == FreedStart(bs, i) && k == FreedEnd(bs, total, i) - (FreedStart(bs, i) + HDR))
    ensures UsedAt(Freed(bs, i), a) <==> UsedAt(bs, a) && a != bs[i].addr
    ensures !FreeAt(bs, total, k, bs[i].addr)
  {
    var bs1 := Put(bs, i, bs[i].(free := true));
    MarkedFree(bs, total, i);
    MergedNext(bs1, total, i);
    UnuseEntries(bs, total, i, k, a);
    var bs2 := MergeNext(bs1, i);
    if bs2 != bs1 {
      DropEntries(bs1, total, i + 1, k, a);
      DropSize(bs1, total, i + 1, i);
      if 0 < i {
        DropSize(bs1, total, i + 1, i - 1);
      }
    }
    if 0 < i && bs[i - 1].free {
      DropEntries(bs2, total, i, k, a);
    }
  }

  /** An allocation takes the entry of the buffer chosen and, if more than a header and four bytes
      would be left over, makes one for the rest; else the buffer keeps all of its room. */
  lemma AllocatedEntries(bs: seq<Buffer>, total: int, i: int, b: Buffer, k: int, a: int)
    requires LayoutOk(bs, total) && 0 <= i < |bs| && bs[i].free && !b.free && b.addr == bs[i].addr
    requires 0 <= Demand(b.dataSize, b.offsetsSize) <= Size(bs, total, i)
    ensures var size, room := Demand(b.dataSize, b.offsetsSize), Size(bs, total, i);
      var r := Allocated(bs, total, i, b, size);
      && (UsedAt(r, a) <==> UsedAt(bs, a) || a == bs[i].addr)
      && (FreeAt(r, total, k, a) <==>
            || (FreeAt(bs, total, k, a) && a != bs[i].addr)
            || (size + HDR + 4 < room && a == bs[i].addr + HDR + size && k == room - size - HDR))
  {
    var mid := Put(bs, i, b);
    UseEntries(bs, total, i, b, k, a);
    SplitEntries(mid, total, i, bs[i].addr + HDR + Demand(b.dataSize, b.offsetsSize), k, a);
  }

  /** An allocation adds the record of the new buffer to those of the live ones, freeing takes away
      that of the buffer freed; every other live buffer keeps its record. */
  lemma LiveRecords(bs: seq<Buffer>, total: int, i: int, x: Buffer)
    requires LayoutOk(bs, total) && 0 <= i < |bs| && !x.free
    ensures forall b: Buffer, size: int :: bs[i].free && !b.free ==>
      (x in Allocated(bs, total, i, b, size) <==> x in bs || x == b)
    ensures !bs[i].free ==> (x in Freed(bs, i) <==> x in bs && x != bs[i])
  {
    forall b: Buffer, size: int | bs[i].free && !b.free
      ensures x in Allocated(bs, total, i, b, size) <==> x in bs || x == b
    {
      LiveAfterPut(bs, i, b, x);
      LiveAfterSplit(Put(bs, i, b), i, bs[i].addr + HDR + size, x);
    }
    if !bs[i].free {
      LiveAfterFree(bs, total, i, x);
    }
  }

  lemma LiveAfterPut(bs: seq<Buffer>, i: int, b: Buffer, x: Buffer)
    requires 0 <= i < |bs| && bs[i].free && !x.free
    ensures x in Put(bs, i, b) <==> x in bs || x == b
  {
    assert Put(bs, i, b)[i] == b;
    if x in bs {
      var j :| 0 <= j < |bs| && bs[j] == x;
      assert Put(bs, i, b)[j] == x;
    }
  }

  lemma LiveAfterSplit(bs: seq<Buffer>, i: int, cut: int, x: Buffer)
    requires 0 <= i < |bs| && !x.free
    ensures x in Split(bs, i, cut) <==> x in bs
  {
    assert bs == bs[..i + 1] + bs[i + 1..];
  }

  lemma LiveAfterDrop(bs: seq<Buffer>, j: int, x: Buffer)
    requires 0 <= j < |bs| && bs[j].free && !x.free
    ensures x in Drop(bs, j) <==> x in bs
  {
    assert bs == bs[..j] + [bs[j]] + bs[j + 1..];
  }

  lemma LiveAfterFree(bs: seq<Buffer>, total: int, i: int, x: Buffer)
    requires LayoutOk(bs, total) && 0 <= i < |bs| && !bs[i].free && !x.free
    ensures x in Freed(bs, i) <==> x in bs && x != bs[i]
  {
    var bs1 := Put(bs, i, bs[i].(free := true));
    forall j | 0 <= j < |bs| && j != i ensures bs[j] != bs[i] && bs1[j] == bs[j] {
      assert Apart(bs, i, j) && Apart(bs, j, i);
    }
    if x in bs && x != bs[i] {
      var j :| 0 <= j < |bs| && bs[j] == x;
      assert bs1[j] == x;
    }
    var bs2 := MergeNext(bs1, i);
    if i + 1 < |bs1| && bs1[i + 1].free {
      LiveAfterDrop(bs1, i + 1, x);
    }
    if 0 < i && bs2[i - 1].free {
      LiveAfterDrop(bs2, i, x);
    }
  }

  /** Freeing undoes an allocation: the list is back, up to the stale sizes kept in the header. */
  lemma FreeUndoesAlloc(bs: seq<Buffer>, total: int, i: int, b: Buffer)
    requires LayoutOk(bs, total) && 0 <= i < |bs| && bs[i].free && !b.free && b.addr == bs[i].addr
    requires 0 <= Demand(b.dataSize, b.offsetsSize) <= Size(bs, total, i)
    ensures Freed(Allocated(bs, total, i, b, Demand(b.dataSize, b.offsetsSize)), i) == Put(bs, i, b.(free := true))
  {
    var size := Demand(b.dataSize, b.offsetsSize);
    var mid, want := Put(bs, i, b), Put(bs, i, b.(free := true));
    var bs' := Allocated(bs, total, i, b, size);
    assert NotTwin(bs, i) && NotTwin(bs, i - 1);
    if bs' != mid {
      assert bs'[i] == b && bs'[i + 1].free;
      var bs1 := Put(bs', i, bs'[i].(free := true));
      assert Drop(bs1, i + 1) == want;
    }
  }

  /** With every buffer free the list is one buffer and only the first page is needed. */
  lemma AllFreeLeavesOnePage(bs: seq<Buffer>, total: int, k: int)
    requires LayoutOk(bs, total) && forall a :: !UsedAt(bs, a)
    ensures |bs| == 1 && bs[0].free && (Needed(bs, total, k) <==> k == 0)
  {
    forall i | 0 <= i < |bs| ensures bs[i].free {
      assert !UsedAt(bs, bs[i].addr) && !UsedHere(bs, i, bs[i].addr);
    }
    assert NotTwin(bs, 0);
    assert MeetsAt(bs, total, 0, k) <==> k == 0;
  }
}
