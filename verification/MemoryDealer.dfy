/**
 SimpleBestFitAllocator on its doubly linked list of chunks (libs/binder/MemoryDealer.cpp),
 edited in place.  `nodes` and `chunks` are the list as values; every method changes them as
 BestFit specifies.
 */
module MemoryDealer {
  import opened Lists
  import opened Wrappers
  import opened BestFit

  class Node {
    var start: nat
    var size: nat
    var free: bool
    var prev: Node?
    var next: Node?

    constructor (start: nat, size: nat)
      ensures this.start == start && this.size == size && free && prev == null && next == null
    {
      this.start, this.size, free, prev, next := start, size, true, null, null;
    }

    predicate Is(c: Chunk)
      reads this
    {
      start == c.start && size == c.size && free == c.free
    }
  }

  class Allocator {
    const page: nat
    const total: nat
    var first: Node?
    var last: Node?
    ghost var nodes: seq<Node>
    ghost var repr: set<Node>
    ghost var chunks: Heap

    ghost function Nth(i: int): Node?
      reads this
    {
      if 0 <= i < |nodes| then nodes[i] else null
    }

    ghost predicate LinkOk(i: int)
      reads this, repr
    {
      0 <= i < |nodes| ==> nodes[i] in repr && nodes[i].prev == Nth(i - 1) && nodes[i].next == Nth(i + 1)
    }

    /** The links say what `nodes` says. */
    ghost predicate Linked()
      reads this, repr
    {
      && first == Nth(0) && last == Nth(|nodes| - 1)
      && (forall i: int {:trigger LinkOk(i)} :: LinkOk(i))
      && Apart(nodes)
    }

    ghost predicate ValueOk(i: int)
      reads this, repr
    {
      0 <= i < |nodes| && i < |chunks| ==> nodes[i] in repr && nodes[i].Is(chunks[i])
    }

    ghost predicate Valued()
      reads this, repr
    {
      |chunks| == |nodes| && forall i: int {:trigger ValueOk(i)} :: ValueOk(i)
    }

    ghost predicate Valid()
      reads this, repr
    {
      Linked() && Valued() && Inv(chunks, total) && page > 0 && total < SIZE_LIMIT
    }

    /** A heap of at least `bytes` bytes, rounded up to pages, as one free chunk. */
    constructor (bytes: nat, page: nat)
      requires 0 < bytes && 0 < page && (bytes + page * ALIGN - 1) / (page * ALIGN) * page < SIZE_LIMIT
      ensures Valid() && this.page == page && chunks == [Chunk(0, total, true)] && fresh(repr)
      ensures total == (bytes + page * ALIGN - 1) / (page * ALIGN) * page
    {
      var pages := (bytes + page * ALIGN - 1) / (page * ALIGN);
      var units := pages * page;
      AtLeastOne(bytes + page * ALIGN - 1, page * ALIGN);
      PositiveProduct(pages, page);
      this.page, total := page, units;
      var node := new Node(0, units);
      first, last := node, node;
      nodes, repr, chunks := [node], {node}, [Chunk(0, units, true)];
      new;
      forall i: int ensures LinkOk(i) {
      }
      forall i: int ensures StartOk(chunks, i) && ApartOk(chunks, i) {
      }
    }

    /** LinkedList::insertAfter, for the node at position `i`. */
    method InsertAfter(node: Node, newNode: Node, ghost i: nat)
      requires Linked() && i < |nodes| && nodes[i] == node && newNode !in nodes && newNode !in repr
      modifies this`last, this`nodes, this`repr, repr`prev, repr`next, newNode`prev, newNode`next
      ensures Linked() && nodes == old(nodes[..i + 1] + [newNode] + nodes[i + 1..]) && repr == old(repr) + {newNode}
    {
      ghost var was := nodes;
      InsertApart(nodes, i + 1, newNode);
      assert LinkOk(i - 1) && LinkOk(i) && LinkOk(i + 1);
      newNode.prev := node;
      newNode.next := node.next;
      if node.next == null {
        last := newNode;
      } else {
        node.next.prev := newNode;
      }
      node.next := newNode;
      nodes, repr := Inserted(nodes, i + 1, newNode), repr + {newNode};
      forall k: int ensures LinkOk(k) {
        if 0 <= k < i {
          assert nodes[k] == was[k] && old(LinkOk(k));
          assert Differ(was, k, i) && Differ(was, k, i + 1) && nodes[k + 1] == was[k + 1];
          assert k > 0 ==> nodes[k - 1] == was[k - 1];
        } else if k == i {
          assert nodes[k] == was[k] && old(LinkOk(k)) && Differ(was, i, i + 1) && nodes[k + 1] == newNode;
          assert k > 0 ==> nodes[k - 1] == was[k - 1];
        } else if i + 1 < k < |nodes| {
          assert nodes[k] == was[k - 1] && old(LinkOk(k - 1));
          assert Differ(was, i, k - 1);
          assert k > i + 2 ==> Differ(was, i + 1, k - 1) && nodes[k - 1] == was[k - 2];
          assert k + 1 < |nodes| ==> nodes[k + 1] == was[k];
        }
      }
    }

    /** LinkedList::insertBefore, for the node at position `i`. */
    method InsertBefore(node: Node, newNode: Node, ghost i: nat)
      requires Linked() && i < |nodes| && nodes[i] == node && newNode !in nodes && newNode !in repr
      modifies this`first, this`nodes, this`repr, repr`prev, repr`next, newNode`prev, newNode`next
      ensures Linked() && nodes == old(nodes[..i] + [newNode] + nodes[i..]) && repr == old(repr) + {newNode}
    {
      ghost var was := nodes;
      InsertApart(nodes, i, newNode);
      assert LinkOk(i - 1) && LinkOk(i) && LinkOk(i + 1);
      newNode.prev := node.prev;
      newNode.next := node;
      if node.prev == null {
        first := newNode;
      } else {
        node.prev.next := newNode;
      }
      node.prev := newNode;
      nodes, repr := Inserted(nodes, i, newNode), repr + {newNode};
      forall k: int ensures LinkOk(k) {
        if 0 <= k < i {
          assert nodes[k] == was[k] && old(LinkOk(k));
          assert Differ(was, k, i);
          assert k < i - 1 ==> Differ(was, k, i - 1) && nodes[k + 1] == was[k + 1];
          assert k > 0 ==> nodes[k - 1] == was[k - 1];
        } else if i < k < |nodes| {
          assert nodes[k] == was[k - 1] && old(LinkOk(k - 1));
          assert k > i + 1 ==> Differ(was, i, k - 1) && nodes[k - 1] == was[k - 2];
          assert Differ(was, i - 1, k - 1);
        }
      }
    }

    /** LinkedList::remove, for the node at position `i`. */
    method Remove(node: Node, ghost i: nat)
      requires Linked() && i < |nodes| && nodes[i] == node
      modifies this`first, this`last, this`nodes, repr`prev, repr`next
      ensures Linked() && nodes == old(nodes[..i] + nodes[i + 1..])
    {
      ghost var was := nodes;
      RemoveApart(nodes, i);
      assert LinkOk(i - 1) && LinkOk(i) && LinkOk(i + 1);
      if node.prev == null {
        first := node.next;
      } else {
        node.prev.next := node.next;
      }
      if node.next == null {
        last := node.prev;
      } else {
        node.next.prev := node.prev;
      }
      nodes := nodes[..i] + nodes[i + 1..];
      forall k: int ensures LinkOk(k) {
        if 0 <= k < i {
          assert nodes[k] == was[k] && old(LinkOk(k));
          assert Differ(was, k, i + 1) && (k < i - 1 ==> Differ(was, k, i - 1) && nodes[k + 1] == was[k + 1]);
          assert k > 0 ==> nodes[k - 1] == was[k - 1];
        } else if i <= k < |nodes| {
          assert nodes[k] == was[k + 1] && old(LinkOk(k + 1));
          assert Differ(was, i - 1, k + 1) && (k > i ==> Differ(was, i + 1, k + 1) && nodes[k - 1] == was[k]);
        }
      }
    }

    /** Changes the fields of the chunk at position `i`. */
    method SetChunk(node: Node, c: Chunk, ghost i: nat)
      requires Linked() && Valued() && i < |nodes| && nodes[i] == node
      modifies this`chunks, node`start, node`size, node`free
      ensures Linked() && Valued() && chunks == old(chunks)[i := c] && node.Is(c)
    {
      node.start, node.size, node.free := c.start, c.size, c.free;
      chunks := chunks[i := c];
      forall k: int ensures LinkOk(k) {
        assert old(LinkOk(k));
      }
      forall k: int ensures ValueOk(k) {
        assert old(ValueOk(k)) && Differ(nodes, i, k) && Differ(nodes, k, i);
      }
    }

    method SplitBefore(node: Node, start: nat, size: nat, ghost i: nat)
      requires Linked() && Valued() && i < |nodes| && nodes[i] == node
      modifies this`first, this`nodes, this`repr, this`chunks, repr`prev, repr`next
      ensures Linked() && Valued() && fresh(repr - old(repr))
      ensures chunks == old(chunks[..i] + [Chunk(start, size, true)] + chunks[i..])
      ensures i + 1 < |nodes| && nodes[i + 1] == node
    {
      ghost var was, values := nodes, chunks;
      var split := new Node(start, size);
      InsertBefore(node, split, i);
      label L:
      chunks := chunks[..i] + [Chunk(start, size, true)] + chunks[i..];
      forall k: int ensures LinkOk(k) {
        assert old@L(LinkOk(k));
      }
      forall k: int ensures ValueOk(k) {
        if 0 <= k < i {
          assert nodes[k] == was[k] && chunks[k] == values[k] && old(ValueOk(k));
        } else if i < k < |nodes| {
          assert nodes[k] == was[k - 1] && chunks[k] == values[k - 1] && old(ValueOk(k - 1));
        }
      }
    }

    method SplitAfter(node: Node, start: nat, size: nat, ghost i: nat)
      requires Linked() && Valued() && i < |nodes| && nodes[i] == node
      modifies this`last, this`nodes, this`repr, this`chunks, repr`prev, repr`next
      ensures Linked() && Valued() && fresh(repr - old(repr))
      ensures chunks == old(chunks[..i + 1] + [Chunk(start, size, true)] + chunks[i + 1..])
    {
      ghost var was, values := nodes, chunks;
      var split := new Node(start, size);
      InsertAfter(node, split, i);
      label L:
      chunks := chunks[..i + 1] + [Chunk(start, size, true)] + chunks[i + 1..];
      forall k: int ensures LinkOk(k) {
        assert old@L(LinkOk(k));
      }
      forall k: int ensures ValueOk(k) {
        if 0 <= k <= i {
          assert nodes[k] == was[k] && chunks[k] == values[k] && old(ValueOk(k));
        } else if i + 1 < k < |nodes| {
          assert nodes[k] == was[k - 1] && chunks[k] == values[k - 1] && old(ValueOk(k - 1));
        }
      }
    }

    /** The search loop of alloc. */
    method FindBest(size: nat, aligned: bool) returns (best: Node?)
      requires Valid()
      ensures best == null <==> Search(chunks, 0, None, size, page, aligned).None?
      ensures forall k: nat :: Search(chunks, 0, None, size, page, aligned) == Some(k) ==>
        k < |nodes| && nodes[k] == best
    {
      best := null;
      ghost var k: Option<nat> := None;
      var cur := first;
      ghost var i: nat := 0;
      while cur != null
        invariant 0 <= i <= |nodes| && cur == Nth(i)
        invariant (best == null <==> k.None?) && (k.Some? ==> k.value < |nodes| && nodes[k.value] == best)
        invariant Search(chunks, i, k, size, page, aligned) == Search(chunks, 0, None, size, page, aligned)
        decreases |nodes| - i
      {
        assert ValueOk(i) && LinkOk(i);
        assert k.Some? ==> ValueOk(k.value);
        var extra := Extra(cur.start, page, aligned);
        if cur.free && cur.size >= size + extra {
          if best == null || cur.size < best.size {
            best, k := cur, Some(i);
          }
          if cur.size == size {
            break;
          }
        }
        cur := cur.next;
        i := i + 1;
      }
    }

    /** The free part before the block, if any, becomes a chunk; returns where the block is now. */
    method LeaveBefore(node: Node, start: nat, extra: nat, ghost k: nat) returns (ghost p: nat)
      requires Linked() && Valued() && k < |nodes| && nodes[k] == node
      modifies this`first, this`nodes, this`repr, this`chunks, repr`prev, repr`next
      ensures Linked() && Valued() && fresh(repr - old(repr))
      ensures chunks == WithBefore(old(chunks), k, Chunk(start, extra, true))
      ensures p == (if extra > 0 then k + 1 else k) && p < |nodes| && nodes[p] == node
    {
      p := k;
      if extra != 0 {
        SplitBefore(node, start, extra, k);
        p := k + 1;
      }
    }

    /** The free part after the block, if any, becomes a chunk. */
    method LeaveAfter(node: Node, start: nat, tail: nat, ghost p: nat)
      requires Linked() && Valued() && p < |nodes| && nodes[p] == node
      modifies this`last, this`nodes, this`repr, this`chunks, repr`prev, repr`next
      ensures Linked() && Valued() && fresh(repr - old(repr))
      ensures chunks == WithAfter(old(chunks), p, Chunk(start, tail, true))
    {
      if tail > 0 {
        SplitAfter(node, start, tail, p);
      }
    }

    /** The second half of alloc: the chunk becomes the allocated block, and what is left of it
        before and after becomes new free chunks. */
    method CarveUp(node: Node, size: nat, extra: nat, ghost k: nat)
      requires Linked() && Valued() && k < |nodes| && nodes[k] == node && size + extra <= chunks[k].size
      modifies this`first, this`last, this`nodes, this`repr, this`chunks, repr
      ensures Linked() && Valued() && fresh(repr - old(repr))
      ensures chunks == Splits(old(chunks), k, size, extra)
      ensures node.start == old(chunks[k].start) + extra
    {
      assert ValueOk(k);
      var freeSize, start := node.size, node.start;
      SetChunk(node, Chunk(start + extra, size, false), k);
      ghost var p := LeaveBefore(node, start, extra, k);
      LeaveAfter(node, start + extra + size, freeSize - (size + extra), p);
    }

    /** SimpleBestFitAllocator::alloc. */
    method Allocate(bytes: nat, aligned: bool) returns (offset: Option<nat>)
      requires Valid() && bytes <= WORD - ALIGN
      modifies this, repr
      ensures Valid() && fresh(repr - old(repr))
      ensures (chunks, offset) == BestFit.Allocate(old(chunks), bytes, page, aligned)
    {
      if bytes == 0 {
        return Some(0);
      }
      UnitsWrap(bytes);
      var size := Units(bytes);
      SearchFindsBest(chunks, 0, None, size, page, aligned);
      var best := FindBest(size, aligned);
      if best == null {
        return None;
      }
      Take(best, size, aligned, Search(chunks, 0, None, size, page, aligned).value);
      return Some(best.start * ALIGN);
    }

    /** The chunk that was found is carved up. */
    method Take(best: Node, size: nat, aligned: bool, ghost k: nat)
      requires Valid() && 0 < size && k < |nodes| && nodes[k] == best && Fits(chunks[k], size, page, aligned)
      modifies this, repr
      ensures Valid() && fresh(repr - old(repr))
      ensures chunks == Carve(old(chunks), k, size, Extra(old(chunks[k].start), page, aligned))
      ensures best.start == old(chunks[k].start) + Extra(old(chunks[k].start), page, aligned)
    {
      assert ValueOk(k);
      var extra := Extra(best.start, page, aligned);
      CarveKeeps(chunks, total, k, size, extra);
      SplitsCarve(chunks, k, size, extra);
      CarveUp(best, size, extra, k);
    }

    /** One merge of dealloc: the chunk at position `i` goes into the one before it. */
    method MergeBack(p: Node, cur: Node, ghost i: nat)
      requires Linked() && Valued() && 0 < i < |nodes| && nodes[i] == cur && nodes[i - 1] == p
      modifies this`first, this`last, this`nodes, this`chunks, repr
      ensures Linked() && Valued()
      ensures chunks == Absorb(old(chunks), i) && nodes == old(nodes[..i] + nodes[i + 1..])
    {
      ghost var values := chunks;
      assert ValueOk(i) && ValueOk(i - 1);
      SetChunk(p, Chunk(p.start, p.size + cur.size, p.free), i - 1);
      ghost var was, joined := nodes, chunks;
      label L:
      Remove(cur, i);
      label M:
      chunks := chunks[..i] + chunks[i + 1..];
      assert chunks == Absorb(values, i);
      forall k: int ensures LinkOk(k) {
        assert old@M(LinkOk(k));
      }
      forall k: int ensures ValueOk(k) {
        assert old@L(ValueOk(Skip(i, k)));
        assert 0 <= k < |nodes| ==> nodes[k] == was[Skip(i, k)] && chunks[k] == joined[Skip(i, k)];
      }
    }

    /** The merge loop of dealloc, starting at the freed chunk. */
    method MergeFreed(node: Node, ghost k: nat)
      requires Linked() && Valued() && Tiled(chunks, total) && total < SIZE_LIMIT && k < |nodes| && nodes[k] == node
      modifies this`first, this`last, this`nodes, this`chunks, repr
      ensures Linked() && Valued() && chunks == MergeLoop(old(chunks), k)
    {
      var cur, more := node, true;
      ghost var i: nat := k;
      while more
        invariant Linked() && Valued() && Tiled(chunks, total)
        invariant more ==> i < |nodes| && nodes[i] == cur && MergeLoop(chunks, i) == MergeLoop(old(chunks), k)
        invariant !more ==> chunks == MergeLoop(old(chunks), k)
        decreases more, |nodes| - i
      {
        assert LinkOk(i) && ValueOk(i) && ValueOk(i - 1);
        var p, n := cur.prev, cur.next;
        if p != null && (p.free || cur.size == 0) {
          AbsorbTiles(chunks, total, i);
          InHeap(Absorb(chunks, i), total, i - 1);
          assert p.size + cur.size < SIZE_LIMIT; // no bit of the size field is lost
          MergeBack(p, cur, i);
        } else {
          i := i + 1;
        }
        cur := n;
        assert ValueOk(i) && cur == Nth(i);
        if cur == null || !cur.free {
          more := false;
        }
      }
    }

    /** SimpleBestFitAllocator::dealloc; false for NAME_NOT_FOUND. */
    method Deallocate(offset: nat) returns (ok: bool)
      requires Valid()
      modifies this, repr
      ensures Valid() && repr == old(repr)
      ensures (chunks, ok) == BestFit.Deallocate(old(chunks), offset)
    {
      ghost var l := chunks;
      var unit := offset / ALIGN;
      var cur := first;
      ghost var i: nat := 0;
      DeallocateWorks(l, total, offset);
      while cur != null
        invariant 0 <= i <= |nodes| && cur == Nth(i)
        invariant Find(chunks, i, unit) == Find(chunks, 0, unit)
        decreases |nodes| - i
      {
        assert ValueOk(i) && LinkOk(i);
        if cur.start == unit {
          MergeLoopFrees(l, total, i);
          TilesFreed(l, total, i);
          SetChunk(cur, Chunk(cur.start, cur.size, true), i);
          MergeFreed(cur, i);
          return true;
        }
        cur := cur.next;
        i := i + 1;
      }
      return false;
    }
  }

  lemma TilesFreed(l: Heap, total: nat, k: nat)
    requires Tiled(l, total) && k < |l|
    ensures Tiled(l[k := l[k].(free := true)], total)
  {
    var r := l[k := l[k].(free := true)];
    forall i: int ensures StartOk(r, i) {
      assert StartOk(l, i);
    }
  }

  /** The splits of alloc, one after the other. */
  function Splits(l: Heap, k: nat, size: nat, extra: nat): Heap
    requires k < |l| && size + extra <= l[k].size
  {
    var start := l[k].start;
    var b := WithBefore(l[k := Chunk(start + extra, size, false)], k, Chunk(start, extra, true));
    WithAfter(b, if extra > 0 then k + 1 else k, Chunk(start + extra + size, l[k].size - (size + extra), true))
  }

  lemma SplitsCarve(l: Heap, k: nat, size: nat, extra: nat)
    requires k < |l| && size + extra <= l[k].size
    ensures Splits(l, k, size, extra) == Carve(l, k, size, extra)
  {
    var m := l[k := Chunk(l[k].start + extra, size, false)];
    assert m[..k] == l[..k] && m[k + 1..] == l[k + 1..] && m[k..] == [m[k]] + l[k + 1..];
    var b := WithBefore(m, k, Chunk(l[k].start, extra, true));
    assert b == l[..k] + Opt(Chunk(l[k].start, extra, true)) + [m[k]] + l[k + 1..];
    var p := if extra > 0 then k + 1 else k;
    assert b[..p + 1] == l[..k] + Opt(Chunk(l[k].start, extra, true)) + [m[k]] && b[p + 1..] == l[k + 1..];
  }

  lemma AtLeastOne(a: nat, p: nat)
    requires a >= p > 0
    ensures a / p >= 1
  {
  }

  lemma PositiveProduct(a: nat, b: nat)
    requires a > 0 && b > 0
    ensures a * b > 0
  {
  }

  // ---------------------------------------------------------------- lists of distinct nodes

  ghost predicate Differ(ns: seq<Node>, i: int, j: int) {
    0 <= i < j < |ns| ==> ns[i] != ns[j]
  }

  ghost predicate Apart(ns: seq<Node>) {
    forall i: int, j: int {:trigger Differ(ns, i, j)} :: Differ(ns, i, j)
  }

  ghost function Inserted(ns: seq<Node>, i: nat, x: Node): seq<Node>
    requires i <= |ns|
  {
    ns[..i] + [x] + ns[i..]
  }

  lemma InsertApart(ns: seq<Node>, i: nat, x: Node)
    requires Apart(ns) && i <= |ns| && x !in ns
    ensures Apart(Inserted(ns, i, x))
  {
    var r := Inserted(ns, i, x);
    forall k: int, m: int ensures Differ(r, k, m) {
      assert Differ(ns, Before(i, k), Before(i, m));
    }
  }

  lemma RemoveApart(ns: seq<Node>, i: nat)
    requires Apart(ns) && i < |ns|
    ensures Apart(ns[..i] + ns[i + 1..])
  {
    var r := ns[..i] + ns[i + 1..];
    forall k: int, m: int ensures Differ(r, k, m) {
      assert Differ(ns, Skip(i, k), Skip(i, m));
    }
  }
}
