/**
 The driver's ordered index: a binary search tree of (key, address) entries.  Insertion follows
 the descent the driver codes; removal keeps the in-order sequence, as the kernel's rb_erase
 does.  Rebalancing is not modelled: every search below is proved for trees of any shape.
 */
module SearchTree {
  import opened Wrappers

  datatype Tree = Leaf | Node(left: Tree, key: int, addr: int, right: Tree)

  predicate Has(t: Tree, k: int, a: int) {
    t.Node? && ((t.key == k && t.addr == a) || Has(t.left, k, a) || Has(t.right, k, a))
  }

  function Count(t: Tree): nat {
    if t.Leaf? then 0 else Count(t.left) + 1 + Count(t.right)
  }

  /** Keys do not decrease from left to right, and no entry occurs twice. */
  ghost predicate Ordered(t: Tree) {
    t.Node? ==>
      && Ordered(t.left) && Ordered(t.right)
      && (forall k, a :: Has(t.left, k, a) ==> k <= t.key && !Has(t.right, k, a))
      && (forall k, a :: Has(t.right, k, a) ==> t.key <= k)
      && !Has(t.left, t.key, t.addr) && !Has(t.right, t.key, t.addr)
  }

  /** The descent of binder_insert_free_buffer and binder_insert_allocated_buffer. */
  function Insert(t: Tree, k: int, a: int): (r: Tree)
    ensures forall k', a' :: Has(r, k', a') <==> Has(t, k', a') || (k' == k && a' == a)
    ensures Ordered(t) && !Has(t, k, a) ==> Ordered(r)
  {
    match t
    case Leaf => Node(Leaf, k, a, Leaf)
    case Node(l, k0, a0, r) => if k < k0 then Node(Insert(l, k, a), k0, a0, r) else Node(l, k0, a0, Insert(r, k, a))
  }

  /** The entries of two trees separated by the key `m`. */
  function Join(l: Tree, r: Tree, ghost m: int): (t: Tree)
    requires Ordered(l) && Ordered(r)
    requires forall k, a :: Has(l, k, a) ==> k <= m && !Has(r, k, a)
    requires forall k, a :: Has(r, k, a) ==> m <= k
    ensures Ordered(t)
    ensures forall k, a :: Has(t, k, a) <==> Has(l, k, a) || Has(r, k, a)
    ensures Count(t) == Count(l) + Count(r)
  {
    match l
    case Leaf => r
    case Node(l1, k0, a0, r1) =>
      assert Has(l, k0, a0);
      assert forall k, a :: Has(r1, k, a) || Has(l1, k, a) ==> Has(l, k, a);
      Node(l1, k0, a0, Join(r1, r, m))
  }

  /** rb_erase of the entry (k, a). */
  function Erase(t: Tree, k: int, a: int): (r: Tree)
    requires Ordered(t)
    ensures Ordered(r)
    ensures forall k', a' :: Has(r, k', a') <==> Has(t, k', a') && (k', a') != (k, a)
    ensures Has(t, k, a) ==> Count(r) == Count(t) - 1
  {
    match t
    case Leaf => Leaf
    case Node(l, k0, a0, r) =>
      if k0 == k && a0 == a then Join(l, r, k)
      else if Has(l, k, a) then Node(Erase(l, k, a), k0, a0, r)
      else Node(l, k0, a0, Erase(r, k, a))
  }

  /** The best-fit descent of binder_alloc_buf: the entry with the smallest key that is at least
      `size`; `exact` tells whether the descent stopped on an equal key. */
  method BestFit(t: Tree, size: int) returns (best: Option<(int, int)>, exact: bool)
    requires Ordered(t)
    ensures best.Some? ==> Has(t, best.value.0, best.value.1) && size <= best.value.0
    ensures best.Some? ==> forall k, a :: Has(t, k, a) && size <= k ==> best.value.0 <= k
    ensures best.None? ==> forall k, a :: Has(t, k, a) ==> k < size
    ensures exact <==> best.Some? && best.value.0 == size
  {
    best, exact := None, false;
    var n := t;
    while n.Node?
      invariant Ordered(n) && (forall k, a :: Has(n, k, a) ==> Has(t, k, a))
      invariant best.Some? ==> Has(t, best.value.0, best.value.1) && size < best.value.0
      invariant best.Some? ==> forall k, a :: Has(n, k, a) ==> k <= best.value.0
      invariant forall k, a :: Has(t, k, a) && size <= k ==> Has(n, k, a) || (best.Some? && best.value.0 <= k)
      decreases n
    {
      assert Has(n, n.key, n.addr) && forall k', a :: Has(n.left, k', a) || Has(n.right, k', a) ==> Has(n, k', a);
      if size < n.key {
        best := Some((n.key, n.addr));
        n := n.left;
      } else if size > n.key {
        n := n.right;
      } else {
        best, exact := Some((n.key, n.addr)), true;
        return;
      }
    }
  }

  /** The descent of binder_buffer_lookup, for trees keyed by address. */
  method Find(t: Tree, k: int) returns (found: bool)
    requires Ordered(t) && (forall k', a :: Has(t, k', a) ==> k' == a)
    ensures found <==> Has(t, k, k)
  {
    var n := t;
    while n.Node?
      invariant Ordered(n) && (forall k', a :: Has(n, k', a) ==> Has(t, k', a))
      invariant Has(t, k, k) ==> Has(n, k, k)
      decreases n
    {
      assert Has(n, n.key, n.addr) && forall k', a :: Has(n.left, k', a) || Has(n.right, k', a) ==> Has(n, k', a);
      if k < n.key {
        n := n.left;
      } else if k > n.key {
        n := n.right;
      } else {
        return true;
      }
    }
    return false;
  }

  /** rb_first. */
  method First(t: Tree) returns (k: int, a: int)
    requires t.Node?
    ensures Has(t, k, a)
  {
    var n := t;
    while n.left.Node?
      invariant n.Node? && Has(n, n.key, n.addr) && (forall k', a' :: Has(n, k', a') ==> Has(t, k', a'))
      decreases n
    {
      n := n.left;
    }
    return n.key, n.addr;
  }
}
