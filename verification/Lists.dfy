/** Sequences that stand for linked lists: no entry is linked twice. */
module Lists {
  predicate Distinct(xs: seq<nat>) {
    forall i, j :: 0 <= i < j < |xs| ==> xs[i] != xs[j]
  }

  /** list_del. */
  function Without(xs: seq<nat>, d: nat): (r: seq<nat>)
    ensures Distinct(xs) ==> Distinct(r) && forall e: nat :: e in r <==> e in xs && e != d
    ensures |r| <= |xs| && (d in xs ==> |r| < |xs|)
  {
    if xs == [] then []
    else
      assert xs == [xs[0]] + xs[1..];
      if xs[0] == d then xs[1..]
      else
        var r := Without(xs[1..], d);
        assert Distinct(xs) ==> xs[0] !in xs[1..] && Distinct(xs[1..]);
        [xs[0]] + r
  }

  lemma TailOf(a: seq<nat>, d: nat, b: seq<nat>)
    requires a != []
    ensures (a + [d] + b)[0] == a[0] && (a + [d] + b)[1..] == a[1..] + [d] + b && [a[0]] + (a[1..] + b) == a + b
  {
  }

  /** Removing an entry leaves the others in their order. */
  lemma {:induction false} WithoutKeepsOrder(a: seq<nat>, d: nat, b: seq<nat>)
    requires d !in a
    ensures Without(a + [d] + b, d) == a + b
  {
    if a == [] {
      assert (a + [d] + b)[1..] == b && a + b == b;
    } else {
      TailOf(a, d, b);
      WithoutKeepsOrder(a[1..], d, b);
    }
  }

  lemma WithoutHead(xs: seq<nat>)
    requires xs != []
    ensures Without(xs, xs[0]) == xs[1..]
  {
  }

  /** Where the entry at position `k` was before an insertion at `i`. */
  function Before(i: nat, k: int): int {
    if k < i then k else k - 1
  }

  /** Where the entry at position `k` was before the removal of the one at `i`. */
  function Skip(i: nat, k: int): int {
    if k < i then k else k + 1
  }

  function SetOf(xs: seq<nat>): set<nat> {
    set x | x in xs
  }
}
