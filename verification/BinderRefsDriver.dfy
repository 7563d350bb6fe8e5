/**
 Node and reference counting of the driver as it is written: tables updated in place, and the
 loop that picks a descriptor.  Every method takes exactly the step BinderRefs specifies.
 */
module BinderRefsDriver {
  import opened Lists
  import opened Wrappers
  import opened BinderRefs

  /** The descriptor loop of binder_get_ref_for_node over the process's descriptors in tree order. */
  method ChooseDesc(sorted: seq<nat>, start: nat) returns (d: nat)
    requires start <= 1 && forall i, j :: 0 <= i < j < |sorted| ==> sorted[i] < sorted[j]
    ensures LeastUnused(SetOf(sorted), start, d)
  {
    d := start;
    var i := 0;
    while i < |sorted|
      invariant 0 <= i <= |sorted| && start <= d
      invariant forall k :: 0 <= k < i ==> sorted[k] < d
      invariant forall e: nat :: start <= e < d ==> e in sorted[..i]
    {
      if sorted[i] > d {
        break;
      }
      assert sorted[i] < d ==> d == start by {
        assert d > start ==> d - 1 in sorted[..i];
      }
      assert sorted[..i + 1] == sorted[..i] + [sorted[i]];
      d := sorted[i] + 1;
      i := i + 1;
    }
    assert d !in sorted[i..] && sorted == sorted[..i] + sorted[i..];
  }

  /** Dropping the strong count of a ref that is still listed never frees the node. */
  lemma StrongNodeStays(s: State, r: RefId)
    requires Inv(s) && r in s.refs
    ensures s.refs[r].node in s.nodes && DecNode(s.nodes[s.refs[r].node], true, true).Some?
  {
    assert RefOk(s, r) && CountsOk(s, s.refs[r].node) && r in RefsOf(s, s.refs[r].node);
  }

  class Table {
    var nodes: map<NodeId, Node>
    var refs: map<RefId, Ref>
    var byDesc: map<(Pid, nat), RefId>
    var byNode: map<(Pid, NodeId), RefId>
    var mgr: Option<NodeId>
    var nextNode: NodeId
    var nextRef: RefId
    ghost var heldStrong: multiset<NodeId>
    ghost var heldWeak: multiset<NodeId>
    ghost var log: map<NodeId, seq<Cmd>>
    ghost var orphaned: set<NodeId>

    ghost function View(): State
      reads this
    {
      State(nodes, refs, byDesc, byNode, mgr, heldStrong, heldWeak, log, orphaned, nextNode, nextRef)
    }

    constructor ()
      ensures View() == BinderRefs.Init
    {
      nodes, refs, byDesc, byNode, mgr, nextNode, nextRef := map[], map[], map[], map[], None, 0, 0;
      heldStrong, heldWeak, log, orphaned := multiset{}, multiset{}, map[], {};
    }

    /** binder_inc_node. */
    method IncNodeAt(n: NodeId, strong: bool, internal: bool, listed: bool) returns (ok: bool)
      requires n in nodes
      modifies this`nodes
      ensures nodes == old(nodes)[n := IncNode(old(nodes)[n], strong, internal, listed, mgr == Some(n)).0]
      ensures ok == IncNode(old(nodes)[n], strong, internal, listed, mgr == Some(n)).1
    {
      var x := nodes[n];
      if strong {
        if internal {
          if !listed && x.internalStrong == 0 && !(mgr == Some(n) && x.hasStrong) {
            return false;
          }
          x := x.(internalStrong := x.internalStrong + 1);
        } else {
          x := x.(localStrong := x.localStrong + 1);
        }
        if !x.hasStrong && listed {
          x := x.(queued := true);
        }
      } else {
        if !internal {
          x := x.(localWeak := x.localWeak + 1);
        }
        if !x.hasWeak && !x.queued {
          if !listed {
            nodes := nodes[n := x];
            return false;
          }
          x := x.(queued := true);
        }
      }
      nodes := nodes[n := x];
      return true;
    }

    /** binder_dec_node. */
    method DecNodeAt(n: NodeId, strong: bool, internal: bool)
      requires n in nodes
      modifies this`nodes
      ensures nodes == PutNode(old(View()), n, DecNode(old(nodes)[n], strong, internal)).nodes
    {
      var x := nodes[n];
      if strong {
        x := if internal then x.(internalStrong := x.internalStrong - 1) else x.(localStrong := x.localStrong - 1);
        if x.localStrong != 0 || x.internalStrong != 0 {
          nodes := nodes[n := x];
          return;
        }
      } else {
        if !internal {
          x := x.(localWeak := x.localWeak - 1);
        }
        if x.localWeak != 0 || x.refs != {} {
          nodes := nodes[n := x];
          return;
        }
      }
      if x.owner.Some? && (x.hasStrong || x.hasWeak) {
        nodes := nodes[n := x.(queued := true)];
      } else if x.refs == {} && x.localStrong == 0 && x.localWeak == 0 {
        nodes := nodes - {n};
      } else {
        nodes := nodes[n := x];
      }
    }

    /** binder_get_ref_for_node; `sorted` is the in-order walk of the process's descriptor tree. */
    method GetRefForNode(p: Pid, n: NodeId, sorted: seq<nat>) returns (r: RefId)
      requires Inv(View()) && n in nodes
      requires (forall i, j :: 0 <= i < j < |sorted| ==> sorted[i] < sorted[j]) && SetOf(sorted) == Descs(View(), p)
      modifies this`nodes, this`refs, this`byDesc, this`byNode, this`nextRef
      ensures Inv(View()) && r in refs && refs[r].proc == p && refs[r].node == n
      ensures (p, n) in old(byNode) ==> View() == old(View()) && r == old(byNode)[(p, n)]
      ensures (p, n) !in old(byNode) ==>
                && LeastUnused(Descs(old(View()), p), FirstDesc(old(View()), n), refs[r].desc)
                && View() == NewRef(old(View()), p, n, refs[r].desc)
    {
      if (p, n) in byNode {
        r := byNode[(p, n)];
        assert FileOk(View(), p, n);
        return;
      }
      ghost var s := View();
      var d := ChooseDesc(sorted, if mgr == Some(n) then 0 else 1);
      assert LeastUnused(Descs(s, p), FirstDesc(s, n), d);
      NewRefKeeps(s, p, n, d);
      r := nextRef;
      nextRef := nextRef + 1;
      refs := refs[r := Ref(p, n, d, 0, 0)];
      byNode := byNode[(p, n) := r];
      byDesc := byDesc[(p, d) := r];
      nodes := nodes[n := nodes[n].(refs := nodes[n].refs + {r})];
    }

    /** binder_inc_ref. */
    method IncRefAt(r: RefId, strong: bool, listed: bool) returns (ok: bool)
      requires r in refs && refs[r].node in nodes
      modifies this`nodes, this`refs
      ensures (View(), ok) == IncRef(old(View()), r, strong, listed)
    {
      var x := refs[r];
      if (if strong then x.strong else x.weak) == 0 {
        ok := IncNodeAt(x.node, strong, true, listed);
        if !ok {
          return;
        }
      }
      refs := refs[r := if strong then x.(strong := x.strong + 1) else x.(weak := x.weak + 1)];
      return true;
    }

    /** The node's part of binder_delete_ref: the strong count first, while the ref is still
        listed; then the ref leaves the node's list. */
    method UnlistAt(n: NodeId, r: RefId, wasStrong: bool)
      requires n in nodes && (wasStrong ==> DecNode(nodes[n], true, true).Some?)
      modifies this`nodes
      ensures nodes == PutNode(old(View()), n, Unref(old(nodes)[n], r, wasStrong)).nodes
    {
      if wasStrong {
        DecNodeAt(n, true, true);
      }
      nodes := nodes[n := nodes[n].(refs := nodes[n].refs - {r})];
      DecNodeAt(n, false, true);
    }

    /** binder_delete_ref. */
    method DeleteRefAt(r: RefId)
      requires Inv(View()) && r in refs
      modifies this`nodes, this`refs, this`byDesc, this`byNode
      ensures old(refs)[r].node in old(nodes) && View() == DeleteRef(old(View()), r) && Inv(View())
    {
      ghost var s := View();
      StrongNodeStays(s, r);
      DeleteRefKeeps(s, r);
      var x := refs[r];
      byDesc := byDesc - {(x.proc, x.desc)};
      byNode := byNode - {(x.proc, x.node)};
      UnlistAt(x.node, r, x.strong > 0);
      refs := refs - {r};
    }

    /** The counts of binder_dec_ref, before the ref itself is considered. */
    method LowerAt(r: RefId, strong: bool)
      requires Inv(View()) && r in refs && (if strong then refs[r].strong else refs[r].weak) != 0
      modifies this`nodes, this`refs
      ensures
        var x := old(refs)[r];
        var y := Bump(x, strong, -1);
        && x.node in old(nodes) && refs == old(refs)[r := y] && Inv(View())
        && nodes == if strong && y.strong == 0
          then PutNode(old(View()), x.node, DecNode(old(nodes)[x.node], true, true)).nodes
                    else old(nodes)
    {
      ghost var s := View();
      StrongNodeStays(s, r);
      assert RefOk(s, r) && CountsOk(s, refs[r].node);
      var x := refs[r];
      var y := if strong then x.(strong := x.strong - 1) else x.(weak := x.weak - 1);
      refs := refs[r := y];
      if strong && y.strong == 0 {
        DecNodeAt(x.node, true, true);
      }
      assert nodes == s.nodes[x.node := nodes[x.node]];
      RefFrame(s, View(), r, y, nodes[x.node]);
    }

    /** binder_dec_ref. */
    method DecRefAt(r: RefId, strong: bool) returns (ok: bool)
      requires Inv(View()) && r in refs
      modifies this`nodes, this`refs, this`byDesc, this`byNode
      ensures old(refs)[r].node in old(nodes) && View() == DecRef(old(View()), r, strong) && Inv(View())
      ensures ok <==> (if strong then old(refs)[r].strong else old(refs)[r].weak) != 0
    {
      StrongNodeStays(View(), r);
      if (if strong then refs[r].strong else refs[r].weak) == 0 {
        return false;
      }
      LowerAt(r, strong);
      if refs[r].strong == 0 && refs[r].weak == 0 {
        DeleteRefAt(r);
      }
      return true;
    }

    /** One iteration of the read loop on node work; returns the command sent, if any. */
    method ReadNode(n: NodeId) returns (c: Option<Cmd>)
      requires Inv(View()) && n in nodes && nodes[n].owner.Some? && nodes[n].queued
      modifies this`nodes, this`log
      ensures n in old(log) && View() == ReadNodeWork(old(View()), n) && Inv(View())
      ensures c == NextCmd(old(nodes)[n])
      ensures c == Some(Release) ==> !old(nodes)[n].pendStrong
      ensures c == Some(Decrefs) ==> !old(nodes)[n].pendWeak
    {
      ReadNodeWorkKeeps(View(), n);
      var x := nodes[n];
      var strong := x.internalStrong != 0 || x.localStrong != 0;
      var weak := x.refs != {} || x.localWeak != 0 || strong;
      c := None;
      if weak && !x.hasWeak {
        c := Some(Increfs);
        x := x.(hasWeak := true, pendWeak := true, localWeak := x.localWeak + 1);
      } else if strong && !x.hasStrong {
        c := Some(Acquire);
        x := x.(hasStrong := true, pendStrong := true, localStrong := x.localStrong + 1);
      } else if !strong && x.hasStrong {
        c := Some(Release);
        x := x.(hasStrong := false);
      } else if !weak && x.hasWeak {
        c := Some(Decrefs);
        x := x.(hasWeak := false);
      }
      if c.Some? {
        CommandIsTimely(View(), n, c.value);
        nodes := nodes[n := x];
        log := log[n := log[n] + [c.value]];
      } else if !weak && !strong {
        nodes := nodes - {n};
      } else {
        nodes := nodes[n := x.(queued := false)];
      }
    }
  }
}
