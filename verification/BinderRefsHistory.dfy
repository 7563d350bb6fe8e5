/**
 The counts of the driver against the history of requests (driver/binder/binder.c): over every run
 a ref counts what was taken and not given back, a node what buffers hold and what its owner has
 not acknowledged, and each read of node work sends the command that is due.
 */
module BinderRefsHistory {
  import opened Wrappers
  import opened BinderRefs
  import opened BinderRefsResults

  function Front(ops: seq<Op>): seq<Op>
    requires ops != []
  {
    ops[..|ops| - 1]
  }

  function Last(ops: seq<Op>): Op
    requires ops != []
  {
    ops[|ops| - 1]
  }

  // ---------------------------------------------------------------- refs

  /** A first count on the ref is accepted: without a list to queue the node's work on, the owner
      must have been told already, or be about to be. */
  predicate FirstAccepted(s: State, r: RefId, strong: bool, listed: bool) {
    r in s.refs && s.refs[r].node in s.nodes &&
    var x := s.nodes[s.refs[r].node];
    listed ||
    if strong then x.internalStrong != 0 || (s.mgr == Some(s.refs[r].node) && x.hasStrong) else x.hasWeak || x.queued
  }

  /** Counts taken on ref `r` in the run and not given back: a request to give back what is not
      there is refused. */
  ghost function Balance(ops: seq<Op>, r: RefId, strong: bool): nat
    requires IsRun(ops)
    decreases |ops|
  {
    if ops == [] then 0
    else
      AfterLast(ops);
      var was := Balance(Front(ops), r, strong);
      match Last(ops)
      case Take(q, str, listed) =>
        if q == r && str == strong && (was > 0 || FirstAccepted(After(Front(ops)), r, strong, listed)) then was + 1
        else was
      case Give(q, str) => if q == r && str == strong && was > 0 then was - 1 else was
      case _ => was
  }

  /** The counts of a ref after a step. */
  function Counted(x: Ref, strong: bool, k: int): Ref {
    if strong then x.(strong := x.strong + k) else x.(weak := x.weak + k)
  }

  function CountOf(x: Ref, strong: bool): int {
    if strong then x.strong else x.weak
  }

  /** What a step does to ref `r`. */
  ghost predicate RefMoves(s: State, op: Op, t: State, r: RefId)
    requires r in s.refs
  {
    match op
    case Take(q, strong, listed) =>
      r in t.refs &&
      t.refs[r] == if q == r && (CountOf(s.refs[r], strong) > 0 || FirstAccepted(s, r, strong, listed))
        then Counted(s.refs[r], strong, 1) else s.refs[r]
    case Give(q, strong) =>
      if q != r || CountOf(s.refs[r], strong) == 0 then r in t.refs && t.refs[r] == s.refs[r]
      else if s.refs[r].strong + s.refs[r].weak == 1 then r !in t.refs
      else r in t.refs && t.refs[r] == Counted(s.refs[r], strong, -1)
    case Remove(q) => if q == r then r !in t.refs else r in t.refs && t.refs[r] == s.refs[r]
    case _ => r in t.refs && t.refs[r] == s.refs[r]
  }

  lemma TakeMoves(s: State, q: RefId, strong: bool, listed: bool, r: RefId)
    requires Inv(s) && Enabled(s, Take(q, strong, listed)) && r in s.refs && s.refs[q].node in s.nodes
    ensures RefMoves(s, Take(q, strong, listed), IncRef(s, q, strong, listed).0, r)
  {
    assert RefOk(s, r) && RefOk(s, q);
  }

  lemma GiveMoves(s: State, q: RefId, strong: bool, r: RefId)
    requires Inv(s) && Enabled(s, Give(q, strong)) && r in s.refs && s.refs[q].node in s.nodes
    ensures RefMoves(s, Give(q, strong), DecRef(s, q, strong), r)
  {
    assert RefOk(s, r) && RefOk(s, q);
    var n := s.refs[q].node;
    assert CountsOk(s, n) && q in RefsOf(s, n);
  }

  /** A request counts on exactly the ref it names; a ref goes exactly when its last count is given
      back or it is removed. */
  lemma StepRefs(s: State, op: Op, r: RefId)
    requires Inv(s) && Enabled(s, op) && r in s.refs
    ensures RefMoves(s, op, Step(s, op), r)
  {
    assert RefOk(s, r);
    match op
    case Take(q, strong, listed) =>
      assert RefOk(s, q);
      TakeMoves(s, q, strong, listed, r);
    case Give(q, strong) =>
      assert RefOk(s, q);
      GiveMoves(s, q, strong, r);
    case Remove(q) => assert RefOk(s, q);
    case MakeRef(p, n, d) => assert RefOk(s, s.nextRef);
    case _ =>
  }

  /** A ref that was not there before is new, for the process and node that asked, and counts nothing. */
  lemma NewRefs(s: State, op: Op, r: RefId)
    requires Inv(s) && Enabled(s, op) && r !in s.refs
    ensures r in Step(s, op).refs <==> op.MakeRef? && r == s.nextRef
    ensures r in Step(s, op).refs ==> Step(s, op).refs[r] == Ref(op.p, op.n, op.d, 0, 0)
    ensures s.nextRef <= Step(s, op).nextRef && (op.MakeRef? ==> Step(s, op).nextRef == s.nextRef + 1)
  {
    if op.Take? || op.Give? || op.Remove? {
      assert RefOk(s, op.r);
    }
  }

  lemma NextRefStays(s: State, op: Op, r: RefId)
    requires Inv(s) && Enabled(s, op)
    ensures s.nextRef <= Step(s, op).nextRef
    ensures r !in s.refs ==> (op.Take? || op.Give? ==> op.r != r)
  {
    if op.Take? || op.Give? || op.Remove? {
      assert RefOk(s, op.r);
    }
  }

  /** The result says whether the request was counted. */
  lemma TakeResult(s: State, r: RefId, strong: bool, listed: bool)
    requires r in s.refs && s.refs[r].node in s.nodes && s.refs[r].strong >= 0 && s.refs[r].weak >= 0
    ensures IncRef(s, r, strong, listed).1 <==> CountOf(s.refs[r], strong) > 0 || FirstAccepted(s, r, strong, listed)
  {
  }

  /** In every reachable state a ref's strong count is the strong takes less the strong gives, its
      weak count likewise, and a ref not made yet has none. */
  lemma {:induction false} CountsAreBalances(ops: seq<Op>, r: RefId)
    requires IsRun(ops)
    ensures var s := After(ops);
      && (r in s.refs ==> s.refs[r].strong == Balance(ops, r, true) && s.refs[r].weak == Balance(ops, r, false))
      && (r >= s.nextRef ==> Balance(ops, r, true) == 0 && Balance(ops, r, false) == 0)
    decreases |ops|
  {
    if ops != [] {
      AfterLast(ops);
      CountsAreBalances(Front(ops), r);
      BalanceStep(ops, r);
    }
  }

  lemma BalanceStep(ops: seq<Op>, r: RefId)
    requires IsRun(ops) && ops != [] && IsRun(Front(ops)) && Enabled(After(Front(ops)), Last(ops))
    requires After(ops) == Step(After(Front(ops)), Last(ops))
    requires var s := After(Front(ops));
      && (r in s.refs ==> s.refs[r].strong == Balance(Front(ops), r, true) && s.refs[r].weak == Balance(Front(ops), r,
        false))
      && (r >= s.nextRef ==> Balance(Front(ops), r, true) == 0 && Balance(Front(ops), r, false) == 0)
    ensures var s := After(ops);
      && (r in s.refs ==> s.refs[r].strong == Balance(ops, r, true) && s.refs[r].weak == Balance(ops, r, false))
      && (r >= s.nextRef ==> Balance(ops, r, true) == 0 && Balance(ops, r, false) == 0)
  {
    var s, op := After(Front(ops)), Last(ops);
    NextRefStays(s, op, r);
    if r in s.refs {
      assert RefOk(s, r);
      StepRefs(s, op, r);
    } else {
      NewRefs(s, op, r);
    }
  }

  /** In every run giving a count back removes the ref if and only if it was the last count of
      either kind. */
  lemma LastGiveRemoves(ops: seq<Op>, r: RefId, strong: bool)
    requires IsRun(ops) && r in After(ops).refs
    ensures r !in Step(After(ops), Give(r, strong)).refs <==>
      Balance(ops, r, strong) == 1 && Balance(ops, r, !strong) == 0
  {
    CountsAreBalances(ops, r);
    StepRefs(After(ops), Give(r, strong), r);
  }

  // ---------------------------------------------------------------- what buffers hold

  /** Counts taken on the node for buffers in the run and not given back; they go with the
      node's process. */
  ghost function Held(ops: seq<Op>, n: NodeId, strong: bool): int
    requires IsRun(ops)
    decreases |ops|
  {
    if ops == [] then 0
    else
      AfterLast(ops);
      var was := Held(Front(ops), n, strong);
      match Last(ops)
      case Hold(k, str) => if k == n && str == strong then was + 1 else was
      case Drop(k, str) => if k == n && str == strong then was - 1 else was
      case Orphan(k) => if k == n then 0 else was
      case _ => was
  }

  /** Only buffers change what they hold, and the release of the node's process. */
  lemma HeldMoves(s: State, op: Op, n: NodeId)
    requires Inv(s) && Enabled(s, op) && !op.Hold? && !op.Drop? && !op.Orphan?
    ensures Step(s, op).heldStrong == s.heldStrong && Step(s, op).heldWeak == s.heldWeak
  {
    if op.Take? || op.Give? || op.Remove? {
      assert RefOk(s, op.r);
    } else if op.ReadWork? {
      assert LogOk(s, op.n);
    }
  }

  lemma {:induction false} HeldIsCounted(ops: seq<Op>, n: NodeId)
    requires IsRun(ops)
    ensures After(ops).heldStrong[n] == Held(ops, n, true) && After(ops).heldWeak[n] == Held(ops, n, false)
    decreases |ops|
  {
    if ops != [] {
      AfterLast(ops);
      HeldIsCounted(Front(ops), n);
      var op := Last(ops);
      if !op.Hold? && !op.Drop? && !op.Orphan? {
        HeldMoves(After(Front(ops)), op, n);
      }
    }
  }

  // ---------------------------------------------------------------- the commands sent

  /** Somebody needs the owner to keep the object strongly, or at all. */
  ghost predicate StrongUsers(s: State, n: NodeId)
    requires n in s.nodes
  {
    StrongOf(s, n) != {} || n in s.heldStrong || s.nodes[n].pendStrong || s.mgr == Some(n)
  }

  ghost predicate AnyUsers(s: State, n: NodeId)
    requires n in s.nodes
  {
    RefsOf(s, n) != {} || n in s.heldWeak || s.nodes[n].pendWeak || StrongUsers(s, n)
  }

  /** The command the owner is due, from who uses the node and what was sent so far. */
  ghost function Due(s: State, n: NodeId): Option<Cmd>
    requires n in s.nodes && n in s.log && Accept(s.log[n]).Some?
  {
    match Accept(s.log[n]).value
    case Idle => if AnyUsers(s, n) then Some(Increfs) else None
    case Weak => if StrongUsers(s, n) then Some(Acquire) else if AnyUsers(s, n) then None else Some(Decrefs)
    case Strong => if StrongUsers(s, n) then None else Some(Release)
  }

  lemma UsersAreCounts(s: State, n: NodeId)
    requires Inv(s) && n in s.nodes && s.nodes[n].owner.Some?
    ensures StrongUsers(s, n) <==> WantsStrong(s.nodes[n])
    ensures AnyUsers(s, n) <==> WantsWeak(s.nodes[n])
    ensures n in s.log && Accept(s.log[n]).Some? && Due(s, n) == NextCmd(s.nodes[n])
  {
    assert CountsOk(s, n) && LogOk(s, n);
    if WantsStrong(s.nodes[n]) || StrongUsers(s, n) {
      assert RefsOf(s, n) == {} ==> StrongOf(s, n) == {} by {
        if RefsOf(s, n) == {} {
          NoRefsNoStrong(s, n);
        }
      }
    }
  }

  /** A read of node work sends the command that is due and keeps the item; with none due it drops
      the item, and the node with it if nobody uses it. */
  lemma ReadSendsDue(s: State, n: NodeId)
    requires Inv(s) && Enabled(s, ReadWork(n))
    ensures n in s.log && Accept(s.log[n]).Some? && n in Step(s, ReadWork(n)).log
    ensures var t := Step(s, ReadWork(n));
      match Due(s, n)
      case Some(c) => t.log[n] == s.log[n] + [c] && n in t.nodes && t.nodes[n].queued
      case None =>
        t.log[n] == s.log[n] && (if AnyUsers(s, n) then n in t.nodes && !t.nodes[n].queued else n !in t.nodes)
  {
    UsersAreCounts(s, n);
  }

  /** No other step sends the owner of the node anything. */
  lemma OnlyReadsSend(s: State, op: Op, n: NodeId)
    requires Inv(s) && Enabled(s, op) && n in s.log && op != ReadWork(n)
    ensures n in Step(s, op).log && Step(s, op).log[n] == s.log[n]
  {
    assert LogOk(s, n);
    if op.Take? || op.Give? || op.Remove? {
      assert RefOk(s, op.r);
    }
  }

  /** The node's owner was sent an ACQUIRE (an INCREFS) in the run and has not acknowledged it. */
  ghost predicate Awaiting(ops: seq<Op>, n: NodeId, strong: bool)
    requires IsRun(ops)
    decreases |ops|
  {
    ops != [] &&
    (AfterLast(ops);
     var s, t := After(Front(ops)), After(ops);
     if Last(ops) == ReadWork(n) && n in s.log && n in t.log
       && t.log[n] == s.log[n] + [if strong then Acquire else Increfs] then true
     else Awaiting(Front(ops), n, strong) && Last(ops) != Ack(n, strong))
  }

  /** What the owner owes and who it is. */
  predicate SameOwing(x: Node, y: Node) {
    y.pendStrong == x.pendStrong && y.pendWeak == x.pendWeak && y.owner == x.owner
  }

  lemma DecKeepsOwing(x: Node, strong: bool, internal: bool)
    ensures var m := DecNode(x, strong, internal);
      m.Some? ==> SameOwing(x, m.value)
  {
  }

  lemma IncKeepsOwing(x: Node, strong: bool, internal: bool, listed: bool, isMgr: bool)
    ensures SameOwing(x, IncNode(x, strong, internal, listed, isMgr).0)
  {
  }

  /** No node is made, and those that stay keep their owner and what it owes. */
  ghost predicate KeepsOwing(s: State, t: State) {
    forall n: NodeId :: n in t.nodes ==> n in s.nodes && SameOwing(s.nodes[n], t.nodes[n])
  }

  lemma RemoveOwing(s: State, r: RefId)
    requires Inv(s) && r in s.refs && s.refs[r].node in s.nodes
    ensures KeepsOwing(s, DeleteRef(s, r))
  {
    UnrefResult(s, r);
  }

  lemma GiveOwing(s: State, r: RefId, strong: bool)
    requires Inv(s) && r in s.refs && s.refs[r].node in s.nodes
    ensures KeepsOwing(s, DecRef(s, r, strong))
  {
    var x := s.refs[r];
    assert CountsOk(s, x.node) && r in RefsOf(s, x.node);
    if (if strong then x.strong else x.weak) != 0 {
      DecKeepsOwing(s.nodes[x.node], true, true);
      var t := GiveHalf(s, r, strong);
      RemoveOwing(t, r);
    }
  }

  /** The first half of giving up a count: the ref and its node, before the ref may go. */
  lemma GiveHalf(s: State, r: RefId, strong: bool) returns (t: State)
    requires Inv(s) && r in s.refs && s.refs[r].node in s.nodes
    requires (if strong then s.refs[r].strong else s.refs[r].weak) != 0
    ensures Inv(t) && r in t.refs && t.refs[r].node in t.nodes && t.refs[r].node == s.refs[r].node && KeepsOwing(s, t)
    ensures forall n: NodeId :: n in s.nodes ==> n in t.nodes && (t.nodes[n].refs == {} ==> s.nodes[n] == t.nodes[n])
    ensures DecRef(s, r, strong) == t || DecRef(s, r, strong) == DeleteRef(t, r)
  {
    var x := s.refs[r];
    var y := Bump(x, strong, -1);
    assert RefOk(s, r) && CountsOk(s, x.node) && r in RefsOf(s, x.node);
    DecKeepsOwing(s.nodes[x.node], true, true);
    var m := if strong && y.strong == 0 then DecNode(s.nodes[x.node], true, true) else Some(s.nodes[x.node]);
    assert m.Some?;
    t := s.(nodes := s.nodes[x.node := m.value], refs := s.refs[r := y]);
    RefFrame(s, t, r, y, m.value);
    assert CountsOk(t, x.node) && r in RefsOf(t, x.node);
  }

  lemma RefStepOwing(s: State, op: Op)
    requires Inv(s) && Enabled(s, op) && (op.Take? || op.Give? || op.Remove?)
    ensures KeepsOwing(s, Step(s, op)) && Step(s, op).nextNode == s.nextNode
  {
    assert RefOk(s, op.r);
    match op
    case Take(r, strong, listed) =>
      var k := s.refs[r].node;
      IncKeepsOwing(s.nodes[k], strong, true, listed, s.mgr == Some(k));
    case Give(r, strong) => GiveOwing(s, r, strong);
    case Remove(r) => RemoveOwing(s, r);
  }

  lemma PutOwing(s: State, k: NodeId, m: Option<Node>)
    requires k in s.nodes && (m.Some? ==> SameOwing(s.nodes[k], m.value))
    ensures KeepsOwing(s, PutNode(s, k, m))
  {
  }

  lemma HoldOwing(s: State, k: NodeId, strong: bool)
    requires k in s.nodes
    ensures KeepsOwing(s, HoldNode(s, k, strong))
  {
    IncKeepsOwing(s.nodes[k], strong, false, false, s.mgr == Some(k));
  }

  lemma DropOwing(s: State, k: NodeId, strong: bool)
    requires k in s.nodes
    ensures KeepsOwing(s, DropNode(s, k, strong))
  {
    var m := DecNode(s.nodes[k], strong, false);
    DecKeepsOwing(s.nodes[k], strong, false);
    PutOwing(s, k, m);
    assert DropNode(s, k, strong).nodes == PutNode(s, k, m).nodes;
  }

  lemma NewRefOwing(s: State, p: Pid, k: NodeId, d: nat)
    requires k in s.nodes
    ensures KeepsOwing(s, NewRef(s, p, k, d))
  {
  }

  lemma NodeStepOwing(s: State, op: Op)
    requires Inv(s) && Enabled(s, op) && (op.Hold? || op.Drop? || op.ForgetWork? || op.MakeRef?)
    ensures KeepsOwing(s, Step(s, op)) && Step(s, op).nextNode == s.nextNode
  {
    match op
    case Hold(k, strong) => HoldOwing(s, k, strong);
    case Drop(k, strong) => DropOwing(s, k, strong);
    case MakeRef(p, k, d) => NewRefOwing(s, p, k, d);
    case ForgetWork(k) =>
  }

  lemma AckOwing(s: State, k: NodeId, strong: bool)
    requires Inv(s) && Enabled(s, Ack(k, strong))
    ensures var t, x := Done(s, k, strong), s.nodes[k];
      && t.nextNode == s.nextNode
      && (forall n: NodeId :: n in t.nodes ==> n in s.nodes && (n != k ==> SameOwing(s.nodes[n], t.nodes[n])))
      && (k in t.nodes ==>
            SameOwing(if strong then x.(pendStrong := false) else x.(pendWeak := false), t.nodes[k]))
  {
    var x := s.nodes[k];
    DecKeepsOwing(if strong then x.(pendStrong := false) else x.(pendWeak := false), strong, false);
  }

  /** How a step changes who owns the node and what the owner has to acknowledge. */
  ghost predicate OwingMoves(s: State, op: Op, t: State, n: NodeId)
    requires n in t.nodes
  {
    var y := t.nodes[n];
    if n in s.nodes then
      && y.owner == (if op == Orphan(n) then None else s.nodes[n].owner)
      && (op != ReadWork(n) ==>
            && (y.pendStrong <==> s.nodes[n].pendStrong && op != Ack(n, true))
            && (y.pendWeak <==> s.nodes[n].pendWeak && op != Ack(n, false)))
    else n == s.nextNode && !y.pendStrong && !y.pendWeak && (op.Create? || op.BecomeManager?) && y.owner == Some(op.p)
  }

  lemma OtherOwing(s: State, op: Op, n: NodeId)
    requires Inv(s) && Enabled(s, op) && n in Step(s, op).nodes
    requires op.Create? || op.BecomeManager? || op.Orphan?
    ensures OwingMoves(s, op, Step(s, op), n)
  {
    assert GoneOk(s, s.nextNode);
  }

  lemma ReadMoves(s: State, k: NodeId, n: NodeId)
    requires Inv(s) && Enabled(s, ReadWork(k)) && k in s.log && n in ReadNodeWork(s, k).nodes
    ensures OwingMoves(s, ReadWork(k), ReadNodeWork(s, k), n)
  {
    ReadNodes(s, k, n);
  }

  lemma ReadNodes(s: State, k: NodeId, n: NodeId)
    requires k in s.nodes && k in s.log && n in ReadNodeWork(s, k).nodes
    ensures n in s.nodes && (if n == k then ReadNodeWork(s, k).nodes[n].owner == s.nodes[n].owner
      else ReadNodeWork(s, k).nodes[n] == s.nodes[n])
  {
  }

  lemma AckMoves(s: State, k: NodeId, strong: bool, n: NodeId)
    requires Inv(s) && Enabled(s, Ack(k, strong)) && n in Done(s, k, strong).nodes
    ensures OwingMoves(s, Ack(k, strong), Done(s, k, strong), n)
  {
    AckOwing(s, k, strong);
  }

  lemma StepOwing(s: State, op: Op, n: NodeId)
    requires Inv(s) && Enabled(s, op) && n in Step(s, op).nodes
    ensures OwingMoves(s, op, Step(s, op), n)
  {
    if op.Take? || op.Give? || op.Remove? {
      RefStepOwing(s, op);
    } else if op.Ack? {
      AckMoves(s, op.n, op.strong, n);
    } else if op.Hold? || op.Drop? || op.ForgetWork? || op.MakeRef? {
      NodeStepOwing(s, op);
    } else if op.ReadWork? {
      assert LogOk(s, op.n);
      ReadMoves(s, op.n, n);
    } else {
      OtherOwing(s, op, n);
    }
  }

  lemma NextNodeStays(s: State, op: Op)
    requires Inv(s) && Enabled(s, op)
    ensures s.nextNode <= Step(s, op).nextNode
  {
    match op
    case Take(_, _, _) => RefStepOwing(s, op);
    case Give(_, _) => RefStepOwing(s, op);
    case Remove(_) => RefStepOwing(s, op);
    case Ack(k, strong) => AckOwing(s, k, strong);
    case ReadWork(k) => assert LogOk(s, k);
    case _ =>
  }

  /** A node keeps its owner until the owner's process is released. */
  lemma OwnerStays(s: State, op: Op, n: NodeId)
    requires Inv(s) && Enabled(s, op) && n in Step(s, op).nodes
    ensures n in s.nodes ==> Step(s, op).nodes[n].owner == if op == Orphan(n) then None else s.nodes[n].owner
    ensures n !in s.nodes ==> (op.Create? || op.BecomeManager?) && Step(s, op).nodes[n].owner == Some(op.p)
  {
    StepOwing(s, op, n);
  }

  lemma ReadPending(s: State, n: NodeId)
    requires Inv(s) && Enabled(s, ReadWork(n)) && n in Step(s, ReadWork(n)).nodes
    ensures n in s.log && Accept(s.log[n]).Some?
    ensures var x, y := s.nodes[n], Step(s, ReadWork(n)).nodes[n];
      && (y.pendStrong <==> x.pendStrong || Due(s, n) == Some(Acquire))
      && (y.pendWeak <==> x.pendWeak || Due(s, n) == Some(Increfs))
  {
    UsersAreCounts(s, n);
  }

  lemma SentIs(log: seq<Cmd>, c: Cmd, d: Cmd)
    ensures log + [c] == log + [d] <==> c == d
    ensures log != log + [c]
  {
    assert (log + [c])[|log|] == c && (log + [d])[|log|] == d;
    assert |log + [c]| == |log| + 1;
  }

  lemma AwaitingAfterRead(ops: seq<Op>, n: NodeId, strong: bool)
    requires IsRun(ops) && ops != [] && Last(ops) == ReadWork(n)
    requires IsRun(Front(ops)) && Enabled(After(Front(ops)), ReadWork(n))
    requires After(ops) == Step(After(Front(ops)), ReadWork(n))
    ensures var s := After(Front(ops)); n in s.log && Accept(s.log[n]).Some?
    ensures Awaiting(ops, n, strong) <==>
      Due(After(Front(ops)), n) == Some(if strong then Acquire else Increfs) || Awaiting(Front(ops), n, strong)
  {
    var s := After(Front(ops));
    ReadSendsDue(s, n);
    SentIs(s.log[n], if Due(s, n).Some? then Due(s, n).value else Release, if strong then Acquire else Increfs);
  }

  /** In every reachable state a node's pending flags say exactly which acknowledgements its owner
      owes. */
  lemma {:induction false} PendingIsAwaited(ops: seq<Op>, n: NodeId)
    requires IsRun(ops)
    ensures var s := After(ops);
      && (n in s.nodes ==> s.nodes[n].pendStrong == Awaiting(ops, n, true) && s.nodes[n].pendWeak == Awaiting(ops, n,
        false))
      && (n >= s.nextNode ==> !Awaiting(ops, n, true) && !Awaiting(ops, n, false))
    decreases |ops|
  {
    if ops != [] {
      AfterLast(ops);
      var s, op := After(Front(ops)), Last(ops);
      PendingIsAwaited(Front(ops), n);
      NextNodeStays(s, op);
      assert GoneOk(s, n);
      if op == ReadWork(n) {
        AwaitingAfterRead(ops, n, true);
        AwaitingAfterRead(ops, n, false);
        if n in After(ops).nodes {
          ReadPending(s, n);
        }
      } else if n in After(ops).nodes {
        StepOwing(s, op, n);
      }
    }
  }

  /** In every run a RELEASE is sent only when no ACQUIRE is unacknowledged, a DECREFS only when
      nothing is. */
  lemma ReleaseWaits(ops: seq<Op>, n: NodeId)
    requires IsRun(ops) && Enabled(After(ops), ReadWork(n))
    ensures n in After(ops).log && Accept(After(ops).log[n]).Some?
    ensures Due(After(ops), n) == Some(Release) ==> !Awaiting(ops, n, true)
    ensures Due(After(ops), n) == Some(Decrefs) ==> !Awaiting(ops, n, true) && !Awaiting(ops, n, false)
  {
    UsersAreCounts(After(ops), n);
    PendingIsAwaited(ops, n);
  }

  // ---------------------------------------------------------------- nodes nobody frees

  /** Nobody uses the node, its owner keeps nothing, and no work item is left to free it. */
  predicate Leaky(x: Node) {
    && x.refs == {} && x.internalStrong == 0 && x.localStrong == 0 && x.localWeak == 0
    && !x.queued && !(x.owner.Some? && x.hasWeak)
  }

  ghost predicate Leaked(s: State, n: NodeId) {
    n in s.nodes && Leaky(s.nodes[n])
  }

  /** The steps after which a node is left over: it was just made and nobody uses it yet, or a thread
      exit drops the work item that would have freed it. */
  ghost predicate LeavesOver(s: State, op: Op, n: NodeId) {
    || (op.Create? && n == s.nextNode)
    || (op == ForgetWork(n) && n in s.nodes && s.nodes[n].queued && Leaky(s.nodes[n].(queued := false)))
  }

  lemma DecIsNotLeaky(x: Node, strong: bool, internal: bool)
    requires x.hasStrong ==> x.hasWeak
    ensures var m := DecNode(x, strong, internal);
      m.Some? ==> !Leaky(m.value)
  {
  }

  lemma RefStepLeak(s: State, op: Op, n: NodeId)
    requires Inv(s) && Enabled(s, op) && !Leaked(s, n) && (op.Take? || op.Give? || op.Remove?)
    ensures !Leaked(Step(s, op), n)
  {
    assert RefOk(s, op.r);
    var k := s.refs[op.r].node;
    assert CountsOk(s, k) && op.r in RefsOf(s, k);
    var x := s.nodes[k];
    match op
    case Take(r, strong, listed) => IncInternal(x, strong, listed, s.mgr == Some(k));
    case Give(r, strong) => GiveLeak(s, r, strong, n);
    case Remove(r) => RemoveLeak(s, r, n);
  }

  lemma RemoveLeak(s: State, r: RefId, n: NodeId)
    requires Inv(s) && r in s.refs && s.refs[r].node in s.nodes && !Leaked(s, n)
    ensures !Leaked(DeleteRef(s, r), n)
  {
    UnrefResult(s, r);
    assert CountsOk(s, s.refs[r].node);
    var x := s.nodes[s.refs[r].node];
    var m := if s.refs[r].strong > 0 then DecNode(x, true, true) else Some(x);
    if m.Some? {
      DecIsNotLeaky(m.value.(refs := m.value.refs - {r}), false, true);
    }
  }

  lemma GiveLeak(s: State, r: RefId, strong: bool, n: NodeId)
    requires Inv(s) && r in s.refs && s.refs[r].node in s.nodes && !Leaked(s, n)
    ensures !Leaked(DecRef(s, r, strong), n)
  {
    if (if strong then s.refs[r].strong else s.refs[r].weak) != 0 {
      var t := GiveHalf(s, r, strong);
      RemoveLeak(t, r, n);
    }
  }

  lemma HoldLeak(s: State, k: NodeId, strong: bool, n: NodeId)
    requires Inv(s) && Enabled(s, Hold(k, strong)) && !Leaked(s, n)
    ensures !Leaked(HoldNode(s, k, strong), n)
  {
    assert CountsOk(s, k);
  }

  lemma DropLeak(s: State, k: NodeId, strong: bool, n: NodeId)
    requires Inv(s) && Enabled(s, Drop(k, strong)) && !Leaked(s, n)
    ensures !Leaked(DropNode(s, k, strong), n)
  {
    assert CountsOk(s, k);
    DecIsNotLeaky(s.nodes[k], strong, false);
  }

  lemma NodeStepLeak(s: State, op: Op, n: NodeId)
    requires Inv(s) && Enabled(s, op) && !Leaked(s, n) && (op.Hold? || op.Drop? || op.Ack?)
    ensures !Leaked(Step(s, op), n)
  {
    match op
    case Hold(k, strong) => HoldLeak(s, k, strong, n);
    case Drop(k, strong) => DropLeak(s, k, strong, n);
    case Ack(k, strong) =>
      assert CountsOk(s, k);
      AckLeak(s, k, strong, n);
  }

  lemma AckLeak(s: State, k: NodeId, strong: bool, n: NodeId)
    requires Inv(s) && Enabled(s, Ack(k, strong)) && !Leaked(s, n) && CountsOk(s, k)
    ensures !Leaked(Done(s, k, strong), n)
  {
    var x := s.nodes[k];
    DecIsNotLeaky(if strong then x.(pendStrong := false) else x.(pendWeak := false), strong, false);
  }

  lemma ReadLeak(s: State, k: NodeId, n: NodeId)
    requires Inv(s) && Enabled(s, ReadWork(k)) && k in s.log && !Leaked(s, n)
    ensures !Leaked(ReadNodeWork(s, k), n)
  {
    assert CountsOk(s, k);
  }

  lemma OtherStepLeak(s: State, op: Op, n: NodeId)
    requires Inv(s) && Enabled(s, op) && !Leaked(s, n)
    requires op.Create? || op.BecomeManager? || op.ForgetWork? || op.Orphan? || op.MakeRef?
    ensures Leaked(Step(s, op), n) <==> LeavesOver(s, op, n)
  {
    assert CountsOk(s, n);
  }

  /** A node is left over exactly by one of those steps. */
  lemma LeakOnlyBy(s: State, op: Op, n: NodeId)
    requires Inv(s) && Enabled(s, op) && !Leaked(s, n)
    ensures Leaked(Step(s, op), n) <==> LeavesOver(s, op, n)
  {
    if op.Take? || op.Give? || op.Remove? {
      RefStepLeak(s, op, n);
    } else if op.Hold? || op.Drop? || op.Ack? {
      NodeStepLeak(s, op, n);
    } else if op.ReadWork? {
      assert LogOk(s, op.n);
      ReadLeak(s, op.n, n);
    } else {
      OtherStepLeak(s, op, n);
    }
  }
}
