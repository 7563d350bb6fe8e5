/** What nodes, references and reference commands guarantee, over all runs from the empty driver. */
module BinderRefsResults {
  import opened Wrappers
  import opened BinderRefs

  /** In every reachable state a node's strong count is the number of its refs with strong > 0,
      its list holds exactly its refs, and its local counts are what buffers hold plus what the
      owner has not acknowledged (plus one for the context manager). */
  lemma CountsAreExact(ops: seq<Op>, n: NodeId)
    requires IsRun(ops) && n in After(ops).nodes
    ensures var s := After(ops);
      && s.nodes[n].refs == RefsOf(s, n) && s.nodes[n].internalStrong == |StrongOf(s, n)|
      && (s.nodes[n].owner.Some? ==>
            && s.nodes[n].localStrong == s.heldStrong[n] + One(s.nodes[n].pendStrong) + One(s.mgr == Some(n))
            && s.nodes[n].localWeak == s.heldWeak[n] + One(s.nodes[n].pendWeak) + One(s.mgr == Some(n)))
      && (s.nodes[n].owner.None? ==> s.nodes[n].localStrong == 0 && s.nodes[n].localWeak == 0)
  {
    assert CountsOk(After(ops), n);
  }

  /** A process has at most one ref per node and one per descriptor. */
  lemma RefsAreUnique(ops: seq<Op>, r: RefId, q: RefId)
    requires IsRun(ops)
    requires var s := After(ops); r in s.refs && q in s.refs && s.refs[r].proc == s.refs[q].proc
    ensures var s := After(ops);
      (s.refs[r].node == s.refs[q].node <==> r == q) && (s.refs[r].desc == s.refs[q].desc <==> r == q)
  {
    assert RefOk(After(ops), r) && RefOk(After(ops), q);
  }

  /** `log` is a beginning of the word of `eps`. */
  ghost predicate Unfinished(log: seq<Cmd>, eps: seq<nat>, rest: seq<Cmd>) {
    log + rest == Word(eps)
  }

  /** An accepted stream can be completed to a word, and is one when nothing is outstanding. */
  lemma AcceptedCompletes(log: seq<Cmd>) returns (eps: seq<nat>)
    requires Accept(log).Some?
    ensures Unfinished(log, eps, Closing(Accept(log).value))
    ensures Accept(log) == Some(Idle) ==> log == Word(eps)
  {
    var k;
    eps, k := AcceptedIsPrefixOfWord(log);
    match Accept(log).value
    case Idle => assert log + [] == Word(eps);
    case Weak =>
      assert (eps + [k])[..|eps|] == eps;
      eps := eps + [k];
    case Strong =>
      assert (eps + [k + 1])[..|eps|] == eps;
      assert Word(eps) + [Increfs] + Pairs(k + 1) + [Decrefs] == log + [Release, Decrefs];
      eps := eps + [k + 1];
  }

  /** The stream of commands to an owner never leaves the grammar: in every reachable state it
      lacks only a closing sequence, and a node that is gone although its process was never
      released has had complete words only.  For the context manager the stream begins with an
      INCREFS and an ACQUIRE that the driver never sends: it sets the flags as if it had. */
  lemma StreamsFollowGrammar(ops: seq<Op>, n: NodeId) returns (eps: seq<nat>, rest: seq<Cmd>)
    requires IsRun(ops) && n in After(ops).log
    ensures Unfinished(After(ops).log[n], eps, rest)
    ensures n !in After(ops).nodes && n !in After(ops).orphaned ==> rest == []
  {
    var s := After(ops);
    assert LogOk(s, n);
    eps := AcceptedCompletes(s.log[n]);
    rest := Closing(Accept(s.log[n]).value);
  }

  lemma GoneIsUnreferenced(t: State, n: NodeId)
    requires Inv(t) && n !in t.nodes
    ensures RefsOf(t, n) == {} && t.heldStrong[n] == 0 && t.heldWeak[n] == 0 && t.mgr != Some(n)
    ensures n in t.log && n !in t.orphaned ==> Accept(t.log[n]) == Some(Idle)
  {
    assert GoneOk(t, n) && LogOk(t, n);
    forall r: RefId | r in t.refs ensures t.refs[r].node != n {
      assert RefOk(t, r);
    }
  }

  /** A step never removes a node's history. */
  lemma HistoryStays(s: State, op: Op, n: NodeId)
    requires Inv(s) && Enabled(s, op) && n in s.nodes
    ensures n in Step(s, op).log
  {
    assert LogOk(s, n);
  }

  /** A step frees a node only when no ref and no buffer refers to it; the step that releases
      the node's process is the only one that may drop counts held by that process's buffers. */
  lemma FreedNodeIsUnreferenced(s: State, op: Op, n: NodeId)
    requires Inv(s) && Enabled(s, op) && n in s.nodes && n !in Step(s, op).nodes
    ensures var t := Step(s, op);
      && RefsOf(t, n) == {} && t.heldStrong[n] == 0 && t.heldWeak[n] == 0 && t.mgr != Some(n)
      && (n !in t.orphaned ==> n in t.log && Accept(t.log[n]) == Some(Idle))
  {
    HistoryStays(s, op, n);
    GoneIsUnreferenced(Step(s, op), n);
  }

  // ---------------------------------------------------------------- commands nobody will send

  /** The owner of the node is due a reference command, and no work item is queued to send it. */
  ghost predicate Overdue(s: State, n: NodeId) {
    n in s.nodes && s.nodes[n].owner.Some? && !Served(s.nodes[n])
  }

  /** The steps that leave a command unsent: a thread exit that drops the item; a count taken for a
      transaction buffer on a node whose owner was not told; and, until the same command counts it
      and queues the item, a new ref to such a node. */
  ghost predicate LeavesUnsent(s: State, op: Op, n: NodeId)
    requires Enabled(s, op)
  {
    match op
    case ForgetWork(k) => k == n && s.nodes[n].owner.Some? && NextCmd(s.nodes[n]).Some?
    case Hold(k, strong) =>
      k == n && !s.nodes[n].queued && !(if strong then s.nodes[n].hasStrong else s.nodes[n].hasWeak)
    case MakeRef(p, k, d) => k == n && s.nodes[n].owner.Some? && !s.nodes[n].queued && !s.nodes[n].hasWeak
    case _ => false
  }

  /** Giving up a count never leaves a command unsent. */
  lemma DecIsQueued(x: Node, strong: bool, internal: bool)
    requires x.owner.Some? && Served(x)
    requires x.internalStrong >= 0 && x.localStrong >= 0 && x.localWeak >= 0
    requires if strong then (if internal then x.internalStrong > 0 else x.localStrong > 0)
      else internal || x.localWeak > 0
    ensures var m := DecNode(x, strong, internal);
      m.Some? ==> Served(m.value)
  {
  }

  /** What the node's work item says is up to date. */
  predicate Served(x: Node) {
    x.queued || NextCmd(x).None?
  }

  lemma UnrefIsQueued(x: Node, r: RefId, wasStrong: bool)
    requires x.owner.Some? && Served(x) && r in x.refs && x.localStrong >= 0 && x.localWeak >= 0
    requires if wasStrong then x.internalStrong > 0 else x.internalStrong >= 0
    ensures var m := Unref(x, r, wasStrong);
      m.Some? ==> Served(m.value)
  {
  }

  lemma IncIsQueued(x: Node, strong: bool, listed: bool, isMgr: bool)
    requires Served(x) && x.internalStrong >= 0
    ensures Served(IncNode(x, strong, true, listed, isMgr).0)
  {
  }

  lemma HoldIsUnsent(x: Node, strong: bool, isMgr: bool)
    requires Served(x) && x.localStrong >= 0 && x.localWeak >= 0
    ensures Served(IncNode(x, strong, false, false, isMgr).0) <==>
      x.queued || (if strong then x.hasStrong else x.hasWeak)
  {
  }

  lemma DropOverdue(s: State, k: NodeId, strong: bool, n: NodeId)
    requires Inv(s) && Enabled(s, Drop(k, strong)) && !Overdue(s, n)
    ensures !Overdue(DropNode(s, k, strong), n)
  {
    assert CountsOk(s, n);
    if k == n && s.nodes[n].owner.Some? {
      DecIsQueued(s.nodes[n], strong, false);
    }
  }

  lemma AckOverdue(s: State, k: NodeId, strong: bool, n: NodeId)
    requires Inv(s) && Enabled(s, Ack(k, strong)) && !Overdue(s, n)
    ensures !Overdue(Done(s, k, strong), n)
  {
    assert CountsOk(s, n);
    if k == n && (if strong then s.nodes[n].pendStrong else s.nodes[n].pendWeak) {
      var x := s.nodes[n];
      DecIsQueued(if strong then x.(pendStrong := false) else x.(pendWeak := false), strong, false);
    }
  }

  lemma TakeOverdue(s: State, r: RefId, strong: bool, listed: bool, n: NodeId)
    requires Inv(s) && r in s.refs && s.refs[r].node in s.nodes && !Overdue(s, n)
    ensures !Overdue(IncRef(s, r, strong, listed).0, n)
  {
    var x := s.refs[r];
    assert CountsOk(s, x.node);
    if x.node == n && s.nodes[n].owner.Some? {
      IncIsQueued(s.nodes[n], strong, listed, s.mgr == Some(n));
      IncInternal(s.nodes[n], strong, listed, s.mgr == Some(n));
    }
  }

  lemma RemoveOverdue(s: State, r: RefId, n: NodeId)
    requires Inv(s) && r in s.refs && s.refs[r].node in s.nodes && !Overdue(s, n)
    ensures !Overdue(DeleteRef(s, r), n)
  {
    UnrefResult(s, r);
    var x := s.refs[r];
    assert CountsOk(s, x.node) && r in RefsOf(s, x.node);
    if x.node == n && s.nodes[n].owner.Some? {
      assert x.strong > 0 ==> r in StrongOf(s, n);
      UnrefIsQueued(s.nodes[n], r, x.strong > 0);
    }
  }

  /** The first half of giving up a count: the ref and its node, before the ref may go. */
  lemma GiveFirst(s: State, r: RefId, strong: bool, n: NodeId) returns (t: State)
    requires Inv(s) && r in s.refs && s.refs[r].node in s.nodes && !Overdue(s, n)
    requires (if strong then s.refs[r].strong else s.refs[r].weak) != 0
    ensures Inv(t) && r in t.refs && t.refs[r].node in t.nodes && !Overdue(t, n)
    ensures DecRef(s, r, strong) == t || DecRef(s, r, strong) == DeleteRef(t, r)
  {
    var x := s.refs[r];
    var y := Bump(x, strong, -1);
    assert RefOk(s, r) && CountsOk(s, x.node) && r in RefsOf(s, x.node);
    assert strong ==> r in StrongOf(s, x.node);
    var m := if strong && y.strong == 0 then DecNode(s.nodes[x.node], true, true) else Some(s.nodes[x.node]);
    assert m.Some?;
    t := s.(nodes := s.nodes[x.node := m.value], refs := s.refs[r := y]);
    RefFrame(s, t, r, y, m.value);
    if x.node == n && s.nodes[n].owner.Some? && strong {
      DecIsQueued(s.nodes[n], true, true);
    }
  }

  lemma GiveOverdue(s: State, r: RefId, strong: bool, n: NodeId)
    requires Inv(s) && r in s.refs && s.refs[r].node in s.nodes && !Overdue(s, n)
    ensures !Overdue(DecRef(s, r, strong), n)
  {
    if (if strong then s.refs[r].strong else s.refs[r].weak) != 0 {
      var t := GiveFirst(s, r, strong, n);
      RemoveOverdue(t, r, n);
    }
  }

  lemma HoldOverdue(s: State, k: NodeId, strong: bool, n: NodeId)
    requires Inv(s) && Enabled(s, Hold(k, strong)) && !Overdue(s, n)
    ensures Overdue(HoldNode(s, k, strong), n) <==> LeavesUnsent(s, Hold(k, strong), n)
  {
    assert CountsOk(s, n);
    if k == n {
      HoldIsUnsent(s.nodes[n], strong, s.mgr == Some(n));
    }
  }

  lemma RefOverdue(s: State, op: Op, n: NodeId)
    requires Inv(s) && Enabled(s, op) && !Overdue(s, n) && (op.Take? || op.Give? || op.Remove?)
    ensures !Overdue(Step(s, op), n)
  {
    assert RefOk(s, op.r);
    match op
    case Take(r, strong, listed) => TakeOverdue(s, r, strong, listed, n);
    case Give(r, strong) => GiveOverdue(s, r, strong, n);
    case Remove(r) => RemoveOverdue(s, r, n);
  }

  lemma ReadOverdue(s: State, k: NodeId, n: NodeId)
    requires Inv(s) && Enabled(s, ReadWork(k)) && k in s.log && !Overdue(s, n)
    ensures !Overdue(ReadNodeWork(s, k), n)
  {
  }

  lemma NodeOverdue(s: State, op: Op, n: NodeId)
    requires Inv(s) && Enabled(s, op) && !Overdue(s, n) && (op.ForgetWork? || op.Orphan? || op.MakeRef?)
    ensures Overdue(Step(s, op), n) <==> LeavesUnsent(s, op, n)
  {
  }

  lemma NewOverdue(s: State, op: Op, n: NodeId)
    requires Inv(s) && Enabled(s, op) && !Overdue(s, n) && (op.Create? || op.BecomeManager?)
    ensures !Overdue(Step(s, op), n)
  {
  }

  /** A command to a node's owner becomes overdue exactly by one of those steps. */
  lemma OverdueOnlyBy(s: State, op: Op, n: NodeId)
    requires Inv(s) && Enabled(s, op) && !Overdue(s, n)
    ensures Overdue(Step(s, op), n) <==> LeavesUnsent(s, op, n)
  {
    match op
    case Hold(k, strong) => HoldOverdue(s, k, strong, n);
    case Drop(k, strong) => DropOverdue(s, k, strong, n);
    case Ack(k, strong) => AckOverdue(s, k, strong, n);
    case Take(_, _, _) => RefOverdue(s, op, n);
    case Give(_, _) => RefOverdue(s, op, n);
    case Remove(_) => RefOverdue(s, op, n);
    case Create(_) => NewOverdue(s, op, n);
    case BecomeManager(_) => NewOverdue(s, op, n);
    case ReadWork(k) =>
      assert LogOk(s, k);
      ReadOverdue(s, k, n);
    case _ => NodeOverdue(s, op, n);
  }

  lemma {:induction false} RunLast(s: State, ops: seq<Op>)
    requires Inv(s) && CanRun(s, ops) && ops != []
    ensures var before := ops[..|ops| - 1];
      && CanRun(s, before) && Enabled(Run(s, before), ops[|ops| - 1])
      && Run(s, ops) == Step(Run(s, before), ops[|ops| - 1])
    decreases |ops|
  {
    if |ops| > 1 {
      RunLast(Step(s, ops[0]), ops[1..]);
      assert ops[1..][..|ops| - 2] == ops[..|ops| - 1][1..];
    }
  }

  lemma AfterLast(ops: seq<Op>)
    requires IsRun(ops) && ops != []
    ensures var before := ops[..|ops| - 1];
      IsRun(before) && Enabled(After(before), ops[|ops| - 1]) && After(ops) == Step(After(before), ops[|ops| - 1])
  {
    InitOk();
    RunLast(Init, ops);
  }

  /** The last step of the run `ops` leaves a command to the owner of the node unsent. */
  ghost predicate EndsUnsent(ops: seq<Op>, n: NodeId)
    requires IsRun(ops)
  {
    ops != [] &&
    (AfterLast(ops);
     LeavesUnsent(After(ops[..|ops| - 1]), ops[|ops| - 1], n))
  }

  /** In every reachable state a node whose owner is due a command has its work item queued, or one
      of those steps came before. */
  lemma {:induction false} OverdueHasCause(ops: seq<Op>, n: NodeId) returns (k: nat)
    requires IsRun(ops) && Overdue(After(ops), n)
    ensures 0 < k <= |ops| && IsRun(ops[..k]) && EndsUnsent(ops[..k], n) && Overdue(After(ops[..k]), n)
    decreases |ops|
  {
    if ops == [] {
      assert false;
    } else {
      AfterLast(ops);
      var before, op := ops[..|ops| - 1], ops[|ops| - 1];
      if Overdue(After(before), n) {
        k := OverdueHasCause(before, n);
        assert before[..k] == ops[..k];
      } else {
        OverdueOnlyBy(After(before), op, n);
        k := |ops|;
        assert ops[..k] == ops;
      }
    }
  }

  lemma {:induction false} RunAppend(s: State, ops: seq<Op>, op: Op)
    requires Inv(s) && CanRun(s, ops) && Enabled(Run(s, ops), op)
    ensures CanRun(s, ops + [op]) && Run(s, ops + [op]) == Step(Run(s, ops), op)
    decreases |ops|
  {
    if ops == [] {
      assert ops + [op] == [op];
    } else {
      RunAppend(Step(s, ops[0]), ops[1..], op);
      assert (ops + [op])[0] == ops[0] && (ops + [op])[1..] == ops[1..] + [op];
    }
  }

  lemma AfterAppend(ops: seq<Op>, op: Op)
    requires IsRun(ops) && Enabled(After(ops), op)
    ensures IsRun(ops + [op]) && After(ops + [op]) == Step(After(ops), op)
  {
    InitOk();
    RunAppend(Init, ops, op);
  }

  /** Process 1 has a node, and process 2 a ref to it. */
  lemma RefMade() returns (ops: seq<Op>)
    ensures IsRun(ops)
    ensures var s := After(ops);
      && 0 in s.refs && s.refs[0] == Ref(2, 0, 1, 0, 0) && 0 in s.log && s.log[0] == [] && 0 in s.nodes
      && s.nodes[0] == Node(Some(1), {0}, 0, 0, 0, false, false, false, false, false)
  {
    ops := [];
    assert IsRun(ops);
    AfterAppend(ops, Create(1));
    ops := ops + [Create(1)];
    assert Descs(After(ops), 2) == {};
    AfterAppend(ops, MakeRef(2, 0, 1));
    ops := ops + [MakeRef(2, 0, 1)];
  }

  /** The ref takes a strong count, which queues the node's work item. */
  lemma RefTaken() returns (ops: seq<Op>)
    ensures IsRun(ops)
    ensures var s := After(ops);
      && 0 in s.refs && s.refs[0] == Ref(2, 0, 1, 1, 0) && 0 in s.log && s.log[0] == [] && 0 in s.nodes
      && s.nodes[0] == Node(Some(1), {0}, 1, 0, 0, false, false, false, false, true)
  {
    ops := RefMade();
    AfterAppend(ops, Take(0, true, true));
    ops := ops + [Take(0, true, true)];
  }

  /** The thread with the work item exits: the ref counts, and the owner is told nothing. */
  lemma ThreadExitLosesCommand() returns (ops: seq<Op>)
    ensures IsRun(ops) && Overdue(After(ops), 0)
    ensures var s := After(ops);
      0 in s.refs && s.refs[0].node == 0 && s.refs[0].strong == 1 && 0 in s.log && s.log[0] == []
  {
    ops := RefTaken();
    AfterAppend(ops, ForgetWork(0));
    ops := ops + [ForgetWork(0)];
  }
}
