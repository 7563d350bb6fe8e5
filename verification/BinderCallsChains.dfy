/**
 The shape of the call chains, over all runs from the empty driver: chains are linear, a thread's
 stack lies in one chain, and only the end of a chain changes the stacks in it.
 */
module BinderCallsChains {
  import opened Wrappers
  import opened BinderCalls
  import opened BinderCallsResults

  /** In every reachable state a chain is a line: the parent of a call is the youngest of the older
      calls of its chain, and the call was made by the thread that handles the parent. */
  lemma ChainsAreLinear(ops: seq<Op>, t: TxId, u: TxId)
    requires CanRun(Init, ops) && t in Run(Init, ops).txns && u in Chain(Run(Init, ops), t) && u < t
    ensures var s := Run(Init, ops);
      && s.txns[t].fromParent.Some?
      && var p := s.txns[t].fromParent.value;
         p in Chain(s, t) && u <= p < t && !s.txns[p].queued && s.txns[p].toThread == s.txns[t].from
  {
    var s := Run(Init, ops);
    assert OrderOk(s, t, u) && ParentOk(s, t);
  }

  /** In every reachable state the calls of a thread, made or being handled, are of one chain and
      all on its stack: each but the oldest is directly above the next one. */
  lemma StackLiesInOneChain(ops: seq<Op>, a: Tid, t: TxId, m: TxId)
    requires CanRun(Init, ops) && a in Run(Init, ops).threads
    requires OnStack(Run(Init, ops), None, a, t) && OnStack(Run(Init, ops), None, a, m) && m < t
    ensures var s := Run(Init, ops);
      && m in Chain(s, t) && s.threads[a].stack.Some? && t <= s.threads[a].stack.value
      && Below(s, a, t).Some? && m <= Below(s, a, t).value < t && OnStack(s, None, a, Below(s, a, t).value)
  {
    var s := Run(Init, ops);
    assert PairOk(s, None, a, t, m) && MemberOk(s, None, a, t);
  }

  // ---------------------------------------------------------------- what changes a stack

  ghost predicate StackChanges(s: State, r: State, a: Tid) {
    a in s.threads && a in r.threads && r.threads[a].stack != s.threads[a].stack
  }

  /** The call on top of the stack of `a` is of the chain of `t`. */
  ghost predicate InChainOf(s: State, a: Tid, t: TxId) {
    && a in s.threads && s.threads[a].stack.Some? && s.threads[a].stack.value in s.txns
    && t in s.txns && s.txns[s.threads[a].stack.value].root == s.txns[t].root
  }

  /** A failed reply changes only stacks in the chain it climbs. */
  lemma {:induction false} FailedReplyChanges(s: State, t: TxId, code: Code, a: Tid)
    requires InvH(s, Some(t)) && code != Ok && StackChanges(s, SendFailedReply(s, t, code), a)
    ensures InChainOf(s, a, t)
    decreases t
  {
    if s.txns[t].from.Some? {
      LeafIsTop(s, t);
    } else {
      PopDeadKeeps(s, t);
      assert ParentOk(s, t);
      if s.txns[t].fromParent.Some? {
        FailedReplyChanges(PopDead(s, t), s.txns[t].fromParent.value, code, a);
      }
    }
  }

  /** Call `l` ends its chain, and the step is one of whoever has it: the reply or the exit of the
      thread it was given to, or the release of the process it is queued for. */
  ghost predicate ActsOnEnd(s: State, op: Op, l: TxId) {
    && IsLeaf(s, l)
    && match op
       case Reply(b, _) => b in s.threads && s.threads[b].stack == Some(l)
       case ExitThread(b) => s.txns[l].toThread == Some(b)
       case ReleaseProc(p) => p in s.procs && Call(l) in s.procs[p]
       case _ => false
  }

  /** The thread whose own command or read the step is. */
  function ActorOf(op: Op): Option<Tid> {
    match op
    case Transact(a, _, _) => Some(a)
    case Reply(a, _) => Some(a)
    case ReadWork(a, _) => Some(a)
    case _ => None
  }

  ghost predicate AtOwnEnd(s: State, r: State, a: Tid) {
    && a in s.threads && a in r.threads
    && ((s.threads[a].stack.Some? && IsLeaf(s, s.threads[a].stack.value))
        || (r.threads[a].stack.Some? && IsLeaf(r, r.threads[a].stack.value)))
  }

  lemma ReplyChanges(s: State, b: Tid, built: bool, a: Tid) returns (l: TxId)
    requires Inv(s) && Enabled(s, Reply(b, built)) && StackChanges(s, Step(s, Reply(b, built)), a)
    ensures IsLeaf(s, l) && s.threads[b].stack == Some(l) && (a != b ==> InChainOf(s, a, l))
  {
    l := s.threads[b].stack.value;
    var s1 := PopIncoming(s, b);
    PopIncomingKeeps(s, b);
    assert TopOk(s, None, b);
    if a != b {
      if s1.txns[l].from.None? || !built {
        WithErrorKeeps(s1, Some(l), b, TransactionComplete);
        var code := if s1.txns[l].from.None? then DeadReply else FailedReply;
        FailedReplyChanges(WithError(s1, b, TransactionComplete), l, code, a);
      } else {
        LeafIsTop(s1, l);
      }
    }
  }

  lemma ExitChanges(s: State, b: Tid, a: Tid) returns (l: TxId)
    requires Inv(s) && b in s.threads && StackChanges(s, Exit(s, b), a)
    ensures IsLeaf(s, l) && s.txns[l].toThread == Some(b) && InChainOf(s, a, l)
  {
    LeftBehindIsUnanswered(s, b);
    var hole := LeftBehind(s, b);
    DetachedKeeps(s, b, hole);
    l := hole.value;
    var s1 := Detached(s, b);
    FailedReplyChanges(s1, l, DeadReply, a);
    forall u: TxId | u in s.txns && s.txns[u].root == s.txns[l].root ensures u <= l {
      assert u in s1.txns && s1.txns[u].root == s.txns[u].root;
    }
  }

  lemma {:induction false} DrainChanges(s: State, p: Pid, a: Tid) returns (l: TxId)
    requires Inv(s) && p in s.procs && StackChanges(s, Drain(s, p), a)
    ensures IsLeaf(s, l) && Call(l) in s.procs[p] && InChainOf(s, a, l)
    decreases |s.procs[p]|
  {
    DropProcHeadKeeps(s, p);
    var w, s1 := s.procs[p][0], DropProcHead(s, p);
    assert ProcQueueOk(s, None, p);
    if w.Call? {
      var s2 := SendFailedReply(s1, w.t, DeadReply);
      if StackChanges(s1, s2, a) {
        FailedReplyChanges(s1, w.t, DeadReply, a);
        l := w.t;
      } else {
        l := DrainChanges(s2, p, a);
        FailedReplyHistory(s1, w.t, DeadReply, l);
        FailedReplyHistory(s1, w.t, DeadReply, s.threads[a].stack.value);
      }
    } else {
      l := DrainChanges(s1, p, a);
    }
    assert EndsOk(s, None, l);
  }

  lemma OwnStepAtEnd(s: State, op: Op, a: Tid)
    requires Inv(s) && Enabled(s, op) && ActorOf(op) == Some(a) && !op.Reply? && StackChanges(s, Step(s, op), a)
    ensures AtOwnEnd(s, Step(s, op), a)
  {
    var r := Step(s, op);
    assert TopOk(r, None, a) && EndsOk(r, None, r.threads[a].stack.value);
  }

  /** A step changes a thread's stack only at the end of the chain the stack is in: it is a step of
      the thread itself, which has that end on top before or after; or of whoever has the end. */
  lemma OnlyTheEndChangesStacks(s: State, op: Op, a: Tid)
    requires Inv(s) && Enabled(s, op) && StackChanges(s, Step(s, op), a)
    ensures (ActorOf(op) == Some(a) && AtOwnEnd(s, Step(s, op), a))
      || exists l: TxId :: ActsOnEnd(s, op, l) && InChainOf(s, a, l)
  {
    match op
    case Reply(b, built) =>
      var l := ReplyChanges(s, b, built, a);
      assert ActsOnEnd(s, op, l);
    case ExitThread(b) =>
      var l := ExitChanges(s, b, a);
      assert ActsOnEnd(s, op, l);
    case ReleaseProc(p) =>
      var l := DrainChanges(s, p, a);
      assert ActsOnEnd(s, op, l);
    case Transact(b, _, _) => OwnStepAtEnd(s, op, a);
    case ReadWork(b, _) => OwnStepAtEnd(s, op, a);
    case _ =>
  }

  // ---------------------------------------------------------------- a closing process

  /** A failed reply leaves every other chain alone. */
  lemma {:induction false} OtherChainsStay(s: State, t: TxId, code: Code, u: TxId)
    requires InvH(s, Some(t)) && code != Ok && u in s.txns && u !in Chain(s, t)
    ensures var r := SendFailedReply(s, t, code);
      u in r.txns && r.txns[u] == s.txns[u] && r.failed[u] == s.failed[u]
    decreases t
  {
    if s.txns[t].from.None? {
      PopDeadKeeps(s, t);
      assert ParentOk(s, t);
      if s.txns[t].fromParent.Some? {
        OtherChainsStay(PopDead(s, t), s.txns[t].fromParent.value, code, u);
      }
    }
  }

  /** The call a failed reply starts at is gone, and its caller is told if it lives. */
  lemma {:induction false} FailedCallIsGone(s: State, t: TxId, code: Code)
    requires InvH(s, Some(t)) && code != Ok
    ensures var r := SendFailedReply(s, t, code);
      t !in r.txns && (s.txns[t].from.Some? ==> r.failed[t] == s.failed[t] + 1)
  {
    if s.txns[t].from.None? && s.txns[t].fromParent.Some? {
      PopDeadKeeps(s, t);
      assert ParentOk(s, t);
      FailedReplyHistory(PopDead(s, t), s.txns[t].fromParent.value, code, t);
    }
  }

  lemma {:induction false} GoneStaysGone(s: State, p: Pid, t: TxId)
    requires Inv(s) && p in s.procs && t !in s.txns
    ensures t !in Drain(s, p).txns && Drain(s, p).failed[t] == s.failed[t]
    decreases |s.procs[p]|
  {
    assert CountOk(s, t) && CountOk(Drain(s, p), t);
    DrainHistory(s, p, t);
    if s.procs[p] != [] {
      DropProcHeadKeeps(s, p);
      var w, s1 := s.procs[p][0], DropProcHead(s, p);
      if w.Call? {
        FailedReplyHistory(s1, w.t, DeadReply, t);
        FailedOnlyOpen(s1, w.t, DeadReply, t);
        GoneStaysGone(SendFailedReply(s1, w.t, DeadReply), p, t);
      } else {
        GoneStaysGone(s1, p, t);
      }
    }
  }

  lemma {:induction false} FailedOnlyOpen(s: State, t: TxId, code: Code, u: TxId)
    requires InvH(s, Some(t)) && code != Ok && u !in s.txns
    ensures SendFailedReply(s, t, code).failed[u] == s.failed[u]
    decreases t
  {
    if s.txns[t].from.None? {
      PopDeadKeeps(s, t);
      assert ParentOk(s, t);
      if s.txns[t].fromParent.Some? {
        FailedOnlyOpen(PopDead(s, t), s.txns[t].fromParent.value, code, u);
      }
    }
  }

  /** Releasing a process's list ends every call in it, each with exactly one error for its caller
      if the caller lives. */
  lemma {:induction false} DrainAnswersAll(s: State, p: Pid, t: TxId)
    requires Inv(s) && p in s.procs && Call(t) in s.procs[p]
    ensures t in s.txns && t !in Drain(s, p).txns
    ensures s.txns[t].from.Some? ==> Drain(s, p).failed[t] == s.failed[t] + 1
    decreases |s.procs[p]|
  {
    assert ProcQueueOk(s, None, p) && EndsOk(s, None, t);
    DropProcHeadKeeps(s, p);
    var w, s1 := s.procs[p][0], DropProcHead(s, p);
    assert s.procs[p] == [w] + s.procs[p][1..];
    if w == Call(t) {
      FailedCallIsGone(s1, t, DeadReply);
      GoneStaysGone(SendFailedReply(s1, t, DeadReply), p, t);
    } else if w.Call? {
      assert EndsOk(s, None, w.t) && w in s.procs[p];
      OtherChainsStay(s1, w.t, DeadReply, t);
      DrainAnswersAll(SendFailedReply(s1, w.t, DeadReply), p, t);
    } else {
      DrainAnswersAll(s1, p, t);
    }
  }
}
