/** What the call protocol guarantees, over all runs from the empty driver. */
module BinderCallsResults {
  import opened Wrappers
  import opened BinderCalls

  // ---------------------------------------------------------------- each call ends once

  lemma {:induction false} FailedReplyHistory(s: State, t: TxId, code: Code, u: TxId)
    requires InvH(s, Some(t)) && code != Ok
    ensures var r := SendFailedReply(s, t, code);
      r.abandoned == s.abandoned && r.sent == s.sent
      && (u in r.txns ==> u in s.txns && r.txns[u] == s.txns[u])
    decreases t
  {
    if s.txns[t].from.None? && s.txns[t].fromParent.Some? {
      PopDeadKeeps(s, t);
      assert ParentOk(s, t);
      FailedReplyHistory(PopDead(s, t), s.txns[t].fromParent.value, code, u);
    }
  }

  lemma {:induction false} DrainHistory(s: State, p: Pid, u: TxId)
    requires Inv(s) && p in s.procs
    ensures var r := Drain(s, p);
      r.abandoned == s.abandoned && r.sent == s.sent && (u in r.txns ==> u in s.txns && r.txns[u] == s.txns[u])
    decreases |s.procs[p]|
  {
    if s.procs[p] != [] {
      DropProcHeadKeeps(s, p);
      var w := s.procs[p][0];
      if w.Call? {
        FailedReplyHistory(DropProcHead(s, p), w.t, DeadReply, u);
        DrainHistory(SendFailedReply(DropProcHead(s, p), w.t, DeadReply), p, u);
      } else {
        DrainHistory(DropProcHead(s, p), p, u);
      }
    }
  }

  /** A step abandons a call only by the exit of its caller, and never changes who called. */
  lemma StepHistory(s: State, op: Op, t: TxId)
    requires Inv(s) && Enabled(s, op) && t < s.next
    ensures var r := Step(s, op);
      && s.next <= r.next && r.sent[t] == s.sent[t]
      && (t in r.txns ==> t in s.txns)
      && ((t in s.txns && s.txns[t].from.Some? && op == ExitThread(s.txns[t].from.value))
          || (r.abandoned[t] == s.abandoned[t] && (t in r.txns ==> r.txns[t].from == s.txns[t].from)))
  {
    match op
    case Reply(a, built) =>
      if s.threads[a].stack.Some? && MayCall(s, a) {
        var x, s1 := s.threads[a].stack.value, PopIncoming(s, a);
        PopIncomingKeeps(s, a);
        if s1.txns[x].from.None? || !built {
          WithErrorKeeps(s1, Some(x), a, TransactionComplete);
          FailedReplyHistory(WithError(s1, a, TransactionComplete), x,
            if s1.txns[x].from.None? then DeadReply else FailedReply, t);
        }
      }
    case ExitThread(a) =>
      LeftBehindIsUnanswered(s, a);
      var hole := LeftBehind(s, a);
      DetachedKeeps(s, a, hole);
      if hole.Some? {
        FailedReplyHistory(Detached(s, a), hole.value, DeadReply, t);
      }
    case ReleaseProc(p) => DrainHistory(s, p, t);
    case ReadWork(a, fromProc) =>
      if Head(s, a, fromProc).Call? {
        HeadIsNext(s, a, fromProc);
      }
    case _ =>
  }

  /** A pending call of a thread that does not exit is, after any further run, still pending
      or closed exactly once, by a reply or by an error. */
  lemma {:induction false} CallOfLiveThreadEndsOnce(s: State, ops: seq<Op>, t: TxId)
    requires Inv(s) && CanRun(s, ops) && t in s.txns && s.txns[t].from.Some?
    requires ExitThread(s.txns[t].from.value) !in ops
    ensures var r := Run(s, ops);
      && r.answered[t] + r.failed[t] + Open(r, t) == 1 && r.abandoned[t] == 0
      && (t in r.txns ==> r.txns[t].from == s.txns[t].from)
    decreases |ops|
  {
    assert CountOk(s, t) && ParentOk(s, t);
    AbandonedStaysZero(s, ops, t, s.txns[t].from.value);
    assert CountOk(Run(s, ops), t);
  }

  lemma {:induction false} AbandonedStaysZero(s: State, ops: seq<Op>, t: TxId, a: Tid)
    requires Inv(s) && CanRun(s, ops) && t < s.next && ExitThread(a) !in ops
    requires s.abandoned[t] == 0 && s.sent[t] == 1 && (t in s.txns ==> s.txns[t].from == Some(a))
    ensures var r := Run(s, ops);
      r.abandoned[t] == 0 && r.sent[t] == 1 && (t in r.txns ==> r.txns[t].from == Some(a))
    decreases |ops|
  {
    if ops != [] {
      var s1 := Step(s, ops[0]);
      assert ops[0] in ops;
      StepHistory(s, ops[0], t);
      AbandonedStaysZero(s1, ops[1..], t, a);
    }
  }

  /** In every reachable state each call was sent at most once and is pending or closed once. */
  lemma EveryCallIsAccountedFor(ops: seq<Op>, t: TxId)
    requires CanRun(Init, ops)
    ensures var s := Run(Init, ops);
      && s.sent[t] <= 1
      && s.sent[t] == s.answered[t] + s.failed[t] + s.abandoned[t] + Open(s, t)
  {
    assert CountOk(Run(Init, ops), t);
  }

  // ---------------------------------------------------------------- errors climb the chain

  ghost function Chain(s: State, t: TxId): set<TxId>
    requires t in s.txns
  {
    set u: TxId | u in s.txns && s.txns[u].root == s.txns[t].root
  }

  /** `v` is the youngest call of `t`'s chain whose caller still lives. */
  ghost predicate NearestLive(s: State, t: TxId, v: TxId)
    requires t in s.txns
  {
    && v in Chain(s, t) && s.txns[v].from.Some?
    && forall u: TxId :: u in Chain(s, t) && v < u ==> s.txns[u].from.None?
  }

  /** A failed reply removes the calls from the end of the chain up to the nearest live caller,
      whose stack drops that call and whose error slot takes the code (an older error moves to
      the second slot).  No other thread notices. */
  lemma {:induction false} ErrorReachesNearestLiveCaller(s: State, t: TxId, code: Code, v: TxId)
    requires InvH(s, Some(t)) && code != Ok && NearestLive(s, t, v)
    ensures var r, a := SendFailedReply(s, t, code), s.txns[v].from.value;
      && r.txns == s.txns - (set u: TxId | u in Chain(s, t) && v <= u)
      && a in s.threads && s.threads[a].stack == Some(v) && s.threads[a].err2 == Ok
      && r.threads == s.threads[a := s.threads[a].(stack := s.txns[v].fromParent, err := code,
        err2 := s.threads[a].err)]
      && r.failed == s.failed + multiset{v}
    decreases t
  {
    var gone := set u: TxId | u in Chain(s, t) && v <= u;
    assert v <= t;
    if s.txns[t].from.Some? {
      assert t in Chain(s, t) && v == t;
      LeafIsTop(s, t);
      assert gone == {t};
    } else {
      PopDeadKeeps(s, t);
      assert ParentOk(s, t) && OrderOk(s, t, v);
      var p, s1 := s.txns[t].fromParent.value, PopDead(s, t);
      assert Chain(s1, p) == Chain(s, t) - {t};
      ErrorReachesNearestLiveCaller(s1, p, code, v);
      assert gone == (set u: TxId | u in Chain(s1, p) && v <= u) + {t};
    }
  }

  /** With no live caller left the whole chain disappears silently. */
  lemma {:induction false} ErrorOfDeadChainVanishes(s: State, t: TxId, code: Code)
    requires InvH(s, Some(t)) && code != Ok
    requires forall u: TxId :: u in Chain(s, t) ==> s.txns[u].from.None?
    ensures var r := SendFailedReply(s, t, code);
      r.txns == s.txns - Chain(s, t) && r.threads == s.threads && r.failed == s.failed
    decreases t
  {
    assert t in Chain(s, t);
    PopDeadKeeps(s, t);
    assert ParentOk(s, t);
    var s1 := PopDead(s, t);
    if s.txns[t].fromParent.Some? {
      var p := s.txns[t].fromParent.value;
      assert Chain(s1, p) == Chain(s, t) - {t};
      ErrorOfDeadChainVanishes(s1, p, code);
      assert Chain(s, t) == Chain(s1, p) + {t};
    } else {
      forall u: TxId | u in Chain(s, t) ensures u == t {
        assert OrderOk(s, t, u);
      }
      assert Chain(s, t) == {t};
    }
  }

  // ---------------------------------------------------------------- stacks

  /** On every stack incoming and outgoing calls alternate. */
  lemma StacksAlternate(ops: seq<Op>, a: Tid, x: TxId)
    requires CanRun(Init, ops)
    requires var s := Run(Init, ops);
      a in s.threads && OnStack(s, None, a, x) && Below(s, a, x).Some?
    ensures var s := Run(Init, ops);
      var y := Below(s, a, x).value;
      && OnStack(s, None, a, y) && y < x
      && (s.txns[x].from == Some(a) <==> s.txns[y].toThread == Some(a))
      && (s.txns[y].from == Some(a) <==> s.txns[x].toThread == Some(a))
  {
    var s := Run(Init, ops);
    assert MemberOk(s, None, a, x) && EndsOk(s, None, x) && ParentOk(s, x);
    assert EndsOk(s, None, Below(s, a, x).value);
  }

  /** The end of a chain: the youngest of its calls. */
  lemma LeafExists(s: State, t: TxId) returns (l: TxId)
    requires Inv(s) && t in s.txns
    ensures l in Chain(s, t) && IsLeaf(s, l)
  {
    l := t;
    while exists u: TxId :: u in Chain(s, t) && l < u
      invariant l in Chain(s, t)
      decreases s.next - l
    {
      var u: TxId :| u in Chain(s, t) && l < u;
      assert ParentOk(s, u);
      l := u;
    }
    forall u: TxId | u in s.txns && s.txns[u].root == s.txns[l].root ensures u <= l {
      assert u in Chain(s, t);
    }
  }

  /** No call is ever stuck: its chain ends in a call that waits in the list of a live thread or
      process, or that a live thread has on top of its stack and can answer. */
  lemma NoCallIsStuck(ops: seq<Op>, t: TxId) returns (l: TxId)
    requires CanRun(Init, ops) && t in Run(Init, ops).txns
    ensures var s := Run(Init, ops);
      && l in Chain(s, t) && t <= l
      && match s.txns[l].toThread
         case Some(b) => b in s.threads &&
           (if s.txns[l].queued then Call(l) in s.threads[b].todo else s.threads[b].stack == Some(l))
         case None => s.txns[l].queued && s.txns[l].toProc.Some? && s.txns[l].toProc.value in s.procs
                      && Call(l) in s.procs[s.txns[l].toProc.value]
  {
    var s := Run(Init, ops);
    l := LeafExists(s, t);
    assert EndsOk(s, None, l) && QueuedOk(s, None, l);
    if s.txns[l].toThread.Some? && !s.txns[l].queued {
      var b := s.txns[l].toThread.value;
      assert MemberOk(s, None, b, l) && TopOk(s, None, b) && PairOk(s, None, b, s.threads[b].stack.value, l);
    }
  }

  /** The one assumption on clients is exact: when the target search selects the sender itself,
      reading that call makes it its own predecessor on the stack, so that the walk of
      binder_free_thread never ends. */
  lemma SelfCallLoops(s: State, a: Tid, p: Pid)
    requires Inv(s) && a in s.threads && MayCall(s, a) && p in s.procs && Chosen(s, a, p) == Some(a)
    ensures var r := Accept(Push(s, a, p, Some(a)), a, s.next);
      Below(r, a, s.next) == Some(s.next) && r.threads[a].stack == Some(s.next) && !Inv(r)
  {
    var r := Accept(Push(s, a, p, Some(a)), a, s.next);
    assert !EndsOk(r, None, s.next);
  }

  // ---------------------------------------------------------------- a run that gets there

  lemma {:induction false} RunAppend(s: State, ops: seq<Op>, op: Op)
    requires Inv(s) && CanRun(s, ops) && Enabled(Run(s, ops), op)
    ensures CanRun(s, ops + [op]) && Run(s, ops + [op]) == Step(Run(s, ops), op)
    decreases |ops|
  {
    if ops == [] {
      assert ops + [op] == [op];
    } else {
      RunAppend(Step(s, ops[0]), ops[1..], op);
      assert (ops + [op])[0] == ops[0] && (ops + [op])[1..] == ops[1..] + [op];
    }
  }

  ghost predicate Reaches(ops: seq<Op>, s: State) {
    InitOk();
    CanRun(Init, ops) && Run(Init, ops) == s
  }

  lemma Extend(ops: seq<Op>, s: State, op: Op)
    requires Inv(s) && Reaches(ops, s) && Enabled(s, op)
    ensures Reaches(ops + [op], Step(s, op))
  {
    InitOk();
    RunAppend(Init, ops, op);
  }

  /** Thread 10 of process 1 and thread 20 of process 2. */
  lemma TwoThreads() returns (ops: seq<Op>, s: State)
    ensures Inv(s) && Reaches(ops, s)
    ensures s.procs == map[1 := [], 2 := []] && s.txns == map[] && s.next == 0
    ensures s.threads == map[10 := Thread(1, None, [], Ok, Ok), 20 := Thread(2, None, [], Ok, Ok)]
  {
    InitOk();
    ops, s := [], Init;
    Extend(ops, s, OpenProc(1));
    ops, s := ops + [OpenProc(1)], Step(s, OpenProc(1));
    Extend(ops, s, OpenProc(2));
    ops, s := ops + [OpenProc(2)], Step(s, OpenProc(2));
    Extend(ops, s, SpawnThread(10, 1));
    ops, s := ops + [SpawnThread(10, 1)], Step(s, SpawnThread(10, 1));
    Extend(ops, s, SpawnThread(20, 2));
    ops, s := ops + [SpawnThread(20, 2)], Step(s, SpawnThread(20, 2));
  }

  lemma CallIs(s: State, a: Tid, p: Pid, target: Option<Tid>)
    requires Inv(s) && a in s.threads && s.threads[a].err == Ok && p in s.procs && MayCall(s, a)
    requires Chosen(s, a, p) == target != Some(a)
    ensures Enabled(s, Transact(a, Node(p), true)) && (target.Some? ==> target.value in s.threads)
    ensures Step(s, Transact(a, Node(p), true)) == Push(s, a, p, target)
  {
  }

  lemma ReadIs(s: State, a: Tid, fromProc: bool)
    requires Inv(s) && a in s.threads && CanTake(s, a, fromProc)
    ensures Enabled(s, ReadWork(a, fromProc))
    ensures var w := Head(s, a, fromProc);
      && (w.Call? ==> w.t in s.txns && Step(s, ReadWork(a, fromProc)) == Accept(TakeHead(s, a, fromProc), a, w.t))
      && (!w.Call? ==> Step(s, ReadWork(a, fromProc)) == TakeHead(s, a, fromProc))
  {
    if Head(s, a, fromProc).Call? {
      AcceptKeeps(s, a, fromProc);
    }
  }

  /** Thread 10 calls process 2. */
  lemma CallSent() returns (ops: seq<Op>, s: State)
    ensures Inv(s) && Reaches(ops, s) && s.next == 1
    ensures 1 in s.procs && 2 in s.procs && s.procs[2] == [Call(0)] && 10 in s.threads && 20 in s.threads
    ensures s.threads[10] == Thread(1, Some(0), [Complete], Ok, Ok) && s.threads[20] == Thread(2, None, [], Ok, Ok)
    ensures 0 in s.txns && s.txns[0] == Txn(Some(10), None, Some(2), None, None, true, 0)
  {
    ops, s := TwoThreads();
    assert Chosen(s, 10, 2) == None;
    CallIs(s, 10, 2, None);
    Extend(ops, s, Transact(10, Node(2), true));
    ops, s := ops + [Transact(10, Node(2), true)], Step(s, Transact(10, Node(2), true));
  }

  /** Thread 20 takes the call. */
  lemma CallTaken() returns (ops: seq<Op>, s: State)
    ensures Inv(s) && Reaches(ops, s) && s.next == 1 && 1 in s.procs && 10 in s.threads && 20 in s.threads
    ensures s.threads[10] == Thread(1, Some(0), [Complete], Ok, Ok) && s.threads[20] == Thread(2, Some(0), [], Ok, Ok)
    ensures 0 in s.txns && s.txns[0] == Txn(Some(10), None, Some(2), Some(20), None, false, 0)
  {
    ops, s := CallSent();
    ReadIs(s, 20, true);
    Extend(ops, s, ReadWork(20, true));
    ops, s := ops + [ReadWork(20, true)], Step(s, ReadWork(20, true));
  }

  /** Thread 20 calls back, and the call goes to thread 10. */
  lemma CallbackSent() returns (ops: seq<Op>, s: State)
    ensures Inv(s) && Reaches(ops, s) && 1 in s.procs && 10 in s.threads && 20 in s.threads
    ensures s.threads[10] == Thread(1, Some(0), [Complete, Call(1)], Ok, Ok) && s.threads[20].proc == 2
    ensures 0 in s.txns && s.txns[0] == Txn(Some(10), None, Some(2), Some(20), None, false, 0)
    ensures 1 in s.txns && s.txns[1] == Txn(Some(20), Some(0), Some(1), Some(10), None, true, 0)
  {
    ops, s := CallTaken();
    assert Chosen(s, 20, 1) == FindTarget(s, None, 1, Some(10)) == Some(10);
    CallIs(s, 20, 1, Some(10));
    Extend(ops, s, Transact(20, Node(1), true));
    ops, s := ops + [Transact(20, Node(1), true)], Step(s, Transact(20, Node(1), true));
  }

  /** Thread 10 reads that its own call is complete and takes the other. */
  lemma CallbackTaken() returns (ops: seq<Op>, s: State)
    ensures Inv(s) && Reaches(ops, s) && 1 in s.procs && 10 in s.threads && 20 in s.threads
    ensures s.threads[10] == Thread(1, Some(1), [], Ok, Ok) && s.threads[20].proc == 2
    ensures 0 in s.txns && s.txns[0] == Txn(Some(10), None, Some(2), Some(20), None, false, 0)
    ensures 1 in s.txns && s.txns[1] == Txn(Some(20), Some(0), Some(1), Some(10), Some(0), false, 0)
  {
    ops, s := CallbackSent();
    ReadIs(s, 10, false);
    Extend(ops, s, ReadWork(10, false));
    ops, s := ops + [ReadWork(10, false)], Step(s, ReadWork(10, false));
    ReadIs(s, 10, false);
    Extend(ops, s, ReadWork(10, false));
    ops, s := ops + [ReadWork(10, false)], Step(s, ReadWork(10, false));
  }

  /** The driver gets to such a state: a thread that serves a callback calls its own process. */
  lemma SelfCallIsReachable() returns (ops: seq<Op>, s: State)
    ensures Inv(s) && Reaches(ops, s) && 10 in s.threads && 1 in s.procs
    ensures MayCall(s, 10) && Chosen(s, 10, 1) == Some(10)
  {
    ops, s := CallbackTaken();
    assert FindTarget(s, Some(0), 1, None) == FindTarget(s, None, 1, Some(10)) == Some(10);
    assert FindTarget(s, Some(1), 1, None) == FindTarget(s, Some(0), 1, None);
  }
}
