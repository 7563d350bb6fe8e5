/**
 The synchronous call protocol of the binder driver (driver/binder/binder.c): transaction
 stacks, nested callbacks, failed replies that climb over dead callers, thread exit and
 process release.  The driver runs under one global lock, so one command, one delivered
 work item, one thread exit and one process release are the atomic steps.

 A live two-way transaction belongs to one call chain, linked by `fromParent`.  `root`
 names the chain; it is a history field that no branch reads.  `queued` says whether the
 transaction's work entry is linked into a todo list.
 */
module BinderCalls {
  import opened Wrappers

  type Tid = nat
  type Pid = nat
  type TxId = nat

  datatype Code = Ok | TransactionComplete | FailedReply | DeadReply

  /** An entry of a todo list.  `Other` stands for one-way calls, node work and death work. */
  datatype Work = Call(t: TxId) | Answer(t: TxId) | Complete | Other

  datatype Txn = Txn(
    from: Option<Tid>, fromParent: Option<TxId>,
    toProc: Option<Pid>, toThread: Option<Tid>, toParent: Option<TxId>,
    queued: bool, root: TxId)

  datatype Thread = Thread(proc: Pid, stack: Option<TxId>, todo: seq<Work>, err: Code, err2: Code)

  /** The four multisets are the history of two-way calls: sent, answered by a reply,
      failed with an error code, and abandoned because the caller itself exited. */
  datatype State = State(
    procs: map<Pid, seq<Work>>, threads: map<Tid, Thread>, txns: map<TxId, Txn>, next: TxId,
    sent: multiset<TxId>, answered: multiset<TxId>, failed: multiset<TxId>, abandoned: multiset<TxId>)

  const Init := State(map[], map[], map[], 0, multiset{}, multiset{}, multiset{}, multiset{})

  // ---------------------------------------------------------------- the invariant

  /** The last transaction of its chain. */
  ghost predicate IsLeaf(s: State, t: TxId) {
    t in s.txns &&
    forall u: TxId :: u in s.txns && s.txns[u].root == s.txns[t].root ==> u <= t
  }

  /** `t` has been handed to thread `b`.  `hole` is the one transaction, if any, whose
      receiver is gone while a failed reply for it is under way. */
  ghost predicate Received(s: State, hole: Option<TxId>, b: Tid, t: TxId) {
    t in s.txns && hole != Some(t) && !s.txns[t].queued && s.txns[t].toThread == Some(b)
  }

  /** The transactions that belong on the stack of thread `a`. */
  ghost predicate OnStack(s: State, hole: Option<TxId>, a: Tid, t: TxId) {
    t in s.txns && (s.txns[t].from == Some(a) || Received(s, hole, a, t))
  }

  /** The next stack element as binder_free_thread walks it. */
  function Below(s: State, a: Tid, t: TxId): Option<TxId>
    requires t in s.txns
  {
    if s.txns[t].toThread == Some(a) then s.txns[t].toParent else s.txns[t].fromParent
  }

  /** Parents are older members of the same chain, and the caller of a nested call is the
      receiver of its parent. */
  ghost predicate ParentOk(s: State, t: TxId) {
    t in s.txns ==>
      && t < s.next && s.txns[t].root <= t
      && (s.txns[t].fromParent.None? ==> s.txns[t].root == t)
      && (s.txns[t].fromParent.Some? ==>
            var p := s.txns[t].fromParent.value;
            p in s.txns && p < t && s.txns[p].root == s.txns[t].root
            && !s.txns[p].queued && s.txns[p].toThread == s.txns[t].from)
  }

  /** Chains are linear: the parent is the immediate predecessor. */
  ghost predicate OrderOk(s: State, t: TxId, u: TxId) {
    t in s.txns && u in s.txns && u < t && s.txns[u].root == s.txns[t].root ==>
      s.txns[t].fromParent.Some? && u <= s.txns[t].fromParent.value
  }

  /** Thread references point at live threads, no call is addressed to its caller, a call is
      queued only at the end of its chain, and the end of a chain is queued or received. */
  ghost predicate EndsOk(s: State, hole: Option<TxId>, t: TxId) {
    t in s.txns ==>
      && (s.txns[t].from.Some? ==> s.txns[t].from.value in s.threads && s.txns[t].from != s.txns[t].toThread)
      && (s.txns[t].toThread.Some? && hole != Some(t) ==> s.txns[t].toThread.value in s.threads)
      && (s.txns[t].queued ==> IsLeaf(s, t))
      && (IsLeaf(s, t) && hole != Some(t) && !s.txns[t].queued ==> s.txns[t].toThread.Some?)
  }

  /** The top of a stack belongs there; an incoming call on top ends its chain. */
  ghost predicate TopOk(s: State, hole: Option<TxId>, a: Tid) {
    a in s.threads && s.threads[a].stack.Some? ==>
      var x := s.threads[a].stack.value;
      OnStack(s, hole, a, x) && (Received(s, hole, a, x) ==> IsLeaf(s, x))
  }

  /** A thread's transactions lie on its stack, youngest first; incoming and outgoing alternate. */
  ghost predicate MemberOk(s: State, hole: Option<TxId>, a: Tid, t: TxId) {
    a in s.threads && OnStack(s, hole, a, t) ==>
      && s.threads[a].stack.Some? && t <= s.threads[a].stack.value
      && (Below(s, a, t).Some? ==>
            Below(s, a, t).value < t && OnStack(s, hole, a, Below(s, a, t).value)
            && (Received(s, hole, a, t) ==> s.txns[Below(s, a, t).value].from == Some(a)))
  }

  /** Two transactions of one thread belong to one chain, and nothing is skipped between them. */
  ghost predicate PairOk(s: State, hole: Option<TxId>, a: Tid, t: TxId, m: TxId) {
    a in s.threads && OnStack(s, hole, a, t) && OnStack(s, hole, a, m) && m < t ==>
      s.txns[t].root == s.txns[m].root && Below(s, a, t).Some? && m <= Below(s, a, t).value
  }

  ghost predicate NoRepeats(todo: seq<Work>) {
    forall i, j :: 0 <= i < j < |todo| && todo[i].Call? ==> todo[i] != todo[j]
  }

  /** A todo list holds only queued calls addressed to it, once each. */
  ghost predicate ThreadQueueOk(s: State, hole: Option<TxId>, b: Tid) {
    b in s.threads ==>
      && s.threads[b].proc in s.procs
      && NoRepeats(s.threads[b].todo)
      && (forall t: TxId :: Call(t) in s.threads[b].todo ==>
            t in s.txns && hole != Some(t) && s.txns[t].queued && s.txns[t].toThread == Some(b))
  }

  ghost predicate ProcQueueOk(s: State, hole: Option<TxId>, p: Pid) {
    p in s.procs ==>
      && NoRepeats(s.procs[p])
      && (forall t: TxId :: Call(t) in s.procs[p] ==>
            t in s.txns && hole != Some(t) && s.txns[t].queued && s.txns[t].toThread == None &&
              s.txns[t].toProc == Some(p))
  }

  /** The top of the thread's stack is a call of its own. */
  ghost predicate Waiting(s: State, a: Tid) {
    && a in s.threads && s.threads[a].stack.Some?
    && s.threads[a].stack.value in s.txns && s.txns[s.threads[a].stack.value].from == Some(a)
  }

  /** A queued call is in the list it is addressed to; one addressed to a particular thread
      belongs to the chain that thread is waiting in. */
  ghost predicate QueuedOk(s: State, hole: Option<TxId>, t: TxId) {
    t in s.txns && hole != Some(t) && s.txns[t].queued ==>
      match s.txns[t].toThread
      case None =>
        s.txns[t].toProc.Some? && s.txns[t].toProc.value in s.procs && Call(t) in s.procs[s.txns[t].toProc.value]
      case Some(b) =>
        Waiting(s, b) && Call(t) in s.threads[b].todo
        && s.txns[s.threads[b].stack.value].root == s.txns[t].root
  }

  /** The second error slot is used only after the first, and is free whenever the thread
      waits for a reply. */
  ghost predicate ErrorsOk(s: State, a: Tid) {
    a in s.threads ==>
      && (s.threads[a].err2 != Ok ==> s.threads[a].err != Ok)
      && (Waiting(s, a) ==> s.threads[a].err2 == Ok)
  }

  /** 1 while the call is pending for a live caller. */
  function Open(s: State, t: TxId): nat {
    if t in s.txns && s.txns[t].from.Some? then 1 else 0
  }

  /** Every call sent is pending or has been closed exactly once. */
  ghost predicate CountOk(s: State, t: TxId) {
    && s.sent[t] == s.answered[t] + s.failed[t] + s.abandoned[t] + Open(s, t)
    && s.sent[t] <= 1
    && (s.sent[t] == 1 ==> t < s.next)
  }

  ghost predicate ChainsOk(s: State, hole: Option<TxId>) {
    && (hole.Some? ==> IsLeaf(s, hole.value))
    && (forall t: TxId {:trigger ParentOk(s, t)} :: ParentOk(s, t))
    && (forall t: TxId, u: TxId {:trigger OrderOk(s, t, u)} :: OrderOk(s, t, u))
    && (forall t: TxId {:trigger EndsOk(s, hole, t)} :: EndsOk(s, hole, t))
  }

  ghost predicate StacksOk(s: State, hole: Option<TxId>) {
    && (forall a: Tid {:trigger TopOk(s, hole, a)} :: TopOk(s, hole, a))
    && (forall a: Tid, t: TxId {:trigger MemberOk(s, hole, a, t)} :: MemberOk(s, hole, a, t))
    && (forall a: Tid, t: TxId, m: TxId {:trigger PairOk(s, hole, a, t, m)} :: PairOk(s, hole, a, t, m))
  }

  ghost predicate QueuesOk(s: State, hole: Option<TxId>) {
    && (forall b: Tid {:trigger ThreadQueueOk(s, hole, b)} :: ThreadQueueOk(s, hole, b))
    && (forall p: Pid {:trigger ProcQueueOk(s, hole, p)} :: ProcQueueOk(s, hole, p))
    && (forall t: TxId {:trigger QueuedOk(s, hole, t)} :: QueuedOk(s, hole, t))
  }

  ghost predicate InvH(s: State, hole: Option<TxId>) {
    && ChainsOk(s, hole) && StacksOk(s, hole) && QueuesOk(s, hole)
    && (forall a: Tid {:trigger ErrorsOk(s, a)} :: ErrorsOk(s, a))
    && (forall t: TxId {:trigger CountOk(s, t)} :: CountOk(s, t))
  }

  ghost predicate Inv(s: State) {
    InvH(s, None)
  }

  // ---------------------------------------------------------------- failed replies

  /** binder_pop_transaction for a caller that is gone. */
  function PopDead(s: State, t: TxId): State {
    s.(txns := s.txns - {t})
  }

  /** A pending error moves to the second slot if that one is free. */
  function Shift(th: Thread): Thread {
    if th.err != Ok && th.err2 == Ok then th.(err2 := th.err, err := Ok) else th
  }

  /** The BUG_ONs of binder_pop_transaction: the caller's stack top is the failed call. */
  lemma LeafIsTop(s: State, t: TxId)
    requires InvH(s, Some(t)) && s.txns[t].from.Some?
    ensures var a := s.txns[t].from.value; a in s.threads && s.threads[a].stack == Some(t) && s.threads[a].err2 == Ok
  {
    var a := s.txns[t].from.value;
    assert EndsOk(s, Some(t), t) && MemberOk(s, Some(t), a, t) && TopOk(s, Some(t), a) && ErrorsOk(s, a);
    var x := s.threads[a].stack.value;
    assert PairOk(s, Some(t), a, x, t);
  }

  /** Removing the end of a chain leaves its parent as the new end. */
  lemma ParentBecomesLeaf(s: State, t: TxId, r: State, u: TxId)
    requires InvH(s, Some(t)) && r.txns == s.txns - {t}
    ensures IsLeaf(r, u) ==> IsLeaf(s, u) || s.txns[t].fromParent == Some(u)
    ensures IsLeaf(s, u) && u != t ==> IsLeaf(r, u)
    ensures s.txns[t].fromParent == Some(u) ==> IsLeaf(r, u)
  {
    assert ParentOk(s, t);
    if IsLeaf(r, u) {
      if s.txns[u].root == s.txns[t].root {
        assert OrderOk(s, t, u) && s.txns[t].fromParent.value in r.txns;
      } else {
        forall v: TxId | v in s.txns && s.txns[v].root == s.txns[u].root ensures v <= u {
          assert v in r.txns;
        }
      }
    }
    if s.txns[t].fromParent == Some(u) {
      forall v: TxId | v in r.txns && r.txns[v].root == r.txns[u].root ensures v <= u {
        assert OrderOk(s, t, v);
      }
    }
  }

  /** `r` is `s` with the end `t` of a chain popped off its live caller's stack; `th` is the
      caller afterwards. */
  ghost predicate PopsTo(s: State, t: TxId, th: Thread, r: State) {
    && InvH(s, Some(t)) && s.txns[t].from.Some? && s.txns[t].from.value in s.threads
    && (var a := s.txns[t].from.value;
        && th.stack == s.txns[t].fromParent && th.proc == s.threads[a].proc
        && (th.todo == s.threads[a].todo || th.todo == s.threads[a].todo + [Answer(t)])
        && (th.err2 != Ok ==> th.err != Ok)
        && r == s.(txns := s.txns - {t}, threads := s.threads[a := th], answered := r.answered, failed := r.failed))
    && (|| (r.failed == s.failed + multiset{t} && r.answered == s.answered)
        || (r.answered == s.answered + multiset{t} && r.failed == s.failed))
  }

  lemma PopLiveChains(s: State, t: TxId, th: Thread, r: State)
    requires PopsTo(s, t, th, r)
    ensures ChainsOk(r, None)
  {
    var h := Some(t);
    assert ParentOk(s, t);
    forall u: TxId ensures ParentOk(r, u) {
      assert ParentOk(s, u);
    }
    forall u: TxId, v: TxId ensures OrderOk(r, u, v) {
      assert OrderOk(s, u, v);
    }
    forall u: TxId ensures EndsOk(r, None, u) {
      assert EndsOk(s, h, u);
      ParentBecomesLeaf(s, t, r, u);
    }
  }

  lemma PopLiveStacks(s: State, t: TxId, th: Thread, r: State)
    requires PopsTo(s, t, th, r)
    ensures StacksOk(r, None)
  {
    var h, a := Some(t), s.txns[t].from.value;
    LeafIsTop(s, t);
    assert ParentOk(s, t) && EndsOk(s, h, t) && MemberOk(s, h, a, t);
    forall b: Tid, u: TxId ensures OnStack(r, None, b, u) <==> OnStack(s, h, b, u) && u != t {
    }
    forall b: Tid ensures TopOk(r, None, b) {
      assert TopOk(s, h, b) && MemberOk(s, h, b, t);
      if b in r.threads && r.threads[b].stack.Some? {
        ParentBecomesLeaf(s, t, r, r.threads[b].stack.value);
      }
    }
    forall b: Tid, u: TxId ensures MemberOk(r, None, b, u) {
      assert MemberOk(s, h, b, u) && PairOk(s, h, b, t, u);
    }
    forall b: Tid, u: TxId, m: TxId ensures PairOk(r, None, b, u, m) {
      assert PairOk(s, h, b, u, m);
    }
  }

  lemma PopLiveQueues(s: State, t: TxId, th: Thread, r: State)
    requires PopsTo(s, t, th, r)
    ensures QueuesOk(r, None)
  {
    var h := Some(t);
    LeafIsTop(s, t);
    forall b: Tid ensures ThreadQueueOk(r, None, b) {
      assert ThreadQueueOk(s, h, b);
    }
    forall p: Pid ensures ProcQueueOk(r, None, p) {
      assert ProcQueueOk(s, h, p);
    }
    forall u: TxId ensures QueuedOk(r, None, u) {
      assert QueuedOk(s, h, u) && EndsOk(s, h, u);
    }
  }

  lemma PopLiveKeeps(s: State, t: TxId, th: Thread, r: State)
    requires PopsTo(s, t, th, r)
    ensures Inv(r)
  {
    PopLiveChains(s, t, th, r);
    PopLiveStacks(s, t, th, r);
    PopLiveQueues(s, t, th, r);
    assert ParentOk(s, t);
    forall b: Tid ensures ErrorsOk(r, b) {
      assert ErrorsOk(s, b);
      if th.stack.Some? {
        assert EndsOk(s, Some(t), th.stack.value);
      }
    }
    forall u: TxId ensures CountOk(r, u) {
      assert CountOk(s, u);
    }
  }

  lemma PopDeadKeeps(s: State, t: TxId)
    requires InvH(s, Some(t)) && s.txns[t].from.None?
    ensures InvH(PopDead(s, t), s.txns[t].fromParent)
  {
    var h := Some(t);
    var r, g := PopDead(s, t), s.txns[t].fromParent;
    assert ParentOk(s, t) && EndsOk(s, h, t);
    forall u: TxId ensures ParentOk(r, u) {
      assert ParentOk(s, u);
    }
    forall u: TxId, v: TxId ensures OrderOk(r, u, v) {
      assert OrderOk(s, u, v);
    }
    forall u: TxId ensures EndsOk(r, g, u) {
      assert EndsOk(s, h, u);
      ParentBecomesLeaf(s, t, r, u);
    }
    if g.Some? {
      ParentBecomesLeaf(s, t, r, g.value);
    }
    forall b: Tid, u: TxId ensures OnStack(r, g, b, u) <==> OnStack(s, h, b, u) {
    }
    forall b: Tid ensures TopOk(r, g, b) {
      assert TopOk(s, h, b);
      if b in r.threads && r.threads[b].stack.Some? {
        ParentBecomesLeaf(s, t, r, r.threads[b].stack.value);
      }
    }
    forall b: Tid, u: TxId ensures MemberOk(r, g, b, u) {
      assert MemberOk(s, h, b, u);
    }
    forall b: Tid, u: TxId, m: TxId ensures PairOk(r, g, b, u, m) {
      assert PairOk(s, h, b, u, m);
    }
    forall b: Tid ensures ThreadQueueOk(r, g, b) {
      assert ThreadQueueOk(s, h, b);
    }
    forall p: Pid ensures ProcQueueOk(r, g, p) {
      assert ProcQueueOk(s, h, p);
    }
    forall u: TxId ensures QueuedOk(r, g, u) {
      assert QueuedOk(s, h, u) && EndsOk(s, h, u);
      if u in r.txns && g != Some(u) && r.txns[u].queued && r.txns[u].toThread.Some? {
        assert TopOk(s, h, r.txns[u].toThread.value);
      }
    }
    forall b: Tid ensures ErrorsOk(r, b) {
      assert ErrorsOk(s, b);
    }
    forall u: TxId ensures CountOk(r, u) {
      assert CountOk(s, u);
    }
  }

  /** What binder_send_failed_reply does to a live caller that still has room for an error. */
  function Notify(s: State, t: TxId, code: Code): State
    requires t in s.txns && s.txns[t].from.Some? && s.txns[t].from.value in s.threads
  {
    var a := s.txns[t].from.value;
    s.(txns := s.txns - {t}, failed := s.failed + multiset{t},
       threads := s.threads[a := Shift(s.threads[a]).(stack := s.txns[t].fromParent, err := code)])
  }

  /** binder_send_failed_reply, started at the end `t` of a chain whose receiver is gone: dead
      callers are skipped, the nearest live one is told. */
  ghost function SendFailedReply(s: State, t: TxId, code: Code): (r: State)
    requires InvH(s, Some(t)) && code != Ok
    ensures Inv(r) && r.procs == s.procs && r.threads.Keys == s.threads.Keys && r.next == s.next
    ensures forall a: Tid :: a in r.threads ==> r.threads[a].proc == s.threads[a].proc
    decreases t
  {
    match s.txns[t].from
    case Some(a) =>
      LeafIsTop(s, t);
      assert EndsOk(s, Some(t), t);
      PopLiveKeeps(s, t, Shift(s.threads[a]).(stack := s.txns[t].fromParent, err := code), Notify(s, t, code));
      Notify(s, t, code)
    case None =>
      PopDeadKeeps(s, t);
      assert ParentOk(s, t);
      if s.txns[t].fromParent.None? then PopDead(s, t)
      else SendFailedReply(PopDead(s, t), s.txns[t].fromParent.value, code)
  }

  /** `y` is `x`, or `x` with one entry appended that is not a call. */
  ghost predicate Grown(x: seq<Work>, y: seq<Work>) {
    y == x || (|y| == |x| + 1 && y[..|x|] == x && !y[|x|].Call?)
  }

  lemma GrownSame(x: seq<Work>, y: seq<Work>)
    requires Grown(x, y)
    ensures forall t: TxId :: Call(t) in x <==> Call(t) in y
    ensures NoRepeats(x) ==> NoRepeats(y)
  {
    if y != x {
      assert y == x + [y[|x|]];
    }
  }

  ghost predicate ThreadGrown(s: State, r: State, a: Tid) {
    a in r.threads ==>
      && r.threads[a].proc in r.procs
      && (r.threads[a].err2 != Ok ==> r.threads[a].err != Ok)
      && (Waiting(s, a) ==> r.threads[a].err2 == Ok)
      && (if a in s.threads then r.threads[a].stack == s.threads[a].stack && Grown(s.threads[a].todo, r.threads[a].todo)
          else r.threads[a].stack == None && r.threads[a].todo == [])
  }

  ghost predicate ProcGrown(s: State, r: State, p: Pid) {
    p in r.procs ==> if p in s.procs then Grown(s.procs[p], r.procs[p]) else r.procs[p] == []
  }

  /** Changes that leave transactions, stacks and the queued calls alone keep the invariant. */
  lemma SameShape(s: State, hole: Option<TxId>, r: State)
    requires InvH(s, hole)
    requires r == s.(next := r.next, procs := r.procs, threads := r.threads) && r.next >= s.next
    requires s.procs.Keys <= r.procs.Keys && s.threads.Keys <= r.threads.Keys
    requires forall a: Tid {:trigger ThreadGrown(s, r, a)} :: ThreadGrown(s, r, a)
    requires forall p: Pid {:trigger ProcGrown(s, r, p)} :: ProcGrown(s, r, p)
    ensures InvH(r, hole)
  {
    forall u: TxId ensures ParentOk(r, u) {
      assert ParentOk(s, u);
    }
    forall u: TxId, v: TxId ensures OrderOk(r, u, v) {
      assert OrderOk(s, u, v);
    }
    forall u: TxId ensures EndsOk(r, hole, u) && QueuedOk(r, hole, u) {
      assert EndsOk(s, hole, u) && QueuedOk(s, hole, u);
      assert IsLeaf(s, u) == IsLeaf(r, u);
      if u in s.txns && s.txns[u].queued && hole != Some(u) {
        match s.txns[u].toThread
        case Some(b) => assert ThreadGrown(s, r, b); GrownSame(s.threads[b].todo, r.threads[b].todo);
        case None =>
          var p := s.txns[u].toProc.value;
          assert ProcGrown(s, r, p); GrownSame(s.procs[p], r.procs[p]);
      }
    }
    forall b: Tid ensures TopOk(r, hole, b) && ThreadQueueOk(r, hole, b) && ErrorsOk(r, b) {
      assert TopOk(s, hole, b) && ThreadQueueOk(s, hole, b) && ErrorsOk(s, b) && ThreadGrown(s, r, b);
      if b in s.threads {
        GrownSame(s.threads[b].todo, r.threads[b].todo);
        assert s.threads[b].stack.Some? ==> IsLeaf(s, s.threads[b].stack.value) == IsLeaf(r, s.threads[b].stack.value);
      }
    }
    forall b: Tid, u: TxId ensures MemberOk(r, hole, b, u) {
      assert MemberOk(s, hole, b, u) && EndsOk(s, hole, u) && ThreadGrown(s, r, b);
    }
    forall b: Tid, u: TxId, m: TxId ensures PairOk(r, hole, b, u, m) {
      assert PairOk(s, hole, b, u, m) && EndsOk(s, hole, u) && EndsOk(s, hole, m);
    }
    forall u: TxId ensures CountOk(r, u) {
      assert CountOk(s, u);
    }
    forall p: Pid ensures ProcQueueOk(r, hole, p) {
      assert ProcGrown(s, r, p);
      if p in s.procs {
        GrownSame(s.procs[p], r.procs[p]);
      }
      assert ProcQueueOk(s, hole, p);
    }
  }

  // ---------------------------------------------------------------- sending and receiving

  /** The target search of binder_transaction: climbing from the caller's current transaction,
      the last live caller found that belongs to the target process. */
  ghost function FindTarget(s: State, t: Option<TxId>, p: Pid, found: Option<Tid>): (r: Option<Tid>)
    requires Inv(s) && (t.Some? ==> t.value in s.txns)
    ensures r == found || (r.Some? && r.value in s.threads && s.threads[r.value].proc == p && t.Some?
              && exists u: TxId :: u in s.txns && s.txns[u].from == r && s.txns[u].root == s.txns[t.value].root)
    decreases if t.Some? then t.value + 1 else 0
  {
    match t
    case None => found
    case Some(u) =>
      assert ParentOk(s, u) && EndsOk(s, None, u);
      var caller := s.txns[u].from;
      FindTarget(s, s.txns[u].fromParent, p,
        if caller.Some? && s.threads[caller.value].proc == p then caller else found)
  }

  /** The stack check of a two-way BC_TRANSACTION: nothing in progress, or handling a call. */
  predicate MayCall(s: State, a: Tid)
    requires a in s.threads
  {
    s.threads[a].stack.Some? ==>
      s.threads[a].stack.value in s.txns && s.txns[s.threads[a].stack.value].toThread == Some(a)
  }

  /** The effect of a two-way call by thread `a` on process `p`, queued for `target` if given. */
  function Push(s: State, a: Tid, p: Pid, target: Option<Tid>): State
    requires a in s.threads && MayCall(s, a) && p in s.procs && (target.Some? ==> target.value in s.threads)
  {
    var t, stack := s.next, s.threads[a].stack;
    var root := if stack.None? then t else s.txns[stack.value].root;
    var pushed := s.threads[a := s.threads[a].(stack := Some(t))];
    var threads := match target
                   case None => pushed
                   case Some(b) => pushed[b := pushed[b].(todo := pushed[b].todo + [Call(t)])];
    s.(next := t + 1, sent := s.sent + multiset{t},
       txns := s.txns[t := Txn(Some(a), stack, Some(p), target, None, true, root)],
       threads := threads[a := threads[a].(todo := threads[a].todo + [Complete])],
       procs := if target.Some? then s.procs else s.procs[p := s.procs[p] + [Call(t)]])
  }

  lemma AppendNew(todo: seq<Work>, w: Work)
    requires NoRepeats(todo) && (w.Call? ==> w !in todo)
    ensures NoRepeats(todo + [w])
    ensures forall x: Work :: x in todo + [w] <==> x in todo || x == w
  {
  }

  /** A thread about to call handles the last call of its chain. */
  lemma CallerIsAtEnd(s: State, a: Tid)
    requires Inv(s) && a in s.threads && MayCall(s, a) && s.threads[a].stack.Some?
    ensures var x := s.threads[a].stack.value; Received(s, None, a, x) && IsLeaf(s, x) && ParentOk(s, x)
  {
    assert TopOk(s, None, a) && EndsOk(s, None, s.threads[a].stack.value);
  }

  /** Thread `a` may call process `p`; a thread selected there waits in the chain of `a`. */
  ghost predicate Callable(s: State, a: Tid, p: Pid, target: Option<Tid>) {
    && Inv(s) && a in s.threads && s.threads[a].err == Ok && MayCall(s, a) && p in s.procs
    && (target.Some? ==>
          && target.value != a && Waiting(s, target.value) && s.threads[a].stack.Some?
          && s.threads[a].stack.value in s.txns
          && s.txns[s.threads[target.value].stack.value].root == s.txns[s.threads[a].stack.value].root)
  }

  lemma PushLeaves(s: State, a: Tid, p: Pid, target: Option<Tid>, u: TxId)
    requires Callable(s, a, p, target)
    ensures IsLeaf(Push(s, a, p, target), s.next)
    ensures u in s.txns ==> u < s.next && s.txns[u].root < s.next
    ensures u in s.txns && s.threads[a].stack != Some(u) ==> IsLeaf(Push(s, a, p, target), u) == IsLeaf(s, u)
  {
    var r := Push(s, a, p, target);
    forall v: TxId | v in s.txns ensures v < s.next && s.txns[v].root < s.next && v in r.txns {
      assert ParentOk(s, v);
    }
    if s.threads[a].stack.Some? {
      CallerIsAtEnd(s, a);
    }
  }

  lemma PushChains(s: State, a: Tid, p: Pid, target: Option<Tid>)
    requires Callable(s, a, p, target)
    ensures ChainsOk(Push(s, a, p, target), None)
  {
    var r, top := Push(s, a, p, target), s.threads[a].stack;
    if top.Some? {
      CallerIsAtEnd(s, a);
    }
    forall u: TxId ensures ParentOk(r, u) {
      assert ParentOk(s, u);
    }
    forall u: TxId, v: TxId ensures OrderOk(r, u, v) {
      assert OrderOk(s, u, v);
      PushLeaves(s, a, p, target, u);
      PushLeaves(s, a, p, target, v);
    }
    forall u: TxId ensures EndsOk(r, None, u) {
      assert EndsOk(s, None, u);
      PushLeaves(s, a, p, target, u);
    }
  }

  lemma PushOnStack(s: State, a: Tid, p: Pid, target: Option<Tid>, b: Tid, u: TxId)
    requires Callable(s, a, p, target)
    ensures OnStack(Push(s, a, p, target), None, b, u) <==> OnStack(s, None, b, u) || (b == a && u == s.next)
    ensures Received(Push(s, a, p, target), None, b, u) <==> Received(s, None, b, u)
    ensures OnStack(s, None, b, u) ==> u < s.next && Below(Push(s, a, p, target), b, u) == Below(s, b, u)
  {
    PushLeaves(s, a, p, target, u);
  }

  lemma PushPairs(s: State, a: Tid, p: Pid, target: Option<Tid>, b: Tid, u: TxId, m: TxId)
    requires Callable(s, a, p, target)
    ensures PairOk(Push(s, a, p, target), None, b, u, m)
  {
    var top := s.threads[a].stack;
    PushOnStack(s, a, p, target, b, u);
    PushOnStack(s, a, p, target, b, m);
    assert PairOk(s, None, b, u, m);
    if OnStack(s, None, a, m) {
      assert MemberOk(s, None, a, m) && TopOk(s, None, a);
      CallerIsAtEnd(s, a);
      assert PairOk(s, None, a, top.value, m);
    }
  }

  lemma PushStacks(s: State, a: Tid, p: Pid, target: Option<Tid>)
    requires Callable(s, a, p, target)
    ensures StacksOk(Push(s, a, p, target), None)
  {
    var r, top := Push(s, a, p, target), s.threads[a].stack;
    if top.Some? {
      CallerIsAtEnd(s, a);
    }
    forall b: Tid ensures TopOk(r, None, b) {
      assert TopOk(s, None, b);
      if b in s.threads && s.threads[b].stack.Some? {
        PushOnStack(s, a, p, target, b, s.threads[b].stack.value);
        PushLeaves(s, a, p, target, s.threads[b].stack.value);
      }
    }
    forall b: Tid, u: TxId ensures MemberOk(r, None, b, u) {
      assert MemberOk(s, None, b, u);
      PushOnStack(s, a, p, target, b, u);
    }
    forall b: Tid, u: TxId, m: TxId ensures PairOk(r, None, b, u, m) {
      PushPairs(s, a, p, target, b, u, m);
    }
  }

  lemma PushThreadQueue(s: State, a: Tid, p: Pid, target: Option<Tid>, b: Tid)
    requires Callable(s, a, p, target)
    ensures ThreadQueueOk(Push(s, a, p, target), None, b)
  {
    var t := s.next;
    PushLeaves(s, a, p, target, t);
    assert ThreadQueueOk(s, None, b);
    if b in s.threads {
      var mid := if target == Some(b) then s.threads[b].todo + [Call(t)] else s.threads[b].todo;
      if target == Some(b) {
        AppendNew(s.threads[b].todo, Call(t));
      }
      AppendNew(mid, Complete);
    }
  }

  lemma PushProcQueue(s: State, a: Tid, p: Pid, target: Option<Tid>, q: Pid)
    requires Callable(s, a, p, target)
    ensures ProcQueueOk(Push(s, a, p, target), None, q)
  {
    PushLeaves(s, a, p, target, s.next);
    assert ProcQueueOk(s, None, q);
    if q in s.procs {
      AppendNew(s.procs[q], Call(s.next));
    }
  }

  lemma PushQueued(s: State, a: Tid, p: Pid, target: Option<Tid>, u: TxId)
    requires Callable(s, a, p, target)
    ensures QueuedOk(Push(s, a, p, target), None, u)
  {
    if s.threads[a].stack.Some? {
      CallerIsAtEnd(s, a);
    }
    PushLeaves(s, a, p, target, s.next);
    PushLeaves(s, a, p, target, u);
    assert QueuedOk(s, None, u) && EndsOk(s, None, u);
  }

  lemma PushQueues(s: State, a: Tid, p: Pid, target: Option<Tid>)
    requires Callable(s, a, p, target)
    ensures QueuesOk(Push(s, a, p, target), None)
  {
    var r := Push(s, a, p, target);
    forall b: Tid ensures ThreadQueueOk(r, None, b) {
      PushThreadQueue(s, a, p, target, b);
    }
    forall q: Pid ensures ProcQueueOk(r, None, q) {
      PushProcQueue(s, a, p, target, q);
    }
    forall u: TxId ensures QueuedOk(r, None, u) {
      PushQueued(s, a, p, target, u);
    }
  }

  lemma PushKeeps(s: State, a: Tid, p: Pid, target: Option<Tid>)
    requires Callable(s, a, p, target)
    ensures Inv(Push(s, a, p, target))
  {
    var r := Push(s, a, p, target);
    PushChains(s, a, p, target);
    PushStacks(s, a, p, target);
    PushQueues(s, a, p, target);
    forall b: Tid ensures ErrorsOk(r, b) {
      assert ErrorsOk(s, b);
      if b in s.threads && s.threads[b].stack.Some? {
        assert TopOk(s, None, b);
        PushLeaves(s, a, p, target, s.threads[b].stack.value);
      }
    }
    forall u: TxId ensures CountOk(r, u) {
      assert CountOk(s, u) && ParentOk(s, u);
    }
  }

  /** Thread `a` takes the call `t` off the list it was queued in: it becomes the thread's top. */
  function Accept(s: State, a: Tid, t: TxId): State
    requires a in s.threads && t in s.txns
  {
    s.(txns := s.txns[t := s.txns[t].(toParent := s.threads[a].stack, toThread := Some(a), queued := false)],
       threads := s.threads[a := s.threads[a].(stack := Some(t))])
  }

  /** `fromProc` tells whether the call came from the process's list or the thread's own. */
  function TakeHead(s: State, a: Tid, fromProc: bool): State
    requires a in s.threads
    requires if fromProc then s.threads[a].proc in s.procs &&
      s.procs[s.threads[a].proc] != [] else s.threads[a].todo != []
  {
    var p := s.threads[a].proc;
    if fromProc then s.(procs := s.procs[p := s.procs[p][1..]])
    else s.(threads := s.threads[a := s.threads[a].(todo := s.threads[a].todo[1..])])
  }

  /** What a reading thread may take: its own work first, the process's only with an empty
      stack and no work of its own. */
  predicate CanTake(s: State, a: Tid, fromProc: bool)
    requires a in s.threads
  {
    if fromProc then
      s.threads[a].todo == [] && s.threads[a].stack.None? && s.threads[a].proc in s.procs &&
        s.procs[s.threads[a].proc] != []
    else s.threads[a].todo != []
  }

  function Head(s: State, a: Tid, fromProc: bool): Work
    requires a in s.threads && CanTake(s, a, fromProc)
  {
    if fromProc then s.procs[s.threads[a].proc][0] else s.threads[a].todo[0]
  }

  lemma DropHead(todo: seq<Work>)
    requires NoRepeats(todo) && todo != []
    ensures NoRepeats(todo[1..])
    ensures forall w: Work :: w in todo[1..] ==> w in todo
    ensures forall w: Work :: w in todo && w != todo[0] ==> w in todo[1..]
    ensures todo[0].Call? ==> todo[0] !in todo[1..]
  {
  }

  /** The call at the head of a list ends its chain, and is younger than anything on the
      stack of the thread about to take it. */
  lemma HeadIsNext(s: State, a: Tid, fromProc: bool)
    requires Inv(s) && a in s.threads && CanTake(s, a, fromProc) && Head(s, a, fromProc).Call?
    ensures
      var t := Head(s, a, fromProc).t;
      && t in s.txns && s.txns[t].queued && IsLeaf(s, t) && s.txns[t].from != Some(a)
      && (s.txns[t].toThread.Some? ==> s.txns[t].toThread == Some(a))
      && (s.threads[a].stack.Some? ==>
            Waiting(s, a) && s.threads[a].stack.value < t && s.txns[s.threads[a].stack.value].root == s.txns[t].root)
  {
    var t := Head(s, a, fromProc).t;
    assert ThreadQueueOk(s, None, a) && ProcQueueOk(s, None, s.threads[a].proc);
    assert QueuedOk(s, None, t) && EndsOk(s, None, t) && MemberOk(s, None, a, t);
  }

  lemma AcceptChains(s: State, a: Tid, fromProc: bool)
    requires Inv(s) && a in s.threads && CanTake(s, a, fromProc) && Head(s, a, fromProc).Call?
    ensures var t := Head(s, a, fromProc).t; t in s.txns && ChainsOk(Accept(TakeHead(s, a, fromProc), a, t), None)
  {
    HeadIsNext(s, a, fromProc);
    var t := Head(s, a, fromProc).t;
    var r := Accept(TakeHead(s, a, fromProc), a, t);
    forall u: TxId ensures ParentOk(r, u) {
      assert ParentOk(s, u);
    }
    forall u: TxId, v: TxId ensures OrderOk(r, u, v) {
      assert OrderOk(s, u, v);
    }
    forall u: TxId ensures EndsOk(r, None, u) {
      assert EndsOk(s, None, u) && r.txns.Keys == s.txns.Keys;
      assert IsLeaf(r, u) == IsLeaf(s, u);
    }
  }

  lemma AcceptOnStack(s: State, a: Tid, fromProc: bool, b: Tid, u: TxId)
    requires Inv(s) && a in s.threads && CanTake(s, a, fromProc) && Head(s, a, fromProc).Call?
    ensures var t := Head(s, a, fromProc).t; t in s.txns
    ensures
      var t := Head(s, a, fromProc).t;
      var r := Accept(TakeHead(s, a, fromProc), a, t);
      && r.txns.Keys == s.txns.Keys
      && (OnStack(r, None, b, u) <==> OnStack(s, None, b, u) || (b == a && u == t))
      && (Received(r, None, b, u) <==> Received(s, None, b, u) || (b == a && u == t))
      && (OnStack(s, None, b, u) ==> Below(r, b, u) == Below(s, b, u) && !(b == a && u == t))
  {
    HeadIsNext(s, a, fromProc);
  }

  lemma AcceptStacks(s: State, a: Tid, fromProc: bool)
    requires Inv(s) && a in s.threads && CanTake(s, a, fromProc) && Head(s, a, fromProc).Call?
    ensures var t := Head(s, a, fromProc).t; t in s.txns && StacksOk(Accept(TakeHead(s, a, fromProc), a, t), None)
  {
    HeadIsNext(s, a, fromProc);
    var t, top := Head(s, a, fromProc).t, s.threads[a].stack;
    var r := Accept(TakeHead(s, a, fromProc), a, t);
    forall b: Tid ensures TopOk(r, None, b) {
      assert TopOk(s, None, b);
      if b in r.threads && r.threads[b].stack.Some? {
        AcceptOnStack(s, a, fromProc, b, r.threads[b].stack.value);
      }
    }
    forall b: Tid, u: TxId ensures MemberOk(r, None, b, u) {
      assert MemberOk(s, None, b, u);
      AcceptOnStack(s, a, fromProc, b, u);
      if top.Some? {
        AcceptOnStack(s, a, fromProc, b, top.value);
      }
      if OnStack(s, None, b, u) && Below(s, b, u).Some? {
        AcceptOnStack(s, a, fromProc, b, Below(s, b, u).value);
      }
    }
    forall b: Tid, u: TxId, m: TxId ensures PairOk(r, None, b, u, m) {
      AcceptPairs(s, a, fromProc, b, u, m);
    }
  }

  lemma AcceptPairs(s: State, a: Tid, fromProc: bool, b: Tid, u: TxId, m: TxId)
    requires Inv(s) && a in s.threads && CanTake(s, a, fromProc) && Head(s, a, fromProc).Call?
    ensures var t := Head(s, a, fromProc).t;
      t in s.txns && PairOk(Accept(TakeHead(s, a, fromProc), a, t), None, b, u, m)
  {
    HeadIsNext(s, a, fromProc);
    var top := s.threads[a].stack;
    AcceptOnStack(s, a, fromProc, b, u);
    AcceptOnStack(s, a, fromProc, b, m);
    assert PairOk(s, None, b, u, m) && MemberOk(s, None, a, m) && MemberOk(s, None, a, u);
    if top.Some? {
      assert PairOk(s, None, a, top.value, m);
    }
  }

  lemma AcceptThreadList(s: State, a: Tid, fromProc: bool, b: Tid)
    requires Inv(s) && a in s.threads && CanTake(s, a, fromProc) && Head(s, a, fromProc).Call?
    ensures
      var t := Head(s, a, fromProc).t;
      t in s.txns && ThreadQueueOk(Accept(TakeHead(s, a, fromProc), a, t), None, b)
  {
    HeadIsNext(s, a, fromProc);
    assert ThreadQueueOk(s, None, a) && ThreadQueueOk(s, None, b);
    if !fromProc {
      DropHead(s.threads[a].todo);
    }
  }

  lemma AcceptProcList(s: State, a: Tid, fromProc: bool, q: Pid)
    requires Inv(s) && a in s.threads && CanTake(s, a, fromProc) && Head(s, a, fromProc).Call?
    ensures
      var t := Head(s, a, fromProc).t;
      t in s.txns && ProcQueueOk(Accept(TakeHead(s, a, fromProc), a, t), None, q)
  {
    HeadIsNext(s, a, fromProc);
    assert ThreadQueueOk(s, None, a) && ProcQueueOk(s, None, s.threads[a].proc) && ProcQueueOk(s, None, q);
    if fromProc {
      DropHead(s.procs[s.threads[a].proc]);
    }
  }

  lemma AcceptQueues(s: State, a: Tid, fromProc: bool)
    requires Inv(s) && a in s.threads && CanTake(s, a, fromProc) && Head(s, a, fromProc).Call?
    ensures var t := Head(s, a, fromProc).t; t in s.txns && QueuesOk(Accept(TakeHead(s, a, fromProc), a, t), None)
  {
    HeadIsNext(s, a, fromProc);
    var t, pa := Head(s, a, fromProc).t, s.threads[a].proc;
    var r := Accept(TakeHead(s, a, fromProc), a, t);
    assert ThreadQueueOk(s, None, a) && ProcQueueOk(s, None, pa);
    DropHead(if fromProc then s.procs[pa] else s.threads[a].todo);
    forall b: Tid ensures ThreadQueueOk(r, None, b) {
      AcceptThreadList(s, a, fromProc, b);
    }
    forall q: Pid ensures ProcQueueOk(r, None, q) {
      AcceptProcList(s, a, fromProc, q);
    }
    forall u: TxId ensures QueuedOk(r, None, u) {
      assert QueuedOk(s, None, u) && EndsOk(s, None, u);
    }
  }

  lemma AcceptKeeps(s: State, a: Tid, fromProc: bool)
    requires Inv(s) && a in s.threads && CanTake(s, a, fromProc) && Head(s, a, fromProc).Call?
    ensures var t := Head(s, a, fromProc).t; t in s.txns && Inv(Accept(TakeHead(s, a, fromProc), a, t))
  {
    HeadIsNext(s, a, fromProc);
    AcceptChains(s, a, fromProc);
    AcceptStacks(s, a, fromProc);
    AcceptQueues(s, a, fromProc);
    var r := Accept(TakeHead(s, a, fromProc), a, Head(s, a, fromProc).t);
    forall b: Tid ensures ErrorsOk(r, b) {
      assert ErrorsOk(s, b);
    }
    forall u: TxId ensures CountOk(r, u) {
      assert CountOk(s, u);
    }
  }

  /** Dropping an entry that is not a call. */
  lemma SkipKeeps(s: State, a: Tid, fromProc: bool)
    requires Inv(s) && a in s.threads && CanTake(s, a, fromProc) && !Head(s, a, fromProc).Call?
    ensures Inv(TakeHead(s, a, fromProc))
  {
    var r, pa := TakeHead(s, a, fromProc), s.threads[a].proc;
    assert ThreadQueueOk(s, None, a) && ProcQueueOk(s, None, pa);
    DropHead(if fromProc then s.procs[pa] else s.threads[a].todo);
    forall u: TxId ensures ParentOk(r, u) && CountOk(r, u) && EndsOk(r, None, u) && QueuedOk(r, None, u) {
      assert ParentOk(s, u) && CountOk(s, u) && EndsOk(s, None, u) && QueuedOk(s, None, u);
      assert IsLeaf(r, u) == IsLeaf(s, u);
    }
    forall u: TxId, v: TxId ensures OrderOk(r, u, v) {
      assert OrderOk(s, u, v);
    }
    forall b: Tid ensures TopOk(r, None, b) && ThreadQueueOk(r, None, b) && ErrorsOk(r, b) {
      assert TopOk(s, None, b) && ThreadQueueOk(s, None, b) && ErrorsOk(s, b);
      if b in s.threads && s.threads[b].stack.Some? {
        assert IsLeaf(r, s.threads[b].stack.value) == IsLeaf(s, s.threads[b].stack.value);
      }
    }
    forall b: Tid, u: TxId ensures MemberOk(r, None, b, u) {
      assert MemberOk(s, None, b, u);
    }
    forall b: Tid, u: TxId, m: TxId ensures PairOk(r, None, b, u, m) {
      assert PairOk(s, None, b, u, m);
    }
    forall q: Pid ensures ProcQueueOk(r, None, q) {
      assert ProcQueueOk(s, None, q);
    }
  }

  /** BC_REPLY takes the incoming call off the replier's stack before anything else. */
  function PopIncoming(s: State, a: Tid): State
    requires a in s.threads && s.threads[a].stack.Some? && s.threads[a].stack.value in s.txns
  {
    s.(threads := s.threads[a := s.threads[a].(stack := s.txns[s.threads[a].stack.value].toParent)])
  }

  lemma PopIncomingKeeps(s: State, a: Tid)
    requires Inv(s) && a in s.threads && s.threads[a].err == Ok
    requires s.threads[a].stack.Some? && MayCall(s, a)
    ensures InvH(PopIncoming(s, a), s.threads[a].stack)
  {
    var r, h := PopIncoming(s, a), s.threads[a].stack;
    var t := h.value;
    assert TopOk(s, None, a) && EndsOk(s, None, t) && MemberOk(s, None, a, t);
    assert Received(s, None, a, t);
    forall u: TxId ensures ParentOk(r, u) && CountOk(r, u) {
      assert ParentOk(s, u) && CountOk(s, u);
    }
    forall u: TxId, v: TxId ensures OrderOk(r, u, v) {
      assert OrderOk(s, u, v);
    }
    forall u: TxId ensures IsLeaf(r, u) == IsLeaf(s, u) {
    }
    forall u: TxId ensures EndsOk(r, h, u) && QueuedOk(r, h, u) {
      assert EndsOk(s, None, u) && QueuedOk(s, None, u);
    }
    forall b: Tid, u: TxId ensures OnStack(r, h, b, u) <==> OnStack(s, None, b, u) && !(b == a && u == t) {
    }
    forall b: Tid ensures TopOk(r, h, b) && ThreadQueueOk(r, h, b) && ErrorsOk(r, b) {
      assert TopOk(s, None, b) && ThreadQueueOk(s, None, b) && ErrorsOk(s, b);
      if r.threads[a].stack.Some? {
        assert EndsOk(s, None, r.threads[a].stack.value);
      }
    }
    forall b: Tid, u: TxId ensures MemberOk(r, h, b, u) {
      assert MemberOk(s, None, b, u) && PairOk(s, None, a, t, u);
    }
    forall b: Tid, u: TxId, m: TxId ensures PairOk(r, h, b, u, m) {
      assert PairOk(s, None, b, u, m);
    }
    forall q: Pid ensures ProcQueueOk(r, h, q) {
      assert ProcQueueOk(s, None, q);
    }
  }

  // ---------------------------------------------------------------- teardown

  /** What binder_free_thread's walk leaves of a transaction: calls of the dying thread lose
      their caller, calls it was handling lose their receiver. */
  function Detach(x: Txn, a: Tid): Txn {
    if x.from == Some(a) then x.(from := None)
    else if !x.queued && x.toThread == Some(a) then x.(toProc := None, toThread := None)
    else x
  }

  ghost function CallsOf(s: State, a: Tid): set<TxId> {
    set t: TxId | t in s.txns && s.txns[t].from == Some(a)
  }

  ghost function Detached(s: State, a: Tid): State {
    s.(threads := s.threads - {a}, txns := map t: TxId | t in s.txns :: Detach(s.txns[t], a),
       abandoned := s.abandoned + multiset(CallsOf(s, a)))
  }

  /** The transactions of thread `a` that a walk down its stack has met when it reaches `t`. */
  ghost function StackAbove(s: State, a: Tid, t: Option<TxId>): set<TxId> {
    set u: TxId | u in s.txns && OnStack(s, None, a, u) && (t.Some? ==> t.value < u)
  }

  lemma NothingAboveTop(s: State, a: Tid)
    requires Inv(s) && a in s.threads
    ensures StackAbove(s, a, s.threads[a].stack) == {}
    ensures s.threads[a].stack.Some? ==> OnStack(s, None, a, s.threads[a].stack.value)
  {
    assert TopOk(s, None, a);
    forall u: TxId ensures u !in StackAbove(s, a, s.threads[a].stack) {
      assert MemberOk(s, None, a, u);
    }
  }

  /** One step of the walk: it meets one more transaction of the thread, which is its own call
      or one it was handling, and misses none. */
  lemma WalkStep(s: State, a: Tid, u: TxId)
    requires Inv(s) && a in s.threads && OnStack(s, None, a, u)
    ensures StackAbove(s, a, Below(s, a, u)) == StackAbove(s, a, Some(u)) + {u}
    ensures Below(s, a, u).Some? ==> Below(s, a, u).value < u && OnStack(s, None, a, Below(s, a, u).value)
    ensures s.txns[u].toThread == Some(a) <==> s.txns[u].from != Some(a)
  {
    assert MemberOk(s, None, a, u) && EndsOk(s, None, u);
    forall m: TxId | m in s.txns && OnStack(s, None, a, m)
      ensures m in StackAbove(s, a, Below(s, a, u)) <==> u <= m
    {
      assert PairOk(s, None, a, u, m);
    }
  }

  /** The call that a dying thread leaves unanswered: the one it was handling, or the one
      queued for it.  It never has both. */
  ghost predicate Unanswered(s: State, a: Tid, hole: Option<TxId>) {
    a in s.threads &&
    match hole
    case Some(t) => t in s.txns && s.txns[t].toThread == Some(a) &&
      (s.threads[a].stack == Some(t) || Call(t) in s.threads[a].todo)
    case None =>
      && (forall t: TxId :: Call(t) !in s.threads[a].todo)
      && (s.threads[a].stack.Some? ==> Waiting(s, a))
  }

  lemma UnansweredEndsChain(s: State, a: Tid, hole: Option<TxId>, t: TxId)
    requires Inv(s) && Unanswered(s, a, hole)
    ensures hole.Some? ==> IsLeaf(s, hole.value) && s.txns[hole.value].from != Some(a)
    ensures t in s.txns && IsLeaf(s, t) && s.txns[t].toThread == Some(a) && s.txns[t].from != Some(a) ==>
      hole == Some(t)
  {
    assert TopOk(s, None, a) && ThreadQueueOk(s, None, a);
    if hole.Some? {
      assert EndsOk(s, None, hole.value) && QueuedOk(s, None, hole.value);
      assert MemberOk(s, None, a, hole.value);
    }
    if t in s.txns && IsLeaf(s, t) && s.txns[t].toThread == Some(a) {
      assert EndsOk(s, None, t) && QueuedOk(s, None, t) && MemberOk(s, None, a, t);
      var x := s.threads[a].stack.value;
      assert PairOk(s, None, a, x, t);
      if hole.Some? {
        assert PairOk(s, None, a, x, hole.value);
      }
    }
  }

  lemma DetachedLeaf(s: State, a: Tid, u: TxId)
    ensures IsLeaf(Detached(s, a), u) == IsLeaf(s, u)
  {
    assert Detached(s, a).txns.Keys == s.txns.Keys;
  }

  lemma DetachedParent(s: State, a: Tid, u: TxId)
    requires Inv(s)
    ensures ParentOk(Detached(s, a), u)
  {
    assert ParentOk(s, u) && EndsOk(s, None, u);
    if u in s.txns && s.txns[u].fromParent.Some? {
      assert EndsOk(s, None, s.txns[u].fromParent.value);
    }
  }

  lemma DetachedEnds(s: State, a: Tid, hole: Option<TxId>, u: TxId)
    requires Inv(s) && Unanswered(s, a, hole)
    ensures EndsOk(Detached(s, a), hole, u)
  {
    assert EndsOk(s, None, u);
    UnansweredEndsChain(s, a, hole, u);
    DetachedLeaf(s, a, u);
  }

  lemma DetachedChains(s: State, a: Tid, hole: Option<TxId>)
    requires Inv(s) && Unanswered(s, a, hole)
    ensures ChainsOk(Detached(s, a), hole)
  {
    var r := Detached(s, a);
    UnansweredEndsChain(s, a, hole, 0);
    if hole.Some? {
      DetachedLeaf(s, a, hole.value);
    }
    forall u: TxId ensures ParentOk(r, u) && EndsOk(r, hole, u) {
      DetachedParent(s, a, u);
      DetachedEnds(s, a, hole, u);
    }
    forall u: TxId, v: TxId ensures OrderOk(r, u, v) {
      assert OrderOk(s, u, v);
    }
  }

  /** No other thread loses anything from its stack. */
  lemma DetachedMember(s: State, a: Tid, hole: Option<TxId>, b: Tid, u: TxId)
    requires Inv(s) && Unanswered(s, a, hole) && b in Detached(s, a).threads
    ensures OnStack(Detached(s, a), hole, b, u) <==> OnStack(s, None, b, u)
    ensures Received(Detached(s, a), hole, b, u) <==> Received(s, None, b, u)
  {
    UnansweredEndsChain(s, a, hole, u);
  }

  lemma DetachedStacks(s: State, a: Tid, hole: Option<TxId>)
    requires Inv(s) && Unanswered(s, a, hole)
    ensures StacksOk(Detached(s, a), hole)
  {
    var r := Detached(s, a);
    forall b: Tid, u: TxId | b in r.threads
      ensures OnStack(r, hole, b, u) <==> OnStack(s, None, b, u)
      ensures Received(r, hole, b, u) <==> Received(s, None, b, u)
    {
      DetachedMember(s, a, hole, b, u);
    }
    forall b: Tid ensures TopOk(r, hole, b) {
      assert TopOk(s, None, b);
      if b in s.threads && s.threads[b].stack.Some? {
        DetachedLeaf(s, a, s.threads[b].stack.value);
      }
    }
    forall b: Tid, u: TxId ensures MemberOk(r, hole, b, u) {
      assert MemberOk(s, None, b, u);
    }
    forall b: Tid, u: TxId, m: TxId ensures PairOk(r, hole, b, u, m) {
      assert PairOk(s, None, b, u, m);
    }
  }

  lemma DetachedQueues(s: State, a: Tid, hole: Option<TxId>)
    requires Inv(s) && Unanswered(s, a, hole)
    ensures QueuesOk(Detached(s, a), hole)
  {
    var r := Detached(s, a);
    UnansweredEndsChain(s, a, hole, 0);
    forall b: Tid ensures ThreadQueueOk(r, hole, b) {
      assert ThreadQueueOk(s, None, b);
    }
    forall q: Pid ensures ProcQueueOk(r, hole, q) {
      assert ProcQueueOk(s, None, q);
    }
    forall u: TxId ensures QueuedOk(r, hole, u) {
      assert QueuedOk(s, None, u) && EndsOk(s, None, u);
      UnansweredEndsChain(s, a, hole, u);
    }
  }

  lemma DetachedKeeps(s: State, a: Tid, hole: Option<TxId>)
    requires Inv(s) && Unanswered(s, a, hole)
    ensures InvH(Detached(s, a), hole)
  {
    var r := Detached(s, a);
    DetachedChains(s, a, hole);
    DetachedStacks(s, a, hole);
    DetachedQueues(s, a, hole);
    forall b: Tid ensures ErrorsOk(r, b) {
      assert ErrorsOk(s, b);
    }
    forall u: TxId ensures CountOk(r, u) {
      assert CountOk(s, u);
      assert multiset(CallsOf(s, a))[u] == if u in CallsOf(s, a) then 1 else 0;
    }
  }

  /** The first call in a todo list. */
  function FirstCall(todo: seq<Work>): (r: Option<TxId>)
    ensures r.Some? ==> Call(r.value) in todo
    ensures r.None? ==> forall t: TxId :: Call(t) !in todo
  {
    if todo == [] then None
    else if todo[0].Call? then Some(todo[0].t)
    else FirstCall(todo[1..])
  }

  /** The call left without a receiver when thread `a` exits, as binder_free_thread finds it. */
  function LeftBehind(s: State, a: Tid): Option<TxId>
    requires a in s.threads && (s.threads[a].stack.Some? ==> s.threads[a].stack.value in s.txns)
  {
    var top := s.threads[a].stack;
    if top.Some? && s.txns[top.value].toThread == Some(a) then top else FirstCall(s.threads[a].todo)
  }

  lemma LeftBehindIsUnanswered(s: State, a: Tid)
    requires Inv(s) && a in s.threads
    ensures s.threads[a].stack.Some? ==> s.threads[a].stack.value in s.txns
    ensures Unanswered(s, a, LeftBehind(s, a))
    ensures forall t: TxId :: Call(t) in s.threads[a].todo ==> LeftBehind(s, a) == Some(t)
  {
    assert TopOk(s, None, a) && ThreadQueueOk(s, None, a);
    var hole := LeftBehind(s, a);
    if hole.Some? {
      assert EndsOk(s, None, hole.value);
    }
    forall t: TxId | Call(t) in s.threads[a].todo ensures hole == Some(t) {
      assert QueuedOk(s, None, t) && EndsOk(s, None, t);
      UnansweredEndsChain(s, a, hole, t);
    }
  }

  /** binder_free_thread. */
  ghost function Exit(s: State, a: Tid): (r: State)
    requires Inv(s) && a in s.threads
    ensures Inv(r) && r.threads.Keys == s.threads.Keys - {a} && r.procs == s.procs
  {
    LeftBehindIsUnanswered(s, a);
    var hole := LeftBehind(s, a);
    DetachedKeeps(s, a, hole);
    if hole.None? then Detached(s, a) else SendFailedReply(Detached(s, a), hole.value, DeadReply)
  }

  /** The head of a process's list is unlinked; a call there loses its receiver. */
  function DropProcHead(s: State, p: Pid): State
    requires p in s.procs && s.procs[p] != []
  {
    s.(procs := s.procs[p := s.procs[p][1..]])
  }

  lemma DropProcHeadKeeps(s: State, p: Pid)
    requires Inv(s) && p in s.procs && s.procs[p] != []
    ensures InvH(DropProcHead(s, p), if s.procs[p][0].Call? then Some(s.procs[p][0].t) else None)
  {
    var r, w := DropProcHead(s, p), s.procs[p][0];
    var h := if w.Call? then Some(w.t) else None;
    assert ProcQueueOk(s, None, p);
    DropHead(s.procs[p]);
    if h.Some? {
      assert EndsOk(s, None, h.value);
    }
    forall u: TxId ensures IsLeaf(r, u) == IsLeaf(s, u) {
    }
    forall u: TxId ensures ParentOk(r, u) && CountOk(r, u) && EndsOk(r, h, u) && QueuedOk(r, h, u) {
      assert ParentOk(s, u) && CountOk(s, u) && EndsOk(s, None, u) && QueuedOk(s, None, u);
    }
    forall u: TxId, v: TxId ensures OrderOk(r, u, v) {
      assert OrderOk(s, u, v);
    }
    forall b: Tid, u: TxId ensures OnStack(r, h, b, u) == OnStack(s, None, b, u) &&
      Received(r, h, b, u) == Received(s, None, b, u) {
    }
    forall b: Tid ensures TopOk(r, h, b) && ThreadQueueOk(r, h, b) && ErrorsOk(r, b) {
      assert TopOk(s, None, b) && ThreadQueueOk(s, None, b) && ErrorsOk(s, b);
    }
    forall b: Tid, u: TxId ensures MemberOk(r, h, b, u) {
      assert MemberOk(s, None, b, u);
    }
    forall b: Tid, u: TxId, m: TxId ensures PairOk(r, h, b, u, m) {
      assert PairOk(s, None, b, u, m);
    }
    forall q: Pid ensures ProcQueueOk(r, h, q) {
      assert ProcQueueOk(s, None, q);
    }
  }

  /** binder_release_work on a process's list. */
  ghost function Drain(s: State, p: Pid): (r: State)
    requires Inv(s) && p in s.procs
    ensures Inv(r) && r.procs == s.procs[p := []] && r.threads.Keys == s.threads.Keys && r.next == s.next
    ensures forall a: Tid :: a in r.threads ==> r.threads[a].proc == s.threads[a].proc
    decreases |s.procs[p]|
  {
    if s.procs[p] == [] then s
    else
      DropProcHeadKeeps(s, p);
      var w := s.procs[p][0];
      if w.Call? then Drain(SendFailedReply(DropProcHead(s, p), w.t, DeadReply), p)
      else Drain(DropProcHead(s, p), p)
  }

  ghost predicate NoThreads(s: State, p: Pid) {
    forall a: Tid :: a in s.threads ==> s.threads[a].proc != p
  }

  lemma ClosingKeeps(s: State, p: Pid)
    requires Inv(s) && p in s.procs && s.procs[p] == [] && NoThreads(s, p)
    ensures Inv(s.(procs := s.procs - {p}))
  {
    var r := s.(procs := s.procs - {p});
    forall u: TxId ensures ParentOk(r, u) && CountOk(r, u) && EndsOk(r, None, u) && QueuedOk(r, None, u) {
      assert ParentOk(s, u) && CountOk(s, u) && EndsOk(s, None, u) && QueuedOk(s, None, u);
      assert IsLeaf(r, u) == IsLeaf(s, u);
    }
    forall u: TxId, v: TxId ensures OrderOk(r, u, v) {
      assert OrderOk(s, u, v);
    }
    forall b: Tid ensures TopOk(r, None, b) && ThreadQueueOk(r, None, b) && ErrorsOk(r, b) {
      assert TopOk(s, None, b) && ThreadQueueOk(s, None, b) && ErrorsOk(s, b);
      if b in s.threads && s.threads[b].stack.Some? {
        assert IsLeaf(r, s.threads[b].stack.value) == IsLeaf(s, s.threads[b].stack.value);
      }
    }
    forall b: Tid, u: TxId ensures MemberOk(r, None, b, u) {
      assert MemberOk(s, None, b, u);
    }
    forall b: Tid, u: TxId, m: TxId ensures PairOk(r, None, b, u, m) {
      assert PairOk(s, None, b, u, m);
    }
    forall q: Pid ensures ProcQueueOk(r, None, q) {
      assert ProcQueueOk(s, None, q);
    }
  }

  // ---------------------------------------------------------------- steps and runs

  /** How a BC_TRANSACTION names its target: a node of a live process, or nothing usable
      (bad handle, refused, or dead node) with the error the driver reports. */
  datatype Target = Node(p: Pid) | Unusable(code: Code)

  /** One atomic step.  `built` says whether allocating and filling the transaction succeeded;
      `room` whether the read buffer had room for both pending errors. */
  datatype Op =
    | OpenProc(p: Pid)
    | SpawnThread(a: Tid, p: Pid)
    | Transact(a: Tid, to: Target, built: bool)
    | OneWay(a: Tid, code: Code)
    | Reply(a: Tid, built: bool)
    | ReadError(a: Tid, room: bool)
    | ReadWork(a: Tid, fromProc: bool)
    | PostToThread(a: Tid)
    | PostToProc(p: Pid)
    | ExitThread(a: Tid)
    | ReleaseProc(p: Pid)

  function WithError(s: State, a: Tid, code: Code): State
    requires a in s.threads
  {
    s.(threads := s.threads[a := s.threads[a].(err := code)])
  }

  function WithWork(s: State, a: Tid, w: Work): State
    requires a in s.threads
  {
    s.(threads := s.threads[a := s.threads[a].(todo := s.threads[a].todo + [w])])
  }

  lemma WithErrorKeeps(s: State, hole: Option<TxId>, a: Tid, code: Code)
    requires InvH(s, hole) && a in s.threads && code != Ok
    ensures InvH(WithError(s, a, code), hole)
  {
    forall b: Tid ensures ThreadGrown(s, WithError(s, a, code), b) {
      assert ErrorsOk(s, b) && ThreadQueueOk(s, hole, b);
    }
    SameShape(s, hole, WithError(s, a, code));
  }

  lemma WithWorkKeeps(s: State, a: Tid, w: Work)
    requires Inv(s) && a in s.threads && !w.Call?
    ensures Inv(WithWork(s, a, w))
  {
    forall b: Tid ensures ThreadGrown(s, WithWork(s, a, w), b) {
      assert ErrorsOk(s, b) && ThreadQueueOk(s, None, b);
    }
    SameShape(s, None, WithWork(s, a, w));
  }

  /** The thread a call of `a` on process `p` is queued for, if one is already in its chain. */
  ghost function Chosen(s: State, a: Tid, p: Pid): Option<Tid>
    requires Inv(s) && a in s.threads && MayCall(s, a)
  {
    FindTarget(s, s.threads[a].stack, p, None)
  }

  lemma ChosenWaitsInChain(s: State, a: Tid, p: Pid)
    requires Inv(s) && a in s.threads && MayCall(s, a) && Chosen(s, a, p).Some? && Chosen(s, a, p) != Some(a)
    ensures
      var b := Chosen(s, a, p).value;
      && Waiting(s, b) && s.threads[b].proc == p && s.threads[a].stack.Some?
      && s.txns[s.threads[b].stack.value].root == s.txns[s.threads[a].stack.value].root
  {
    var b, y := Chosen(s, a, p).value, s.threads[a].stack.value;
    var u: TxId :| u in s.txns && s.txns[u].from == Some(b) && s.txns[u].root == s.txns[y].root;
    CallerIsAtEnd(s, a);
    assert MemberOk(s, None, b, u) && TopOk(s, None, b);
    var x := s.threads[b].stack.value;
    assert PairOk(s, None, b, x, u);
  }

  /** A two-way BC_TRANSACTION. */
  ghost function DoTransact(s: State, a: Tid, to: Target, built: bool): (r: State)
    requires Inv(s) && Enabled(s, Transact(a, to, built))
    ensures Inv(r)
  {
    match to
    case Unusable(code) => WithErrorKeeps(s, None, a, code); WithError(s, a, code)
    case Node(p) =>
      if !MayCall(s, a) || !built then
        WithErrorKeeps(s, None, a, FailedReply); WithError(s, a, FailedReply)
      else
        var target := Chosen(s, a, p);
        if target.Some? then ChosenWaitsInChain(s, a, p); PushKeeps(s, a, p, target); Push(s, a, p, target)
        else PushKeeps(s, a, p, target); Push(s, a, p, target)
  }

  /** A successful reply: the caller's stack drops the call and the reply is queued for it. */
  function Answered(s: State, t: TxId): State
    requires t in s.txns && s.txns[t].from.Some? && s.txns[t].from.value in s.threads
  {
    var b := s.txns[t].from.value;
    s.(txns := s.txns - {t}, answered := s.answered + multiset{t},
       threads := s.threads[b := s.threads[b].(stack := s.txns[t].fromParent, todo := s.threads[b].todo + [Answer(t)])])
  }

  /** BC_REPLY. */
  ghost function DoReply(s: State, a: Tid, built: bool): (r: State)
    requires Inv(s) && a in s.threads && s.threads[a].err == Ok
    ensures Inv(r)
  {
    if s.threads[a].stack.None? || !MayCall(s, a) then
      WithErrorKeeps(s, None, a, FailedReply); WithError(s, a, FailedReply)
    else
      var t := s.threads[a].stack.value;
      var s1 := PopIncoming(s, a);
      PopIncomingKeeps(s, a);
      assert EndsOk(s1, Some(t), t);
      if s1.txns[t].from.None? || !built then
        WithErrorKeeps(s1, Some(t), a, TransactionComplete);
        SendFailedReply(WithError(s1, a, TransactionComplete), t,
          if s1.txns[t].from.None? then DeadReply else FailedReply)
      else
        var b := s1.txns[t].from.value;
        LeafIsTop(s1, t);
        assert ErrorsOk(s1, b);
        PopLiveKeeps(s1, t, s1.threads[b].(stack := s1.txns[t].fromParent, todo := s1.threads[b].todo + [Answer(t)]),
          Answered(s1, t));
        WithWorkKeeps(Answered(s1, t), a, Complete);
        WithWork(Answered(s1, t), a, Complete)
  }

  /** Delivering the pending error codes.  With room for only one code the driver writes the
      older one and keeps both pending. */
  function DoReadError(s: State, a: Tid, room: bool): State
    requires a in s.threads
  {
    var th := s.threads[a];
    if th.err2 != Ok && !room then s
    else s.(threads := s.threads[a := th.(err := Ok, err2 := Ok)])
  }

  ghost function DoReadWork(s: State, a: Tid, fromProc: bool): (r: State)
    requires Inv(s) && a in s.threads && CanTake(s, a, fromProc)
    ensures Inv(r)
  {
    var w := Head(s, a, fromProc);
    if w.Call? then AcceptKeeps(s, a, fromProc); Accept(TakeHead(s, a, fromProc), a, w.t)
    else SkipKeeps(s, a, fromProc); TakeHead(s, a, fromProc)
  }

  /** When the driver takes the step.  Commands need the error slot clear.  The one assumption
      made of clients is that a call never selects its own sender as receiver; see SelfCallLoops. */
  ghost predicate Enabled(s: State, op: Op)
    requires Inv(s)
  {
    match op
    case OpenProc(p) => p !in s.procs
    case SpawnThread(a, p) => a !in s.threads && p in s.procs
    case Transact(a, to, built) =>
      && a in s.threads && s.threads[a].err == Ok
      && (match to
          case Unusable(code) => code != Ok
          case Node(p) => p in s.procs && (MayCall(s, a) ==> Chosen(s, a, p) != Some(a)))
    case OneWay(a, code) => a in s.threads && s.threads[a].err == Ok
    case Reply(a, built) => a in s.threads && s.threads[a].err == Ok
    case ReadError(a, room) => a in s.threads && s.threads[a].err != Ok
    case ReadWork(a, fromProc) => a in s.threads && CanTake(s, a, fromProc)
    case PostToThread(a) => a in s.threads
    case PostToProc(p) => p in s.procs
    case ExitThread(a) => a in s.threads
    case ReleaseProc(p) => p in s.procs && NoThreads(s, p)
  }

  lemma GrowthKeeps(s: State, r: State)
    requires Inv(s) && r == s.(procs := r.procs, threads := r.threads)
    requires s.procs.Keys <= r.procs.Keys && s.threads.Keys <= r.threads.Keys
    requires forall a: Tid :: a in s.threads ==>
               r.threads[a] == s.threads[a] || r.threads[a] == s.threads[a].(err := Ok, err2 := Ok)
    requires forall a: Tid :: a in r.threads && a !in s.threads ==>
               r.threads[a] == Thread(r.threads[a].proc, None, [], Ok, Ok) && r.threads[a].proc in r.procs
    requires forall p: Pid {:trigger ProcGrown(s, r, p)} :: ProcGrown(s, r, p)
    ensures Inv(r)
  {
    forall a: Tid ensures ThreadGrown(s, r, a) {
      assert ErrorsOk(s, a) && ThreadQueueOk(s, None, a);
    }
    SameShape(s, None, r);
  }

  ghost function Step(s: State, op: Op): (r: State)
    requires Inv(s) && Enabled(s, op)
    ensures Inv(r)
  {
    match op
    case OpenProc(p) =>
      var r := s.(procs := s.procs[p := []]);
      GrowthKeeps(s, r); r
    case SpawnThread(a, p) =>
      var r := s.(threads := s.threads[a := Thread(p, None, [], Ok, Ok)]);
      GrowthKeeps(s, r); r
    case Transact(a, to, built) => DoTransact(s, a, to, built)
    case OneWay(a, code) =>
      if code == Ok then WithWorkKeeps(s, a, Complete); WithWork(s, a, Complete)
      else WithErrorKeeps(s, None, a, code); WithError(s, a, code)
    case Reply(a, built) => DoReply(s, a, built)
    case ReadError(a, room) => GrowthKeeps(s, DoReadError(s, a, room)); DoReadError(s, a, room)
    case ReadWork(a, fromProc) => DoReadWork(s, a, fromProc)
    case PostToThread(a) => WithWorkKeeps(s, a, Other); WithWork(s, a, Other)
    case PostToProc(p) =>
      var r := s.(procs := s.procs[p := s.procs[p] + [Other]]);
      GrowthKeeps(s, r); r
    case ExitThread(a) => Exit(s, a)
    case ReleaseProc(p) =>
      var r := Drain(s, p);
      assert NoThreads(r, p);
      ClosingKeeps(r, p);
      r.(procs := r.procs - {p})
  }

  lemma InitOk()
    ensures Inv(Init)
  {
  }

  ghost predicate CanRun(s: State, ops: seq<Op>)
    requires Inv(s)
    decreases |ops|
  {
    ops == [] || (Enabled(s, ops[0]) && CanRun(Step(s, ops[0]), ops[1..]))
  }

  ghost function Run(s: State, ops: seq<Op>): (r: State)
    requires Inv(s) && CanRun(s, ops)
    ensures Inv(r)
    decreases |ops|
  {
    if ops == [] then s else Run(Step(s, ops[0]), ops[1..])
  }
}
