/** Who is told what when a call fails (driver/binder/binder.c), step by step. */
module BinderCallsErrors {
  import opened Wrappers
  import opened BinderCalls
  import opened BinderCallsResults
  import opened BinderCallsChains
  import opened BinderCallsLists

  // ---------------------------------------------------------------- errors for the sender

  /** The code a command is refused with, if it is. */
  ghost function RefusedWith(s: State, op: Op): Option<Code>
    requires Inv(s) && Enabled(s, op)
  {
    match op
    case Transact(a, to, built) =>
      if to.Unusable? then Some(to.code)
      else if !built || (s.threads[a].stack.Some? && !Handles(s, a, s.threads[a].stack.value)) then Some(FailedReply)
      else None
    case OneWay(a, code) => if code == Ok then None else Some(code)
    case Reply(a, built) =>
      if s.threads[a].stack.None? || !Handles(s, a, s.threads[a].stack.value) then Some(FailedReply) else None
    case _ => None
  }

  function Sender(op: Op): Tid {
    match op case Transact(a, _, _) => a case OneWay(a, _) => a case Reply(a, _) => a case _ => 0
  }

  /** A refused command tells its sender the code and does nothing else. */
  lemma RefusalTellsSender(s: State, op: Op)
    requires Inv(s) && Enabled(s, op) && RefusedWith(s, op).Some?
    ensures Sender(op) in s.threads
    ensures Step(s, op) == s.(threads := s.threads[Sender(op) := s.threads[Sender(op)].(err :=
      RefusedWith(s, op).value)])
  {
    assert TopOk(s, None, Sender(op));
  }

  // ---------------------------------------------------------------- errors for the caller

  /** A thread told `code` about its call `v`: the call leaves its stack, an older code moves to the
      second slot. */
  function Told(th: Thread, v: Txn, code: Code): Thread {
    th.(stack := v.fromParent, err := code, err2 := th.err)
  }

  /** A BC_REPLY that cannot be built fails the call; one to a dead caller fails the nearest call
      of the chain with a live one.  The replier gets its completion as an error code. */
  lemma FailedReplyTells(s: State, a: Tid, built: bool, t: TxId, v: TxId)
    requires Inv(s) && Enabled(s, Op.Reply(a, built)) && Handles(s, a, t) && (!built || s.txns[t].from.None?)
    requires NearestLive(s, t, v)
    ensures var b := s.txns[v].from.value;
      var replier := s.threads[a].(stack := s.txns[t].toParent, err := TransactionComplete);
      var caller := if b == a then replier else if b in s.threads then s.threads[b] else replier;
      && b in s.threads
      && Step(s, Op.Reply(a, built)).threads == s.threads[a := replier][b := Told(caller, s.txns[v],
        if s.txns[t].from.Some? then FailedReply else DeadReply)]
  {
    var s2 := Replied(s, a, t, v);
    ErrorReachesNearestLiveCaller(s2, t, if s.txns[t].from.None? then DeadReply else FailedReply, v);
    FailedReplyIs(s, a, built, t);
  }

  /** The state when the failed reply starts. */
  lemma Replied(s: State, a: Tid, t: TxId, v: TxId) returns (s2: State)
    requires Inv(s) && a in s.threads && s.threads[a].err == Ok && Handles(s, a, t) && NearestLive(s, t, v)
    ensures InvH(s2, Some(t)) && s2.txns == s.txns && NearestLive(s2, t, v)
    ensures s2 == WithError(PopIncoming(s, a), a, TransactionComplete)
    ensures s2.threads == s.threads[a := s.threads[a].(stack := s.txns[t].toParent, err := TransactionComplete)]
  {
    var s1 := PopIncoming(s, a);
    PopIncomingKeeps(s, a);
    WithErrorKeeps(s1, Some(t), a, TransactionComplete);
    s2 := WithError(s1, a, TransactionComplete);
    assert Chain(s2, t) == Chain(s, t);
  }

  lemma FailedReplyIs(s: State, a: Tid, built: bool, t: TxId)
    requires Inv(s) && Enabled(s, Op.Reply(a, built)) && Handles(s, a, t) && (!built || s.txns[t].from.None?)
    ensures var s2 := WithError(PopIncoming(s, a), a, TransactionComplete);
      && InvH(s2, Some(t))
      && Step(s, Op.Reply(a, built)) ==
         SendFailedReply(s2, t, if s.txns[t].from.None? then DeadReply else FailedReply)
  {
    PopIncomingKeeps(s, a);
    WithErrorKeeps(PopIncoming(s, a), Some(t), a, TransactionComplete);
  }

  /** `v` is the youngest call of `t`'s chain with a live caller other than `a`. */
  ghost predicate NearestOther(s: State, a: Tid, t: TxId, v: TxId)
    requires t in s.txns
  {
    && v in Chain(s, t) && s.txns[v].from.Some? && s.txns[v].from != Some(a)
    && forall u: TxId :: u in Chain(s, t) && v < u ==> s.txns[u].from.None? || s.txns[u].from == Some(a)
  }

  /** The exit of a thread fails the call it handles, or the one in its list: the nearest live
      caller other than itself is told that its target died, and no other thread changes. */
  lemma ExitTells(s: State, a: Tid, t: TxId, v: TxId)
    requires Inv(s) && a in s.threads && (Handles(s, a, t) || Call(t) in s.threads[a].todo)
    ensures t in s.txns
    ensures NearestOther(s, a, t, v) ==>
      var b := s.txns[v].from.value;
      && b in s.threads && b != a
      && Step(s, ExitThread(a)).threads == (s.threads - {a})[b := Told(s.threads[b], s.txns[v], DeadReply)]
  {
    LeftBehindIsUnanswered(s, a);
    assert ThreadQueueOk(s, None, a) && EndsOk(s, None, v);
    assert LeftBehind(s, a) == Some(t);
    if NearestOther(s, a, t, v) {
      DetachedKeeps(s, a, Some(t));
      NearestWhenDetached(s, a, t, v);
      ErrorReachesNearestLiveCaller(Detached(s, a), t, DeadReply, v);
    }
  }

  lemma NearestWhenDetached(s: State, a: Tid, t: TxId, v: TxId)
    requires t in s.txns && NearestOther(s, a, t, v)
    ensures var s1 := Detached(s, a);
      t in s1.txns && v in s1.txns && NearestLive(s1, t, v) && s1.txns[v].from == s.txns[v].from &&
        s1.txns[v].fromParent == s.txns[v].fromParent
  {
    assert Chain(Detached(s, a), t) == Chain(s, t);
  }

  /** With no such call in hand or in its list, the exit of a thread tells nobody. */
  lemma QuietExit(s: State, a: Tid)
    requires Inv(s) && a in s.threads
    requires forall t: TxId :: !Handles(s, a, t) && Call(t) !in s.threads[a].todo
    ensures Step(s, ExitThread(a)).threads == s.threads - {a}
  {
    LeftBehindIsUnanswered(s, a);
    assert TopOk(s, None, a);
    assert s.threads[a].stack.Some? ==> !Handles(s, a, s.threads[a].stack.value);
  }

  /** A failed reply changes no thread without a call in the chain. */
  lemma {:induction false} OtherThreadStays(s: State, t: TxId, code: Code, b: Tid)
    requires InvH(s, Some(t)) && code != Ok && b in s.threads
    requires forall u: TxId :: u in Chain(s, t) ==> s.txns[u].from != Some(b)
    ensures SendFailedReply(s, t, code).threads[b] == s.threads[b]
    decreases t
  {
    assert t in Chain(s, t);
    if s.txns[t].from.None? {
      PopDeadKeeps(s, t);
      assert ParentOk(s, t);
      if s.txns[t].fromParent.Some? {
        var p, s1 := s.txns[t].fromParent.value, PopDead(s, t);
        forall u: TxId | u in Chain(s1, p) ensures s1.txns[u].from != Some(b) {
          assert u in Chain(s, t);
        }
        OtherThreadStays(s1, p, code, b);
      }
    }
  }

  /** No call in the list of the process belongs to a chain with a call of the thread. */
  ghost predicate Unconcerned(s: State, p: Pid, b: Tid)
    requires p in s.procs
  {
    forall t: TxId, u: TxId :: Call(t) in s.procs[p] && t in s.txns && u in Chain(s, t) ==> s.txns[u].from != Some(b)
  }

  lemma StillUnconcerned(s: State, p: Pid, b: Tid, r: State)
    requires p in s.procs && p in r.procs && Unconcerned(s, p, b)
    requires forall w: Work :: w in r.procs[p] ==> w in s.procs[p]
    requires forall u: TxId :: u in r.txns ==> u in s.txns && r.txns[u] == s.txns[u]
    ensures Unconcerned(r, p, b)
  {
    forall t: TxId, u: TxId | Call(t) in r.procs[p] && t in r.txns && u in Chain(r, t)
      ensures r.txns[u].from != Some(b)
    {
      assert Call(t) in s.procs[p] && u in Chain(s, t);
    }
  }

  lemma {:induction false} DrainLeaves(s: State, p: Pid, b: Tid)
    requires Inv(s) && p in s.procs && b in s.threads && Unconcerned(s, p, b)
    ensures Drain(s, p).threads[b] == s.threads[b]
    decreases |s.procs[p]|
  {
    if s.procs[p] != [] {
      DropProcHeadKeeps(s, p);
      var w, s1 := s.procs[p][0], DropProcHead(s, p);
      if w.Call? {
        assert w in s.procs[p] && ProcQueueOk(s, None, p);
        var s2 := SendFailedReply(s1, w.t, DeadReply);
        forall u: TxId | u in Chain(s1, w.t) ensures s1.txns[u].from != Some(b) {
          assert Call(w.t) in s.procs[p] && u in Chain(s, w.t);
        }
        OtherThreadStays(s1, w.t, DeadReply, b);
        forall u: TxId ensures u in s2.txns ==> u in s.txns && s2.txns[u] == s.txns[u] {
          FailedReplyHistory(s1, w.t, DeadReply, u);
        }
        StillUnconcerned(s, p, b, s2);
        DrainLeaves(s2, p, b);
      } else {
        StillUnconcerned(s, p, b, s1);
        DrainLeaves(s1, p, b);
      }
    }
  }

  /** Two calls in one list end different chains. */
  lemma ListedCallsApart(s: State, p: Pid, t: TxId, u: TxId)
    requires Inv(s) && p in s.procs && Call(t) in s.procs[p] && Call(u) in s.procs[p] && t != u
    ensures t in s.txns && u in s.txns && s.txns[t].root != s.txns[u].root
  {
    assert ProcQueueOk(s, None, p) && EndsOk(s, None, t) && EndsOk(s, None, u);
  }

  /** All calls of a thread are of one chain. */
  lemma CallsInOneChain(s: State, b: Tid, u: TxId, v: TxId)
    requires Inv(s) && u in s.txns && v in s.txns && s.txns[u].from == Some(b) && s.txns[v].from == Some(b)
    ensures s.txns[u].root == s.txns[v].root
  {
    assert EndsOk(s, None, u) && PairOk(s, None, b, u, v) && PairOk(s, None, b, v, u);
  }

  /** The first call of the list fails: its caller is told, and nothing after it concerns the caller. */
  lemma HeadTells(s: State, p: Pid, t: TxId, v: TxId)
    requires Inv(s) && p in s.procs && s.procs[p] != [] && s.procs[p][0] == Call(t)
    requires t in s.txns && NearestLive(s, t, v)
    ensures var b := s.txns[v].from.value;
      && InvH(DropProcHead(s, p), Some(t)) && b in s.threads
      && var s2 := SendFailedReply(DropProcHead(s, p), t, DeadReply);
         s2.threads[b] == Told(s.threads[b], s.txns[v], DeadReply) && Unconcerned(s2, p, b)
  {
    DropProcHeadKeeps(s, p);
    var b, s1 := s.txns[v].from.value, DropProcHead(s, p);
    assert Chain(s1, t) == Chain(s, t) && NearestLive(s1, t, v);
    ErrorReachesNearestLiveCaller(s1, t, DeadReply, v);
    var s2 := SendFailedReply(s1, t, DeadReply);
    assert ProcQueueOk(s, None, p);
    assert s.procs[p] == [Call(t)] + s.procs[p][1..];
    forall x: TxId, u: TxId | Call(x) in s2.procs[p] && x in s2.txns && u in Chain(s2, x)
      ensures s2.txns[u].from != Some(b)
    {
      FailedReplyHistory(s1, t, DeadReply, x);
      FailedReplyHistory(s1, t, DeadReply, u);
      ListedCallsApart(s, p, t, x);
      if s2.txns[u].from == Some(b) {
        CallsInOneChain(s, b, u, v);
      }
    }
  }

  /** Another call of the list fails first: the chain of `t` and its caller are left alone. */
  lemma OtherHead(s: State, p: Pid, x: TxId, t: TxId, v: TxId)
    requires Inv(s) && p in s.procs && s.procs[p] != [] && s.procs[p][0] == Call(x) && x != t && Call(t) in s.procs[p]
    requires t in s.txns && NearestLive(s, t, v)
    ensures var b := s.txns[v].from.value;
      && InvH(DropProcHead(s, p), Some(x)) && b in s.threads
      && var s2 := SendFailedReply(DropProcHead(s, p), x, DeadReply);
         && s2.threads[b] == s.threads[b] && Call(t) in s2.procs[p] && t in s2.txns && v in s2.txns
         && NearestLive(s2, t, v) && s2.txns[v] == s.txns[v]
  {
    DropProcHeadKeeps(s, p);
    var b, s1 := s.txns[v].from.value, DropProcHead(s, p);
    var s2 := SendFailedReply(s1, x, DeadReply);
    ListedCallsApart(s, p, x, t);
    assert EndsOk(s, None, v);
    assert s.procs[p] == [Call(x)] + s.procs[p][1..];
    forall u: TxId | u in Chain(s1, x) ensures s1.txns[u].from != Some(b) {
      if s.txns[u].from == Some(b) {
        CallsInOneChain(s, b, u, v);
      }
    }
    OtherThreadStays(s1, x, DeadReply, b);
    OtherChainsStay(s1, x, DeadReply, t);
    OtherChainsStay(s1, x, DeadReply, v);
    forall u: TxId | u in Chain(s2, t) ensures u in Chain(s, t) && s2.txns[u] == s.txns[u] {
      FailedReplyHistory(s1, x, DeadReply, u);
    }
  }

  /** Closing a process fails the calls in its list: the nearest live caller of each is told that
      its target died. */
  lemma {:induction false} DrainTells(s: State, p: Pid, t: TxId, v: TxId)
    requires Inv(s) && p in s.procs && Call(t) in s.procs[p] && t in s.txns && NearestLive(s, t, v)
    ensures var b := s.txns[v].from.value;
      b in s.threads && Drain(s, p).threads[b] == Told(s.threads[b], s.txns[v], DeadReply)
    decreases |s.procs[p]|
  {
    assert s.procs[p] == [s.procs[p][0]] + s.procs[p][1..];
    assert EndsOk(s, None, v);
    var w := s.procs[p][0];
    if w == Call(t) {
      HeadTells(s, p, t, v);
      DrainLeaves(SendFailedReply(DropProcHead(s, p), t, DeadReply), p, s.txns[v].from.value);
    } else if w.Call? {
      OtherHead(s, p, w.t, t, v);
      DrainTells(SendFailedReply(DropProcHead(s, p), w.t, DeadReply), p, t, v);
    } else {
      DropProcHeadKeeps(s, p);
      var s1 := DropProcHead(s, p);
      assert Chain(s1, t) == Chain(s, t);
      DrainTells(s1, p, t, v);
    }
  }

  // ---------------------------------------------------------------- reading the codes

  /** A read that delivers every pending code clears both slots; one with room for a single code
      when two are pending clears neither.  Nothing else changes. */
  lemma CodesAreCleared(s: State, a: Tid, room: bool)
    requires Inv(s) && Enabled(s, ReadError(a, room))
    ensures var r := Step(s, ReadError(a, room));
      && r == s.(threads := r.threads) && r.threads.Keys == s.threads.Keys
      && (forall b: Tid :: b in s.threads && b != a ==> r.threads[b] == s.threads[b])
      && (if room || s.threads[a].err2 == Ok then r.threads[a] == s.threads[a].(err := Ok, err2 := Ok)
          else r.threads[a] == s.threads[a])
  {
  }
}
