/**
 The driver's call protocol as it is written: one object whose tables are updated in place,
 loops over the call chain, the thread stack and the work lists.  Every method is proved to
 take exactly the step that BinderCalls specifies.  The driver's BUG_ONs appear as assertions.
 */
module BinderCallsDriver {
  import opened Wrappers
  import opened BinderCalls

  lemma Overwrite(m: map<Tid, Thread>, k: Tid, v: Thread, w: Thread)
    ensures m[k := v][k := w] == m[k := w]
  {
  }

  class Driver {
    var procs: map<Pid, seq<Work>>
    var threads: map<Tid, Thread>
    var txns: map<TxId, Txn>
    var next: TxId
    ghost var sent: multiset<TxId>
    ghost var answered: multiset<TxId>
    ghost var failed: multiset<TxId>
    ghost var abandoned: multiset<TxId>

    ghost function View(): State
      reads this
    {
      State(procs, threads, txns, next, sent, answered, failed, abandoned)
    }

    constructor ()
      ensures View() == BinderCalls.Init
    {
      procs, threads, txns, next := map[], map[], map[], 0;
      sent, answered, failed, abandoned := multiset{}, multiset{}, multiset{}, multiset{};
    }

    /** binder_pop_transaction with its two BUG_ONs. */
    method PopTransaction(target: Option<Tid>, t: TxId)
      requires t in txns && target == txns[t].from
      requires target.Some? ==> target.value in threads && threads[target.value].stack == Some(t)
      modifies this`txns, this`threads
      ensures txns == old(txns) - {t}
      ensures match target
              case None => threads == old(threads)
              case Some(a) => threads == old(threads)[a := old(threads)[a].(stack := old(txns)[t].fromParent)]
    {
      if target.Some? {
        var a := target.value;
        assert threads[a].stack == Some(t);   // BUG_ON(target_thread->transaction_stack != t)
        assert txns[t].from == Some(a);       // BUG_ON(target_thread->transaction_stack->from != target_thread)
        threads := threads[a := threads[a].(stack := txns[threads[a].stack.value].fromParent)];
      }
      txns := txns - {t};
    }

    /** The live-caller branch of binder_send_failed_reply: the "has error code already" case
        is never met. */
    method NotifyCaller(t: TxId, code: Code)
      requires t in txns && txns[t].from.Some? && txns[t].from.value in threads
      requires threads[txns[t].from.value].stack == Some(t) && threads[txns[t].from.value].err2 == Ok
      modifies this
      ensures View() == Notify(old(View()), t, code)
    {
      var a := txns[t].from.value;
      ghost var before, shifted := threads, Shift(threads[a]);
      ghost var popped := shifted.(stack := txns[t].fromParent);
      if threads[a].err != Ok && threads[a].err2 == Ok {
        threads := threads[a := threads[a].(err2 := threads[a].err, err := Ok)];
      }
      assert threads == before[a := shifted];
      if threads[a].err == Ok {
        PopTransaction(Some(a), t);
        Overwrite(before, a, shifted, popped);
        threads := threads[a := threads[a].(err := code)];
        Overwrite(before, a, popped, popped.(err := code));
        failed := failed + multiset{t};
      } else {
        assert false;
      }
    }

    /** binder_send_failed_reply. */
    method FailReply(t0: TxId, code: Code)
      requires InvH(View(), Some(t0)) && code != Ok
      modifies this
      ensures View() == SendFailedReply(old(View()), t0, code)
    {
      var t := t0;
      while true
        invariant InvH(View(), Some(t))
        invariant SendFailedReply(View(), t, code) == SendFailedReply(old(View()), t0, code)
        decreases t
      {
        ghost var s := View();
        assert ParentOk(s, t);
        if txns[t].from.Some? {
          LeafIsTop(s, t);
          NotifyCaller(t, code);
          return;
        }
        PopDeadKeeps(s, t);
        var parent := txns[t].fromParent;
        PopTransaction(None, t);
        assert View() == PopDead(s, t);
        if parent.None? {
          return;
        }
        t := parent.value;
      }
    }

    /** The target search loop of binder_transaction. */
    method SearchTarget(start: Option<TxId>, p: Pid) returns (target: Option<Tid>)
      requires Inv(View()) && (start.Some? ==> start.value in txns)
      ensures target == FindTarget(View(), start, p, None)
    {
      target := None;
      var tmp := start;
      while tmp.Some?
        invariant tmp.Some? ==> tmp.value in txns
        invariant FindTarget(View(), tmp, p, target) == FindTarget(View(), start, p, None)
        decreases if tmp.Some? then tmp.value + 1 else 0
      {
        var u := txns[tmp.value];
        assert ParentOk(View(), tmp.value) && EndsOk(View(), None, tmp.value);
        if u.from.Some? && threads[u.from.value].proc == p {
          target := u.from;
        }
        tmp := u.fromParent;
      }
    }

    /** The success path of a two-way BC_TRANSACTION. */
    method QueueCall(a: Tid, p: Pid, target: Option<Tid>)
      requires a in threads && MayCall(View(), a) && p in procs
      requires target.Some? ==> target.value in threads && target.value != a
      modifies this
      ensures View() == Push(old(View()), a, p, target)
    {
      var t, stack := next, threads[a].stack;
      next := next + 1;
      txns := txns[t := Txn(Some(a), stack, Some(p), target, None, true,
                            if stack.None? then t else txns[stack.value].root)];
      threads := threads[a := threads[a].(stack := Some(t))];
      if target.Some? {
        var b := target.value;
        threads := threads[b := threads[b].(todo := threads[b].todo + [Call(t)])];
      } else {
        procs := procs[p := procs[p] + [Call(t)]];
      }
      threads := threads[a := threads[a].(todo := threads[a].todo + [Complete])];
      sent := sent + multiset{t};
    }

    /** The failure path shared by all commands: BUG_ON(thread->return_error != BR_OK). */
    method SetError(a: Tid, code: Code)
      requires a in threads && threads[a].err == Ok
      modifies this`threads
      ensures View() == WithError(old(View()), a, code)
    {
      assert threads[a].err == Ok;
      threads := threads[a := threads[a].(err := code)];
    }

    /** A two-way BC_TRANSACTION. */
    method Transaction(a: Tid, to: Target, built: bool)
      requires Inv(View()) && Enabled(View(), Op.Transact(a, to, built))
      modifies this
      ensures View() == DoTransact(old(View()), a, to, built)
    {
      if to.Unusable? {
        SetError(a, to.code);
        return;
      }
      var stack := threads[a].stack;
      assert TopOk(View(), None, a);
      if stack.Some? && txns[stack.value].toThread != Some(a) {
        SetError(a, FailedReply);
        return;
      }
      var target := SearchTarget(stack, to.p);
      assert target == Chosen(View(), a, to.p);
      if !built {
        SetError(a, FailedReply);
        return;
      }
      if target.Some? {
        ChosenWaitsInChain(View(), a, to.p);
      }
      QueueCall(a, to.p, target);
    }

    /** BC_REPLY.  The check for a bad target stack never fails. */
    method Reply(a: Tid, built: bool)
      requires Inv(View()) && a in threads && threads[a].err == Ok
      modifies this
      ensures View() == DoReply(old(View()), a, built)
    {
      var inReplyTo := threads[a].stack;
      ghost var s := View();
      assert TopOk(s, None, a);
      if inReplyTo.None? || txns[inReplyTo.value].toThread != Some(a) {
        threads := threads[a := threads[a].(err := FailedReply)];
        return;
      }
      var t := inReplyTo.value;
      threads := threads[a := threads[a].(stack := txns[t].toParent)];
      PopIncomingKeeps(s, a);
      ghost var s1 := View();
      assert s1 == PopIncoming(s, a);
      assert EndsOk(s1, Some(t), t);
      if txns[t].from.None? || !built {
        var code := if txns[t].from.None? then DeadReply else FailedReply;
        threads := threads[a := threads[a].(err := TransactionComplete)];
        WithErrorKeeps(s1, Some(t), a, TransactionComplete);
        assert View() == WithError(s1, a, TransactionComplete);
        FailReply(t, code);
        return;
      }
      var b := txns[t].from.value;
      LeafIsTop(s1, t);
      if threads[b].stack != Some(t) {
        assert false;   // "bad target transaction stack"
      }
      PopTransaction(Some(b), t);
      threads := threads[b := threads[b].(todo := threads[b].todo + [Answer(t)])];
      answered := answered + multiset{t};
      assert threads == Answered(s1, t).threads;
      threads := threads[a := threads[a].(todo := threads[a].todo + [Complete])];
    }

    /** One work item of binder_thread_read. */
    method ReadItem(a: Tid, fromProc: bool) returns (w: Work)
      requires Inv(View()) && a in threads && CanTake(View(), a, fromProc)
      modifies this
      ensures w == Head(old(View()), a, fromProc) && View() == DoReadWork(old(View()), a, fromProc)
    {
      ghost var s := View();
      if fromProc {
        var p := threads[a].proc;
        w := procs[p][0];
        procs := procs[p := procs[p][1..]];
      } else {
        w := threads[a].todo[0];
        threads := threads[a := threads[a].(todo := threads[a].todo[1..])];
      }
      if w.Call? {
        HeadIsNext(s, a, fromProc);
        txns := txns[w.t := txns[w.t].(toParent := threads[a].stack, toThread := Some(a), queued := false)];
        threads := threads[a := threads[a].(stack := Some(w.t))];
      }
    }

    /** The error codes delivered at the start of binder_thread_read. */
    method ReadErrors(a: Tid, room: bool) returns (codes: seq<Code>)
      requires Inv(View()) && a in threads && threads[a].err != Ok
      modifies this`threads
      ensures View() == DoReadError(old(View()), a, room)
      ensures codes == if old(threads)[a].err2 == Ok then [old(threads)[a].err]
                       else if room then [old(threads)[a].err2, old(threads)[a].err]
                       else [old(threads)[a].err2]
    {
      codes := [];
      if threads[a].err2 != Ok {
        codes := [threads[a].err2];
        if !room {
          return;
        }
        threads := threads[a := threads[a].(err2 := Ok)];
      }
      codes := codes + [threads[a].err];
      threads := threads[a := threads[a].(err := Ok)];
    }

    /** The stack walk of binder_free_thread; its BUG() is unreachable, and it meets every
        transaction of the thread exactly once. */
    method DetachStack(a: Tid) returns (active: nat)
      requires Inv(View()) && a in threads
      modifies this`txns
      ensures txns == Detached(old(View()), a).txns
      ensures active == |StackAbove(old(View()), a, None)|
    {
      ghost var s := View();
      var t: Option<TxId> := threads[a].stack;
      active := 0;
      NothingAboveTop(s, a);
      while t.Some?
        invariant t.Some? ==> OnStack(s, None, a, t.value)
        invariant txns.Keys == s.txns.Keys && active == |StackAbove(s, a, t)|
        invariant forall u: TxId :: u in s.txns ==>
                    txns[u] == if u in StackAbove(s, a, t) then Detach(s.txns[u], a) else s.txns[u]
        decreases if t.Some? then t.value + 1 else 0
      {
        var u := t.value;
        WalkStep(s, a, u);
        active := active + 1;
        if txns[u].toThread == Some(a) {
          t := txns[u].toParent;
          txns := txns[u := txns[u].(toProc := None, toThread := None)];
        } else if txns[u].from == Some(a) {
          t := txns[u].fromParent;
          txns := txns[u := txns[u].(from := None)];
        } else {
          assert false;   // BUG()
        }
      }
    }

    /** binder_free_thread. */
    method FreeThread(a: Tid) returns (active: nat)
      requires Inv(View()) && a in threads
      modifies this
      ensures View() == Exit(old(View()), a)
      ensures active == |StackAbove(old(View()), a, None)|
    {
      ghost var s := View();
      LeftBehindIsUnanswered(s, a);
      ghost var hole := LeftBehind(s, a);
      DetachedKeeps(s, a, hole);
      var t := threads[a].stack;
      var todo := threads[a].todo;
      var sendReply: Option<TxId> := None;
      if t.Some? && txns[t.value].toThread == Some(a) {
        sendReply := t;
      }
      active := DetachStack(a);
      threads := threads - {a};
      abandoned := abandoned + multiset(CallsOf(s, a));
      ghost var s1 := View();
      assert s1 == Detached(s, a);
      if sendReply.Some? {
        FailReply(sendReply.value, DeadReply);
      }
      ReleaseThreadWork(s, a, todo, hole, sendReply.Some?);
    }

    /** binder_release_work on the list of a dead thread: at most one call is left in it, and
        none if the thread was handling one. */
    method ReleaseThreadWork(ghost s: State, ghost a: Tid, todo: seq<Work>, ghost hole: Option<TxId>,
      ghost replied: bool)
      requires Inv(s) && a in s.threads && todo == s.threads[a].todo
      requires s.threads[a].stack.Some? ==> s.threads[a].stack.value in s.txns
      requires hole == LeftBehind(s, a)
      requires replied == (s.threads[a].stack.Some? && s.txns[s.threads[a].stack.value].toThread == Some(a))
      requires InvH(Detached(s, a), hole)
      requires View() == if replied then SendFailedReply(Detached(s, a), hole.value, DeadReply) else Detached(s, a)
      modifies this
      ensures View() == Exit(s, a)
    {
      LeftBehindIsUnanswered(s, a);
      assert ThreadQueueOk(s, None, a) && TopOk(s, None, a);
      ghost var done := replied;
      var i := 0;
      while i < |todo|
        invariant 0 <= i <= |todo|
        invariant done <==> replied || (hole.Some? && Call(hole.value) in todo[..i])
        invariant View() == if done then SendFailedReply(Detached(s, a), hole.value, DeadReply) else Detached(s, a)
      {
        var w := todo[i];
        if w.Call? {
          assert Call(w.t) in s.threads[a].todo && hole == Some(w.t);
          assert QueuedOk(s, None, w.t) && EndsOk(s, None, w.t) && MemberOk(s, None, a, w.t);
          FailReply(w.t, DeadReply);
          done := true;
        }
        i := i + 1;
      }
      assert todo[..|todo|] == todo;
    }

    /** binder_release_work on a process's list, then the process goes. */
    method ReleaseProcess(p: Pid)
      requires Inv(View()) && p in procs && NoThreads(View(), p)
      modifies this
      ensures View() == Step(old(View()), Op.ReleaseProc(p))
    {
      ghost var s := View();
      while procs[p] != []
        invariant Inv(View()) && p in procs && NoThreads(View(), p)
        invariant Drain(View(), p) == Drain(s, p)
        decreases |procs[p]|
      {
        ghost var s1 := View();
        DropProcHeadKeeps(s1, p);
        var w := procs[p][0];
        procs := procs[p := procs[p][1..]];
        assert View() == DropProcHead(s1, p);
        if w.Call? {
          FailReply(w.t, DeadReply);
        }
      }
      procs := procs - {p};
    }
  }
}
