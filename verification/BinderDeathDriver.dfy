/**
 Death notifications as the driver performs them: lists and records changed in place.  Every
 method takes exactly the step BinderDeath specifies; the driver's two BUG checks are assertions.
 */
module BinderDeathDriver {
  import opened Lists
  import opened Wrappers
  import opened BinderDeath

  class Driver {
    var procs: set<Pid>
    var threads: map<Tid, Thread>
    var nodes: map<NodeId, Node>
    var refs: map<RefId, Ref>
    var deaths: map<Did, Record>
    var queues: map<Queue, seq<Did>>
    var nextRef: RefId
    var next: Did
    ghost var log: map<Did, seq<Event>>

    ghost function View(): State
      reads this
    {
      State(procs, threads, nodes, refs, deaths, queues, log, nextRef, next)
    }

    constructor ()
      ensures View() == BinderDeath.Init
    {
      procs, threads, nodes, refs, deaths, queues, nextRef, next := {}, map[], map[], map[], map[], map[], 0, 0;
      log := map[];
    }

    /** list_del_init on a record's work entry. */
    method DelEntry(d: Did)
      requires d in deaths
      modifies this`deaths, this`queues
      ensures View() == Unlink(old(View()), d)
    {
      match deaths[d].at
      case None =>
      case Some(q) =>
        if q in queues {
          queues := queues[q := Without(queues[q], d)];
        }
        deaths := deaths[d := deaths[d].(at := None)];
    }

    /** list_add_tail, or list_add for the list of delivered records. */
    method AddEntry(d: Did, q: Queue, kind: Kind)
      requires d in deaths && q in queues
      modifies this`deaths, this`queues
      ensures View() == Link(old(View()), d, q, kind)
    {
      queues := queues[q := if q.Delivered? then [d] + queues[q] else queues[q] + [d]];
      deaths := deaths[d := deaths[d].(at := Some(q), kind := kind)];
    }

    ghost method Record(d: Did, e: Event)
      modifies this`log
      ensures View() == Note(old(View()), d, e)
    {
      if d in log {
        log := log[d := log[d] + [e]];
      }
    }

    method FreeRecord(d: Did)
      modifies this`deaths, this`log
      ensures View() == Free(old(View()), d)
    {
      deaths := deaths - {d};
      Record(d, Freed);
    }

    /** BC_REQUEST_DEATH_NOTIFICATION; false when one is already set. */
    method RequestDeath(t: Tid, r: RefId, cookie: nat) returns (ok: bool)
      requires Inv(View()) && Enabled(View(), Ask(t, r, cookie))
      modifies this`deaths, this`queues, this`refs, this`next, this`log
      ensures Inv(View()) && View() == Step(old(View()), Ask(t, r, cookie))
      ensures ok <==> old(refs)[r].death.None?
    {
      RequestKeeps(View(), t, r, cookie);
      if refs[r].death.Some? {
        return false;
      }
      var d := next;
      next := next + 1;
      deaths := deaths[d := BinderDeath.Record(r, refs[r].proc, cookie, Fresh, None)];
      refs := refs[r := refs[r].(death := Some(d))];
      log := log[d := []];
      if !(refs[r].node in nodes && nodes[refs[r].node].owner.Some?) {
        AddEntry(d, if threads[t].looper then Todo(t) else ProcTodo(threads[t].proc), Dead);
      }
      return true;
    }

    /** BC_CLEAR_DEATH_NOTIFICATION; false when none is set or the cookie does not match. */
    method ClearDeathNotification(t: Tid, r: RefId, cookie: nat) returns (ok: bool)
      requires Inv(View()) && Enabled(View(), Revoke(t, r, cookie))
      modifies this`deaths, this`queues, this`refs, this`log
      ensures Inv(View()) && View() == Step(old(View()), Revoke(t, r, cookie))
      ensures ok <==>
        && old(refs)[r].death.Some? && old(refs)[r].death.value in old(deaths)
        && old(deaths)[old(refs)[r].death.value].cookie == cookie
    {
      ClearKeeps(View(), t, r, cookie);
      if refs[r].death.None? {
        return false;
      }
      var d := refs[r].death.value;
      if deaths[d].cookie != cookie {
        return false;
      }
      LinkedAtClearIsDead(View(), r);
      refs := refs[r := refs[r].(death := None)];
      Record(d, Cleared);
      if deaths[d].at.None? {
        AddEntry(d, if threads[t].looper then Todo(t) else ProcTodo(threads[t].proc), Clear);
      } else {
        assert deaths[d].kind == Dead; // BUG_ON
        deaths := deaths[d := deaths[d].(kind := DeadAndClear)];
      }
      return true;
    }

    /** The search of BC_DEAD_BINDER_DONE through the delivered records. */
    method SearchDelivered(xs: seq<Did>, cookie: nat) returns (found: Option<Did>)
      requires forall d: Did :: d in xs ==> d in deaths
      ensures found == FindCookie(View(), xs, cookie)
    {
      var i := 0;
      while i < |xs|
        invariant 0 <= i <= |xs| && FindCookie(View(), xs, cookie) == FindCookie(View(), xs[i..], cookie)
      {
        assert xs[i..][0] == xs[i] && xs[i..][1..] == xs[i + 1..];
        if deaths[xs[i]].cookie == cookie {
          return Some(xs[i]);
        }
        i := i + 1;
      }
      return None;
    }

    /** BC_DEAD_BINDER_DONE. */
    method DeadBinderDone(t: Tid, cookie: nat) returns (ok: bool)
      requires Inv(View()) && t in threads
      modifies this`deaths, this`queues
      ensures Inv(View()) && View() == Step(old(View()), Answer(t, cookie))
      ensures ok <==> exists d: Did ::
        d in old(deaths) && old(deaths)[d].cookie == cookie && old(deaths)[d].at == Some(Delivered(threads[t].proc))
    {
      ghost var s := View();
      var q := Delivered(threads[t].proc);
      assert ThreadOk(s, t) && QueueOk(s, q);
      var found := SearchDelivered(queues[q], cookie);
      FoundIsListed(s, queues[q], cookie);
      if found.None? {
        forall d: Did | d in deaths && deaths[d].at == Some(q) ensures deaths[d].cookie != cookie {
          assert AtOk(s, d);
        }
        return false;
      }
      var d := found.value;
      AcknowledgeKeeps(s, t, d);
      DelEntry(d);
      if deaths[d].kind == DeadAndClear {
        AddEntry(d, if threads[t].looper then Todo(t) else ProcTodo(threads[t].proc), Clear);
      }
      return true;
    }

    /** One iteration of the read loop on death work. */
    method ReadDeath(t: Tid) returns (sent: Option<Event>)
      requires Inv(View()) && t in threads
      modifies this`deaths, this`queues, this`log
      ensures Inv(View()) && View() == Step(old(View()), Read(t))
      ensures ReadList(old(View()), t) in old(queues)
      ensures var line := old(queues)[ReadList(old(View()), t)];
        if line == [] then sent.None?
        else line[0] in old(deaths) && sent == Some(if old(deaths)[line[0]].kind == Clear then SentDone else SentDead)
    {
      ghost var s := View();
      var q := if Todo(t) in queues && queues[Todo(t)] != [] then Todo(t) else ProcTodo(threads[t].proc);
      assert ThreadOk(s, t) && QueueOk(s, q);
      if queues[q] == [] {
        return None;
      }
      var d := queues[q][0];
      DeliverKeeps(s, t, d);
      var kind := deaths[d].kind;
      DelEntry(d);
      if kind == Clear {
        Record(d, SentDone);
        FreeRecord(d);
        return Some(SentDone);
      } else {
        AddEntry(d, Delivered(threads[t].proc), kind);
        Record(d, SentDead);
        return Some(SentDead);
      }
    }

    /** binder_release_work on one list. */
    method ReleaseList(q: Queue)
      requires Inv(View()) && q in queues
      modifies this`deaths, this`queues, this`log
      ensures Inv(View()) && View() == ReleaseWork(old(View()), q)
    {
      while queues[q] != []
        invariant Inv(View()) && q in queues && ReleaseWork(View(), q) == ReleaseWork(old(View()), q)
        decreases |queues[q]|
      {
        var d := queues[q][0];
        ghost var s := View();
        ReleaseHead(s, q);
        var kind := deaths[d].kind;
        DelEntry(d);
        if kind == DeadAndClear || kind == Clear {
          FreeRecord(d);
        }
        assert View() == ReleaseOne(s, d) && Shortened(s, View(), q);
      }
    }

    /** One iteration of the loop over the refs of a dying node. */
    method NotifyRef(r: RefId, ghost pend: set<RefId>)
      requires InvP(View(), pend) && r in refs && r in pend && !Alive(View(), refs[r].node)
      modifies this`deaths, this`queues
      ensures old(refs[r].death.Some? ==> refs[r].death.value in deaths && ProcTodo(refs[r].proc) in queues)
      ensures View() == Notify(old(View()), r) && InvP(View(), pend - {r})
    {
      NotifyKeeps(View(), pend, r);
      if refs[r].death.Some? {
        PendingIsUnlinked(View(), pend, r);
        assert deaths[refs[r].death.value].at.None?; // BUG
        AddEntry(refs[r].death.value, ProcTodo(refs[r].proc), Dead);
      }
    }

    /** binder_node_release. */
    method NodeRelease(n: NodeId)
      requires Inv(View()) && Alive(View(), n)
      modifies this`nodes, this`deaths, this`queues
      ensures Inv(View()) && View() == NodeDies(old(View()), n)
    {
      ghost var s := View();
      OrphanKeeps(s, n);
      assert NodeOk(s, n);
      nodes := nodes[n := nodes[n].(owner := None)];
      assert View() == Orphan(s, n);
      var rs := nodes[n].refs;
      while rs != []
        invariant InvP(View(), SetOf(rs)) && Distinct(rs) && !Alive(View(), n)
        invariant forall r: RefId :: r in rs ==> r in refs && refs[r].node == n
        invariant NotifyAll(View(), n, rs) == NodeDies(s, n)
        decreases |rs|
      {
        assert rs == [rs[0]] + rs[1..] && SetOf(rs) - {rs[0]} == SetOf(rs[1..]);
        NotifyRef(rs[0], SetOf(rs));
        rs := rs[1..];
      }
      assert SetOf(rs) == {};
    }

    /** binder_delete_ref, as far as death records go. */
    method DeleteReference(r: RefId)
      requires Inv(View()) && r in refs
      modifies this`nodes, this`refs, this`deaths, this`queues, this`log
      ensures Inv(View()) && View() == Step(old(View()), Forget(r))
      ensures r !in refs && (forall k: RefId :: k in refs <==> k in old(refs) && k != r)
      ensures (forall k: RefId :: k in refs ==> refs[k] == old(refs)[k])
      ensures nodes.Keys == old(nodes).Keys && forall n: NodeId :: n in nodes ==> nodes[n].owner == old(nodes)[n].owner
    {
      DeleteRefKeeps(View(), r);
      if refs[r].death.Some? {
        var d := refs[r].death.value;
        DelEntry(d);
        FreeRecord(d);
        refs := refs[r := refs[r].(death := None)];
      }
      var n := refs[r].node;
      refs := refs - {r};
      nodes := nodes[n := nodes[n].(refs := Without(nodes[n].refs, r))];
    }

    /** binder_free_thread, as far as death records go. */
    method FreeThread(t: Tid)
      requires Inv(View()) && t in threads
      modifies this`threads, this`deaths, this`queues, this`log
      ensures Inv(View()) && View() == Step(old(View()), Exit(t))
    {
      ExitThreadKeeps(View(), t);
      ReleaseList(Todo(t));
      threads := threads - {t};
      queues := queues - {Todo(t)};
    }

    /** The state is what the run `ops` makes of `s`. */
    ghost predicate Reached(s: State, ops: seq<Op>)
      reads this
    {
      Inv(s) && CanRun(s, ops) && View() == Run(s, ops)
    }

    /** The step is the exit of a thread of the process, the death of one of its nodes, the loss of one
        of its refs, or its end, as it was at the start. */
    static predicate Concerns(s: State, p: Pid, op: Op) {
      match op
      case Exit(t) => t in s.threads && s.threads[t].proc == p
      case Die(n) => n in s.nodes && s.nodes[n].owner == Some(p)
      case Forget(r) => r in s.refs && s.refs[r].proc == p
      case Close(q) => q == p
      case _ => false
    }

    static ghost predicate AllConcern(s: State, p: Pid, ops: seq<Op>) {
      forall op: Op :: op in ops ==> Concerns(s, p, op)
    }

    method ExitNext(t: Tid, ghost s: State, ghost before: seq<Op>) returns (ghost ops: seq<Op>)
      requires Inv(View()) && t in threads && Reached(s, before)
      modifies this`threads, this`deaths, this`queues, this`log
      ensures Inv(View()) && Reached(s, ops) && ops == before + [Exit(t)]
      ensures threads == old(threads) - {t}
    {
      RunAppend(s, before, Exit(t));
      FreeThread(t);
      ops := before + [Exit(t)];
    }

    /** The thread loop of binder_deferred_release. */
    method FreeThreads(p: Pid, ghost s: State, ghost before: seq<Op>) returns (ghost ops: seq<Op>)
      requires Inv(View()) && p in procs && Reached(s, before) && AllConcern(s, p, before) && threads == s.threads
      modifies this`threads, this`deaths, this`queues, this`log
      ensures Inv(View()) && Reached(s, ops) && AllConcern(s, p, ops)
      ensures forall t: Tid :: t in threads ==> threads[t].proc != p
    {
      ops := before;
      var ts := set t | t in threads && threads[t].proc == p;
      while ts != {}
        invariant Inv(View()) && Reached(s, ops) && AllConcern(s, p, ops)
        invariant ts == set t | t in threads && threads[t].proc == p
        invariant forall t: Tid :: t in ts ==> Concerns(s, p, Exit(t))
        decreases ts
      {
        var t :| t in ts;
        ops := ExitNext(t, s, ops);
        ts := ts - {t};
      }
      assert forall t: Tid :: t in threads && threads[t].proc == p ==> t in ts;
    }

    /** The node loop of binder_deferred_release. */
    method ReleaseNodes(p: Pid, ghost s: State, ghost before: seq<Op>) returns (ghost ops: seq<Op>)
      requires Inv(View()) && p in procs && Reached(s, before) && AllConcern(s, p, before) && nodes == s.nodes
      modifies this`nodes, this`deaths, this`queues
      ensures Inv(View()) && Reached(s, ops) && AllConcern(s, p, ops)
      ensures forall n: NodeId :: n in nodes ==> nodes[n].owner != Some(p)
    {
      ops := before;
      var ns := set n | n in nodes && nodes[n].owner == Some(p);
      while ns != {}
        invariant Inv(View()) && Reached(s, ops) && AllConcern(s, p, ops)
        invariant ns == set n | n in nodes && nodes[n].owner == Some(p)
        invariant forall n: NodeId :: n in ns ==> Concerns(s, p, Die(n))
        decreases ns
      {
        var n :| n in ns;
        RunAppend(s, ops, Die(n));
        NodeRelease(n);
        ops := ops + [Die(n)];
        ns := ns - {n};
      }
      assert forall n: NodeId :: n in nodes && nodes[n].owner == Some(p) ==> n in ns;
    }

    method DeleteNext(r: RefId, ghost s: State, ghost before: seq<Op>) returns (ghost ops: seq<Op>)
      requires Inv(View()) && r in refs && Reached(s, before)
      modifies this`nodes, this`refs, this`deaths, this`queues, this`log
      ensures Inv(View()) && Reached(s, ops) && ops == before + [Forget(r)]
      ensures refs == old(refs) - {r}
      ensures forall n: NodeId :: n in nodes ==> n in old(nodes) && nodes[n].owner == old(nodes)[n].owner
    {
      RunAppend(s, before, Forget(r));
      DeleteReference(r);
      ops := before + [Forget(r)];
    }

    /** The ref loop of binder_deferred_release. */
    method DeleteReferences(p: Pid, ghost s: State, ghost before: seq<Op>) returns (ghost ops: seq<Op>)
      requires Inv(View()) && p in procs && Reached(s, before) && AllConcern(s, p, before) && refs == s.refs
      requires forall n: NodeId :: n in nodes ==> nodes[n].owner != Some(p)
      modifies this`nodes, this`refs, this`deaths, this`queues, this`log
      ensures Inv(View()) && Reached(s, ops) && AllConcern(s, p, ops)
      ensures forall r: RefId :: r in refs ==> refs[r].proc != p
      ensures forall n: NodeId :: n in nodes ==> nodes[n].owner != Some(p)
    {
      ops := before;
      var rs := set r | r in refs && refs[r].proc == p;
      while rs != {}
        invariant Inv(View()) && Reached(s, ops) && AllConcern(s, p, ops)
        invariant rs == set r | r in refs && refs[r].proc == p
        invariant forall r: RefId :: r in rs ==> Concerns(s, p, Forget(r))
        invariant forall n: NodeId :: n in nodes ==> nodes[n].owner != Some(p)
        decreases rs
      {
        var r :| r in rs;
        ops := DeleteNext(r, s, ops);
        rs := rs - {r};
      }
      assert forall r: RefId :: r in refs && refs[r].proc == p ==> r in rs;
    }

    /** The end of binder_deferred_release. */
    method CloseProcess(p: Pid)
      requires Inv(View()) && p in procs && Bare(View(), p)
      modifies this`procs, this`queues, this`deaths, this`log
      ensures Inv(View()) && View() == Step(old(View()), Close(p))
      ensures p !in procs && forall d: Did :: d in deaths ==> deaths[d].proc != p
    {
      CloseProcKeeps(View(), p);
      ReleaseList(ProcTodo(p));
      ReleaseList(Delivered(p));
      procs := procs - {p};
      queues := queues - {ProcTodo(p), Delivered(p)};
    }

    /** binder_deferred_release: a run of exits of the process's threads, deaths of its nodes and losses
        of its refs that ends with the process closed; nothing of the process is left. */
    method DeferredRelease(p: Pid) returns (ghost ops: seq<Op>)
      requires Inv(View()) && p in procs
      modifies this
      ensures Inv(View()) && Reached(old(View()), ops) && AllConcern(old(View()), p, ops)
      ensures p !in procs && Bare(View(), p)
      ensures forall d: Did :: d in deaths ==> deaths[d].proc != p
    {
      ghost var s := View();
      ops := FreeThreads(p, s, []);
      ops := ReleaseNodes(p, s, ops);
      ops := DeleteReferences(p, s, ops);
      RunAppend(s, ops, Close(p));
      CloseProcess(p);
      ops := ops + [Close(p)];
    }
  }
}
