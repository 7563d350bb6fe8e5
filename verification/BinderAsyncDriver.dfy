/**
 One-way calls as the driver performs them, on lists changed in place.  Every method takes
 exactly the step BinderAsync specifies; the BUG_ON of BC_FREE_BUFFER is an assertion.
 */
module BinderAsyncDriver {
  import opened Wrappers
  import opened BinderAsync

  class Driver {
    var procs: set<Pid>
    var threads: map<Tid, Pid>
    var nodes: map<NodeId, Node>
    var calls: map<CallId, Call>
    var queues: map<Queue, seq<CallId>>
    var next: CallId
    ghost var sent: map<NodeId, seq<CallId>>
    ghost var delivered: map<NodeId, seq<CallId>>
    ghost var past: map<NodeId, seq<CallId>>

    ghost function View(): State
      reads this
    {
      State(procs, threads, nodes, calls, queues, next, sent, delivered, past)
    }

    constructor ()
      ensures View() == BinderAsync.Init
    {
      procs, threads, nodes, calls, queues, next := {}, map[], map[], map[], map[], 0;
      sent, delivered, past := map[], map[], map[];
    }

    /** The end of binder_transaction for a one-way call. */
    method SendOneWay(n: NodeId) returns (c: CallId)
      requires Inv(View()) && n in nodes
      modifies this`nodes, this`calls, this`queues, this`next, this`sent
      ensures Inv(View()) && View() == Step(old(View()), OneWay(n))
      ensures c == old(next) && n in sent && c in sent[n]
    {
      SendKeeps(View(), n);
      c := next;
      next := next + 1;
      sent := sent[n := sent[n] + [c]];
      var x := nodes[n];
      if x.hasAsync {
        nodes := nodes[n := x.(pending := x.pending + [c])];
        calls := calls[c := Call(n, Waiting)];
      } else {
        var q := ProcTodo(x.owner);
        nodes := nodes[n := x.(hasAsync := true, current := Some(c))];
        calls := calls[c := Call(n, Queued(q))];
        queues := queues[q := queues[q] + [c]];
      }
    }

    /** One iteration of the read loop on a one-way call. */
    method ReadCall(t: Tid) returns (got: Option<CallId>)
      requires Inv(View()) && t in threads
      modifies this`calls, this`queues, this`delivered
      ensures Inv(View()) && View() == Step(old(View()), Read(t))
      ensures ReadList(old(View()), t) in old(queues)
      ensures var line := old(queues)[ReadList(old(View()), t)]; got == if line == [] then None else Some(line[0])
    {
      ghost var s := View();
      var q := if Todo(t) in queues && queues[Todo(t)] != [] then Todo(t) else ProcTodo(threads[t]);
      assert ThreadOk(s, t) && QueueOk(s, q);
      if queues[q] == [] {
        return None;
      }
      DeliverKeeps(s, q);
      var c := queues[q][0];
      var n := calls[c].node;
      queues := queues[q := queues[q][1..]];
      calls := calls[c := Call(n, Delivered)];
      delivered := delivered[n := delivered[n] + [c]];
      return Some(c);
    }

    /** BC_FREE_BUFFER on the buffer of a one-way call; false when the address is not that of a
        delivered call of the thread's process. */
    method FreeBuf(t: Tid, c: CallId) returns (ok: bool)
      requires Inv(View()) && t in threads
      modifies this`calls, this`nodes, this`queues, this`past
      ensures Inv(View()) && View() == Step(old(View()), FreeBuffer(t, c))
      ensures ok <==> Freeable(old(View()), t, c)
    {
      if c !in calls || !calls[c].stage.Delivered? || calls[c].node !in nodes ||
        nodes[calls[c].node].owner != threads[t] {
        return false;
      }
      FreeKeeps(View(), t, c);
      DeliveredMeansFlag(View(), c);
      var n := calls[c].node;
      var x := nodes[n];
      assert x.hasAsync; // BUG_ON
      calls := calls - {c};
      past := past[n := past[n] + [c]];
      if x.pending == [] {
        nodes := nodes[n := x.(hasAsync := false, current := None)];
      } else {
        var d := x.pending[0];
        calls := calls[d := Call(n, Queued(Todo(t)))];
        nodes := nodes[n := x.(pending := x.pending[1..], current := Some(d))];
        queues := queues[Todo(t) := queues[Todo(t)] + [d]];
      }
      return true;
    }

    /** One iteration of binder_release_work. */
    method DropFirst(q: Queue)
      requires Inv(View()) && q in queues && queues[q] != []
      modifies this`calls, this`queues
      ensures Inv(View()) && q in queues && |queues[q]| < |old(queues[q])| &&
        DropAll(View(), q) == DropAll(old(View()), q)
    {
      DropHead(View(), q);
      var c := queues[q][0];
      queues := queues[q := queues[q][1..]];
      calls := calls[c := Call(calls[c].node, Lost)];
    }

    /** binder_release_work: every one-way call of the list is dropped. */
    method ReleaseList(q: Queue)
      requires Inv(View()) && q in queues
      modifies this`calls, this`queues
      ensures Inv(View()) && View() == DropAll(old(View()), q)
    {
      while queues[q] != []
        invariant Inv(View()) && q in queues && DropAll(View(), q) == DropAll(old(View()), q)
        decreases |queues[q]|
      {
        DropFirst(q);
      }
    }

    /** binder_free_thread. */
    method FreeThread(t: Tid)
      requires Inv(View()) && t in threads
      modifies this`threads, this`calls, this`queues
      ensures Inv(View()) && View() == Step(old(View()), Exit(t))
    {
      ExitThreadKeeps(View(), t);
      ReleaseList(Todo(t));
      threads := threads - {t};
      queues := queues - {Todo(t)};
    }
  }
}
