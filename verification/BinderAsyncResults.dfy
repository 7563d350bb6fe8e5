/** What one-way calls guarantee, over all runs from the empty driver. */
module BinderAsyncResults {
  import opened Lists
  import opened Wrappers
  import opened BinderAsync

  /** Over every run the calls delivered to a node are the first ones sent to it, each once. */
  lemma DeliveredInSendOrder(ops: seq<Op>, n: NodeId)
    requires IsRun(ops) && n in After(ops).sent
    ensures var s := After(ops);
      n in s.delivered && s.delivered[n] <= s.sent[n] && Distinct(s.sent[n])
  {
    assert HistoryOk(After(ops), n);
  }

  /** A call that has left async_todo has the node's turn. */
  ghost predicate InFlight(s: State, n: NodeId, c: CallId) {
    c in s.calls && s.calls[c].node == n && !s.calls[c].stage.Waiting?
  }

  /** In every reachable state at most one call of a node is in flight, and the node's flag is
      set exactly when one is. */
  lemma OneInFlight(ops: seq<Op>, n: NodeId)
    requires IsRun(ops) && n in After(ops).nodes
    ensures var s := After(ops);
      && (forall c: CallId, d: CallId :: InFlight(s, n, c) && InFlight(s, n, d) ==> c == d)
      && (s.nodes[n].hasAsync <==> exists c: CallId :: InFlight(s, n, c))
  {
    var s := After(ops);
    assert TurnOk(s, n);
    forall c: CallId | InFlight(s, n, c) ensures s.nodes[n].current == Some(c) {
      assert CallOk(s, c);
    }
    if s.nodes[n].hasAsync {
      assert InFlight(s, n, s.nodes[n].current.value);
    }
  }

  /** The node's turn belongs to a call that an exiting thread dropped. */
  ghost predicate Stalled(s: State, n: NodeId) {
    && n in s.nodes && s.nodes[n].current.Some? && s.nodes[n].current.value in s.calls
    && s.calls[s.nodes[n].current.value].stage.Lost?
  }

  lemma StallSurvivesStep(s: State, op: Op, n: NodeId)
    requires Inv(s) && Enabled(s, op) && Stalled(s, n) && n in Step(s, op).nodes
    ensures var y := Step(s, op);
      && Stalled(y, n) && y.nodes[n].current == s.nodes[n].current
      && n in y.delivered && n in s.delivered && y.delivered[n] == s.delivered[n]
  {
    var c := s.nodes[n].current.value;
    assert TurnOk(s, n) && HistoryOk(s, n) && CallOk(s, c);
    match op
    case Read(t) =>
      var q := ReadList(s, t);
      assert ThreadOk(s, t) && QueueOk(s, q);
      if s.queues[q] != [] {
        assert s.queues[q][0] in s.queues[q] && CallOk(s, s.queues[q][0]);
      }
    case FreeBuffer(t, d) =>
      if Freeable(s, t, d) {
        DeliveredMeansFlag(s, d);
        var x := s.nodes[s.calls[d].node];
        assert TurnOk(s, s.calls[d].node);
        assert x.pending != [] ==> x.pending[0] in x.pending;
      }
    case Exit(t) =>
      assert QueueOk(s, Todo(t));
    case OneWay(m) =>
      assert CallOk(s, s.next);
    case _ =>
  }

  /** A node is gone for good once it is gone. */
  lemma GoneStaysGone(s: State, op: Op, n: NodeId)
    requires Inv(s) && Enabled(s, op) && n in s.sent && n !in s.nodes
    ensures n in Step(s, op).sent && n !in Step(s, op).nodes
  {
    assert HistoryOk(s, n);
  }

  lemma {:induction false} GoneForGood(s: State, ops: seq<Op>, n: NodeId)
    requires Inv(s) && CanRun(s, ops) && n in s.sent && n !in s.nodes
    ensures n !in Run(s, ops).nodes
    decreases |ops|
  {
    if ops != [] {
      GoneStaysGone(s, ops[0], n);
      GoneForGood(Step(s, ops[0]), ops[1..], n);
    }
  }

  /** No run ever delivers another call to a stalled node: it stays stalled as long as it
      exists. */
  lemma {:induction false} StalledForGood(s: State, ops: seq<Op>, n: NodeId)
    requires Inv(s) && CanRun(s, ops) && Stalled(s, n) && n in Run(s, ops).nodes
    ensures var y := Run(s, ops);
      Stalled(y, n) && n in s.delivered && n in y.delivered && y.delivered[n] == s.delivered[n]
    decreases |ops|
  {
    assert HistoryOk(s, n);
    if ops != [] {
      var u := Step(s, ops[0]);
      if n in u.nodes {
        StallSurvivesStep(s, ops[0], n);
        StalledForGood(u, ops[1..], n);
      } else {
        HistoryStays(s, ops[0], n);
        GoneForGood(u, ops[1..], n);
        assert false;
      }
    }
  }

  lemma HistoryStays(s: State, op: Op, n: NodeId)
    requires Inv(s) && Enabled(s, op) && n in s.sent
    ensures n in Step(s, op).sent
  {
  }

  lemma {:induction false} RunConcat(s: State, a: seq<Op>, b: seq<Op>)
    requires Inv(s) && CanRun(s, a) && CanRun(Run(s, a), b)
    ensures CanRun(s, a + b) && Run(s, a + b) == Run(Run(s, a), b)
    decreases |a|
  {
    if a == [] {
      assert [] + b == b;
    } else {
      RunConcat(Step(s, a[0]), a[1..], b);
      assert (a + b)[1..] == a[1..] + b;
    }
  }

  /** One read leaves a queued call queued where it is, or delivers it. */
  lemma ReadMoves(s: State, t: Tid, c: CallId)
    requires Inv(s) && t in s.threads && c in s.calls && s.calls[c].stage.Queued?
    requires s.calls[c].stage.q == Todo(t) || s.calls[c].stage.q == ProcTodo(s.threads[t])
    ensures Todo(t) in s.queues && ProcTodo(s.threads[t]) in s.queues
    ensures var y := ReadStep(s, t);
      && y.nodes == s.nodes && y.threads == s.threads && c in y.calls
      && (y.calls[c].stage == Delivered || y.calls[c] == s.calls[c])
      && Todo(t) in y.queues && ProcTodo(s.threads[t]) in y.queues
      && |y.queues[Todo(t)]| + |y.queues[ProcTodo(s.threads[t])]|
         < |s.queues[Todo(t)]| + |s.queues[ProcTodo(s.threads[t])]|
  {
    assert ThreadOk(s, t) && QueueOk(s, Todo(t)) && QueueOk(s, ProcTodo(s.threads[t])) && CallOk(s, c);
  }

  /** A queued call is delivered after enough reads of a thread that serves its list. */
  lemma {:induction false} ReadsDeliver(s: State, t: Tid, c: CallId) returns (ops: seq<Op>)
    requires Inv(s) && t in s.threads && c in s.calls && s.calls[c].stage.Queued?
    requires s.calls[c].stage.q == Todo(t) || s.calls[c].stage.q == ProcTodo(s.threads[t])
    requires Todo(t) in s.queues && ProcTodo(s.threads[t]) in s.queues
    ensures CanRun(s, ops)
    ensures var y := Run(s, ops);
      y.nodes == s.nodes && y.threads == s.threads && c in y.calls && y.calls[c].stage == Delivered
    decreases |s.queues[Todo(t)]| + |s.queues[ProcTodo(s.threads[t])]|
  {
    ReadMoves(s, t, c);
    var y := Step(s, Read(t));
    var rest: seq<Op> := [];
    if y.calls[c].stage != Delivered {
      rest := ReadsDeliver(y, t, c);
    }
    ops := [Read(t)] + rest;
    assert ops[1..] == rest;
  }

  /** The call that has the node's turn can always be delivered, unless it was dropped. */
  lemma CurrentIsDeliverable(s: State, t: Tid, n: NodeId) returns (ops: seq<Op>)
    requires Inv(s) && n in s.nodes && s.nodes[n].current.Some? && !Stalled(s, n)
    requires t in s.threads && s.threads[t] == s.nodes[n].owner
    ensures CanRun(s, ops)
    ensures var y := Run(s, ops);
      && y.nodes == s.nodes && y.threads == s.threads
      && s.nodes[n].current.value in y.calls && y.calls[s.nodes[n].current.value] == Call(n, Delivered)
  {
    var c := s.nodes[n].current.value;
    assert TurnOk(s, n) && CallOk(s, c);
    if s.calls[c].stage.Delivered? {
      ops := [];
    } else {
      var q := s.calls[c].stage.q;
      var u := if q.Todo? then q.t else t;
      assert ThreadOk(s, u) && QueueOk(s, q) && QueueOk(s, Todo(u)) && QueueOk(s, ProcTodo(s.threads[u]));
      ops := ReadsDeliver(s, u, c);
    }
    var y := Run(s, ops);
    assert CallOk(y, c) && TurnOk(y, n);
  }

  /** Exactly the nodes that are not stalled can move on: as long as a thread serves the owner,
      some run delivers the first waiting call.  The thread has no transaction on its stack, or it
      would not read the list of its process. */
  lemma UnstalledMovesOn(s: State, t: Tid, n: NodeId) returns (ops: seq<Op>)
    requires Inv(s) && n in s.nodes && s.nodes[n].pending != [] && !Stalled(s, n)
    requires t in s.threads && s.threads[t] == s.nodes[n].owner
    ensures CanRun(s, ops)
    ensures n in Run(s, ops).delivered && s.nodes[n].pending[0] in Run(s, ops).delivered[n]
  {
    assert TurnOk(s, n);
    var c, d := s.nodes[n].current.value, s.nodes[n].pending[0];
    var a := CurrentIsDeliverable(s, t, n);
    var u := Run(s, a);
    var v := FreeAdvances(u, t, n, c);
    assert Enabled(u, FreeBuffer(t, c)) && v == Step(u, FreeBuffer(t, c));
    assert [FreeBuffer(t, c)][1..] == [] && CanRun(v, []);
    RunConcat(s, a, [FreeBuffer(t, c)]);
    var b := CurrentIsDeliverable(v, t, n);
    RunConcat(s, a + [FreeBuffer(t, c)], b);
    ops := a + [FreeBuffer(t, c)] + b;
    var y := Run(s, ops);
    assert HistoryOk(y, n);
  }

  lemma FreeAdvances(u: State, t: Tid, n: NodeId, c: CallId) returns (v: State)
    requires Inv(u) && n in u.nodes && u.nodes[n].pending != [] && c in u.calls && u.calls[c] == Call(n, Delivered)
    requires t in u.threads && u.threads[t] == u.nodes[n].owner
    ensures v == FreeStep(u, t, c) && n in v.nodes && v.nodes[n].owner == u.nodes[n].owner && v.threads == u.threads
    ensures v.nodes[n].current == Some(u.nodes[n].pending[0]) && v.nodes[n].pending == u.nodes[n].pending[1..]
    ensures u.nodes[n].pending[0] in v.calls && v.calls[u.nodes[n].pending[0]] == Call(n, Queued(Todo(t)))
  {
    DeliveredMeansFlag(u, c);
    v := FreeStep(u, t, c);
    FreeKeeps(u, t, c);
  }

  /** A step stalls a node exactly when it is the exit of the thread whose list holds the call
      that has the node's turn. */
  lemma StallsOnlyByExit(s: State, op: Op, n: NodeId)
    requires Inv(s) && Enabled(s, op) && n in s.nodes && !Stalled(s, n)
    ensures Stalled(Step(s, op), n) <==>
      && op.Exit? && s.nodes[n].current.Some? && s.nodes[n].current.value in s.calls
      && s.calls[s.nodes[n].current.value].stage == Queued(Todo(op.t))
  {
    assert TurnOk(s, n);
    if s.nodes[n].current.Some? {
      assert CallOk(s, s.nodes[n].current.value);
    }
    match op
    case Read(t) =>
      var q := ReadList(s, t);
      assert ThreadOk(s, t) && QueueOk(s, q);
      if s.queues[q] != [] {
        assert s.queues[q][0] in s.queues[q] && CallOk(s, s.queues[q][0]);
      }
    case FreeBuffer(t, d) =>
      if Freeable(s, t, d) {
        DeliveredMeansFlag(s, d);
        var x := s.nodes[s.calls[d].node];
        assert TurnOk(s, s.calls[d].node);
        assert x.pending != [] ==> x.pending[0] in x.pending;
      }
    case Exit(t) =>
      assert QueueOk(s, Todo(t));
    case OneWay(m) =>
      assert CallOk(s, s.next);
    case _ =>
  }

  lemma {:induction false} RunAppend(s: State, ops: seq<Op>, op: Op)
    requires Inv(s) && CanRun(s, ops) && Enabled(Run(s, ops), op)
    ensures CanRun(s, ops + [op]) && Run(s, ops + [op]) == Step(Run(s, ops), op)
    decreases |ops|
  {
    if ops == [] {
      assert ([] + [op])[1..] == [];
    } else {
      RunAppend(Step(s, ops[0]), ops[1..], op);
      assert (ops + [op])[1..] == ops[1..] + [op];
    }
  }

  lemma AfterAppend(ops: seq<Op>, op: Op)
    requires IsRun(ops) && Enabled(After(ops), op)
    ensures IsRun(ops + [op]) && After(ops + [op]) == Step(After(ops), op)
  {
    InitOk();
    RunAppend(Init, ops, op);
  }

  /** Process 7 has thread 1 and node 0. */
  lemma OneNode() returns (ops: seq<Op>)
    ensures IsRun(ops)
    ensures var s := After(ops);
      && s.next == 0 && 1 in s.threads && s.threads[1] == 7 && 0 in s.nodes && s.nodes[0] == Node(7, false, [], None)
      && ProcTodo(7) in s.queues && s.queues[ProcTodo(7)] == [] && Todo(1) in s.queues && s.queues[Todo(1)] == []
  {
    ops := [];
    assert IsRun(ops);
    AfterAppend(ops, Open(7));
    ops := ops + [Open(7)];
    AfterAppend(ops, Start(1, 7));
    ops := ops + [Start(1, 7)];
    AfterAppend(ops, Publish(0, 7));
    ops := ops + [Publish(0, 7)];
  }

  /** Three one-way calls are sent to it. */
  lemma ThreeCalls() returns (ops: seq<Op>)
    ensures IsRun(ops)
    ensures var s := After(ops);
      && 1 in s.threads && s.threads[1] == 7 && 0 in s.nodes && s.nodes[0] == Node(7, true, [1, 2], Some(0))
      && ProcTodo(7) in s.queues && s.queues[ProcTodo(7)] == [0] && Todo(1) in s.queues && s.queues[Todo(1)] == []
  {
    ops := OneNode();
    AfterAppend(ops, OneWay(0));
    ops := ops + [OneWay(0)];
    assert After(ops).queues[ProcTodo(7)] == [0];
    AfterAppend(ops, OneWay(0));
    ops := ops + [OneWay(0)];
    assert After(ops).nodes[0].pending == [1];
    AfterAppend(ops, OneWay(0));
    ops := ops + [OneWay(0)];
    assert After(ops).nodes[0].pending == [1, 2];
  }

  /** A node does stall: a thread frees the buffer of a delivered call, is handed the next one
      in its own list, and exits before it reads it.  A third call then waits forever. */
  lemma ThreadExitStalls() returns (ops: seq<Op>)
    ensures IsRun(ops) && Stalled(After(ops), 0) && After(ops).nodes[0].pending == [2]
  {
    ops := ThreeCalls();
    var s := After(ops);
    assert QueueOk(s, ProcTodo(7)) && 0 in s.queues[ProcTodo(7)] && CallOk(s, 0) && TurnOk(s, 0);
    AfterAppend(ops, Read(1));
    ops := ops + [Read(1)];
    var u := After(ops);
    var v := FreeAdvances(u, 1, 0, 0);
    AfterAppend(ops, FreeBuffer(1, 0));
    ops := ops + [FreeBuffer(1, 0)];
    StallsOnlyByExit(v, Exit(1), 0);
    assert TurnOk(v, 0) && CallOk(v, 1);
    AfterAppend(ops, Exit(1));
    ops := ops + [Exit(1)];
  }
}
