/**
 One-way calls, step by step (driver/binder/binder.c): what every step takes from and puts into the
 lists, and that over every run the calls read for a node are the first ones sent to it.
 */
module BinderAsyncLists {
  import opened Lists
  import opened Wrappers
  import opened BinderAsync
  import opened BinderAsyncResults

  /** The list a read of thread `t` starts with. */
  predicate ReadsFrom(s: State, t: Tid, q: Queue) {
    t in s.threads && Todo(t) in s.queues &&
    q == if s.queues[Todo(t)] != [] then Todo(t) else ProcTodo(s.threads[t])
  }

  /** The step reads call `c` from list `q`. */
  ghost predicate Reads(s: State, op: Op, q: Queue, c: CallId) {
    op.Read? && ReadsFrom(s, op.t, q) && q in s.queues && s.queues[q] != [] && s.queues[q][0] == c
  }

  /** The step frees the buffer of call `c`, which was delivered to the process of the thread. */
  ghost predicate Frees(s: State, op: Op, c: CallId) {
    && op.FreeBuffer? && op.c == c && op.t in s.threads && c in s.calls && s.calls[c].stage == Delivered
    && s.calls[c].node in s.nodes && s.nodes[s.calls[c].node].owner == s.threads[op.t]
  }

  predicate Opens(op: Op, q: Queue) {
    (op.Open? && q == ProcTodo(op.p)) || (op.Start? && q == Todo(op.t))
  }

  predicate Closes(op: Op, q: Queue) {
    (op.Close? && q == ProcTodo(op.p)) || (op.Exit? && q == Todo(op.t))
  }

  /** The call a step appends to the list: one sent to an idle node goes to its owner's list, the
      first waiting one to the list of the thread that frees the current one. */
  ghost function Appended(s: State, op: Op, q: Queue): seq<CallId>
    requires Inv(s) && Enabled(s, op)
  {
    match op
    case OneWay(n) => if !s.nodes[n].hasAsync && q == ProcTodo(s.nodes[n].owner) then [s.next] else []
    case FreeBuffer(t, c) =>
      if Frees(s, op, c) && s.nodes[s.calls[c].node].pending != [] && q == Todo(t)
        then [s.nodes[s.calls[c].node].pending[0]] else []
    case _ => []
  }

  /** What `s` becomes is what the lists say: taken from the head, appended at the tail. */
  ghost predicate QueueMoves(s: State, op: Op, y: State, q: Queue)
    requires Inv(s) && Enabled(s, op)
  {
    && (q in y.queues <==> (q in s.queues && !Closes(op, q)) || Opens(op, q))
    && (q in y.queues && Opens(op, q) ==> y.queues[q] == [])
    && (q in y.queues && q in s.queues ==>
          if exists c: CallId :: Reads(s, op, q, c) then s.queues[q] != [] && y.queues[q] == s.queues[q][1..]
          else y.queues[q] == s.queues[q] + Appended(s, op, q))
  }

  lemma ReadMoves(s: State, t: Tid, q: Queue)
    requires Inv(s) && t in s.threads
    ensures QueueMoves(s, Read(t), ReadStep(s, t), q)
  {
    var f := ReadList(s, t);
    assert ThreadOk(s, t) && QueueOk(s, f) && QueueOk(s, Todo(t)) && QueueOk(s, q);
    assert ReadsFrom(s, t, f);
    if s.queues[f] != [] {
      DeliverKeeps(s, f);
      assert Reads(s, Read(t), f, s.queues[f][0]);
    }
  }

  lemma FreeMoves(s: State, t: Tid, c: CallId, q: Queue)
    requires Inv(s) && t in s.threads
    ensures QueueMoves(s, FreeBuffer(t, c), FreeStep(s, t, c), q)
  {
    assert QueueOk(s, q);
    if Freeable(s, t, c) {
      FreeKeeps(s, t, c);
    }
  }

  /** Every step takes at most one call from the head of one list and appends at the tail exactly the
      call it is to; lists come and go with their threads and processes. */
  lemma StepQueues(s: State, op: Op, q: Queue)
    requires Inv(s) && Enabled(s, op)
    ensures QueueMoves(s, op, Step(s, op), q)
  {
    assert QueueOk(s, q);
    match op
    case Read(t) => ReadMoves(s, t, q);
    case FreeBuffer(t, c) => FreeMoves(s, t, c, q);
    case OneWay(n) => SendKeeps(s, n);
    case Exit(t) =>
      ExitThreadKeeps(s, t);
      assert DropAll(s, Todo(t)).queues == s.queues[Todo(t) := []];
    case _ =>
  }

  // ---------------------------------------------------------------- histories

  /** What a step adds to the calls sent to node `n`, and to those read for it. */
  function Sent(s: State, op: Op, n: NodeId): seq<CallId> {
    if op == OneWay(n) then [s.next] else []
  }

  ghost predicate ReadsFor(s: State, op: Op, n: NodeId, c: CallId) {
    c in s.calls && s.calls[c].node == n && exists q: Queue :: Reads(s, op, q, c)
  }

  ghost function Got(s: State, op: Op, n: NodeId): seq<CallId> {
    if exists c: CallId :: ReadsFor(s, op, n, c) then
      var c: CallId :| ReadsFor(s, op, n, c);
      [c]
    else []
  }

  lemma OneRead(s: State, op: Op, q: Queue, c: CallId, p: Queue, d: CallId)
    requires Reads(s, op, q, c) && Reads(s, op, p, d)
    ensures q == p && c == d
  {
  }

  /** A step sends and delivers exactly that. */
  lemma StepHistories(s: State, op: Op, n: NodeId)
    requires Inv(s) && Enabled(s, op) && n in s.sent
    ensures n in s.delivered && n in Step(s, op).sent && n in Step(s, op).delivered
    ensures Step(s, op).sent[n] == s.sent[n] + Sent(s, op, n)
    ensures Step(s, op).delivered[n] == s.delivered[n] + Got(s, op, n)
    ensures Step(s, op).next == s.next + if op.OneWay? then 1 else 0
  {
    assert HistoryOk(s, n);
    match op
    case Read(t) => ReadHistories(s, t, n);
    case FreeBuffer(t, c) =>
      if Freeable(s, t, c) {
        FreeKeeps(s, t, c);
      }
    case OneWay(m) => SendKeeps(s, m);
    case Exit(t) => ExitThreadKeeps(s, t);
    case _ =>
  }

  lemma ReadHistories(s: State, t: Tid, n: NodeId)
    requires Inv(s) && t in s.threads && n in s.sent && n in s.delivered
    ensures ReadStep(s, t).sent == s.sent && ReadStep(s, t).next == s.next && n in ReadStep(s, t).delivered
    ensures ReadStep(s, t).delivered[n] == s.delivered[n] + Got(s, Read(t), n)
  {
    var f := ReadList(s, t);
    assert ThreadOk(s, t) && QueueOk(s, f) && QueueOk(s, Todo(t));
    assert ReadsFrom(s, t, f);
    if s.queues[f] != [] {
      DeliverKeeps(s, f);
      var h := s.queues[f][0];
      assert Reads(s, Read(t), f, h);
      if s.calls[h].node == n {
        assert ReadsFor(s, Read(t), n, h);
      }
    }
  }

  ghost function SentBy(s: State, ops: seq<Op>, n: NodeId): seq<CallId>
    requires Inv(s) && CanRun(s, ops)
    decreases |ops|
  {
    if ops == [] then [] else Sent(s, ops[0], n) + SentBy(Step(s, ops[0]), ops[1..], n)
  }

  ghost function ReadBy(s: State, ops: seq<Op>, n: NodeId): seq<CallId>
    requires Inv(s) && CanRun(s, ops)
    decreases |ops|
  {
    if ops == [] then [] else Got(s, ops[0], n) + ReadBy(Step(s, ops[0]), ops[1..], n)
  }

  lemma Assoc(x: seq<CallId>, a: seq<CallId>, b: seq<CallId>)
    ensures x + a + b == x + (a + b)
  {
  }

  lemma {:induction false} RunHistories(s: State, ops: seq<Op>, n: NodeId)
    requires Inv(s) && CanRun(s, ops) && n in s.sent
    ensures n in s.delivered && n in Run(s, ops).sent && n in Run(s, ops).delivered
    ensures Run(s, ops).sent[n] == s.sent[n] + SentBy(s, ops, n)
    ensures Run(s, ops).delivered[n] == s.delivered[n] + ReadBy(s, ops, n)
    decreases |ops|
  {
    assert HistoryOk(s, n);
    if ops != [] {
      var y := Step(s, ops[0]);
      StepHistories(s, ops[0], n);
      RunHistories(y, ops[1..], n);
      Assoc(s.sent[n], Sent(s, ops[0], n), SentBy(y, ops[1..], n));
      Assoc(s.delivered[n], Got(s, ops[0], n), ReadBy(y, ops[1..], n));
    }
  }

  lemma NothingSentYet(s: State, n: NodeId, p: Pid)
    requires Inv(s) && Enabled(s, Publish(n, p))
    ensures var u := Step(s, Publish(n, p));
      n in u.sent && u.sent[n] == [] && n in u.delivered && u.delivered[n] == []
  {
  }

  lemma ReadFromNothing(u: State, ops: seq<Op>, n: NodeId)
    requires Inv(u) && CanRun(u, ops) && n in u.sent && u.sent[n] == [] && n in u.delivered && u.delivered[n] == []
    ensures ReadBy(u, ops, n) <= SentBy(u, ops, n)
  {
    RunHistories(u, ops, n);
    assert HistoryOk(Run(u, ops), n);
    assert [] + SentBy(u, ops, n) == SentBy(u, ops, n) && [] + ReadBy(u, ops, n) == ReadBy(u, ops, n);
  }

  /** From the making of a node on, in every run the calls read for it are the first ones sent to it,
      in the order they were sent. */
  lemma ReadInSendOrder(s: State, n: NodeId, p: Pid, ops: seq<Op>)
    requires Inv(s) && Enabled(s, Publish(n, p)) && CanRun(Step(s, Publish(n, p)), ops)
    ensures ReadBy(Step(s, Publish(n, p)), ops, n) <= SentBy(Step(s, Publish(n, p)), ops, n)
  {
    NothingSentYet(s, n, p);
    ReadFromNothing(Step(s, Publish(n, p)), ops, n);
  }
}
