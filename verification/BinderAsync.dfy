/**
 One-way calls of the binder driver (driver/binder/binder.c): a node takes one one-way call at
 a time, the others wait in its async_todo list until the buffer of the current one is freed.

 A call is named by its buffer.  `current` names the call that has the node's turn; it is a
 history field that no branch reads, and `sent`, `delivered` and `past` (buffers freed) are the
 history of each node.  Queues hold one-way calls only; the other entries of the same lists do
 not touch them.
 */
module BinderAsync {
  import opened Lists
  import opened Wrappers

  type Pid = nat
  type Tid = nat
  type NodeId = nat
  type CallId = nat

  datatype Queue = Todo(t: Tid) | ProcTodo(p: Pid)

  /** Waiting in async_todo, queued for delivery, delivered and not freed, or dropped by a
      thread that exited with the call in its list: then the buffer stays, and the user may
      not free it. */
  datatype Stage = Waiting | Queued(q: Queue) | Delivered | Lost

  datatype Call = Call(node: NodeId, stage: Stage)
  datatype Node = Node(owner: Pid, hasAsync: bool, pending: seq<CallId>, current: Option<CallId>)

  datatype State = State(
    procs: set<Pid>, threads: map<Tid, Pid>, nodes: map<NodeId, Node>, calls: map<CallId, Call>,
    queues: map<Queue, seq<CallId>>, next: CallId,
    sent: map<NodeId, seq<CallId>>, delivered: map<NodeId, seq<CallId>>, past: map<NodeId, seq<CallId>>)

  const Init := State({}, map[], map[], map[], map[], 0, map[], map[], map[])

  // ---------------------------------------------------------------- the invariant

  function OwnerOf(s: State, q: Queue): Option<Pid> {
    match q
    case Todo(t) => if t in s.threads then Some(s.threads[t]) else None
    case ProcTodo(p) => if p in s.procs then Some(p) else None
  }

  ghost predicate ThreadOk(s: State, t: Tid) {
    t in s.threads ==> s.threads[t] in s.procs
  }

  ghost predicate QueueOk(s: State, q: Queue) {
    && (q in s.queues <==> OwnerOf(s, q).Some?)
    && (q in s.queues ==>
          && Distinct(s.queues[q])
          && (forall c: CallId :: c in s.queues[q] ==> c in s.calls && s.calls[c].stage == Queued(q)))
  }

  /** Exactly the waiting calls are in their node's async_todo; any other has the node's turn. */
  ghost predicate CallOk(s: State, c: CallId) {
    c in s.calls ==>
      && c < s.next && s.calls[c].node in s.nodes
      && (s.calls[c].stage.Waiting? ==> c in s.nodes[s.calls[c].node].pending)
      && (!s.calls[c].stage.Waiting? ==> s.nodes[s.calls[c].node].current == Some(c))
      && (s.calls[c].stage.Queued? ==>
            && s.calls[c].stage.q in s.queues && c in s.queues[s.calls[c].stage.q]
            && OwnerOf(s, s.calls[c].stage.q) == Some(s.nodes[s.calls[c].node].owner))
  }

  ghost predicate TurnOk(s: State, n: NodeId) {
    n in s.nodes ==>
      var x := s.nodes[n];
      && x.owner in s.procs && x.hasAsync == x.current.Some?
      && (x.current.Some? ==>
            && x.current.value in s.calls && s.calls[x.current.value].node == n
            && !s.calls[x.current.value].stage.Waiting?)
      && (x.pending != [] ==> x.hasAsync)
      && Distinct(x.pending)
      && (forall c: CallId :: c in x.pending ==> c in s.calls && s.calls[c] == Call(n, Waiting))
  }

  function Cur(x: Node): seq<CallId> {
    if x.current.Some? then [x.current.value] else []
  }

  ghost function Got(s: State, n: NodeId): seq<CallId>
    requires n in s.nodes
  {
    var x := s.nodes[n];
    if x.current.Some? && x.current.value in s.calls &&
      s.calls[x.current.value].stage.Delivered? then [x.current.value] else []
  }

  /** What was sent is what is past, then the current call, then the waiting ones. */
  ghost predicate HistoryOk(s: State, n: NodeId) {
    && (n in s.sent <==> n in s.delivered) && (n in s.sent <==> n in s.past)
    && (n in s.sent ==> s.delivered[n] <= s.sent[n] && Distinct(s.sent[n]) && forall c: CallId :: c in s.sent[n] ==>
      c < s.next)
    && (n in s.nodes ==>
          && n in s.sent && s.sent[n] == s.past[n] + Cur(s.nodes[n]) + s.nodes[n].pending
          && s.delivered[n] == s.past[n] + Got(s, n))
  }

  ghost predicate Inv(s: State) {
    && (forall t: Tid {:trigger ThreadOk(s, t)} :: ThreadOk(s, t))
    && (forall q: Queue {:trigger QueueOk(s, q)} :: QueueOk(s, q))
    && (forall c: CallId {:trigger CallOk(s, c)} :: CallOk(s, c))
    && (forall n: NodeId {:trigger TurnOk(s, n)} :: TurnOk(s, n))
    && (forall n: NodeId {:trigger HistoryOk(s, n)} :: HistoryOk(s, n))
  }

  /** The step concerns calls of node `n` only. */
  ghost predicate OnlyNode(s: State, y: State, n: NodeId) {
    && y.procs == s.procs && y.threads == s.threads && s.next <= y.next && y.nodes.Keys == s.nodes.Keys
    && (forall m: NodeId :: m != n ==>
          && (m in s.nodes ==> y.nodes[m] == s.nodes[m])
          && (m in y.sent <==> m in s.sent) && (m in s.sent ==> y.sent[m] == s.sent[m])
          && (m in y.delivered <==> m in s.delivered) && (m in s.delivered ==> y.delivered[m] == s.delivered[m])
          && (m in y.past <==> m in s.past) && (m in s.past ==> y.past[m] == s.past[m]))
    && (forall c: CallId :: c in s.calls && s.calls[c].node != n ==> c in y.calls && y.calls[c] == s.calls[c])
    && (forall c: CallId :: c in y.calls && y.calls[c].node != n ==> c in s.calls && s.calls[c].node != n)
  }

  lemma NodeFrame(s: State, y: State, n: NodeId)
    requires Inv(s) && OnlyNode(s, y, n) && n in s.nodes && y.nodes[n].owner == s.nodes[n].owner
    requires forall q: Queue {:trigger QueueOk(y, q)} :: QueueOk(y, q)
    requires forall q: Queue, c: CallId ::
               q in s.queues && c in s.queues[q] && c in s.calls && s.calls[c].node != n ==>
                 q in y.queues && c in y.queues[q]
    requires forall c: CallId {:trigger CallOk(y, c)} :: c in y.calls && y.calls[c].node == n ==> CallOk(y, c)
    requires TurnOk(y, n) && HistoryOk(y, n)
    ensures Inv(y)
  {
    forall t: Tid ensures ThreadOk(y, t) {
      assert ThreadOk(s, t);
    }
    forall c: CallId ensures CallOk(y, c) {
      assert CallOk(s, c);
    }
    forall m: NodeId ensures TurnOk(y, m) && HistoryOk(y, m) {
      assert TurnOk(s, m) && HistoryOk(s, m);
    }
  }

  // ---------------------------------------------------------------- steps on a node's calls

  /** A one-way BC_TRANSACTION to node `n` that passes all checks. */
  function Send(s: State, n: NodeId): State
    requires n in s.nodes && n in s.sent && ProcTodo(s.nodes[n].owner) in s.queues
  {
    var x, c, q := s.nodes[n], s.next, ProcTodo(s.nodes[n].owner);
    var u := s.(next := c + 1, sent := s.sent[n := s.sent[n] + [c]]);
    if x.hasAsync then
      u.(nodes := s.nodes[n := x.(pending := x.pending + [c])], calls := s.calls[c := Call(n, Waiting)])
    else
      u.(nodes := s.nodes[n := x.(hasAsync := true, current := Some(c))], calls := s.calls[c := Call(n, Queued(q))],
         queues := s.queues[q := s.queues[q] + [c]])
  }

  lemma SendQueues(s: State, n: NodeId, q: Queue)
    requires Inv(s) && n in s.nodes && n in s.sent && ProcTodo(s.nodes[n].owner) in s.queues
    ensures QueueOk(Send(s, n), q)
  {
    assert QueueOk(s, q) && CallOk(s, s.next);
    assert q in s.queues ==> s.next !in s.queues[q];
  }

  lemma SendCalls(s: State, n: NodeId, c: CallId)
    requires Inv(s) && n in s.nodes && n in s.sent && ProcTodo(s.nodes[n].owner) in s.queues
    ensures CallOk(Send(s, n), c)
  {
    assert CallOk(s, c) && CallOk(s, s.next) && TurnOk(s, n) && QueueOk(s, ProcTodo(s.nodes[n].owner));
    var x := s.nodes[n];
    assert c in x.pending ==> c in x.pending + [s.next];
  }

  lemma SendHistory(s: State, n: NodeId)
    requires Inv(s) && n in s.nodes && n in s.sent && ProcTodo(s.nodes[n].owner) in s.queues
    ensures TurnOk(Send(s, n), n) && HistoryOk(Send(s, n), n)
  {
    var x, y, c := s.nodes[n], Send(s, n), s.next;
    assert CallOk(s, c) && TurnOk(s, n) && HistoryOk(s, n);
    assert c !in x.pending && c !in s.sent[n];
    if x.hasAsync {
      assert s.past[n] + Cur(x) + (x.pending + [c]) == s.sent[n] + [c];
    } else {
      assert s.past[n] + [] + [] == s.past[n] && s.past[n] + [c] + [] == s.sent[n] + [c];
      assert s.delivered[n] == s.past[n] + [];
    }
  }

  lemma SendKeeps(s: State, n: NodeId)
    requires Inv(s) && n in s.nodes
    ensures n in s.sent && ProcTodo(s.nodes[n].owner) in s.queues && Inv(Send(s, n))
  {
    assert TurnOk(s, n) && HistoryOk(s, n) && QueueOk(s, ProcTodo(s.nodes[n].owner));
    var y := Send(s, n);
    forall q: Queue ensures QueueOk(y, q) {
      SendQueues(s, n, q);
    }
    forall c: CallId ensures CallOk(y, c) {
      SendCalls(s, n, c);
    }
    SendHistory(s, n);
    assert CallOk(s, s.next);
    NodeFrame(s, y, n);
  }

  /** The list a read of thread `t` takes its next one-way call from. */
  function ReadList(s: State, t: Tid): Queue
    requires t in s.threads
  {
    if Todo(t) in s.queues && s.queues[Todo(t)] != [] then Todo(t) else ProcTodo(s.threads[t])
  }

  /** One iteration of the read loop: the head of `q` is delivered. */
  function Deliver(s: State, q: Queue): State
    requires q in s.queues && s.queues[q] != [] && s.queues[q][0] in s.calls &&
      s.calls[s.queues[q][0]].node in s.delivered
  {
    var c := s.queues[q][0];
    var n := s.calls[c].node;
    s.(queues := s.queues[q := s.queues[q][1..]], calls := s.calls[c := Call(n, Delivered)],
       delivered := s.delivered[n := s.delivered[n] + [c]])
  }

  /** The head of a list leaves it and moves to `stage`, which is no longer in a list. */
  function Unqueue(s: State, q: Queue, stage: Stage): State
    requires q in s.queues && s.queues[q] != [] && s.queues[q][0] in s.calls
  {
    var c := s.queues[q][0];
    s.(queues := s.queues[q := s.queues[q][1..]], calls := s.calls[c := Call(s.calls[c].node, stage)])
  }

  lemma UnqueueQueues(s: State, q: Queue, stage: Stage, k: Queue)
    requires Inv(s) && q in s.queues && s.queues[q] != [] && s.queues[q][0] in s.calls &&
      (stage.Delivered? || stage.Lost?)
    ensures QueueOk(Unqueue(s, q, stage), k)
  {
    var c := s.queues[q][0];
    assert QueueOk(s, k) && QueueOk(s, q) && c in s.queues[q];
    assert s.queues[q] == [c] + s.queues[q][1..];
  }

  lemma UnqueueCalls(s: State, q: Queue, stage: Stage, d: CallId)
    requires Inv(s) && q in s.queues && s.queues[q] != [] && s.queues[q][0] in s.calls &&
      (stage.Delivered? || stage.Lost?)
    ensures CallOk(Unqueue(s, q, stage), d)
  {
    var c := s.queues[q][0];
    assert CallOk(s, d) && QueueOk(s, q) && c in s.queues[q];
    assert s.queues[q] == [c] + s.queues[q][1..];
  }

  lemma DeliverKeeps(s: State, q: Queue)
    requires Inv(s) && q in s.queues && s.queues[q] != []
    ensures s.queues[q][0] in s.calls && s.calls[s.queues[q][0]].node in s.delivered && Inv(Deliver(s, q))
  {
    var c := s.queues[q][0];
    assert c in s.queues[q] && QueueOk(s, q) && CallOk(s, c);
    var n := s.calls[c].node;
    assert TurnOk(s, n) && HistoryOk(s, n);
    var u, y := Unqueue(s, q, Delivered), Deliver(s, q);
    forall k: Queue ensures QueueOk(y, k) {
      UnqueueQueues(s, q, Delivered, k);
      assert QueueOk(u, k);
    }
    forall d: CallId ensures CallOk(y, d) {
      UnqueueCalls(s, q, Delivered, d);
      assert CallOk(u, d);
    }
    assert s.delivered[n] == s.past[n] + [];
    assert s.sent[n] == s.past[n] + [c] + s.nodes[n].pending;
    assert s.queues[q] == [c] + s.queues[q][1..];
    NodeFrame(s, y, n);
  }

  /** binder_release_work drops the head of an exiting thread's list: the transaction is freed,
      its buffer is not. */
  lemma LoseKeeps(s: State, q: Queue)
    requires Inv(s) && q in s.queues && s.queues[q] != []
    ensures s.queues[q][0] in s.calls && Inv(Unqueue(s, q, Lost))
  {
    var c := s.queues[q][0];
    assert c in s.queues[q] && QueueOk(s, q) && CallOk(s, c);
    var n := s.calls[c].node;
    assert TurnOk(s, n) && HistoryOk(s, n);
    var y := Unqueue(s, q, Lost);
    forall k: Queue ensures QueueOk(y, k) {
      UnqueueQueues(s, q, Lost, k);
    }
    forall d: CallId ensures CallOk(y, d) {
      UnqueueCalls(s, q, Lost, d);
    }
    assert s.queues[q] == [c] + s.queues[q][1..];
    NodeFrame(s, y, n);
  }

  /** BC_FREE_BUFFER of thread `t` on the buffer of a delivered call of its process. */
  function FreeCall(s: State, t: Tid, c: CallId): State
    requires t in s.threads && c in s.calls && s.calls[c].node in s.nodes && s.calls[c].node in s.past &&
      Todo(t) in s.queues
  {
    var n := s.calls[c].node;
    var x := s.nodes[n];
    var u := s.(past := s.past[n := s.past[n] + [c]]);
    if x.pending == [] then
      u.(calls := s.calls - {c}, nodes := s.nodes[n := x.(hasAsync := false, current := None)])
    else
      var d := x.pending[0];
      u.(calls := (s.calls - {c})[d := Call(n, Queued(Todo(t)))],
         nodes := s.nodes[n := x.(pending := x.pending[1..], current := Some(d))],
         queues := s.queues[Todo(t) := s.queues[Todo(t)] + [d]])
  }

  /** The call at hand may be freed by thread `t`. */
  ghost predicate Freeable(s: State, t: Tid, c: CallId) {
    && t in s.threads && c in s.calls && s.calls[c].node in s.nodes && s.calls[c].stage.Delivered?
    && s.nodes[s.calls[c].node].owner == s.threads[t]
  }

  /** The node of a delivered call has its flag set: BUG_ON of BC_FREE_BUFFER. */
  lemma DeliveredMeansFlag(s: State, c: CallId)
    requires Inv(s) && c in s.calls && s.calls[c].stage.Delivered?
    ensures s.calls[c].node in s.nodes && s.nodes[s.calls[c].node].hasAsync &&
      s.nodes[s.calls[c].node].current == Some(c)
  {
    assert CallOk(s, c) && TurnOk(s, s.calls[c].node);
  }

  lemma FreeQueues(s: State, t: Tid, c: CallId, q: Queue)
    requires Inv(s) && Freeable(s, t, c) && s.calls[c].node in s.past && Todo(t) in s.queues
    ensures QueueOk(FreeCall(s, t, c), q)
  {
    DeliveredMeansFlag(s, c);
    var x := s.nodes[s.calls[c].node];
    assert QueueOk(s, q) && TurnOk(s, s.calls[c].node);
    assert x.pending != [] ==> x.pending[0] in x.pending;
  }

  lemma FreeCalls(s: State, t: Tid, c: CallId, e: CallId)
    requires Inv(s) && Freeable(s, t, c) && s.calls[c].node in s.past && Todo(t) in s.queues
    ensures CallOk(FreeCall(s, t, c), e)
  {
    DeliveredMeansFlag(s, c);
    var x := s.nodes[s.calls[c].node];
    assert CallOk(s, e) && CallOk(s, c) && TurnOk(s, s.calls[c].node);
    if x.pending != [] {
      assert x.pending == [x.pending[0]] + x.pending[1..];
      assert CallOk(s, x.pending[0]);
    }
  }

  lemma FreeHistory(s: State, t: Tid, c: CallId)
    requires Inv(s) && Freeable(s, t, c) && s.calls[c].node in s.past && Todo(t) in s.queues
    ensures TurnOk(FreeCall(s, t, c), s.calls[c].node) && HistoryOk(FreeCall(s, t, c), s.calls[c].node)
  {
    DeliveredMeansFlag(s, c);
    var n := s.calls[c].node;
    var x := s.nodes[n];
    assert TurnOk(s, n) && HistoryOk(s, n);
    if x.pending == [] {
      assert s.past[n] + [c] + [] == s.past[n] + [c] + [] + [];
      assert s.delivered[n] == s.past[n] + [c] + [];
    } else {
      var d := x.pending[0];
      assert x.pending == [d] + x.pending[1..] && d !in x.pending[1..];
      assert s.past[n] + [c] + ([d] + x.pending[1..]) == s.past[n] + [c] + [d] + x.pending[1..];
      assert s.delivered[n] == s.past[n] + [c] + [];
    }
  }

  lemma FreeKeeps(s: State, t: Tid, c: CallId)
    requires Inv(s) && Freeable(s, t, c)
    ensures s.calls[c].node in s.past && Todo(t) in s.queues && Inv(FreeCall(s, t, c))
  {
    var n := s.calls[c].node;
    assert HistoryOk(s, n) && QueueOk(s, Todo(t)) && TurnOk(s, n);
    var y := FreeCall(s, t, c);
    forall q: Queue ensures QueueOk(y, q) {
      FreeQueues(s, t, c, q);
    }
    forall e: CallId ensures CallOk(y, e) {
      FreeCalls(s, t, c, e);
    }
    FreeHistory(s, t, c);
    var x := s.nodes[n];
    assert x.pending != [] ==> x.pending[0] in x.pending;
    NodeFrame(s, y, n);
  }

  // ---------------------------------------------------------------- teardown and growth

  /** The calls in list `q` are dropped; nothing else changes. */
  ghost predicate Dropped(s: State, y: State, q: Queue)
    requires q in s.queues
  {
    && y.queues == s.queues[q := []] && y.calls.Keys == s.calls.Keys && y == s.(queues := y.queues, calls := y.calls)
    && (forall c: CallId :: c in s.calls && c !in s.queues[q] ==> y.calls[c] == s.calls[c])
    && (forall c: CallId :: c in s.queues[q] ==> c in s.calls && y.calls[c] == Call(s.calls[c].node, Lost))
  }

  lemma DroppedStep(s: State, q: Queue, y: State)
    requires Inv(s) && q in s.queues && s.queues[q] != [] && s.queues[q][0] in s.calls
    requires Dropped(Unqueue(s, q, Lost), y, q)
    ensures Dropped(s, y, q)
  {
    assert QueueOk(s, q);
    assert s.queues[q] == [s.queues[q][0]] + s.queues[q][1..];
  }

  /** binder_release_work on the list of an exiting thread. */
  ghost function DropAll(s: State, q: Queue): (y: State)
    requires Inv(s) && q in s.queues
    ensures Inv(y) && Dropped(s, y, q)
    decreases |s.queues[q]|
  {
    if s.queues[q] == [] then
      assert s.queues == s.queues[q := []];
      s
    else
      LoseKeeps(s, q);
      var y := DropAll(Unqueue(s, q, Lost), q);
      DroppedStep(s, q, y);
      y
  }

  lemma DropHead(s: State, q: Queue)
    requires Inv(s) && q in s.queues && s.queues[q] != []
    ensures s.queues[q][0] in s.calls && Inv(Unqueue(s, q, Lost)) && q in Unqueue(s, q, Lost).queues
    ensures Unqueue(s, q, Lost).queues[q] == s.queues[q][1..]
    ensures DropAll(Unqueue(s, q, Lost), q) == DropAll(s, q)
  {
    LoseKeeps(s, q);
  }

  /** The one-way part of binder_free_thread. */
  ghost function ExitThread(s: State, t: Tid): State
    requires Inv(s) && Todo(t) in s.queues
  {
    var u := DropAll(s, Todo(t));
    u.(threads := u.threads - {t}, queues := u.queues - {Todo(t)})
  }

  lemma ExitThreadKeeps(s: State, t: Tid)
    requires Inv(s) && t in s.threads
    ensures Todo(t) in s.queues && Inv(ExitThread(s, t))
  {
    assert QueueOk(s, Todo(t));
    var u, y := DropAll(s, Todo(t)), ExitThread(s, t);
    forall k: Tid ensures ThreadOk(y, k) {
      assert ThreadOk(u, k);
    }
    forall q: Queue ensures QueueOk(y, q) {
      assert QueueOk(u, q);
    }
    forall c: CallId ensures CallOk(y, c) {
      assert CallOk(u, c);
    }
    forall n: NodeId ensures TurnOk(y, n) && HistoryOk(y, n) {
      assert TurnOk(u, n) && HistoryOk(u, n);
    }
  }

  /** A process that has no thread left goes, with its nodes, their calls and its list. */
  function CloseProc(s: State, p: Pid): State {
    s.(procs := s.procs - {p}, queues := s.queues - {ProcTodo(p)},
       nodes := map n: NodeId | n in s.nodes && s.nodes[n].owner != p :: s.nodes[n],
       calls := map c: CallId | c in s.calls &&
         !(s.calls[c].node in s.nodes && s.nodes[s.calls[c].node].owner == p) :: s.calls[c])
  }

  lemma CloseProcKeeps(s: State, p: Pid)
    requires Inv(s) && forall t: Tid :: t in s.threads ==> s.threads[t] != p
    ensures Inv(CloseProc(s, p))
  {
    var y := CloseProc(s, p);
    forall k: Tid ensures ThreadOk(y, k) {
      assert ThreadOk(s, k);
    }
    forall q: Queue ensures QueueOk(y, q) {
      assert QueueOk(s, q);
      if q in y.queues {
        forall c: CallId | c in y.queues[q] ensures c in y.calls && y.calls[c].stage == Queued(q) {
          assert CallOk(s, c);
        }
      }
    }
    forall c: CallId ensures CallOk(y, c) {
      assert CallOk(s, c);
    }
    forall n: NodeId ensures TurnOk(y, n) && HistoryOk(y, n) {
      assert TurnOk(s, n) && HistoryOk(s, n);
    }
  }

  function OpenProc(s: State, p: Pid): State {
    s.(procs := s.procs + {p}, queues := s.queues[ProcTodo(p) := []])
  }

  function NewThread(s: State, t: Tid, p: Pid): State {
    s.(threads := s.threads[t := p], queues := s.queues[Todo(t) := []])
  }

  function NewNode(s: State, n: NodeId, p: Pid): State {
    s.(nodes := s.nodes[n := Node(p, false, [], None)],
       sent := s.sent[n := []], delivered := s.delivered[n := []], past := s.past[n := []])
  }

  /** A node without calls may be freed. */
  function DropNode(s: State, n: NodeId): State {
    s.(nodes := s.nodes - {n})
  }

  lemma QuietKeeps(s: State, y: State)
    requires Inv(s) && y.calls == s.calls && y.next == s.next && s.procs <= y.procs
    requires forall t: Tid :: ThreadOk(s, t) ==> ThreadOk(y, t)
    requires forall q: Queue :: QueueOk(s, q) ==> QueueOk(y, q)
    requires forall q: Queue :: q in s.queues ==>
      q in y.queues && y.queues[q] == s.queues[q] && OwnerOf(y, q) == OwnerOf(s, q)
    requires forall c: CallId :: c in s.calls && s.calls[c].node in s.nodes ==>
      s.calls[c].node in y.nodes && y.nodes[s.calls[c].node] == s.nodes[s.calls[c].node]
    requires forall n: NodeId :: TurnOk(s, n) && HistoryOk(s, n) ==> TurnOk(y, n) && HistoryOk(y, n)
    ensures Inv(y)
  {
    forall t: Tid ensures ThreadOk(y, t) {
      assert ThreadOk(s, t);
    }
    forall q: Queue ensures QueueOk(y, q) {
      assert QueueOk(s, q);
    }
    forall c: CallId ensures CallOk(y, c) {
      assert CallOk(s, c);
    }
    forall n: NodeId ensures TurnOk(y, n) && HistoryOk(y, n) {
      assert TurnOk(s, n) && HistoryOk(s, n);
    }
  }

  lemma OpenProcKeeps(s: State, p: Pid)
    requires Inv(s) && p !in s.procs
    ensures Inv(OpenProc(s, p))
  {
    assert QueueOk(s, ProcTodo(p));
    QuietKeeps(s, OpenProc(s, p));
  }

  lemma NewThreadKeeps(s: State, t: Tid, p: Pid)
    requires Inv(s) && t !in s.threads && p in s.procs
    ensures Inv(NewThread(s, t, p))
  {
    assert QueueOk(s, Todo(t));
    QuietKeeps(s, NewThread(s, t, p));
  }

  lemma NewNodeKeeps(s: State, n: NodeId, p: Pid)
    requires Inv(s) && n !in s.sent && p in s.procs
    ensures Inv(NewNode(s, n, p))
  {
    assert HistoryOk(s, n);
    forall c: CallId | c in s.calls ensures s.calls[c].node != n {
      assert CallOk(s, c);
    }
    QuietKeeps(s, NewNode(s, n, p));
  }

  lemma DropNodeKeeps(s: State, n: NodeId)
    requires Inv(s) && n in s.nodes && forall c: CallId :: c in s.calls ==> s.calls[c].node != n
    ensures Inv(DropNode(s, n))
  {
    QuietKeeps(s, DropNode(s, n));
  }

  // ---------------------------------------------------------------- runs

  datatype Op =
    | Open(p: Pid)
    | Start(t: Tid, p: Pid)
    | Publish(n: NodeId, p: Pid)
    | OneWay(n: NodeId)
    | Read(t: Tid)
    | FreeBuffer(t: Tid, c: CallId)
    | Exit(t: Tid)
    | Unpublish(n: NodeId)
    | Close(p: Pid)

  ghost predicate Enabled(s: State, op: Op) {
    match op
    case Open(p) => p !in s.procs
    case Start(t, p) => t !in s.threads && p in s.procs
    case Publish(n, p) => n !in s.sent && p in s.procs
    case OneWay(n) => n in s.nodes
    case Read(t) => t in s.threads
    case FreeBuffer(t, c) => t in s.threads
    case Exit(t) => t in s.threads
    case Unpublish(n) => n in s.nodes && forall c: CallId :: c in s.calls ==> s.calls[c].node != n
    case Close(p) => p in s.procs && forall t: Tid :: t in s.threads ==> s.threads[t] != p
  }

  ghost function ReadStep(s: State, t: Tid): (y: State)
    requires Inv(s) && t in s.threads
    ensures Inv(y)
  {
    var q := ReadList(s, t);
    assert ThreadOk(s, t) && QueueOk(s, q);
    if s.queues[q] == [] then s
    else
      DeliverKeeps(s, q);
      Deliver(s, q)
  }

  /** BC_FREE_BUFFER; an address that is no delivered call of the process changes nothing. */
  ghost function FreeStep(s: State, t: Tid, c: CallId): (y: State)
    requires Inv(s)
    ensures Inv(y)
  {
    if !Freeable(s, t, c) then s
    else
      FreeKeeps(s, t, c);
      FreeCall(s, t, c)
  }

  ghost function Step(s: State, op: Op): (y: State)
    requires Inv(s) && Enabled(s, op)
    ensures Inv(y)
  {
    match op
    case Open(p) => OpenProcKeeps(s, p); OpenProc(s, p)
    case Start(t, p) => NewThreadKeeps(s, t, p); NewThread(s, t, p)
    case Publish(n, p) => NewNodeKeeps(s, n, p); NewNode(s, n, p)
    case OneWay(n) => SendKeeps(s, n); Send(s, n)
    case Read(t) => ReadStep(s, t)
    case FreeBuffer(t, c) => FreeStep(s, t, c)
    case Exit(t) => ExitThreadKeeps(s, t); ExitThread(s, t)
    case Unpublish(n) => DropNodeKeeps(s, n); DropNode(s, n)
    case Close(p) => CloseProcKeeps(s, p); CloseProc(s, p)
  }

  ghost predicate CanRun(s: State, ops: seq<Op>)
    requires Inv(s)
    decreases |ops|
  {
    ops == [] || (Enabled(s, ops[0]) && CanRun(Step(s, ops[0]), ops[1..]))
  }

  ghost function Run(s: State, ops: seq<Op>): (y: State)
    requires Inv(s) && CanRun(s, ops)
    ensures Inv(y)
    decreases |ops|
  {
    if ops == [] then s else Run(Step(s, ops[0]), ops[1..])
  }

  lemma InitOk()
    ensures Inv(Init)
  {
    forall q: Queue ensures QueueOk(Init, q) {
    }
    forall n: NodeId ensures HistoryOk(Init, n) && TurnOk(Init, n) && CallOk(Init, n) {
    }
  }

  /** `ops` is a run from the empty driver. */
  ghost predicate IsRun(ops: seq<Op>) {
    InitOk();
    CanRun(Init, ops)
  }

  /** The state after a run; a reachable state is one of these. */
  ghost function After(ops: seq<Op>): (s: State)
    requires IsRun(ops)
    ensures Inv(s)
  {
    InitOk();
    Run(Init, ops)
  }
}
