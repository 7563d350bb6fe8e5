/**
 The lists of death work, step by step (driver/binder/binder.c): what every step takes from and
 puts into each of them and where, and that a clear whose notice was answered is confirmed.
 */
module BinderDeathLists {
  import opened Lists
  import opened Wrappers
  import opened BinderDeath
  import opened BinderDeathLosses

  /** The step makes the list, or ends it. */
  predicate Opens(op: Op, q: Queue) {
    (op.Open? && (q == ProcTodo(op.p) || q == Delivered(op.p))) || (op.Start? && q == Todo(op.t))
  }

  predicate Closes(op: Op, q: Queue) {
    (op.Close? && (q == ProcTodo(op.p) || q == Delivered(op.p))) || (op.Exit? && q == Todo(op.t))
  }

  /** The list a read of thread `t` starts with. */
  predicate ReadsFrom(s: State, t: Tid, q: Queue) {
    t in s.threads && Todo(t) in s.queues &&
    q == if s.queues[Todo(t)] != [] then Todo(t) else ProcTodo(s.threads[t].proc)
  }

  /** The records a command appends to the list. */
  ghost function Appended(s: State, op: Op, q: Queue): seq<Did>
    requires Inv(s) && Enabled(s, op)
  {
    match op
    case Ask(t, r, cookie) =>
      if s.refs[r].death.None? && !Alive(s, s.refs[r].node) && q == WorkOf(s, t) then [s.next] else []
    case Revoke(t, r, cookie) =>
      var d := s.refs[r].death;
      if d.Some? && d.value in s.deaths && s.deaths[d.value].cookie == cookie && s.deaths[d.value].at.None?
        && q == WorkOf(s, t) then [d.value] else []
    case Die(n) => Told(s, s.nodes[n].refs, q)
    case _ => []
  }

  /** The records of the refs, in their order, that belong to the process of the list. */
  ghost function Told(s: State, rs: seq<RefId>, q: Queue): seq<Did> {
    if rs == [] then []
    else
      (if rs[0] in s.refs && s.refs[rs[0]].death.Some? && q == ProcTodo(s.refs[rs[0]].proc)
        then [s.refs[rs[0]].death.value] else []) + Told(s, rs[1..], q)
  }

  /** The first delivered record with the cookie leaves its list; if it was cleared, it goes to the
      tail of the work list to be confirmed. */
  ghost predicate AnswerQueue(s: State, t: Tid, cookie: nat, q: Queue, x: seq<Did>, y: seq<Did>)
    requires t in s.threads
  {
    var l := Delivered(s.threads[t].proc);
    && (forall d: Did :: l in s.queues && FirstWith(s, s.queues[l], cookie, d) ==>
          y == if q == l then Without(x, d)
               else if q == WorkOf(s, t) && s.deaths[d].kind == DeadAndClear then x + [d] else x)
    && ((forall d: Did :: l in s.queues ==> !FirstWith(s, s.queues[l], cookie, d)) ==> y == x)
  }

  /** The head of the list that is read leaves it; a notice goes to the head of the delivered ones. */
  ghost predicate ReadQueue(s: State, t: Tid, q: Queue, x: seq<Did>, y: seq<Did>)
    requires t in s.threads
  {
    forall f: Queue :: f in s.queues && ReadsFrom(s, t, f) ==>
      if s.queues[f] == [] then y == x
      else if q == f then x != [] && y == x[1..]
      else if q == Delivered(s.threads[t].proc) && s.queues[f][0] in s.deaths && s.deaths[s.queues[f][0]].kind != Clear
        then y == [s.queues[f][0]] + x
      else y == x
  }

  /** What `s` becomes is what the lists say. */
  ghost predicate QueueMoves(s: State, op: Op, y: State, q: Queue)
    requires Inv(s) && Enabled(s, op)
  {
    && (q in y.queues <==> (q in s.queues && !Closes(op, q)) || Opens(op, q))
    && (q in y.queues && Opens(op, q) ==> y.queues[q] == [])
    && (q in y.queues && q in s.queues ==>
          match op
          case Answer(t, cookie) => AnswerQueue(s, t, cookie, q, s.queues[q], y.queues[q])
          case Read(t) => ReadQueue(s, t, q, s.queues[q], y.queues[q])
          case Forget(r) =>
            y.queues[q] == if s.refs[r].death.Some? then Without(s.queues[q], s.refs[r].death.value) else s.queues[q]
          case _ => y.queues[q] == s.queues[q] + Appended(s, op, q))
  }

  lemma {:induction false} ToldAreNotices(s: State, rs: seq<RefId>, q: Queue)
    requires forall r: RefId :: r in rs ==> r in s.refs
    ensures Told(s, rs, q) == Notices(s.refs, rs, q)
  {
    if rs != [] {
      assert rs == [rs[0]] + rs[1..];
      ToldAreNotices(s, rs[1..], q);
    }
  }

  lemma AskMoves(s: State, t: Tid, r: RefId, cookie: nat, q: Queue)
    requires Inv(s) && Enabled(s, Ask(t, r, cookie))
    ensures QueueMoves(s, Ask(t, r, cookie), Step(s, Ask(t, r, cookie)), q)
  {
    RequestKeeps(s, t, r, cookie);
  }

  lemma RevokeMoves(s: State, t: Tid, r: RefId, cookie: nat, q: Queue)
    requires Inv(s) && Enabled(s, Revoke(t, r, cookie))
    ensures QueueMoves(s, Revoke(t, r, cookie), Step(s, Revoke(t, r, cookie)), q)
  {
    ClearKeeps(s, t, r, cookie);
  }

  lemma AnswerMoves(s: State, t: Tid, cookie: nat, q: Queue)
    requires Inv(s) && t in s.threads
    ensures QueueMoves(s, Answer(t, cookie), DoneStep(s, t, cookie), q)
  {
    var l := Delivered(s.threads[t].proc);
    assert ThreadOk(s, t) && QueueOk(s, l);
    FoundIsListed(s, s.queues[l], cookie);
    forall d: Did ensures FindCookie(s, s.queues[l], cookie) == Some(d) <==> FirstWith(s, s.queues[l], cookie, d) {
      FoundIsFirst(s, s.queues[l], cookie, d);
    }
    if FindCookie(s, s.queues[l], cookie).Some? {
      var d := FindCookie(s, s.queues[l], cookie).value;
      AcknowledgeKeeps(s, t, d);
      AcknowledgeQueues(s, t, d, q);
    }
  }

  lemma AcknowledgeQueues(s: State, t: Tid, d: Did, q: Queue)
    requires Inv(s) && t in s.threads && Delivered(s.threads[t].proc) in s.queues &&
      d in s.queues[Delivered(s.threads[t].proc)]
    requires d in s.deaths && WorkList(s, t) in s.queues
    ensures var y := Acknowledge(s, t, d);
      && y.queues.Keys == s.queues.Keys
      && (q in s.queues ==>
            y.queues[q] == (if q == Delivered(s.threads[t].proc) then Without(s.queues[q], d)
                            else if q == WorkOf(s, t) && s.deaths[d].kind == DeadAndClear then s.queues[q] + [d]
                            else s.queues[q]))
  {
    assert QueueOk(s, Delivered(s.threads[t].proc));
  }

  lemma ReadMoves(s: State, t: Tid, q: Queue)
    requires Inv(s) && t in s.threads
    ensures QueueMoves(s, Read(t), ReadStep(s, t), q)
  {
    var f := ReadList(s, t);
    assert ThreadOk(s, t) && QueueOk(s, f) && QueueOk(s, Todo(t));
    if s.queues[f] != [] {
      var h := s.queues[f][0];
      assert h in s.queues[f];
      DeliverKeeps(s, t, h);
      DeliverMoves(s, t, h, q);
    }
  }

  lemma DeliverMoves(s: State, t: Tid, h: Did, q: Queue)
    requires Inv(s) && t in s.threads && h in s.deaths && Delivered(s.threads[t].proc) in s.queues
    requires var f := ReadList(s, t); f in s.queues && s.queues[f] != [] && s.queues[f][0] == h
    ensures var y := Deliver(s, t, h);
      && y.queues.Keys == s.queues.Keys
      && (q in s.queues ==>
            y.queues[q] == (if q == ReadList(s, t) then s.queues[q][1..]
                            else if q == Delivered(s.threads[t].proc) && s.deaths[h].kind != Clear
                              then [h] + s.queues[q]
                            else s.queues[q]))
  {
    var f := ReadList(s, t);
    assert h in s.queues[f] && QueueOk(s, f) && AtOk(s, h) && LogOk(s, h);
    WithoutHead(s.queues[f]);
    RemovedIsFree(s, h);
  }

  lemma NotListed(xs: seq<Did>, d: Did)
    requires d !in xs
    ensures Without(xs, d) == xs
  {
  }

  lemma ForgetMoves(s: State, r: RefId, q: Queue)
    requires Inv(s) && r in s.refs
    ensures QueueMoves(s, Forget(r), Step(s, Forget(r)), q)
  {
    DeleteRefKeeps(s, r);
    assert RefOk(s, r) && QueueOk(s, q);
    if s.refs[r].death.Some? {
      DropMoves(s, r, q);
    }
  }

  lemma DropMoves(s: State, r: RefId, q: Queue)
    requires Inv(s) && r in s.refs && s.refs[r].death.Some? && s.refs[r].death.value in s.deaths
    ensures var y := DropRecord(s, r);
      && y.queues.Keys == s.queues.Keys
      && (q in s.queues ==> y.queues[q] == Without(s.queues[q], s.refs[r].death.value))
  {
    var d := s.refs[r].death.value;
    assert QueueOk(s, q) && AtOk(s, d) && LogOk(s, d);
    RemovedIsFree(s, d);
    if q in s.queues && s.deaths[d].at != Some(q) {
      NotListed(s.queues[q], d);
    }
  }

  lemma DieMoves(s: State, n: NodeId, q: Queue)
    requires Inv(s) && Alive(s, n)
    ensures QueueMoves(s, Die(n), NodeDies(s, n), q)
  {
    assert NodeOk(s, n);
    ToldAreNotices(s, s.nodes[n].refs, q);
  }

  lemma ExitMoves(s: State, t: Tid, q: Queue)
    requires Inv(s) && t in s.threads
    ensures QueueMoves(s, Exit(t), Step(s, Exit(t)), q)
  {
    ExitThreadKeeps(s, t);
    var u := ReleaseWork(s, Todo(t));
    assert u.queues == s.queues[Todo(t) := []];
  }

  lemma CloseMoves(s: State, p: Pid, q: Queue)
    requires Inv(s) && Enabled(s, Close(p))
    ensures QueueMoves(s, Close(p), Step(s, Close(p)), q)
  {
    CloseProcKeeps(s, p);
    var u := ReleaseWork(s, ProcTodo(p));
    var v := ReleaseWork(u, Delivered(p));
    assert v.queues == s.queues[ProcTodo(p) := []][Delivered(p) := []];
  }

  /** Every step takes from each list and puts into it exactly what it is to, in order: new work goes
      to the tail, delivered records to the head of theirs. */
  lemma StepQueues(s: State, op: Op, q: Queue)
    requires Inv(s) && Enabled(s, op)
    ensures QueueMoves(s, op, Step(s, op), q)
  {
    match op
    case Ask(t, r, cookie) => AskMoves(s, t, r, cookie, q);
    case Revoke(t, r, cookie) => RevokeMoves(s, t, r, cookie, q);
    case Answer(t, cookie) => AnswerMoves(s, t, cookie, q);
    case Read(t) => ReadMoves(s, t, q);
    case Forget(r) => ForgetMoves(s, r, q);
    case Die(n) => DieMoves(s, n, q);
    case Exit(t) => ExitMoves(s, t, q);
    case Close(p) => CloseMoves(s, p, q);
    case _ =>
      assert QueueOk(s, q);
  }

  // ---------------------------------------------------------------- who is registered where

  /** The record a ref is left with: a request sets it, an accepted clear takes it. */
  ghost function DeathAfter(s: State, op: Op, r: RefId): Option<Did>
    requires Inv(s) && Enabled(s, op) && r in s.refs
  {
    var d := s.refs[r].death;
    match op
    case Ask(t, q, cookie) => if q == r && d.None? then Some(s.next) else d
    case Revoke(t, q, cookie) =>
      if q == r && d.Some? && d.value in s.deaths && s.deaths[d.value].cookie == cookie then None else d
    case _ => d
  }

  /** Refs come by `Learn` and go by `Forget`, and keep their process and node. */
  lemma StepRefs(s: State, op: Op, r: RefId)
    requires Inv(s) && Enabled(s, op)
    ensures var y := Step(s, op);
      && (r in s.refs && op != Forget(r) ==> r in y.refs && y.refs[r] == s.refs[r].(death := DeathAfter(s, op, r)))
      && (op == Forget(r) ==> r !in y.refs)
      && (r !in s.refs ==> (r in y.refs <==> op.Learn? && r == s.nextRef))
      && (r !in s.refs && r in y.refs ==> y.refs[r] == Ref(op.p, op.n, None))
  {
    assert RefOk(s, r);
    match op
    case Ask(t, q, cookie) => RequestKeeps(s, t, q, cookie);
    case Revoke(t, q, cookie) => ClearKeeps(s, t, q, cookie);
    case Answer(t, cookie) => AnswerKeepsRefs(s, t, cookie);
    case Read(t) => ReadKeepsRefs(s, t);
    case Forget(q) => DeleteRefKeeps(s, q);
    case Exit(t) => ExitThreadKeeps(s, t);
    case Close(p) => CloseKeepsRefs(s, p);
    case _ =>
  }

  lemma AnswerKeepsRefs(s: State, t: Tid, cookie: nat)
    requires Inv(s) && t in s.threads
    ensures DoneStep(s, t, cookie).refs == s.refs
  {
    var l := Delivered(s.threads[t].proc);
    assert ThreadOk(s, t) && QueueOk(s, l);
    FoundIsListed(s, s.queues[l], cookie);
    if FindCookie(s, s.queues[l], cookie).Some? {
      AcknowledgeKeeps(s, t, FindCookie(s, s.queues[l], cookie).value);
    }
  }

  lemma ReadKeepsRefs(s: State, t: Tid)
    requires Inv(s) && t in s.threads
    ensures ReadStep(s, t).refs == s.refs && ReadStep(s, t).threads == s.threads
  {
    var f := ReadList(s, t);
    assert ThreadOk(s, t) && QueueOk(s, f);
    if s.queues[f] != [] {
      assert s.queues[f][0] in s.queues[f];
      DeliverKeeps(s, t, s.queues[f][0]);
    }
  }

  lemma CloseKeepsRefs(s: State, p: Pid)
    requires Inv(s) && Enabled(s, Close(p))
    ensures Step(s, Close(p)).refs == s.refs && Step(s, Close(p)).threads == s.threads
  {
    CloseProcKeeps(s, p);
    var u := ReleaseWork(s, ProcTodo(p));
    var v := ReleaseWork(u, Delivered(p));
    assert u.refs == s.refs && v.refs == u.refs;
  }

  // ---------------------------------------------------------------- nodes and threads

  /** What a step leaves of node `n`: a new ref goes to the head of its refs, a deleted one leaves
      them, and the death of the node takes its owner. */
  ghost predicate NodeMoves(s: State, op: Op, y: State, n: NodeId)
    requires Inv(s) && Enabled(s, op)
  {
    && (n in y.nodes <==> n in s.nodes || (op.Publish? && op.n == n))
    && (n in y.nodes && n !in s.nodes ==> y.nodes[n] == Node(Some(op.p), []))
    && (n in y.nodes && n in s.nodes ==>
          y.nodes[n] == match op
            case Learn(p, k) => if k == n then s.nodes[n].(refs := [s.nextRef] + s.nodes[n].refs) else s.nodes[n]
            case Forget(r) => s.nodes[n].(refs := Without(s.nodes[n].refs, r))
            case Die(k) => if k == n then s.nodes[n].(owner := None) else s.nodes[n]
            case _ => s.nodes[n])
  }

  lemma StepNodes(s: State, op: Op, n: NodeId)
    requires Inv(s) && Enabled(s, op)
    ensures NodeMoves(s, op, Step(s, op), n)
  {
    match op
    case Ask(t, r, cookie) => RequestKeeps(s, t, r, cookie);
    case Revoke(t, r, cookie) => ClearKeeps(s, t, r, cookie);
    case Answer(t, cookie) => AnswerKeepsNodes(s, t, cookie);
    case Read(t) => ReadKeepsNodes(s, t);
    case Forget(r) => ForgetNodes(s, r, n);
    case Exit(t) => ExitThreadKeeps(s, t);
    case Close(p) => CloseKeepsNodes(s, p);
    case _ =>
  }

  lemma AnswerKeepsNodes(s: State, t: Tid, cookie: nat)
    requires Inv(s) && t in s.threads
    ensures DoneStep(s, t, cookie).nodes == s.nodes
  {
    var l := Delivered(s.threads[t].proc);
    assert ThreadOk(s, t) && QueueOk(s, l);
    FoundIsListed(s, s.queues[l], cookie);
    if FindCookie(s, s.queues[l], cookie).Some? {
      AcknowledgeKeeps(s, t, FindCookie(s, s.queues[l], cookie).value);
    }
  }

  lemma ReadKeepsNodes(s: State, t: Tid)
    requires Inv(s) && t in s.threads
    ensures ReadStep(s, t).nodes == s.nodes
  {
    var f := ReadList(s, t);
    assert ThreadOk(s, t) && QueueOk(s, f);
    if s.queues[f] != [] {
      assert s.queues[f][0] in s.queues[f];
      DeliverKeeps(s, t, s.queues[f][0]);
    }
  }

  lemma CloseKeepsNodes(s: State, p: Pid)
    requires Inv(s) && Enabled(s, Close(p))
    ensures Step(s, Close(p)).nodes == s.nodes
  {
    CloseProcKeeps(s, p);
    var u := ReleaseWork(s, ProcTodo(p));
    var v := ReleaseWork(u, Delivered(p));
    assert u.nodes == s.nodes && v.nodes == u.nodes;
  }

  lemma {:induction false} WithoutAbsent(xs: seq<nat>, d: nat)
    requires d !in xs
    ensures Without(xs, d) == xs
  {
    if xs != [] {
      assert xs == [xs[0]] + xs[1..];
      WithoutAbsent(xs[1..], d);
    }
  }

  lemma ForgetNodes(s: State, r: RefId, n: NodeId)
    requires Inv(s) && Enabled(s, Forget(r))
    ensures NodeMoves(s, Forget(r), Step(s, Forget(r)), n)
  {
    DeleteRefKeeps(s, r);
    assert RefOk(s, r);
    if n in s.nodes && s.refs[r].node != n {
      assert NodeOk(s, n);
      WithoutAbsent(s.nodes[n].refs, r);
    }
  }

  predicate Descends(xs: seq<nat>) {
    forall i, j :: 0 <= i < j < |xs| ==> xs[i] > xs[j]
  }

  lemma OnTop(x: nat, ys: seq<nat>)
    requires Descends(ys) && forall e: nat :: e in ys ==> e < x
    ensures Descends([x] + ys)
  {
    forall j | 0 <= j < |ys| ensures ys[j] < x {
      assert ys[j] in ys;
    }
  }

  lemma {:induction false} WithoutDescends(xs: seq<nat>, d: nat)
    requires Descends(xs)
    ensures Descends(Without(xs, d)) && forall e: nat :: e in Without(xs, d) ==> e in xs
  {
    if xs != [] {
      assert xs == [xs[0]] + xs[1..];
      if xs[0] != d {
        WithoutDescends(xs[1..], d);
        OnTop(xs[0], Without(xs[1..], d));
      }
    }
  }

  /** In every run the refs of a node, and so the notices of its death, are the newest first. */
  lemma {:induction false} NewestFirst(ops: seq<Op>, n: NodeId)
    requires IsRun(ops)
    ensures n in After(ops).nodes ==> Descends(After(ops).nodes[n].refs)
    decreases |ops|
  {
    InitOk();
    if ops != [] {
      var before, op := ops[..|ops| - 1], ops[|ops| - 1];
      NewestFirst(before, n);
      var s := After(before);
      StepNodes(s, op, n);
      if n in s.nodes {
        assert NodeOk(s, n);
        forall r | r in s.nodes[n].refs ensures r < s.nextRef {
          assert RefOk(s, r);
        }
        if op.Forget? {
          WithoutDescends(s.nodes[n].refs, op.r);
        } else if op.Learn? && op.n == n {
          OnTop(s.nextRef, s.nodes[n].refs);
        }
      }
    }
  }

  /** Threads come by `Start` and go by `Exit`; a thread is a looper from `Loop` on. */
  lemma StepThreads(s: State, op: Op, t: Tid)
    requires Inv(s) && Enabled(s, op)
    ensures var y := Step(s, op);
      && (t in y.threads <==> (t in s.threads && op != Exit(t)) || (op.Start? && op.t == t))
      && (t in y.threads ==>
            y.threads[t] == if t !in s.threads then Thread(op.p, false)
                            else if op == Loop(t) then s.threads[t].(looper := true) else s.threads[t])
  {
    match op
    case Ask(k, r, cookie) => RequestKeeps(s, k, r, cookie);
    case Revoke(k, r, cookie) => ClearKeeps(s, k, r, cookie);
    case Answer(k, cookie) => AnswerKeepsThreads(s, k, cookie);
    case Read(k) => ReadKeepsRefs(s, k);
    case Forget(r) => DeleteRefKeeps(s, r);
    case Exit(k) => ExitThreadKeeps(s, k);
    case Close(p) => CloseKeepsRefs(s, p);
    case _ =>
  }

  // ---------------------------------------------------------------- an answered clear is confirmed

  lemma {:induction false} RunAfter(s: State, op: Op, ops: seq<Op>)
    requires Inv(s) && Enabled(s, op) && CanRun(Step(s, op), ops)
    ensures CanRun(s, [op] + ops) && Run(s, [op] + ops) == Run(Step(s, op), ops)
    decreases |ops|
  {
    if ops == [] {
      assert [op] + ops == [op] && [op][..0] == [];
      assert CanRun(s, []);
    } else {
      var before := ops[..|ops| - 1];
      RunAfter(s, op, before);
      assert ([op] + ops)[..|[op] + ops| - 1] == [op] + before;
      assert ([op] + ops)[|[op] + ops| - 1] == ops[|ops| - 1];
    }
  }

  /** The cleared record at position `i` of the line is confirmed by `i + 1` reads. */
  lemma ConfirmedAtPosition(s: State, t: Tid, i: nat, d: Did) returns (ops: seq<Op>)
    requires Inv(s) && t in s.threads && i < |Line(s, t)| && Line(s, t)[i] == d && d in s.deaths
    requires s.deaths[d].kind == Clear
    ensures CanRun(s, ops) && |ops| == i + 1 && (forall o: Op :: o in ops ==> o == Read(t))
    ensures d in Run(s, ops).log && SentDone in Run(s, ops).log[d] && d !in Run(s, ops).deaths
  {
    LineIsDistinct(s, t, i);
    var before := ReadsReach(s, t, i, d);
    var u := Run(s, before);
    ReadOnce(s, before, t);
    ReadTakesFirst(u, t);
    ReadDoes(u, t, d);
    ops := before + [Read(t)];
  }

  lemma AnswerKeepsThreads(s: State, t: Tid, cookie: nat)
    requires Inv(s) && t in s.threads
    ensures DoneStep(s, t, cookie).threads == s.threads
  {
    var l := Delivered(s.threads[t].proc);
    assert ThreadOk(s, t) && QueueOk(s, l);
    FoundIsListed(s, s.queues[l], cookie);
    if FindCookie(s, s.queues[l], cookie).Some? {
      AcknowledgeKeeps(s, t, FindCookie(s, s.queues[l], cookie).value);
    }
  }

  /** After the answer the cleared record waits where the thread reads. */
  lemma AnsweredWaits(s: State, t: Tid, cookie: nat, d: Did)
    requires Inv(s) && t in s.threads && Delivered(s.threads[t].proc) in s.queues
    requires FirstWith(s, s.queues[Delivered(s.threads[t].proc)], cookie, d) && s.deaths[d].kind == DeadAndClear
    ensures var u := DoneStep(s, t, cookie);
      && t in u.threads && d in u.deaths && u.deaths[d].kind == Clear && d in Line(u, t)
  {
    var u := DoneStep(s, t, cookie);
    AnswerDoes(s, t, cookie, d);
    AnswerKeepsThreads(s, t, cookie);
    ListedIsAt(u, WorkOf(s, t), d);
    assert ThreadOk(u, t) && QueueOk(u, Todo(t)) && QueueOk(u, ProcTodo(u.threads[t].proc));
  }

  /** A clear whose notice was delivered is confirmed by the answer and reads of that thread: the
      process is told CLEAR_DONE.  The thread comes to the list of its process only with no
      transaction on its stack; for a looper it does not have to. */
  lemma AnswerIsConfirmed(s: State, t: Tid, cookie: nat, d: Did) returns (ops: seq<Op>)
    requires Inv(s) && t in s.threads && Delivered(s.threads[t].proc) in s.queues
    requires FirstWith(s, s.queues[Delivered(s.threads[t].proc)], cookie, d) && s.deaths[d].kind == DeadAndClear
    ensures ops != [] && ops[0] == Answer(t, cookie) && (forall o: Op :: o in ops[1..] ==> o == Read(t))
    ensures CanRun(s, ops) && d in Run(s, ops).log && SentDone in Run(s, ops).log[d] && d !in Run(s, ops).deaths
  {
    AnsweredWaits(s, t, cookie, d);
    var u := DoneStep(s, t, cookie);
    var i: nat :| i < |Line(u, t)| && Line(u, t)[i] == d;
    var rest := ConfirmedAtPosition(u, t, i, d);
    ops := [Answer(t, cookie)] + rest;
    assert ops[1..] == rest;
    RunAfter(s, Answer(t, cookie), rest);
  }
}
