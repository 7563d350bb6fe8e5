/**
 Which death notices are never sent.  A notice for a node that is already dead goes to the own
 list of the thread that asks for it; if that thread exits before it reads, the record is only
 unlinked and nothing queues it again.
 */
module BinderDeathLosses {
  import opened Lists
  import opened Wrappers
  import opened BinderDeath

  // ---------------------------------------------------------------- what a step does to a record

  ghost predicate Untouched(s: State, y: State, d: Did) {
    && (d in y.deaths <==> d in s.deaths) && (d in s.deaths ==> y.deaths[d] == s.deaths[d])
    && (d in y.log <==> d in s.log) && (d in s.log ==> y.log[d] == s.log[d])
  }

  /** Record `d` is freed after the events `es`. */
  ghost predicate FreedAfter(s: State, y: State, d: Did, es: seq<Event>) {
    d in s.deaths && d !in y.deaths && d in s.log && d in y.log && y.log[d] == s.log[d] + es
  }

  /** Record `d` becomes `x`, with the events `es`. */
  ghost predicate Becomes(s: State, y: State, d: Did, x: Record, es: seq<Event>) {
    d in s.deaths && d in y.deaths && y.deaths[d] == x && d in s.log && d in y.log && y.log[d] == s.log[d] + es
  }

  /** The list that takes work of a command: a looper's own list, or that of the process. */
  function WorkOf(s: State, t: Tid): Queue
    requires t in s.threads
  {
    if s.threads[t].looper then Todo(t) else ProcTodo(s.threads[t].proc)
  }

  ghost predicate AskEffect(s: State, y: State, t: Tid, r: RefId, cookie: nat, d: Did)
    requires t in s.threads && r in s.refs
  {
    if d == s.next && s.refs[r].death.None? then
      && d in y.deaths && d in y.log && y.log[d] == []
      && y.deaths[d] ==
           (if Alive(s, s.refs[r].node) then Record(r, s.refs[r].proc, cookie, Fresh, None)
            else Record(r, s.refs[r].proc, cookie, Dead, Some(WorkOf(s, t))))
    else Untouched(s, y, d)
  }

  ghost predicate RevokeEffect(s: State, y: State, t: Tid, r: RefId, cookie: nat, d: Did)
    requires t in s.threads && r in s.refs
  {
    if s.refs[r].death == Some(d) && d in s.deaths && s.deaths[d].cookie == cookie then
      var x := s.deaths[d];
      Becomes(s, y, d, if x.at.None? then x.(kind := Clear, at := Some(WorkOf(s, t))) else x.(kind := DeadAndClear),
        [Cleared])
    else Untouched(s, y, d)
  }

  /** `d` is the first record of the list with the cookie. */
  ghost predicate FirstWith(s: State, xs: seq<Did>, cookie: nat, d: Did) {
    exists i: nat :: i < |xs| && xs[i] == d && d in s.deaths && s.deaths[d].cookie == cookie
      && forall j: nat :: j < i ==> xs[j] in s.deaths && s.deaths[xs[j]].cookie != cookie
  }

  /** The first delivered record with the cookie is taken off; a cleared one is queued to be
      confirmed. */
  ghost predicate AnswerEffect(s: State, y: State, t: Tid, cookie: nat, d: Did)
    requires t in s.threads
  {
    var q := Delivered(s.threads[t].proc);
    if q in s.queues && FirstWith(s, s.queues[q], cookie, d) then
      var x := s.deaths[d];
      var to := if x.kind == DeadAndClear then x.(kind := Clear, at := Some(WorkOf(s, t))) else x.(at := None);
      Becomes(s, y, d, to, [])
    else Untouched(s, y, d)
  }

  ghost predicate ReadEffect(s: State, y: State, t: Tid, d: Did)
    requires t in s.threads
  {
    if ReadList(s, t) in s.queues && s.queues[ReadList(s, t)] != [] && s.queues[ReadList(s, t)][0] == d &&
      d in s.deaths then
      if s.deaths[d].kind == Clear then FreedAfter(s, y, d, [SentDone, Freed])
      else Becomes(s, y, d, s.deaths[d].(at := Some(Delivered(s.threads[t].proc))), [SentDead])
    else Untouched(s, y, d)
  }

  ghost predicate CloseEffect(s: State, y: State, p: Pid, d: Did) {
    if d in s.deaths && s.deaths[d].proc == p then IsCleared(s.deaths[d]) && FreedAfter(s, y, d, [Freed])
    else Untouched(s, y, d)
  }

  ghost predicate Effect(s: State, op: Op, y: State, d: Did)
    requires Inv(s) && Enabled(s, op)
  {
    match op
    case Ask(t, r, cookie) => AskEffect(s, y, t, r, cookie, d)
    case Revoke(t, r, cookie) => RevokeEffect(s, y, t, r, cookie, d)
    case Answer(t, cookie) => AnswerEffect(s, y, t, cookie, d)
    case Read(t) => ReadEffect(s, y, t, d)
    case Forget(r) => if s.refs[r].death == Some(d) then FreedAfter(s, y, d, [Freed]) else Untouched(s, y, d)
    case Exit(t) => Todo(t) in s.queues && Released(s, y, Todo(t), d)
    case Die(n) =>
      && (d in y.deaths <==> d in s.deaths) && y.log == s.log
      && (d in s.deaths ==> y.deaths[d] == NoticeOf(s, s.nodes[n].refs, d))
    case Close(p) => CloseEffect(s, y, p, d)
    case _ => Untouched(s, y, d)
  }

  lemma AskDoes(s: State, t: Tid, r: RefId, cookie: nat, d: Did)
    requires Inv(s) && Enabled(s, Ask(t, r, cookie))
    ensures AskEffect(s, Step(s, Ask(t, r, cookie)), t, r, cookie, d)
  {
    RequestKeeps(s, t, r, cookie);
    assert AtOk(s, s.next) && LogOk(s, s.next);
  }

  lemma RevokeDoes(s: State, t: Tid, r: RefId, cookie: nat, d: Did)
    requires Inv(s) && Enabled(s, Revoke(t, r, cookie))
    ensures RevokeEffect(s, Step(s, Revoke(t, r, cookie)), t, r, cookie, d)
  {
    ClearKeeps(s, t, r, cookie);
    assert RefOk(s, r);
    if s.refs[r].death.Some? {
      assert LogOk(s, s.refs[r].death.value) && AtOk(s, s.refs[r].death.value);
    }
  }

  lemma {:induction false} FoundIsFirst(s: State, xs: seq<Did>, cookie: nat, d: Did)
    requires forall e: Did :: e in xs ==> e in s.deaths
    ensures FindCookie(s, xs, cookie) == Some(d) <==> FirstWith(s, xs, cookie, d)
  {
    if xs != [] {
      assert xs == [xs[0]] + xs[1..];
      FoundIsFirst(s, xs[1..], cookie, d);
      if FirstWith(s, xs[1..], cookie, d) && s.deaths[xs[0]].cookie != cookie {
        var i: nat :| i < |xs[1..]| && xs[1..][i] == d && s.deaths[d].cookie == cookie
          && forall j: nat :: j < i ==> xs[1..][j] in s.deaths && s.deaths[xs[1..][j]].cookie != cookie;
        FirstShifts(s, xs, cookie, d, i);
      }
      if FirstWith(s, xs, cookie, d) {
        var i: nat :| i < |xs| && xs[i] == d && s.deaths[d].cookie == cookie
          && forall j: nat :: j < i ==> xs[j] in s.deaths && s.deaths[xs[j]].cookie != cookie;
        if i > 0 {
          assert xs[1..][i - 1] == d;
          forall j: nat | j < i - 1 ensures xs[1..][j] in s.deaths && s.deaths[xs[1..][j]].cookie != cookie {
            assert xs[1..][j] == xs[j + 1];
          }
        }
      }
    }
  }

  lemma FirstShifts(s: State, xs: seq<Did>, cookie: nat, d: Did, i: nat)
    requires xs != [] && xs[0] in s.deaths && s.deaths[xs[0]].cookie != cookie
    requires i < |xs[1..]| && xs[1..][i] == d && d in s.deaths && s.deaths[d].cookie == cookie
    requires forall j: nat :: j < i ==> xs[1..][j] in s.deaths && s.deaths[xs[1..][j]].cookie != cookie
    ensures FirstWith(s, xs, cookie, d)
  {
    assert xs[i + 1] == d;
    forall j: nat | j < i + 1 ensures xs[j] in s.deaths && s.deaths[xs[j]].cookie != cookie {
      assert j > 0 ==> xs[j] == xs[1..][j - 1];
    }
  }

  lemma AnswerDoes(s: State, t: Tid, cookie: nat, d: Did)
    requires Inv(s) && t in s.threads
    ensures AnswerEffect(s, DoneStep(s, t, cookie), t, cookie, d)
  {
    var q := Delivered(s.threads[t].proc);
    assert ThreadOk(s, t) && QueueOk(s, q);
    FoundIsFirst(s, s.queues[q], cookie, d);
    FoundIsListed(s, s.queues[q], cookie);
    if FindCookie(s, s.queues[q], cookie).Some? {
      AcknowledgeKeeps(s, t, FindCookie(s, s.queues[q], cookie).value);
      assert LogOk(s, d) && AtOk(s, d);
    }
  }

  lemma ReadDoes(s: State, t: Tid, d: Did)
    requires Inv(s) && t in s.threads
    ensures ReadEffect(s, ReadStep(s, t), t, d)
  {
    var q := ReadList(s, t);
    assert ThreadOk(s, t) && QueueOk(s, q);
    if s.queues[q] != [] {
      var h := s.queues[q][0];
      assert h in s.queues[q];
      DeliverKeeps(s, t, h);
      assert LogOk(s, h) && AtOk(s, h);
      RemovedIsFree(s, h);
    }
  }

  lemma ForgetDoes(s: State, r: RefId, d: Did)
    requires Inv(s) && r in s.refs
    ensures Effect(s, Forget(r), Step(s, Forget(r)), d)
  {
    DeleteRefKeeps(s, r);
    assert RefOk(s, r);
    if s.refs[r].death.Some? {
      assert LogOk(s, s.refs[r].death.value) && AtOk(s, s.refs[r].death.value);
    }
  }

  /** A record of a bare process is cleared and in one of the two lists of the process. */
  lemma BareRecord(s: State, p: Pid, d: Did)
    requires Inv(s) && Bare(s, p) && d in s.deaths && s.deaths[d].proc == p
    ensures IsCleared(s.deaths[d]) && (s.deaths[d].at == Some(ProcTodo(p)) || s.deaths[d].at == Some(Delivered(p)))
  {
    assert AtOk(s, d) && KindOk(s, {}, d) && RefOk(s, s.deaths[d].ref);
  }

  lemma CloseDoes(s: State, p: Pid, d: Did)
    requires Inv(s) && Enabled(s, Close(p))
    ensures CloseEffect(s, Step(s, Close(p)), p, d)
  {
    CloseProcKeeps(s, p);
    var u := ReleaseWork(s, ProcTodo(p));
    var v := ReleaseWork(u, Delivered(p));
    assert Released(s, u, ProcTodo(p), d) && Released(u, v, Delivered(p), d);
    assert AtOk(s, d) && QueueOk(s, ProcTodo(p)) && QueueOk(s, Delivered(p)) && LogOk(s, d);
    if d in s.deaths && s.deaths[d].proc == p {
      BareRecord(s, p, d);
    }
  }

  lemma StepDoes(s: State, op: Op, d: Did)
    requires Inv(s) && Enabled(s, op)
    ensures Effect(s, op, Step(s, op), d)
  {
    match op
    case Ask(t, r, cookie) => AskDoes(s, t, r, cookie, d);
    case Revoke(t, r, cookie) => RevokeDoes(s, t, r, cookie, d);
    case Answer(t, cookie) => AnswerDoes(s, t, cookie, d);
    case Read(t) => ReadDoes(s, t, d);
    case Forget(r) => ForgetDoes(s, r, d);
    case Exit(t) =>
      ExitThreadKeeps(s, t);
      assert Released(s, ReleaseWork(s, Todo(t)), Todo(t), d);
    case Die(n) =>
    case Close(p) => CloseDoes(s, p, d);
    case _ =>
  }

  // ---------------------------------------------------------------- lost notices

  /** A notice still to be sent, in the own list of thread `t`. */
  ghost predicate OwnNotice(s: State, t: Tid, d: Did) {
    d in s.deaths && s.deaths[d].at == Some(Todo(t)) && (s.deaths[d].kind == Dead || s.deaths[d].kind == DeadAndClear)
  }

  /** A notice that was to be sent, was not, and is in no list any more. */
  ghost predicate Lost(s: State, d: Did) {
    d in s.deaths && s.deaths[d].kind == Dead && s.deaths[d].at.None? && d in s.log && SentDead !in s.log[d]
  }

  /** What the automaton knows of a live record. */
  lemma SentIsLogged(s: State, d: Did)
    requires Inv(s) && d in s.deaths
    ensures d in s.log && Accept(s.log[d]).Some? && Matches(s.deaths[d], Accept(s.log[d]).value)
    ensures Accept(s.log[d]).value.sent <==> SentDead in s.log[d]
  {
    assert AtOk(s, d) && LogOk(s, d);
    AcceptedMeansInOrder(s.log[d]);
  }

  /** A list links exactly the records that are at it. */
  lemma ListedIsAt(s: State, q: Queue, d: Did)
    requires Inv(s)
    ensures q in s.queues && d in s.queues[q] <==> d in s.deaths && s.deaths[d].at == Some(q)
  {
    assert QueueOk(s, q) && AtOk(s, d);
  }

  /** A dying node has no record that was queued before. */
  lemma DyingIsFresh(s: State, n: NodeId, d: Did)
    requires Inv(s) && Alive(s, n) && d in s.deaths && s.deaths[d].kind != Fresh
    ensures NoticeOf(s, s.nodes[n].refs, d) == s.deaths[d]
  {
    var r := s.deaths[d].ref;
    assert KindOk(s, {}, d) && NodeOk(s, n) && RefOk(s, r);
  }

  /** A step loses a notice if and only if it is the exit of the thread in whose own list the
      notice waits. */
  lemma LostOnlyByExit(s: State, op: Op, d: Did)
    requires Inv(s) && Enabled(s, op) && !Lost(s, d)
    ensures Lost(Step(s, op), d) <==>
      && op.Exit? && Todo(op.t) in s.queues && d in s.queues[Todo(op.t)]
      && d in s.deaths && s.deaths[d].kind == Dead
  {
    StepDoes(s, op, d);
    if d in s.deaths {
      SentIsLogged(s, d);
      assert KindOk(s, {}, d);
      if op.Die? && s.deaths[d].kind != Fresh {
        DyingIsFresh(s, op.n, d);
      }
      if op.Exit? {
        ListedIsAt(s, Todo(op.t), d);
      }
      if op.Answer? {
        ListedIsAt(s, Delivered(s.threads[op.t].proc), d);
      }
    }
  }

  /** The record of a lost notice, whatever becomes of its registration. */
  ghost predicate Silent(s: State, d: Did) {
    && d in s.log && SentDead !in s.log[d]
    && (d in s.deaths ==> (s.deaths[d].kind == Dead && s.deaths[d].at.None?) || s.deaths[d].kind == Clear)
  }

  lemma SilentStep(s: State, op: Op, d: Did)
    requires Inv(s) && Enabled(s, op) && Silent(s, d)
    ensures Silent(Step(s, op), d)
  {
    StepDoes(s, op, d);
    assert LogOk(s, d);
    if d in s.deaths {
      assert KindOk(s, {}, d);
      if op.Die? {
        DyingIsFresh(s, op.n, d);
      }
      if op.Read? {
        ListedIsAt(s, ReadList(s, op.t), d);
      }
      if op.Revoke? {
        assert RefOk(s, op.r);
      }
    }
  }

  /** A lost notice is lost for good: no run ever sends it. */
  lemma {:induction false} LostForGood(s: State, ops: seq<Op>, d: Did)
    requires Inv(s) && CanRun(s, ops) && Silent(s, d)
    ensures Silent(Run(s, ops), d)
    decreases |ops|
  {
    if ops != [] {
      var before := ops[..|ops| - 1];
      LostForGood(s, before, d);
      SilentStep(Run(s, before), ops[|ops| - 1], d);
    }
  }

  /** A notice comes into a thread's own list if and only if that thread is a looper and asks for
      the death of a node that is already dead. */
  lemma OwnNoticeOnlyByAsk(s: State, op: Op, t: Tid, d: Did)
    requires Inv(s) && Enabled(s, op) && !OwnNotice(s, t, d)
    ensures OwnNotice(Step(s, op), t, d) <==>
      && op.Ask? && op.t == t && s.threads[t].looper && d == s.next
      && s.refs[op.r].death.None? && !Alive(s, s.refs[op.r].node)
  {
    StepDoes(s, op, d);
    assert AtOk(s, d) && KindOk(s, {}, d);
    if op.Revoke? {
      assert RefOk(s, op.r);
    }
  }

  /** A clear that was accepted is never confirmed if and only if its record is freed by the exit
      of the thread that has it in its own list, or with its process. */
  lemma ConfirmationLostOnlyByExit(s: State, op: Op, d: Did)
    requires Inv(s) && Enabled(s, op) && d in s.deaths && IsCleared(s.deaths[d])
    ensures d !in Step(s, op).deaths && d in Step(s, op).log && SentDone !in Step(s, op).log[d] <==>
      || (op.Exit? && Todo(op.t) in s.queues && d in s.queues[Todo(op.t)])
      || (op.Close? && s.deaths[d].proc == op.p)
  {
    StepDoes(s, op, d);
    assert AtOk(s, d) && LogOk(s, d) && KindOk(s, {}, d);
    AcceptedMeansInOrder(s.log[d]);
    if op.Forget? {
      assert RefOk(s, op.r);
    }
    if op.Read? {
      ListedIsAt(s, ReadList(s, op.t), d);
    }
  }

  // ---------------------------------------------------------------- over whole runs

  lemma {:induction false} RunTo(s: State, ops: seq<Op>, k: nat)
    requires Inv(s) && CanRun(s, ops) && k < |ops|
    ensures CanRun(s, ops[..k]) && Enabled(Run(s, ops[..k]), ops[k])
    decreases |ops|
  {
    var before := ops[..|ops| - 1];
    if k < |before| {
      RunTo(s, before, k);
      assert before[..k] == ops[..k];
    }
  }

  lemma AfterAppend(ops: seq<Op>, op: Op)
    requires IsRun(ops) && Enabled(After(ops), op)
    ensures IsRun(ops + [op]) && After(ops + [op]) == Step(After(ops), op)
  {
    InitOk();
    RunAppend(Init, ops, op);
  }

  /** The state before step `k` of a run. */
  lemma AfterTo(ops: seq<Op>, k: nat)
    requires IsRun(ops) && k < |ops|
    ensures IsRun(ops[..k]) && Enabled(After(ops[..k]), ops[k])
    ensures IsRun(ops[..k + 1]) && After(ops[..k + 1]) == Step(After(ops[..k]), ops[k])
  {
    InitOk();
    RunTo(Init, ops, k);
    AfterAppend(ops[..k], ops[k]);
    assert ops[..k] + [ops[k]] == ops[..k + 1];
  }

  lemma IsRunTo(ops: seq<Op>, k: nat)
    requires IsRun(ops) && k < |ops|
    ensures IsRun(ops[..k])
  {
    InitOk();
    RunTo(Init, ops, k);
  }

  /** Step `i` of the run is the request that made record `d`: thread `t`, a looper, asked for the
      death of a node that was already dead. */
  ghost predicate AskedLate(ops: seq<Op>, i: nat, t: Tid, d: Did)
    requires IsRun(ops)
  {
    && i < |ops| && ops[i].Ask? && ops[i].t == t && IsRun(ops[..i])
    && var s := After(ops[..i]);
       && t in s.threads && s.threads[t].looper && d == s.next
       && ops[i].r in s.refs && s.refs[ops[i].r].death.None? && !Alive(s, s.refs[ops[i].r].node)
  }

  /** Step `j` of the run is the exit of thread `t` with the notice `d` in its own list. */
  ghost predicate ExitedWith(ops: seq<Op>, j: nat, t: Tid, d: Did)
    requires IsRun(ops)
  {
    j < |ops| && ops[j] == Exit(t) && IsRun(ops[..j]) && OwnNotice(After(ops[..j]), t, d)
  }

  lemma OwnNoticeAppears(ops: seq<Op>, k: nat, t: Tid, d: Did)
    requires IsRun(ops) && k < |ops| && IsRun(ops[..k]) && IsRun(ops[..k + 1])
    requires !OwnNotice(After(ops[..k]), t, d) && OwnNotice(After(ops[..k + 1]), t, d)
    ensures AskedLate(ops, k, t, d)
  {
    AfterTo(ops, k);
    OwnNoticeOnlyByAsk(After(ops[..k]), ops[k], t, d);
  }

  lemma {:induction false} OwnNoticeWasAskedLate(ops: seq<Op>, k: nat, t: Tid, d: Did) returns (i: nat)
    requires IsRun(ops) && k <= |ops| && IsRun(ops[..k]) && OwnNotice(After(ops[..k]), t, d)
    ensures i < k && AskedLate(ops, i, t, d)
    decreases k
  {
    if k == 0 {
      assert false;
    } else {
      IsRunTo(ops, k - 1);
      if OwnNotice(After(ops[..k - 1]), t, d) {
        i := OwnNoticeWasAskedLate(ops, k - 1, t, d);
      } else {
        OwnNoticeAppears(ops, k - 1, t, d);
        i := k - 1;
      }
    }
  }

  lemma LossAppears(ops: seq<Op>, k: nat, d: Did)
    requires IsRun(ops) && k < |ops| && IsRun(ops[..k]) && IsRun(ops[..k + 1])
    requires !Lost(After(ops[..k]), d) && Lost(After(ops[..k + 1]), d)
    ensures ops[k].Exit? && ExitedWith(ops, k, ops[k].t, d)
  {
    AfterTo(ops, k);
    LostOnlyByExit(After(ops[..k]), ops[k], d);
    ListedIsAt(After(ops[..k]), Todo(ops[k].t), d);
  }

  lemma {:induction false} LostWasDropped(ops: seq<Op>, k: nat, d: Did) returns (t: Tid, j: nat)
    requires IsRun(ops) && k <= |ops| && IsRun(ops[..k]) && Lost(After(ops[..k]), d)
    ensures j < k && ExitedWith(ops, j, t, d)
    decreases k
  {
    if k == 0 {
      assert false;
    } else {
      IsRunTo(ops, k - 1);
      if Lost(After(ops[..k - 1]), d) {
        t, j := LostWasDropped(ops, k - 1, d);
      } else {
        LossAppears(ops, k - 1, d);
        t, j := ops[k - 1].t, k - 1;
      }
    }
  }

  /** A notice is lost only in this way: a looper asked for the death of a node that was already
      dead, and later that thread exited with the notice still in its own list. */
  lemma LostMeansLateAndExited(ops: seq<Op>, d: Did) returns (t: Tid, i: nat, j: nat)
    requires IsRun(ops) && Lost(After(ops), d)
    ensures i < j && AskedLate(ops, i, t, d) && ExitedWith(ops, j, t, d)
  {
    assert ops[..|ops|] == ops;
    t, j := LostWasDropped(ops, |ops|, d);
    i := OwnNoticeWasAskedLate(ops, j, t, d);
  }

  /** A notice waits in a list of its process and has not been sent. */
  ghost predicate Waiting(s: State, d: Did) {
    && d in s.deaths && s.deaths[d].at.Some? && !s.deaths[d].at.value.Delivered?
    && s.deaths[d].at.value in s.queues && d in s.queues[s.deaths[d].at.value]
    && OwnerOf(s, s.deaths[d].at.value) == Some(s.deaths[d].proc)
    && d in s.log && SentDead !in s.log[d]
  }

  /** In every reachable state the record of every ref of a dead node is a notice that waits in a
      list of the ref's process, or was sent, or was lost as above: exactly one of the three. */
  lemma NoticeOfDeadNode(ops: seq<Op>, r: RefId)
    requires IsRun(ops) && r in After(ops).refs && After(ops).refs[r].death.Some?
    requires !Alive(After(ops), After(ops).refs[r].node)
    ensures var s, d := After(ops), After(ops).refs[r].death.value;
      && d in s.deaths && s.deaths[d].kind == Dead && s.deaths[d].proc == s.refs[r].proc && d in s.log
      && (Waiting(s, d) || SentDead in s.log[d] || Lost(s, d))
      && !(Waiting(s, d) && SentDead in s.log[d]) && !(Waiting(s, d) && Lost(s, d)) &&
        !(SentDead in s.log[d] && Lost(s, d))
  {
    var s := After(ops);
    assert RefOk(s, r);
    var d := s.refs[r].death.value;
    assert KindOk(s, {}, d) && AtOk(s, d);
    SentIsLogged(s, d);
  }

  // ---------------------------------------------------------------- a waiting notice can be sent

  /** What thread `t` reads next, in order: its own list, then that of its process. */
  ghost function Line(s: State, t: Tid): seq<Did>
    requires Inv(s) && t in s.threads
  {
    assert ThreadOk(s, t) && QueueOk(s, Todo(t)) && QueueOk(s, ProcTodo(s.threads[t].proc));
    s.queues[Todo(t)] + s.queues[ProcTodo(s.threads[t].proc)]
  }

  lemma UnlinkFirst(s: State, d: Did, q: Queue)
    requires d in s.deaths && s.deaths[d].at == Some(q) && q in s.queues && s.queues[q] != [] && s.queues[q][0] == d
    ensures Unlink(s, d) == s.(queues := s.queues[q := s.queues[q][1..]], deaths := Unlink(s, d).deaths)
  {
    WithoutHead(s.queues[q]);
  }

  lemma DeliverQueues(s: State, t: Tid, d: Did, q: Queue, k: Queue)
    requires t in s.threads && d in s.deaths && s.deaths[d].at == Some(q) && !q.Delivered? && !k.Delivered?
    requires q in s.queues && s.queues[q] != [] && s.queues[q][0] == d && k in s.queues &&
      Delivered(s.threads[t].proc) in s.queues
    ensures Deliver(s, t, d).threads == s.threads && k in Deliver(s, t, d).queues
    ensures Deliver(s, t, d).queues[k] == if k == q then s.queues[q][1..] else s.queues[k]
  {
    UnlinkFirst(s, d, q);
  }

  /** A read takes the first record of the line out of it. */
  lemma ReadTakesFirst(s: State, t: Tid)
    requires Inv(s) && t in s.threads && Line(s, t) != []
    ensures ReadList(s, t) in s.queues && s.queues[ReadList(s, t)] != [] && s.queues[ReadList(s, t)][0] == Line(s, t)[0]
    ensures ReadStep(s, t).threads == s.threads && Line(ReadStep(s, t), t) == Line(s, t)[1..]
  {
    var q, a, b := ReadList(s, t), Todo(t), ProcTodo(s.threads[t].proc);
    assert ThreadOk(s, t) && QueueOk(s, q) && QueueOk(s, a) && QueueOk(s, b);
    var h := s.queues[q][0];
    assert h in s.queues[q];
    DeliverKeeps(s, t, h);
    DeliverQueues(s, t, h, q, a);
    DeliverQueues(s, t, h, q, b);
    Halves(s.queues[a], s.queues[b]);
  }

  lemma Halves(a: seq<Did>, b: seq<Did>)
    requires a + b != []
    ensures (a + b)[1..] == if a == [] then b[1..] else a[1..] + b
    ensures a == [] ==> a + b == b
  {
  }

  lemma ReadOnce(s: State, ops: seq<Op>, t: Tid)
    requires Inv(s) && CanRun(s, ops) && t in Run(s, ops).threads
    ensures CanRun(s, ops + [Read(t)]) && Run(s, ops + [Read(t)]) == ReadStep(Run(s, ops), t)
  {
    RunAppend(s, ops, Read(t));
  }

  /** A read of another record. */
  lemma ReadPast(s: State, t: Tid, d: Did)
    requires Inv(s) && t in s.threads && Line(s, t) != [] && Line(s, t)[0] != d
    ensures Inv(ReadStep(s, t)) && ReadStep(s, t).threads == s.threads
    ensures Line(ReadStep(s, t), t) == Line(s, t)[1..] && Untouched(s, ReadStep(s, t), d)
  {
    ReadTakesFirst(s, t);
    ReadDoes(s, t, d);
  }

  lemma Prefixes(line: seq<Did>, k: nat, d: Did)
    requires 0 < k <= |line| && d !in line[..k]
    ensures d !in line[..k - 1] && line[k - 1..] != [] && line[k - 1..][0] != d && line[k - 1..][1..] == line[k..]
  {
    assert line[..k][k - 1] == line[k - 1];
    assert forall e: Did :: e in line[..k - 1] ==> e in line[..k];
  }

  /** The line of thread `t` has moved on by `k` records, and `d` is unchanged. */
  ghost predicate MovedOn(s: State, y: State, t: Tid, k: nat, d: Did)
    requires Inv(s) && t in s.threads && k <= |Line(s, t)|
  {
    Inv(y) && y.threads == s.threads && Line(y, t) == Line(s, t)[k..] && Untouched(s, y, d)
  }

  lemma OneMoreRead(s: State, before: seq<Op>, t: Tid, k: nat, d: Did)
    requires Inv(s) && t in s.threads && 0 < k <= |Line(s, t)| && d !in Line(s, t)[..k]
    requires CanRun(s, before) && MovedOn(s, Run(s, before), t, k - 1, d)
    ensures CanRun(s, before + [Read(t)]) && MovedOn(s, Run(s, before + [Read(t)]), t, k, d)
  {
    Prefixes(Line(s, t), k, d);
    ReadOnce(s, before, t);
    ReadPast(Run(s, before), t, d);
  }

  /** After as many reads as there are records before it, record `d` is first and unchanged. */
  lemma {:induction false} ReadsReach(s: State, t: Tid, k: nat, d: Did) returns (ops: seq<Op>)
    requires Inv(s) && t in s.threads && k <= |Line(s, t)| && d in s.deaths && d !in Line(s, t)[..k]
    ensures CanRun(s, ops) && |ops| == k && (forall o: Op :: o in ops ==> o == Read(t))
    ensures MovedOn(s, Run(s, ops), t, k, d)
    decreases k
  {
    if k == 0 {
      ops := [];
    } else {
      Prefixes(Line(s, t), k, d);
      var before := ReadsReach(s, t, k - 1, d);
      OneMoreRead(s, before, t, k, d);
      ops := before + [Read(t)];
    }
  }

  lemma LineIsDistinct(s: State, t: Tid, i: nat)
    requires Inv(s) && t in s.threads && i < |Line(s, t)|
    ensures Line(s, t)[i] !in Line(s, t)[..i] && Line(s, t)[i] in s.deaths
  {
    var p := s.threads[t].proc;
    assert ThreadOk(s, t) && QueueOk(s, Todo(t)) && QueueOk(s, ProcTodo(p));
    var d := Line(s, t)[i];
    forall j: int | 0 <= j < i ensures Line(s, t)[j] != d {
      assert Line(s, t)[j] in s.queues[Todo(t)] || Line(s, t)[j] in s.queues[ProcTodo(p)];
    }
  }

  /** The record at position `i` of the line is sent by `i + 1` reads. */
  lemma SentAtPosition(s: State, t: Tid, i: nat, d: Did) returns (ops: seq<Op>)
    requires Inv(s) && t in s.threads && i < |Line(s, t)| && Line(s, t)[i] == d && d in s.deaths
    requires s.deaths[d].kind == Dead || s.deaths[d].kind == DeadAndClear
    ensures CanRun(s, ops) && |ops| == i + 1 && (forall o: Op :: o in ops ==> o == Read(t))
    ensures d in Run(s, ops).log && SentDead in Run(s, ops).log[d]
  {
    LineIsDistinct(s, t, i);
    var before := ReadsReach(s, t, i, d);
    var u := Run(s, before);
    ReadOnce(s, before, t);
    ReadTakesFirst(u, t);
    ReadDoes(u, t, d);
    ops := before + [Read(t)];
  }

  lemma PositionInLine(a: seq<Did>, b: seq<Did>, d: Did) returns (i: nat)
    requires d in a + b
    ensures i < |a + b| && (a + b)[i] == d && (d in a ==> i < |a|)
  {
    if d in a {
      i :| i < |a| && a[i] == d;
    } else {
      i :| i < |a + b| && (a + b)[i] == d;
    }
  }

  /** A notice that waits where thread `t` reads is sent by reads of that thread alone.  A thread
      comes to the list of its process only with no transaction on its stack; for a notice in its
      own list it does not have to. */
  lemma WaitingCanBeSent(s: State, t: Tid, d: Did) returns (ops: seq<Op>)
    requires Inv(s) && t in s.threads && d in Line(s, t) && d in s.deaths
    requires s.deaths[d].kind == Dead || s.deaths[d].kind == DeadAndClear
    ensures CanRun(s, ops) && (forall o: Op :: o in ops ==> o == Read(t))
    ensures d in Run(s, ops).log && SentDead in Run(s, ops).log[d]
    ensures Todo(t) in s.queues && (d in s.queues[Todo(t)] ==> |ops| <= |s.queues[Todo(t)]|)
  {
    assert ThreadOk(s, t) && QueueOk(s, Todo(t)) && QueueOk(s, ProcTodo(s.threads[t].proc));
    var i := PositionInLine(s.queues[Todo(t)], s.queues[ProcTodo(s.threads[t].proc)], d);
    ops := SentAtPosition(s, t, i, d);
  }

  // ---------------------------------------------------------------- a run that loses one

  /** Process 1 has node 0, and there is a process 2. */
  lemma TwoProcesses() returns (ops: seq<Op>)
    ensures IsRun(ops)
    ensures var s := After(ops);
      && s.next == 0 && s.nextRef == 0 && s.threads == map[] && s.refs == map[] && s.deaths == map[]
      && 2 in s.procs && 0 in s.nodes && s.nodes[0] == Node(Some(1), [])
  {
    ops := [];
    assert IsRun(ops);
    AfterAppend(ops, Open(1));
    ops := ops + [Open(1)];
    AfterAppend(ops, Publish(0, 1));
    ops := ops + [Publish(0, 1)];
    AfterAppend(ops, Open(2));
    ops := ops + [Open(2)];
  }

  /** Process 2 has looper thread 5 and ref 0 to the node. */
  lemma RefToNode() returns (ops: seq<Op>)
    ensures IsRun(ops)
    ensures var s := After(ops);
      && s.next == 0 && 5 in s.threads && s.threads[5] == Thread(2, true)
      && 0 in s.nodes && s.nodes[0] == Node(Some(1), [0]) && 0 in s.refs && s.refs[0] == Ref(2, 0, None) &&
        s.deaths == map[]
  {
    ops := TwoProcesses();
    AfterAppend(ops, Start(5, 2));
    ops := ops + [Start(5, 2)];
    AfterAppend(ops, Loop(5));
    ops := ops + [Loop(5)];
    AfterAppend(ops, Learn(2, 0));
    ops := ops + [Learn(2, 0)];
  }

  /** The node dies, thread 5 asks for its death too late and exits: the notice is lost. */
  lemma ThreadExitLosesNotice() returns (ops: seq<Op>)
    ensures IsRun(ops) && Lost(After(ops), 0) && 0 in After(ops).refs && After(ops).refs[0].death == Some(0)
  {
    ops := RefToNode();
    AfterAppend(ops, Die(0));
    ops := ops + [Die(0)];
    var s := After(ops);
    AskDoes(s, 5, 0, 9, 0);
    AfterAppend(ops, Ask(5, 0, 9));
    ops := ops + [Ask(5, 0, 9)];
    var u := After(ops);
    ListedIsAt(u, Todo(5), 0);
    LostOnlyByExit(u, Exit(5), 0);
    AfterAppend(ops, Exit(5));
    ops := ops + [Exit(5)];
  }

  /** Thread 5 asks for the death of the live node, clears the request and exits before it reads:
      the clear was accepted and is never confirmed. */
  lemma ThreadExitLosesConfirmation() returns (ops: seq<Op>)
    ensures IsRun(ops) && 0 !in After(ops).deaths
    ensures 0 in After(ops).log && Cleared in After(ops).log[0] && SentDone !in After(ops).log[0]
  {
    ops := RefToNode();
    AskDoes(After(ops), 5, 0, 9, 0);
    AfterAppend(ops, Ask(5, 0, 9));
    ops := ops + [Ask(5, 0, 9)];
    var s := After(ops);
    RevokeDoes(s, 5, 0, 9, 0);
    AfterAppend(ops, Revoke(5, 0, 9));
    ops := ops + [Revoke(5, 0, 9)];
    var u := After(ops);
    ListedIsAt(u, Todo(5), 0);
    ConfirmationLostOnlyByExit(u, Exit(5), 0);
    StepDoes(u, Exit(5), 0);
    AfterAppend(ops, Exit(5));
    ops := ops + [Exit(5)];
  }
}
