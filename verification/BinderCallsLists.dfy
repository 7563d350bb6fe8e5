/**
 What the call protocol delivers, over all runs: what every step puts into which list and takes
 from it, that lists are served in order, that a reply reaches its caller, and who gets which error.
 */
module BinderCallsLists {
  import opened Wrappers
  import opened BinderCalls
  import opened BinderCallsResults

  /** The work lists: one of each thread, one of each process. */
  datatype Queue = OfThread(b: Tid) | OfProc(p: Pid)

  predicate Lives(s: State, q: Queue) {
    match q case OfThread(b) => b in s.threads case OfProc(p) => p in s.procs
  }

  function ListOf(s: State, q: Queue): seq<Work>
    requires Lives(s, q)
  {
    match q case OfThread(b) => s.threads[b].todo case OfProc(p) => s.procs[p]
  }

  function If(c: bool, w: Work): seq<Work> {
    if c then [w] else []
  }

  /** Thread `a` handles a call; this is it. */
  predicate Handles(s: State, a: Tid, t: TxId) {
    a in s.threads && s.threads[a].stack == Some(t) && t in s.txns && s.txns[t].toThread == Some(a)
  }

  /** What a step is to append to list `q`: a two-way call to the list of the thread selected, or of
      the process if there is none; a reply to its caller; a completion to the sender. */
  ghost function Posted(s: State, op: Op, q: Queue): seq<Work>
    requires Inv(s) && Enabled(s, op)
  {
    match op
    case Transact(a, to, built) =>
      if to.Unusable? || !built || !MayCall(s, a) then []
      else
        var b := Chosen(s, a, to.p);
        If(q == (if b.Some? then OfThread(b.value) else OfProc(to.p)), Call(s.next)) + If(q == OfThread(a), Complete)
    case OneWay(a, code) => If(code == Ok && q == OfThread(a), Complete)
    case Reply(a, built) =>
      var t := s.threads[a].stack;
      if t.None? || !Handles(s, a, t.value) || !built || s.txns[t.value].from.None? then []
      else If(q == OfThread(s.txns[t.value].from.value), Answer(t.value)) + If(q == OfThread(a), Complete)
    case PostToThread(a) => If(q == OfThread(a), Other)
    case PostToProc(p) => If(q == OfProc(p), Other)
    case _ => []
  }

  /** The list whose head a step takes. */
  ghost function TakenFrom(s: State, op: Op): Option<Queue>
    requires Inv(s) && Enabled(s, op)
  {
    match op
    case ReadWork(a, fromProc) => Some(if fromProc then OfProc(s.threads[a].proc) else OfThread(a))
    case _ => None
  }

  /** The step makes list `q`, or ends it. */
  predicate Opens(op: Op, q: Queue) {
    (op.OpenProc? && q == OfProc(op.p)) || (op.SpawnThread? && q == OfThread(op.a))
  }

  predicate Closes(op: Op, q: Queue) {
    (op.ReleaseProc? && q == OfProc(op.p)) || (op.ExitThread? && q == OfThread(op.a))
  }

  lemma {:induction false} FailedReplyLists(s: State, t: TxId, code: Code, b: Tid)
    requires InvH(s, Some(t)) && code != Ok && b in s.threads
    ensures var r := SendFailedReply(s, t, code);
      r.threads[b].todo == s.threads[b].todo && r.answered == s.answered
    decreases t
  {
    if s.txns[t].from.None? {
      PopDeadKeeps(s, t);
      assert ParentOk(s, t);
      if s.txns[t].fromParent.Some? {
        FailedReplyLists(PopDead(s, t), s.txns[t].fromParent.value, code, b);
      }
    }
  }

  lemma {:induction false} FailedReplyAnswers(s: State, t: TxId, code: Code)
    requires InvH(s, Some(t)) && code != Ok
    ensures SendFailedReply(s, t, code).answered == s.answered
    decreases t
  {
    if s.txns[t].from.None? {
      PopDeadKeeps(s, t);
      assert ParentOk(s, t);
      if s.txns[t].fromParent.Some? {
        FailedReplyAnswers(PopDead(s, t), s.txns[t].fromParent.value, code);
      }
    }
  }

  lemma {:induction false} DrainLists(s: State, p: Pid, b: Tid)
    requires Inv(s) && p in s.procs
    ensures var r := Drain(s, p);
      r.answered == s.answered && (b in s.threads ==> r.threads[b].todo == s.threads[b].todo)
    decreases |s.procs[p]|
  {
    if s.procs[p] != [] {
      DropProcHeadKeeps(s, p);
      var w, s1 := s.procs[p][0], DropProcHead(s, p);
      if w.Call? {
        FailedReplyAnswers(s1, w.t, DeadReply);
        if b in s.threads {
          FailedReplyLists(s1, w.t, DeadReply, b);
        }
        DrainLists(SendFailedReply(s1, w.t, DeadReply), p, b);
      } else {
        DrainLists(s1, p, b);
      }
    }
  }

  /** What `s` becomes is what the lists say: taken from the head, appended at the tail. */
  ghost predicate ListMoves(s: State, op: Op, r: State, q: Queue)
    requires Inv(s) && Enabled(s, op)
  {
    && (Lives(r, q) <==> (Lives(s, q) && !Closes(op, q)) || Opens(op, q))
    && (Lives(r, q) && Opens(op, q) ==> ListOf(r, q) == [])
    && (Lives(r, q) && Lives(s, q) ==>
          && (TakenFrom(s, op) == Some(q) ==> ListOf(s, q) != [])
          && ListOf(r, q) ==
             (if TakenFrom(s, op) == Some(q) then ListOf(s, q)[1..] else ListOf(s, q)) + Posted(s, op, q))
  }

  lemma ReplyLists(s: State, a: Tid, built: bool, q: Queue)
    requires Inv(s) && Enabled(s, Op.Reply(a, built))
    ensures ListMoves(s, Op.Reply(a, built), DoReply(s, a, built), q)
  {
    if s.threads[a].stack.Some? && MayCall(s, a) {
      var x, s1 := s.threads[a].stack.value, PopIncoming(s, a);
      PopIncomingKeeps(s, a);
      assert EndsOk(s, None, x);
      if s1.txns[x].from.None? || !built {
        WithErrorKeeps(s1, Some(x), a, TransactionComplete);
        if q.OfThread? && q.b in s.threads {
          FailedReplyLists(WithError(s1, a, TransactionComplete), x,
            if s1.txns[x].from.None? then DeadReply else FailedReply, q.b);
        }
      } else {
        BuiltReplyLists(s, a, x, q);
      }
    }
  }

  lemma BuiltReplyLists(s: State, a: Tid, x: TxId, q: Queue)
    requires Inv(s) && Enabled(s, Op.Reply(a, true)) && Handles(s, a, x) && s.txns[x].from.Some?
    ensures ListMoves(s, Op.Reply(a, true), DoReply(s, a, true), q)
  {
    PopIncomingKeeps(s, a);
    assert EndsOk(s, None, x);
    LeafIsTop(PopIncoming(s, a), x);
  }

  lemma ExitLists(s: State, a: Tid, q: Queue)
    requires Inv(s) && a in s.threads
    ensures ListMoves(s, ExitThread(a), Exit(s, a), q)
  {
    LeftBehindIsUnanswered(s, a);
    var hole := LeftBehind(s, a);
    DetachedKeeps(s, a, hole);
    if hole.Some? && q.OfThread? && q.b in s.threads && q.b != a {
      FailedReplyLists(Detached(s, a), hole.value, DeadReply, q.b);
    }
  }

  lemma TransactLists(s: State, a: Tid, to: Target, built: bool, q: Queue)
    requires Inv(s) && Enabled(s, Transact(a, to, built))
    ensures ListMoves(s, Transact(a, to, built), DoTransact(s, a, to, built), q)
  {
    if to.Node? && MayCall(s, a) && built && Chosen(s, a, to.p).Some? {
      ChosenWaitsInChain(s, a, to.p);
    }
  }

  lemma ReadLists(s: State, a: Tid, fromProc: bool, q: Queue)
    requires Inv(s) && Enabled(s, ReadWork(a, fromProc))
    ensures ListMoves(s, ReadWork(a, fromProc), DoReadWork(s, a, fromProc), q)
  {
    if Head(s, a, fromProc).Call? {
      HeadIsNext(s, a, fromProc);
    }
  }

  /** Every step takes at most one entry from the head of one list and appends to the tails exactly
      what it is to post; lists come and go with their threads and processes. */
  lemma StepLists(s: State, op: Op, q: Queue)
    requires Inv(s) && Enabled(s, op)
    ensures ListMoves(s, op, Step(s, op), q)
  {
    match op
    case Transact(a, to, built) => TransactLists(s, a, to, built, q);
    case Reply(a, built) => ReplyLists(s, a, built, q);
    case ReadWork(a, fromProc) => ReadLists(s, a, fromProc, q);
    case ExitThread(a) => ExitLists(s, a, q);
    case ReleaseProc(p) => DrainLists(s, p, if q.OfThread? then q.b else 0);
    case _ => SmallStepLists(s, op, q);
  }

  lemma SmallStepLists(s: State, op: Op, q: Queue)
    requires Inv(s) && Enabled(s, op)
    requires op.OpenProc? || op.SpawnThread? || op.OneWay? || op.ReadError? || op.PostToThread? || op.PostToProc?
    ensures ListMoves(s, op, Step(s, op), q)
  {
  }

  // ---------------------------------------------------------------- which thread is selected

  /** Call `u` is one of `t`'s chain up to `t`, made by a live thread of process `p`. */
  ghost predicate Candidate(s: State, t: TxId, p: Pid, u: TxId)
    requires t in s.txns
  {
    && u in Chain(s, t) && u <= t && s.txns[u].from.Some? && s.txns[u].from.value in s.threads
    && s.threads[s.txns[u].from.value].proc == p
  }

  ghost predicate OldestCandidate(s: State, t: TxId, p: Pid, u: TxId)
    requires t in s.txns
  {
    Candidate(s, t, p, u) && forall w: TxId :: Candidate(s, t, p, w) ==> u <= w
  }

  lemma ParentCandidates(s: State, t: TxId, p: Pid, u: TxId)
    requires Inv(s) && t in s.txns
    ensures s.txns[t].fromParent.None? ==> (Candidate(s, t, p, u) ==> u == t)
    ensures s.txns[t].fromParent.Some? ==>
      && s.txns[t].fromParent.value in s.txns
      && (Candidate(s, s.txns[t].fromParent.value, p, u) <==> Candidate(s, t, p, u) && u != t)
  {
    assert ParentOk(s, t) && OrderOk(s, t, u);
  }

  lemma {:induction false} FindsOldest(s: State, t: TxId, p: Pid, found: Option<Tid>)
    requires Inv(s) && t in s.txns
    ensures (forall u: TxId :: !Candidate(s, t, p, u)) ==> FindTarget(s, Some(t), p, found) == found
    ensures forall u: TxId :: OldestCandidate(s, t, p, u) ==> FindTarget(s, Some(t), p, found) == s.txns[u].from
    decreases t
  {
    assert ParentOk(s, t) && EndsOk(s, None, t);
    assert t in Chain(s, t);
    var next := if Candidate(s, t, p, t) then s.txns[t].from else found;
    if s.txns[t].fromParent.Some? {
      var q := s.txns[t].fromParent.value;
      FindsOldest(s, q, p, next);
      forall u: TxId ensures Candidate(s, q, p, u) <==> Candidate(s, t, p, u) && u != t {
        ParentCandidates(s, t, p, u);
      }
      forall u: TxId | OldestCandidate(s, t, p, u) ensures FindTarget(s, Some(t), p, found) == s.txns[u].from {
        if u != t {
          assert OldestCandidate(s, q, p, u);
        } else {
          assert forall w: TxId :: Candidate(s, q, p, w) ==> u <= w && w <= q;
        }
      }
    } else {
      forall u: TxId ensures Candidate(s, t, p, u) ==> u == t {
        ParentCandidates(s, t, p, u);
      }
    }
  }

  /** A call goes to the thread that made the oldest call of the sender's chain among the live
      threads of the target process; to no thread exactly if there is none. */
  lemma OldestIsChosen(s: State, a: Tid, p: Pid)
    requires Inv(s) && a in s.threads && MayCall(s, a)
    ensures s.threads[a].stack.None? ==> Chosen(s, a, p).None?
    ensures s.threads[a].stack.Some? ==>
      var t := s.threads[a].stack.value;
      && (forall u: TxId :: OldestCandidate(s, t, p, u) ==> Chosen(s, a, p) == s.txns[u].from)
      && ((forall u: TxId :: !Candidate(s, t, p, u)) <==> Chosen(s, a, p).None?)
  {
    if s.threads[a].stack.Some? {
      var t := s.threads[a].stack.value;
      FindsOldest(s, t, p, None);
      if u: TxId :| Candidate(s, t, p, u) {
        var o := OldestExists(s, t, p, u);
      }
    }
  }

  lemma {:induction false} OldestExists(s: State, t: TxId, p: Pid, u: TxId) returns (o: TxId)
    requires t in s.txns && Candidate(s, t, p, u)
    ensures OldestCandidate(s, t, p, o)
    decreases u
  {
    if w: TxId :| Candidate(s, t, p, w) && w < u {
      o := OldestExists(s, t, p, w);
    } else {
      o := u;
    }
  }

  // ---------------------------------------------------------------- lists are served in order

  /** What a run puts into a list. */
  ghost function Puts(s: State, ops: seq<Op>, q: Queue): seq<Work>
    requires Inv(s) && CanRun(s, ops)
    decreases |ops|
  {
    if ops == [] then [] else Posted(s, ops[0], q) + Puts(Step(s, ops[0]), ops[1..], q)
  }

  /** What a run takes from a list. */
  ghost function Takes(s: State, ops: seq<Op>, q: Queue): seq<Work>
    requires Inv(s) && CanRun(s, ops)
    decreases |ops|
  {
    if ops == [] then []
    else
      (if TakenFrom(s, ops[0]) == Some(q) && Lives(s, q) && ListOf(s, q) != [] then [ListOf(s, q)[0]] else [])
      + Takes(Step(s, ops[0]), ops[1..], q)
  }

  /** The list lives through the whole run. */
  ghost predicate LivesThrough(s: State, ops: seq<Op>, q: Queue)
    requires Inv(s) && CanRun(s, ops)
    decreases |ops|
  {
    Lives(s, q) && (ops == [] || LivesThrough(Step(s, ops[0]), ops[1..], q))
  }

  lemma MoveOne(l: seq<Work>, posted: seq<Work>, taken: bool, more: seq<Work>, takes: seq<Work>, end: seq<Work>)
    requires taken ==> l != []
    requires (if taken then l[1..] else l) + posted + more == takes + end
    requires taken ==> posted == []
    ensures l + (posted + more) == (if taken then [l[0]] else []) + takes + end
  {
    if taken {
      assert l == [l[0]] + l[1..];
      assert l + (posted + more) == [l[0]] + (l[1..] + posted + more);
      assert [l[0]] + takes + end == [l[0]] + (takes + end);
    } else {
      assert l + (posted + more) == l + posted + more;
      assert [] + takes + end == takes + end;
    }
  }

  /** Every list is served in order: what was in it and what was put into it since come out in that
      order, and the rest is what it holds.  Two-way calls waiting for a process are among these. */
  lemma {:induction false} ListsAreFifo(s: State, ops: seq<Op>, q: Queue)
    requires Inv(s) && CanRun(s, ops) && LivesThrough(s, ops, q)
    ensures Lives(Run(s, ops), q)
    ensures ListOf(s, q) + Puts(s, ops, q) == Takes(s, ops, q) + ListOf(Run(s, ops), q)
    decreases |ops|
  {
    if ops != [] {
      var r := Step(s, ops[0]);
      StepLists(s, ops[0], q);
      ListsAreFifo(r, ops[1..], q);
      var taken := TakenFrom(s, ops[0]) == Some(q);
      MoveOne(ListOf(s, q), Posted(s, ops[0], q), taken, Puts(r, ops[1..], q), Takes(r, ops[1..], q),
        ListOf(Run(r, ops[1..]), q));
    }
  }

  // ---------------------------------------------------------------- replies reach their callers

  /** A BC_REPLY that could be built, to a call whose caller lives: the reply goes to the tail of the
      caller's list, the call leaves both stacks, the replier gets its completion, no error is
      sent, and no other thread changes. */
  lemma ReplyReachesCaller(s: State, a: Tid, t: TxId)
    requires Inv(s) && Enabled(s, Op.Reply(a, true)) && Handles(s, a, t) && s.txns[t].from.Some?
    ensures var r, x, b := Step(s, Op.Reply(a, true)), s.txns[t], s.txns[t].from.value;
      && b != a && b in s.threads
      && r.threads == s.threads[a := s.threads[a].(stack := x.toParent, todo := s.threads[a].todo + [Complete])]
                               [b := s.threads[b].(stack := x.fromParent, todo := s.threads[b].todo + [Answer(t)])]
      && r.txns == s.txns - {t} && r.procs == s.procs
      && r.failed == s.failed && r.answered == s.answered + multiset{t}
  {
    assert EndsOk(s, None, t);
    PopIncomingKeeps(s, a);
    LeafIsTop(PopIncoming(s, a), t);
  }

  /** How often `w` is in a list of some thread. */
  ghost function InLists(m: map<Tid, Thread>, w: Work): nat {
    if m == map[] then 0
    else
      var b :| b in m;
      multiset(m[b].todo)[w] + InLists(m - {b}, w)
  }

  lemma {:induction false} InListsWithout(m: map<Tid, Thread>, b: Tid, w: Work)
    requires b in m
    ensures InLists(m, w) == multiset(m[b].todo)[w] + InLists(m - {b}, w)
    decreases |m|
  {
    var c :| c in m && InLists(m, w) == multiset(m[c].todo)[w] + InLists(m - {c}, w);
    if c != b {
      InListsWithout(m - {c}, b, w);
      InListsWithout(m - {b}, c, w);
      assert m - {c} - {b} == m - {b} - {c};
    }
  }

  /** Only the list of thread `b` may hold `w` more or less often. */
  ghost predicate SameElsewhere(m: map<Tid, Thread>, n: map<Tid, Thread>, b: Tid, w: Work) {
    && (forall c: Tid :: c != b ==> (c in m <==> c in n))
    && (forall c: Tid :: c in m && c in n && c != b ==> multiset(m[c].todo)[w] == multiset(n[c].todo)[w])
  }

  ghost function HowOften(m: map<Tid, Thread>, b: Tid, w: Work): nat {
    if b in m then multiset(m[b].todo)[w] else 0
  }

  lemma {:induction false} InListsSame(m: map<Tid, Thread>, n: map<Tid, Thread>, w: Work)
    requires m.Keys == n.Keys && forall c: Tid :: c in m ==> multiset(m[c].todo)[w] == multiset(n[c].todo)[w]
    ensures InLists(m, w) == InLists(n, w)
    decreases |m|
  {
    if m != map[] {
      var b :| b in m;
      InListsWithout(m, b, w);
      InListsWithout(n, b, w);
      InListsSame(m - {b}, n - {b}, w);
    } else {
      assert n == map[];
    }
  }

  lemma InListsMove(m: map<Tid, Thread>, n: map<Tid, Thread>, b: Tid, w: Work)
    requires SameElsewhere(m, n, b, w)
    ensures InLists(n, w) + HowOften(m, b, w) == InLists(m, w) + HowOften(n, b, w)
  {
    InListsSame(m - {b}, n - {b}, w);
    InListsLess(m, b, w);
    InListsLess(n, b, w);
  }

  lemma InListsLess(m: map<Tid, Thread>, b: Tid, w: Work)
    ensures InLists(m, w) == HowOften(m, b, w) + InLists(m - {b}, w)
  {
    if b in m {
      InListsWithout(m, b, w);
    } else {
      assert m - {b} == m;
    }
  }

  /** The thread in whose list a step may change how often a reply is there. */
  ghost function ListTouched(s: State, op: Op): Tid
    requires Inv(s) && Enabled(s, op)
  {
    match op
    case Reply(a, _) =>
      var t := s.threads[a].stack;
      if t.Some? && Handles(s, a, t.value) && s.txns[t.value].from.Some? then s.txns[t.value].from.value else a
    case ReadWork(a, _) => a
    case ExitThread(a) => a
    case SpawnThread(a, _) => a
    case _ => 0
  }

  /** A step reads the reply from its caller's list, drops it with that list, or makes it. */
  ghost function ReadBy(s: State, op: Op, t: TxId): nat
    requires Inv(s) && Enabled(s, op)
  {
    if op.ReadWork? && !op.fromProc && s.threads[op.a].todo[0] == Answer(t) then 1 else 0
  }

  ghost function DroppedBy(s: State, op: Op, t: TxId): nat
    requires Inv(s) && Enabled(s, op)
  {
    if op.ExitThread? then multiset(s.threads[op.a].todo)[Answer(t)] else 0
  }

  predicate AnswersCall(s: State, op: Op, t: TxId) {
    op.Reply? && op.built && Handles(s, op.a, t) && s.txns[t].from.Some?
  }

  lemma CountMoves(l: seq<Work>, taken: bool, posted: seq<Work>, w: Work)
    requires taken ==> l != []
    ensures multiset((if taken then l[1..] else l) + posted)[w] + (if taken && l[0] == w then 1 else 0)
      == multiset(l)[w] + multiset(posted)[w]
  {
    if taken {
      assert l == [l[0]] + l[1..];
    }
  }

  lemma PairCount(c: bool, v: Work, d: bool, w: Work, x: Work)
    ensures multiset(If(c, v) + If(d, w))[x] == (if c && v == x then 1 else 0) + (if d && w == x then 1 else 0)
    ensures multiset(If(c, v))[x] == if c && v == x then 1 else 0
  {
  }

  lemma NothingCounts(x: Work)
    ensures multiset([])[x] == 0
  {
  }

  lemma TransactPosts(s: State, a: Tid, to: Target, built: bool, q: Queue, t: TxId)
    requires Inv(s) && Enabled(s, Transact(a, to, built))
    ensures multiset(Posted(s, Transact(a, to, built), q))[Answer(t)] == 0
  {
    if to.Node? && built && MayCall(s, a) {
      var b := Chosen(s, a, to.p);
      PairCount(q == (if b.Some? then OfThread(b.value) else OfProc(to.p)), Call(s.next), q == OfThread(a), Complete,
        Answer(t));
    }
  }

  lemma ReplyPosts(s: State, a: Tid, built: bool, c: Tid, t: TxId)
    requires Inv(s) && Enabled(s, Op.Reply(a, built))
    ensures multiset(Posted(s, Op.Reply(a, built), OfThread(c)))[Answer(t)] ==
      if AnswersCall(s, Op.Reply(a, built), t) && s.txns[t].from == Some(c) then 1 else 0
  {
    var u, q := s.threads[a].stack, OfThread(c);
    if u.Some? && Handles(s, a, u.value) && built && s.txns[u.value].from.Some? {
      PairCount(q == OfThread(s.txns[u.value].from.value), Answer(u.value), q == OfThread(a), Complete, Answer(t));
    }
  }

  lemma PostedCount(s: State, op: Op, c: Tid, t: TxId)
    requires Inv(s) && Enabled(s, op)
    ensures multiset(Posted(s, op, OfThread(c)))[Answer(t)] ==
      if AnswersCall(s, op, t) && s.txns[t].from == Some(c) then 1 else 0
  {
    var q, x := OfThread(c), Answer(t);
    NothingCounts(x);
    match op
    case Transact(a, to, built) => TransactPosts(s, a, to, built, q, t);
    case Reply(a, built) => ReplyPosts(s, a, built, c, t);
    case OneWay(a, code) => PairCount(code == Ok && q == OfThread(a), Complete, false, Complete, x);
    case PostToThread(a) => PairCount(q == OfThread(a), Other, false, Complete, x);
    case PostToProc(p) => PairCount(q == OfProc(p), Other, false, Complete, x);
    case _ =>
  }

  /** One list: what it held and what is posted is what it holds and what is read. */
  lemma OneListMoves(s: State, op: Op, c: Tid, t: TxId)
    requires Inv(s) && Enabled(s, op) && c in s.threads && c in Step(s, op).threads
    ensures var taken := if TakenFrom(s, op) == Some(OfThread(c)) then ReadBy(s, op, t) else 0;
      HowOften(Step(s, op).threads, c, Answer(t)) + taken ==
      HowOften(s.threads, c, Answer(t)) + if AnswersCall(s, op, t) && s.txns[t].from == Some(c) then 1 else 0
  {
    var q := OfThread(c);
    StepLists(s, op, q);
    PostedCount(s, op, c, t);
    CountMoves(ListOf(s, q), TakenFrom(s, op) == Some(q), Posted(s, op, q), Answer(t));
  }

  lemma OnlyOneListChanges(s: State, op: Op, t: TxId)
    requires Inv(s) && Enabled(s, op)
    ensures SameElsewhere(s.threads, Step(s, op).threads, ListTouched(s, op), Answer(t))
  {
    var r, x := Step(s, op), ListTouched(s, op);
    forall c: Tid | c != x ensures c in s.threads <==> c in r.threads {
      StepLists(s, op, OfThread(c));
    }
    forall c: Tid | c != x && c in s.threads && c in r.threads
      ensures multiset(s.threads[c].todo)[Answer(t)] == multiset(r.threads[c].todo)[Answer(t)]
    {
      OneListMoves(s, op, c, t);
    }
  }

  lemma AnsweredCounts(s: State, op: Op, t: TxId)
    requires Inv(s) && Enabled(s, op)
    ensures Step(s, op).answered[t] == s.answered[t] + if AnswersCall(s, op, t) then 1 else 0
  {
    match op
    case Reply(a, built) =>
      if s.threads[a].stack.Some? && MayCall(s, a) {
        var x, s1 := s.threads[a].stack.value, PopIncoming(s, a);
        PopIncomingKeeps(s, a);
        if s1.txns[x].from.None? || !built {
          WithErrorKeeps(s1, Some(x), a, TransactionComplete);
          FailedReplyAnswers(WithError(s1, a, TransactionComplete), x,
            if s1.txns[x].from.None? then DeadReply else FailedReply);
        }
      }
    case ExitThread(a) =>
      LeftBehindIsUnanswered(s, a);
      DetachedKeeps(s, a, LeftBehind(s, a));
      if LeftBehind(s, a).Some? {
        FailedReplyAnswers(Detached(s, a), LeftBehind(s, a).value, DeadReply);
      }
    case ReleaseProc(p) => DrainLists(s, p, 0);
    case _ =>
  }

  /** One step: a reply made is in a list, was read from it, or was dropped with it. */
  lemma StepAnswers(s: State, op: Op, t: TxId)
    requires Inv(s) && Enabled(s, op)
    ensures Step(s, op).answered[t] + InLists(s.threads, Answer(t)) == s.answered[t] +
      InLists(Step(s, op).threads, Answer(t)) + ReadBy(s, op, t) + DroppedBy(s, op, t)
  {
    var r, x := Step(s, op), ListTouched(s, op);
    AnsweredCounts(s, op, t);
    OnlyOneListChanges(s, op, t);
    InListsMove(s.threads, r.threads, x, Answer(t));
    StepLists(s, op, OfThread(x));
    if x in s.threads && x in r.threads {
      OneListMoves(s, op, x, t);
    }
  }

  ghost function AnswersRead(s: State, ops: seq<Op>, t: TxId): nat
    requires Inv(s) && CanRun(s, ops)
    decreases |ops|
  {
    if ops == [] then 0 else ReadBy(s, ops[0], t) + AnswersRead(Step(s, ops[0]), ops[1..], t)
  }

  ghost function AnswersDropped(s: State, ops: seq<Op>, t: TxId): nat
    requires Inv(s) && CanRun(s, ops)
    decreases |ops|
  {
    if ops == [] then 0 else DroppedBy(s, ops[0], t) + AnswersDropped(Step(s, ops[0]), ops[1..], t)
  }

  lemma {:induction false} AnswersOver(s: State, ops: seq<Op>, t: TxId)
    requires Inv(s) && CanRun(s, ops)
    ensures Run(s, ops).answered[t] + InLists(s.threads, Answer(t)) == s.answered[t] +
      InLists(Run(s, ops).threads, Answer(t)) + AnswersRead(s, ops, t) + AnswersDropped(s, ops, t)
    decreases |ops|
  {
    if ops != [] {
      StepAnswers(s, ops[0], t);
      AnswersOver(Step(s, ops[0]), ops[1..], t);
    }
  }

  /** In every run every reply made is in the list of a thread, was read from there, or was dropped
      by the exit of that thread; and no call has more than one. */
  lemma EveryReplyIsAccountedFor(ops: seq<Op>, t: TxId)
    requires Inv(Init) && CanRun(Init, ops)
    ensures var r := Run(Init, ops);
      && r.answered[t] == InLists(r.threads, Answer(t)) + AnswersRead(Init, ops, t) + AnswersDropped(Init, ops, t)
      && r.answered[t] <= 1
  {
    AnswersOver(Init, ops, t);
    assert CountOk(Run(Init, ops), t);
  }
}
