/**
 Death notifications of the binder driver (driver/binder/binder.c).

 A registration makes a death record that its ref owns.  When the node's process goes away the
 record is queued to the ref's process; a clear request takes the record from the ref and
 leaves it to the queue it is in.  `at` is the list the record's work entry is linked into
 (None: the entry is empty), `log` the history of every record ever made.
 Queues hold death work only; the entries of other kinds in the same lists do not touch it.
 */
module BinderDeath {
  import opened Lists
  import opened Wrappers

  type Pid = nat
  type Tid = nat
  type NodeId = nat
  type RefId = nat
  type Did = nat

  datatype Queue = Todo(t: Tid) | ProcTodo(p: Pid) | Delivered(p: Pid)

  /** The work type; Fresh is the zeroed type of a record that was never queued. */
  datatype Kind = Fresh | Dead | DeadAndClear | Clear

  datatype Event = SentDead | Cleared | SentDone | Freed

  datatype Record = Record(ref: RefId, proc: Pid, cookie: nat, kind: Kind, at: Option<Queue>)
  datatype Ref = Ref(proc: Pid, node: NodeId, death: Option<Did>)
  datatype Thread = Thread(proc: Pid, looper: bool)
  datatype Node = Node(owner: Option<Pid>, refs: seq<RefId>)

  datatype State = State(
    procs: set<Pid>, threads: map<Tid, Thread>, nodes: map<NodeId, Node>, refs: map<RefId, Ref>,
    deaths: map<Did, Record>, queues: map<Queue, seq<Did>>, log: map<Did, seq<Event>>,
    nextRef: RefId, next: Did)

  const Init := State({}, map[], map[], map[], map[], map[], map[], 0, 0)

  // ---------------------------------------------------------------- the history of a record

  datatype Phase = Phase(sent: bool, cleared: bool, done: bool, freed: bool)

  /** What may happen to a record next: one death notice at most and none after the clear was
      confirmed, a confirmation only of an accepted clear, and nothing after it is freed. */
  function Advance(p: Phase, e: Event): Option<Phase> {
    if p.freed then None
    else match e
      case SentDead => if p.sent || p.done then None else Some(p.(sent := true))
      case Cleared => if p.cleared then None else Some(p.(cleared := true))
      case SentDone => if !p.cleared || p.done then None else Some(p.(done := true))
      case Freed => Some(p.(freed := true))
  }

  function Accept(log: seq<Event>): Option<Phase> {
    if log == [] then Some(Phase(false, false, false, false))
    else
      var p := Accept(log[..|log| - 1]);
      if p.None? then None else Advance(p.value, log[|log| - 1])
  }

  lemma AcceptAppend(log: seq<Event>, e: Event)
    ensures Accept(log + [e]) == if Accept(log).None? then None else Advance(Accept(log).value, e)
  {
    assert (log + [e])[..|log|] == log;
  }

  /** The same promise without the automaton. */
  ghost predicate InOrder(log: seq<Event>) {
    && (forall i, j :: 0 <= i < j < |log| ==> log[i] != log[j])
    && (forall i :: 0 <= i < |log| - 1 ==> log[i] != Freed)
    && (forall i, j :: 0 <= i < j < |log| ==> !(log[i] == SentDone && log[j] == SentDead))
    && (forall j :: 0 <= j < |log| && log[j] == SentDone ==> Cleared in log[..j])
  }

  /** One more event keeps the order exactly when it may follow. */
  lemma OrderAppend(rest: seq<Event>, e: Event)
    ensures InOrder(rest + [e]) <==>
      && InOrder(rest) && e !in rest && Freed !in rest
      && (e == SentDead ==> SentDone !in rest) && (e == SentDone ==> Cleared in rest)
  {
    var log := rest + [e];
    if InOrder(log) {
      forall i | 0 <= i < |rest| ensures rest[i] != e && rest[i] != Freed && !(rest[i] == SentDone && e == SentDead) {
        assert log[i] == rest[i] && log[|rest|] == e;
      }
      forall i, j | 0 <= i < j < |rest| ensures rest[i] != rest[j] && !(rest[i] == SentDone && rest[j] == SentDead) {
        assert log[i] == rest[i] && log[j] == rest[j];
      }
      forall j | 0 <= j < |rest| && rest[j] == SentDone ensures Cleared in rest[..j] {
        assert log[j] == SentDone && log[..j] == rest[..j];
      }
      if e == SentDone {
        assert log[|rest|] == SentDone && log[..|rest|] == rest;
      }
    }
    if InOrder(rest) && e !in rest && Freed !in rest && (e == SentDead ==> SentDone !in rest) &&
      (e == SentDone ==> Cleared in rest) {
      forall j | 0 <= j < |log| && log[j] == SentDone ensures Cleared in log[..j] {
        assert log[..j] == rest[..j];
        assert rest[..|rest|] == rest;
      }
    }
  }

  ghost predicate Agrees(log: seq<Event>) {
    && (Accept(log).Some? <==> InOrder(log))
    && (Accept(log).Some? ==>
          var p := Accept(log).value;
          && (p.sent <==> SentDead in log) && (p.cleared <==> Cleared in log)
          && (p.done <==> SentDone in log) && (p.freed <==> Freed in log))
  }

  lemma AgreesAppend(rest: seq<Event>, e: Event)
    requires Agrees(rest)
    ensures Agrees(rest + [e])
  {
    AcceptAppend(rest, e);
    OrderAppend(rest, e);
    assert e in rest + [e] && forall x: Event :: x != e ==> (x in rest + [e] <==> x in rest);
  }

  /** Accepted histories are exactly the ordered ones. */
  lemma {:induction false} AcceptedMeansInOrder(log: seq<Event>)
    ensures Agrees(log)
  {
    if log == [] {
    } else {
      AcceptedMeansInOrder(log[..|log| - 1]);
      AgreesAppend(log[..|log| - 1], log[|log| - 1]);
      assert log[..|log| - 1] + [log[|log| - 1]] == log;
    }
  }

  // ---------------------------------------------------------------- the invariant

  function OwnerOf(s: State, q: Queue): Option<Pid> {
    match q
    case Todo(t) => if t in s.threads then Some(s.threads[t].proc) else None
    case ProcTodo(p) => if p in s.procs then Some(p) else None
    case Delivered(p) => if p in s.procs then Some(p) else None
  }

  /** A list exists as long as its thread or process, and links live records that know it. */
  ghost predicate QueueOk(s: State, q: Queue) {
    && (q in s.queues <==> OwnerOf(s, q).Some?)
    && (q in s.queues ==>
          && Distinct(s.queues[q])
          && (forall d: Did :: d in s.queues[q] ==> d in s.deaths && s.deaths[d].at == Some(q)))
  }

  /** A record is in the list it is linked into, and that list is of its own process. */
  ghost predicate AtOk(s: State, d: Did) {
    d in s.deaths ==>
      && d < s.next && s.deaths[d].proc in s.procs
      && (s.deaths[d].at.Some? ==>
            && s.deaths[d].at.value in s.queues && d in s.queues[s.deaths[d].at.value]
            && OwnerOf(s, s.deaths[d].at.value) == Some(s.deaths[d].proc))
  }

  ghost predicate Linked(s: State) {
    && (forall q: Queue {:trigger QueueOk(s, q)} :: QueueOk(s, q))
    && (forall d: Did {:trigger AtOk(s, d)} :: AtOk(s, d))
    && (forall t: Tid {:trigger ThreadOk(s, t)} :: ThreadOk(s, t))
  }

  ghost predicate ThreadOk(s: State, t: Tid) {
    t in s.threads ==> s.threads[t].proc in s.procs
  }

  ghost predicate Owned(s: State, d: Did)
    requires d in s.deaths
  {
    s.deaths[d].ref in s.refs && s.refs[s.deaths[d].ref].death == Some(d)
  }

  ghost predicate Alive(s: State, n: NodeId) {
    n in s.nodes && s.nodes[n].owner.Some?
  }

  /** A record belongs to its ref until it is cleared and to its list afterwards.  `pend` are
      the refs of a node that is just dying and whose records are still to be queued. */
  ghost predicate KindOk(s: State, pend: set<RefId>, d: Did) {
    d in s.deaths ==>
      var x := s.deaths[d];
      match x.kind
      case Fresh => Owned(s, d) && x.at.None? && (Alive(s, s.refs[x.ref].node) || x.ref in pend)
      case Dead => Owned(s, d) && !Alive(s, s.refs[x.ref].node) && x.ref !in pend
      case DeadAndClear => x.at.Some?
      case Clear => x.at.Some? && !x.at.value.Delivered?
  }

  ghost predicate RefOk(s: State, r: RefId) {
    r in s.refs ==>
      && r < s.nextRef && s.refs[r].proc in s.procs && s.refs[r].node in s.nodes && r in s.nodes[s.refs[r].node].refs
      && (s.refs[r].death.Some? ==>
            var d := s.refs[r].death.value;
            && d in s.deaths && s.deaths[d].ref == r && s.deaths[d].proc == s.refs[r].proc
            && (s.deaths[d].kind == Fresh || s.deaths[d].kind == Dead))
  }

  ghost predicate NodeOk(s: State, n: NodeId) {
    n in s.nodes ==>
      && Distinct(s.nodes[n].refs)
      && (forall r: RefId :: r in s.nodes[n].refs ==> r in s.refs && s.refs[r].node == n)
      && (s.nodes[n].owner.Some? ==> s.nodes[n].owner.value in s.procs)
  }

  /** How far the history of a live record is. */
  predicate Matches(x: Record, p: Phase) {
    && !p.freed && !p.done && p.cleared == (x.kind == DeadAndClear || x.kind == Clear)
    && (x.kind == Fresh ==> !p.sent)
    && (x.at.Some? && (x.kind == Dead || x.kind == DeadAndClear) ==> p.sent == x.at.value.Delivered?)
  }

  ghost predicate LogOk(s: State, d: Did) {
    && (d in s.log <==> d < s.next)
    && (d in s.log ==> Accept(s.log[d]).Some?)
    && (d in s.log && d in s.deaths ==> Matches(s.deaths[d], Accept(s.log[d]).value))
    && (d in s.log && d !in s.deaths ==> Accept(s.log[d]).value.freed)
  }

  ghost predicate InvP(s: State, pend: set<RefId>) {
    && Linked(s)
    && (forall d: Did {:trigger KindOk(s, pend, d)} :: KindOk(s, pend, d))
    && (forall r: RefId {:trigger RefOk(s, r)} :: RefOk(s, r))
    && (forall n: NodeId {:trigger NodeOk(s, n)} :: NodeOk(s, n))
    && (forall d: Did {:trigger LogOk(s, d)} :: LogOk(s, d))
  }

  ghost predicate Inv(s: State) {
    InvP(s, {})
  }

  // ---------------------------------------------------------------- list operations

  /** list_del_init on a record's entry. */
  function Unlink(s: State, d: Did): State
    requires d in s.deaths
  {
    match s.deaths[d].at
    case None => s
    case Some(q) =>
      s.(queues := if q in s.queues then s.queues[q := Without(s.queues[q], d)] else s.queues,
         deaths := s.deaths[d := s.deaths[d].(at := None)])
  }

  lemma UnlinkKeeps(s: State, d: Did)
    requires Linked(s) && d in s.deaths
    ensures Linked(Unlink(s, d))
  {
    var r := Unlink(s, d);
    assert AtOk(s, d);
    forall q: Queue ensures QueueOk(r, q) {
      assert QueueOk(s, q);
    }
    forall e: Did ensures AtOk(r, e) {
      assert AtOk(s, e);
      assert s.deaths[d].at.Some? ==> QueueOk(s, s.deaths[d].at.value);
    }
    forall t: Tid ensures ThreadOk(r, t) {
      assert ThreadOk(s, t);
    }
  }

  /** Links an unlinked record: list_add_tail, or list_add for the list of delivered records. */
  function Link(s: State, d: Did, q: Queue, kind: Kind): State
    requires d in s.deaths && q in s.queues
  {
    s.(queues := s.queues[q := if q.Delivered? then [d] + s.queues[q] else s.queues[q] + [d]],
       deaths := s.deaths[d := s.deaths[d].(at := Some(q), kind := kind)])
  }

  lemma LinkKeeps(s: State, d: Did, q: Queue, kind: Kind)
    requires Linked(s) && d in s.deaths && s.deaths[d].at.None? && q in s.queues &&
      OwnerOf(s, q) == Some(s.deaths[d].proc)
    ensures Linked(Link(s, d, q, kind))
  {
    var r := Link(s, d, q, kind);
    assert AtOk(s, d) && QueueOk(s, q);
    forall k: Queue ensures QueueOk(r, k) {
      assert QueueOk(s, k);
    }
    forall e: Did ensures AtOk(r, e) {
      assert AtOk(s, e);
    }
    forall t: Tid ensures ThreadOk(r, t) {
      assert ThreadOk(s, t);
    }
  }

  function Note(s: State, d: Did, e: Event): State {
    if d in s.log then s.(log := s.log[d := s.log[d] + [e]]) else s
  }

  /** kfree of an unlinked record. */
  function Free(s: State, d: Did): State {
    Note(s.(deaths := s.deaths - {d}), d, Freed)
  }

  /** Removing an unlinked record, or changing other fields than its linkage, keeps the lists. */
  lemma SameLinks(s: State, r: State, d: Did)
    requires Linked(s) && r.queues == s.queues && r.threads == s.threads && r.procs == s.procs && r.next == s.next
    requires r.deaths.Keys + {d} == s.deaths.Keys + {d} && (d in r.deaths ==> d in s.deaths)
    requires forall e: Did :: e in r.deaths ==> r.deaths[e].at == s.deaths[e].at && r.deaths[e].proc == s.deaths[e].proc
    requires d in r.deaths || (d in s.deaths ==> s.deaths[d].at.None?)
    ensures Linked(r)
  {
    forall k: Queue ensures QueueOk(r, k) {
      assert QueueOk(s, k);
    }
    forall e: Did ensures AtOk(r, e) {
      assert AtOk(s, e);
    }
    forall t: Tid ensures ThreadOk(r, t) {
      assert ThreadOk(s, t);
    }
  }

  /** The step from `s` to `r` concerns record `d` and its ref `f` only. */
  ghost predicate OnlyRecord(s: State, r: State, d: Did, f: RefId) {
    && r == s.(queues := r.queues, deaths := r.deaths, log := r.log, refs := r.refs)
    && (forall e: Did :: e != d ==>
          && (e in r.deaths <==> e in s.deaths)
          && (e in r.log <==> e in s.log) && (e in s.log ==> r.log[e] == s.log[e]))
    && (forall e: Did :: e != d && e in s.deaths ==> r.deaths[e] == s.deaths[e])
    && r.refs.Keys == s.refs.Keys
    && (forall k: RefId :: k in s.refs && k != f ==> r.refs[k] == s.refs[k])
    && (f in s.refs ==> r.refs[f] == s.refs[f].(death := r.refs[f].death))
    && (f in s.refs && s.refs[f] != r.refs[f] ==> s.refs[f].death == Some(d))
    && (d in s.deaths ==> s.deaths[d].ref == f)
  }

  lemma RecordFrame(s: State, r: State, pend: set<RefId>, d: Did)
    requires InvP(s, pend) && d in s.deaths && OnlyRecord(s, r, d, s.deaths[d].ref)
    requires Linked(r) && KindOk(r, pend, d) && LogOk(r, d) && RefOk(r, s.deaths[d].ref)
    ensures InvP(r, pend)
  {
    var f := s.deaths[d].ref;
    forall e: Did ensures KindOk(r, pend, e) && LogOk(r, e) {
      assert KindOk(s, pend, e) && LogOk(s, e);
    }
    forall k: RefId ensures RefOk(r, k) {
      assert RefOk(s, k);
    }
    forall n: NodeId ensures NodeOk(r, n) {
      assert NodeOk(s, n);
    }
  }

  /** Record `d` is unlinked and freed, after the events `es`, and ref `f` forgets it. */
  function Removed(s: State, d: Did, es: seq<Event>): State
    requires d in s.deaths && d in s.log
  {
    var f := s.deaths[d].ref;
    s.(queues := Unlink(s, d).queues, deaths := s.deaths - {d}, log := s.log[d := s.log[d] + es],
       refs := if f in s.refs && s.refs[f].death == Some(d) then s.refs[f := s.refs[f].(death := None)] else s.refs)
  }

  lemma RemovedIsFree(s: State, d: Did)
    requires d in s.deaths && d in s.log
    ensures Free(Unlink(s, d), d) == Removed(s, d, [Freed]).(refs := s.refs)
    ensures Free(Note(Unlink(s, d), d, SentDone), d) == Removed(s, d, [SentDone, Freed]).(refs := s.refs)
  {
    assert Unlink(s, d).deaths - {d} == s.deaths - {d};
    var l := s.log[d];
    assert l + [SentDone] + [Freed] == l + [SentDone, Freed];
    assert s.log[d := l + [SentDone]][d := l + [SentDone] + [Freed]] == s.log[d := l + [SentDone, Freed]];
  }

  lemma RemovedLinks(s: State, d: Did, es: seq<Event>)
    requires Linked(s) && d in s.deaths && d in s.log
    ensures Linked(Removed(s, d, es))
  {
    UnlinkKeeps(s, d);
    SameLinks(Unlink(s, d), Removed(s, d, es), d);
  }

  lemma RemovedKeeps(s: State, d: Did, es: seq<Event>)
    requires Inv(s) && d in s.deaths && d in s.log
    requires Accept(s.log[d] + es).Some? && Accept(s.log[d] + es).value.freed
    ensures Inv(Removed(s, d, es))
  {
    RemovedLinks(s, d, es);
    assert AtOk(s, d) && LogOk(s, d) && RefOk(s, s.deaths[d].ref);
    RecordFrame(s, Removed(s, d, es), {}, d);
  }

  // ---------------------------------------------------------------- commands of a client

  /** The list that takes work made by a command of thread `t`. */
  function WorkList(s: State, t: Tid): Queue
    requires t in s.threads
  {
    if s.threads[t].looper then Todo(t) else ProcTodo(s.threads[t].proc)
  }

  lemma WorkListExists(s: State, t: Tid)
    requires Linked(s) && t in s.threads
    ensures WorkList(s, t) in s.queues && OwnerOf(s, WorkList(s, t)) == Some(s.threads[t].proc)
  {
    assert ThreadOk(s, t) && QueueOk(s, WorkList(s, t));
  }

  function NewRecord(s: State, r: RefId, cookie: nat): State
    requires r in s.refs
  {
    s.(deaths := s.deaths[s.next := Record(r, s.refs[r].proc, cookie, Fresh, None)],
       refs := s.refs[r := s.refs[r].(death := Some(s.next))],
       log := s.log[s.next := []], next := s.next + 1)
  }

  /** BC_REQUEST_DEATH_NOTIFICATION of thread `t` on ref `r` of its process. */
  function Request(s: State, t: Tid, r: RefId, cookie: nat): State
    requires t in s.threads && r in s.refs && WorkList(s, t) in s.queues
  {
    if s.refs[r].death.Some? then s
    else if s.refs[r].node in s.nodes && s.nodes[s.refs[r].node].owner.Some? then NewRecord(s, r, cookie)
    else Link(NewRecord(s, r, cookie), s.next, WorkList(s, t), Dead)
  }

  lemma NewRecordLinked(s: State, r: RefId, cookie: nat)
    requires InvP(s, {}) && r in s.refs
    ensures Linked(NewRecord(s, r, cookie))
  {
    var x := NewRecord(s, r, cookie);
    assert RefOk(s, r) && AtOk(s, s.next);
    forall q: Queue ensures QueueOk(x, q) {
      assert QueueOk(s, q);
    }
    forall e: Did ensures AtOk(x, e) {
      assert AtOk(s, e);
    }
    forall t: Tid ensures ThreadOk(x, t) {
      assert ThreadOk(s, t);
    }
  }

  lemma RequestKeeps(s: State, t: Tid, r: RefId, cookie: nat)
    requires Inv(s) && t in s.threads && r in s.refs && s.refs[r].proc == s.threads[t].proc
    ensures WorkList(s, t) in s.queues && Inv(Request(s, t, r, cookie))
  {
    WorkListExists(s, t);
    if s.refs[r].death.None? {
      var d, x, y := s.next, NewRecord(s, r, cookie), Request(s, t, r, cookie);
      NewRecordLinked(s, r, cookie);
      if !Alive(s, s.refs[r].node) {
        LinkKeeps(x, d, WorkList(s, t), Dead);
      }
      assert RefOk(s, r) && AtOk(s, d) && LogOk(s, d);
      forall e: Did ensures KindOk(y, {}, e) && LogOk(y, e) {
        assert KindOk(s, {}, e) && LogOk(s, e);
      }
      forall k: RefId ensures RefOk(y, k) {
        assert RefOk(s, k);
      }
      forall n: NodeId ensures NodeOk(y, n) {
        assert NodeOk(s, n);
      }
    }
  }

  /** BC_CLEAR_DEATH_NOTIFICATION. */
  function ClearDeath(s: State, t: Tid, r: RefId, cookie: nat): State
    requires t in s.threads && r in s.refs && WorkList(s, t) in s.queues &&
      (s.refs[r].death.Some? ==> s.refs[r].death.value in s.deaths)
  {
    if s.refs[r].death.None? then s
    else
      var d := s.refs[r].death.value;
      if s.deaths[d].cookie != cookie then s
      else
        var u := Note(s.(refs := s.refs[r := s.refs[r].(death := None)]), d, Cleared);
        if s.deaths[d].at.None? then Link(u, d, WorkList(s, t), Clear)
        else u.(deaths := u.deaths[d := u.deaths[d].(kind := DeadAndClear)])
  }

  /** The record a clear request finds linked is a death notice: BUG_ON at the clear. */
  lemma LinkedAtClearIsDead(s: State, r: RefId)
    requires Inv(s) && r in s.refs && s.refs[r].death.Some?
    ensures s.refs[r].death.value in s.deaths
    ensures s.deaths[s.refs[r].death.value].at.Some? ==> s.deaths[s.refs[r].death.value].kind == Dead
  {
    assert RefOk(s, r) && KindOk(s, {}, s.refs[r].death.value);
  }

  /** The record goes to list `q` to be confirmed there. */
  function ClearedToList(s: State, r: RefId, d: Did, q: Queue): State
    requires r in s.refs && d in s.deaths && d in s.log && q in s.queues
  {
    Link(s, d, q, Clear).(refs := s.refs[r := s.refs[r].(death := None)], log := s.log[d := s.log[d] + [Cleared]])
  }

  /** Record `d` of ref `r` is in no list, and `q` is a list its process reads. */
  ghost predicate Confirmable(s: State, r: RefId, d: Did, q: Queue) {
    && Inv(s) && r in s.refs && s.refs[r].death == Some(d)
    && d in s.deaths && d in s.log && s.deaths[d].at.None? && s.deaths[d].ref == r
    && q in s.queues && OwnerOf(s, q) == Some(s.deaths[d].proc) && !q.Delivered?
  }

  lemma ClearedToListLinks(s: State, r: RefId, d: Did, q: Queue)
    requires Confirmable(s, r, d, q)
    ensures Linked(ClearedToList(s, r, d, q))
  {
    LinkKeeps(s, d, q, Clear);
    SameLinks(Link(s, d, q, Clear), ClearedToList(s, r, d, q), d);
  }

  lemma ClearedToListLog(s: State, r: RefId, d: Did, q: Queue)
    requires Confirmable(s, r, d, q)
    ensures LogOk(ClearedToList(s, r, d, q), d)
  {
    assert RefOk(s, r) && LogOk(s, d);
    AcceptAppend(s.log[d], Cleared);
  }

  lemma ClearedToListRecord(s: State, r: RefId, d: Did, q: Queue)
    requires Confirmable(s, r, d, q)
    ensures OnlyRecord(s, ClearedToList(s, r, d, q), d, r)
    ensures KindOk(ClearedToList(s, r, d, q), {}, d) && RefOk(ClearedToList(s, r, d, q), r)
  {
    assert RefOk(s, r);
  }

  lemma ClearUnlinkedKeeps(s: State, r: RefId, d: Did, q: Queue)
    requires Inv(s) && r in s.refs && s.refs[r].death == Some(d) && d in s.deaths && s.deaths[d].at.None?
    requires q in s.queues && OwnerOf(s, q) == Some(s.refs[r].proc) && !q.Delivered?
    ensures d in s.log && Inv(ClearedToList(s, r, d, q))
  {
    assert RefOk(s, r) && LogOk(s, d) && AtOk(s, d);
    ClearedToListLinks(s, r, d, q);
    ClearedToListLog(s, r, d, q);
    ClearedToListRecord(s, r, d, q);
    RecordFrame(s, ClearedToList(s, r, d, q), {}, d);
  }

  /** The record stays in its list and is to be confirmed after its notice was answered. */
  function ClearedInList(s: State, r: RefId, d: Did): State
    requires r in s.refs && d in s.deaths && d in s.log
  {
    s.(refs := s.refs[r := s.refs[r].(death := None)], log := s.log[d := s.log[d] + [Cleared]],
       deaths := s.deaths[d := s.deaths[d].(kind := DeadAndClear)])
  }

  ghost predicate Clearable(s: State, r: RefId, d: Did) {
    && Inv(s) && r in s.refs && s.refs[r].death == Some(d)
    && d in s.deaths && d in s.log && s.deaths[d].at.Some? && s.deaths[d].ref == r
  }

  lemma ClearedInListLinks(s: State, r: RefId, d: Did)
    requires Clearable(s, r, d)
    ensures Linked(ClearedInList(s, r, d))
  {
    SameLinks(s, ClearedInList(s, r, d), d);
  }

  lemma ClearedInListLog(s: State, r: RefId, d: Did)
    requires Clearable(s, r, d)
    ensures LogOk(ClearedInList(s, r, d), d)
  {
    LinkedAtClearIsDead(s, r);
    assert LogOk(s, d);
    AcceptAppend(s.log[d], Cleared);
  }

  lemma ClearedInListRecord(s: State, r: RefId, d: Did)
    requires Clearable(s, r, d)
    ensures OnlyRecord(s, ClearedInList(s, r, d), d, r)
    ensures KindOk(ClearedInList(s, r, d), {}, d) && RefOk(ClearedInList(s, r, d), r)
  {
    assert RefOk(s, r);
  }

  lemma ClearLinkedKeeps(s: State, r: RefId, d: Did)
    requires Inv(s) && r in s.refs && s.refs[r].death == Some(d) && d in s.deaths && s.deaths[d].at.Some?
    ensures d in s.log && Inv(ClearedInList(s, r, d))
  {
    assert RefOk(s, r) && LogOk(s, d) && AtOk(s, d);
    ClearedInListLinks(s, r, d);
    ClearedInListLog(s, r, d);
    ClearedInListRecord(s, r, d);
    RecordFrame(s, ClearedInList(s, r, d), {}, d);
  }

  lemma ClearKeeps(s: State, t: Tid, r: RefId, cookie: nat)
    requires Inv(s) && t in s.threads && r in s.refs && s.refs[r].proc == s.threads[t].proc
    ensures WorkList(s, t) in s.queues && (s.refs[r].death.Some? ==> s.refs[r].death.value in s.deaths)
    ensures Inv(ClearDeath(s, t, r, cookie))
  {
    WorkListExists(s, t);
    assert RefOk(s, r);
    if s.refs[r].death.Some? && s.deaths[s.refs[r].death.value].cookie == cookie {
      if s.deaths[s.refs[r].death.value].at.None? {
        ClearUnlinkedKeeps(s, r, s.refs[r].death.value, WorkList(s, t));
      } else {
        ClearLinkedKeeps(s, r, s.refs[r].death.value);
      }
    }
  }

  /** The first record of a list with a given cookie. */
  function FindCookie(s: State, xs: seq<Did>, cookie: nat): Option<Did>
    requires forall d: Did :: d in xs ==> d in s.deaths
  {
    if xs == [] then None
    else if s.deaths[xs[0]].cookie == cookie then Some(xs[0])
    else FindCookie(s, xs[1..], cookie)
  }

  lemma {:induction false} FoundIsListed(s: State, xs: seq<Did>, cookie: nat)
    requires forall d: Did :: d in xs ==> d in s.deaths
    ensures FindCookie(s, xs, cookie).Some? ==>
      FindCookie(s, xs, cookie).value in xs && s.deaths[FindCookie(s, xs, cookie).value].cookie == cookie
    ensures FindCookie(s, xs, cookie).None? ==> forall d: Did :: d in xs ==> s.deaths[d].cookie != cookie
  {
    if xs != [] {
      assert xs == [xs[0]] + xs[1..];
      FoundIsListed(s, xs[1..], cookie);
    }
  }

  /** BC_DEAD_BINDER_DONE, once the record has been found in the list of delivered ones. */
  function Acknowledge(s: State, t: Tid, d: Did): State
    requires t in s.threads && d in s.deaths && WorkList(s, t) in s.queues
  {
    var u := Unlink(s, d);
    if s.deaths[d].kind == DeadAndClear then Link(u, d, WorkList(s, t), Clear) else u
  }

  lemma AcknowledgeKeeps(s: State, t: Tid, d: Did)
    requires Inv(s) && t in s.threads && Delivered(s.threads[t].proc) in s.queues &&
      d in s.queues[Delivered(s.threads[t].proc)]
    ensures d in s.deaths && WorkList(s, t) in s.queues && Inv(Acknowledge(s, t, d))
  {
    WorkListExists(s, t);
    assert QueueOk(s, Delivered(s.threads[t].proc));
    assert AtOk(s, d) && KindOk(s, {}, d) && LogOk(s, d) && RefOk(s, s.deaths[d].ref);
    var u, y := Unlink(s, d), Acknowledge(s, t, d);
    UnlinkKeeps(s, d);
    if s.deaths[d].kind == DeadAndClear {
      LinkKeeps(u, d, WorkList(s, t), Clear);
    }
    RecordFrame(s, y, {}, d);
  }

  // ---------------------------------------------------------------- delivery

  /** The list a read of thread `t` takes its next death work from. */
  function ReadList(s: State, t: Tid): Queue
    requires t in s.threads
  {
    if Todo(t) in s.queues && s.queues[Todo(t)] != [] then Todo(t) else ProcTodo(s.threads[t].proc)
  }

  /** One iteration of the read loop on the first death record of that list. */
  function Deliver(s: State, t: Tid, d: Did): State
    requires t in s.threads && d in s.deaths && Delivered(s.threads[t].proc) in s.queues
  {
    var u := Unlink(s, d);
    if s.deaths[d].kind == Clear then Free(Note(u, d, SentDone), d)
    else Note(Link(u, d, Delivered(s.threads[t].proc), s.deaths[d].kind), d, SentDead)
  }

  lemma ConfirmKeeps(s: State, d: Did)
    requires Inv(s) && d in s.deaths && s.deaths[d].kind == Clear
    ensures Inv(Free(Note(Unlink(s, d), d, SentDone), d))
  {
    assert AtOk(s, d) && LogOk(s, d) && RefOk(s, s.deaths[d].ref);
    AcceptAppend(s.log[d], SentDone);
    AcceptAppend(s.log[d] + [SentDone], Freed);
    assert s.log[d] + [SentDone] + [Freed] == s.log[d] + [SentDone, Freed];
    RemovedKeeps(s, d, [SentDone, Freed]);
    RemovedIsFree(s, d);
  }

  lemma NoticeKeeps(s: State, d: Did)
    requires Inv(s) && d in s.deaths && s.deaths[d].kind != Clear && s.deaths[d].at.Some? &&
      !s.deaths[d].at.value.Delivered?
    ensures Delivered(s.deaths[d].proc) in s.queues
    ensures Inv(Note(Link(Unlink(s, d), d, Delivered(s.deaths[d].proc), s.deaths[d].kind), d, SentDead))
  {
    assert AtOk(s, d) && KindOk(s, {}, d) && LogOk(s, d) && RefOk(s, s.deaths[d].ref);
    assert QueueOk(s, Delivered(s.deaths[d].proc));
    var u := Unlink(s, d);
    UnlinkKeeps(s, d);
    var v := Link(u, d, Delivered(s.deaths[d].proc), s.deaths[d].kind);
    AcceptAppend(s.log[d], SentDead);
    LinkKeeps(u, d, Delivered(s.deaths[d].proc), s.deaths[d].kind);
    SameLinks(v, Note(v, d, SentDead), d);
    RecordFrame(s, Note(v, d, SentDead), {}, d);
  }

  lemma DeliverKeeps(s: State, t: Tid, d: Did)
    requires Inv(s) && t in s.threads && ReadList(s, t) in s.queues && d in s.queues[ReadList(s, t)]
    ensures d in s.deaths && Delivered(s.threads[t].proc) in s.queues && Inv(Deliver(s, t, d))
  {
    assert ThreadOk(s, t) && QueueOk(s, ReadList(s, t)) && QueueOk(s, Delivered(s.threads[t].proc)) && AtOk(s, d);
    if s.deaths[d].kind == Clear {
      ConfirmKeeps(s, d);
    } else {
      NoticeKeeps(s, d);
    }
  }

  // ---------------------------------------------------------------- teardown

  /** Queues the death record of one ref of a dying node. */
  function Notify(s: State, r: RefId): State
    requires r in s.refs && (s.refs[r].death.Some? ==>
      s.refs[r].death.value in s.deaths && ProcTodo(s.refs[r].proc) in s.queues)
  {
    if s.refs[r].death.None? then s else Link(s, s.refs[r].death.value, ProcTodo(s.refs[r].proc), Dead)
  }

  /** The record of a ref still to be notified is linked nowhere: BUG at node death. */
  lemma PendingIsUnlinked(s: State, pend: set<RefId>, r: RefId)
    requires InvP(s, pend) && r in s.refs && r in pend && s.refs[r].death.Some?
    ensures s.refs[r].death.value in s.deaths && s.deaths[s.refs[r].death.value].at.None?
    ensures s.deaths[s.refs[r].death.value].kind == Fresh
  {
    assert RefOk(s, r) && KindOk(s, pend, s.refs[r].death.value);
  }

  lemma NotifyKeeps(s: State, pend: set<RefId>, r: RefId)
    requires InvP(s, pend) && r in s.refs && r in pend && !Alive(s, s.refs[r].node)
    ensures s.refs[r].death.Some? ==> s.refs[r].death.value in s.deaths && ProcTodo(s.refs[r].proc) in s.queues
    ensures InvP(Notify(s, r), pend - {r})
  {
    assert RefOk(s, r) && QueueOk(s, ProcTodo(s.refs[r].proc));
    var y := Notify(s, r);
    if s.refs[r].death.Some? {
      PendingIsUnlinked(s, pend, r);
      LinkKeeps(s, s.refs[r].death.value, ProcTodo(s.refs[r].proc), Dead);
      assert LogOk(s, s.refs[r].death.value);
    }
    forall e: Did ensures KindOk(y, pend - {r}, e) && LogOk(y, e) {
      assert KindOk(s, pend, e) && LogOk(s, e);
    }
    forall k: RefId ensures RefOk(y, k) {
      assert RefOk(s, k);
    }
    forall n: NodeId ensures NodeOk(y, n) {
      assert NodeOk(s, n);
    }
  }

  /** The records of the refs `rs` that go to list `q`, in order. */
  function Notices(refs: map<RefId, Ref>, rs: seq<RefId>, q: Queue): (ds: seq<Did>)
    requires forall r: RefId :: r in rs ==> r in refs
    ensures forall r: RefId :: r in rs && refs[r].death.Some? && ProcTodo(refs[r].proc) == q ==>
      refs[r].death.value in ds
  {
    if rs == [] then []
    else
      assert rs == [rs[0]] + rs[1..];
      var x := refs[rs[0]];
      (if x.death.Some? && ProcTodo(x.proc) == q then [x.death.value] else []) + Notices(refs, rs[1..], q)
  }

  /** Exactly the records of the refs `rs` are queued, each to its own process. */
  ghost predicate NoticesQueued(s: State, y: State, rs: seq<RefId>)
    requires forall r: RefId :: r in rs ==> r in s.refs
  {
    && y == s.(queues := y.queues, deaths := y.deaths)
    && y.queues.Keys == s.queues.Keys && y.deaths.Keys == s.deaths.Keys
    && ListsGrow(s.refs, s.queues, y.queues, rs)
    && (forall d: Did :: d in s.deaths ==> y.deaths[d] == NoticeOf(s, rs, d))
  }

  ghost predicate ListsGrow(refs: map<RefId, Ref>, x: map<Queue, seq<Did>>, y: map<Queue, seq<Did>>, rs: seq<RefId>)
    requires forall r: RefId :: r in rs ==> r in refs
  {
    forall q: Queue :: q in x && q in y ==> y[q] == x[q] + Notices(refs, rs, q)
  }

  /** Record `d` once the refs `rs` have been told. */
  function NoticeOf(s: State, rs: seq<RefId>, d: Did): Record
    requires d in s.deaths
  {
    var x := s.deaths[d];
    if x.ref in rs && x.ref in s.refs &&
      s.refs[x.ref].death == Some(d) then x.(kind := Dead, at := Some(ProcTodo(x.proc)))
    else x
  }

  /** What one turn of the loop does to a record. */
  lemma NotifyRecord(s: State, pend: set<RefId>, r: RefId, d: Did)
    requires InvP(s, pend) && r in s.refs && r in pend && d in s.deaths
    ensures s.refs[r].death.Some? ==> s.refs[r].death.value in s.deaths && ProcTodo(s.refs[r].proc) in s.queues
    ensures d in Notify(s, r).deaths && Notify(s, r).deaths[d] == NoticeOf(s, [r], d)
  {
    assert RefOk(s, r) && QueueOk(s, ProcTodo(s.refs[r].proc));
  }

  lemma NoticesCons(refs: map<RefId, Ref>, rs: seq<RefId>, q: Queue)
    requires rs != [] && forall r: RefId :: r in rs ==> r in refs
    ensures rs[0] in refs && (forall r: RefId :: r in rs[1..] ==> r in refs)
    ensures Notices(refs, rs, q) == Notices(refs, [rs[0]], q) + Notices(refs, rs[1..], q)
  {
    assert rs == [rs[0]] + rs[1..];
    assert [rs[0]][1..] == [];
  }

  lemma ListsGrowAgain(refs: map<RefId, Ref>, x: map<Queue, seq<Did>>, u: map<Queue, seq<Did>>, y: map<Queue,
    seq<Did>>, rs: seq<RefId>)
    requires rs != [] && (forall r: RefId :: r in rs ==> r in refs) && x.Keys == u.Keys == y.Keys
    requires ListsGrow(refs, x, u, [rs[0]]) && ListsGrow(refs, u, y, rs[1..])
    ensures ListsGrow(refs, x, y, rs)
  {
    forall q: Queue | q in x && q in y ensures y[q] == x[q] + Notices(refs, rs, q) {
      NoticesCons(refs, rs, q);
      Assoc(x[q], Notices(refs, [rs[0]], q), Notices(refs, rs[1..], q));
    }
  }

  lemma Assoc(x: seq<Did>, a: seq<Did>, b: seq<Did>)
    ensures x + a + b == x + (a + b)
  {
  }

  lemma NotifyAgainRecord(s: State, u: State, y: State, rs: seq<RefId>, d: Did)
    requires rs != [] && (forall r: RefId :: r in rs ==> r in s.refs) && u.refs == s.refs
    requires NoticesQueued(s, u, [rs[0]]) && NoticesQueued(u, y, rs[1..]) && d in s.deaths
    ensures d in y.deaths && y.deaths[d] == NoticeOf(s, rs, d)
  {
    assert rs == [rs[0]] + rs[1..];
    assert u.deaths[d] == NoticeOf(s, [rs[0]], d) && y.deaths[d] == NoticeOf(u, rs[1..], d);
  }

  lemma NotifyAgain(s: State, u: State, y: State, rs: seq<RefId>)
    requires rs != [] && (forall r: RefId :: r in rs ==> r in s.refs) && u.refs == s.refs
    requires NoticesQueued(s, u, [rs[0]]) && NoticesQueued(u, y, rs[1..])
    ensures NoticesQueued(s, y, rs)
  {
    ListsGrowAgain(s.refs, s.queues, u.queues, y.queues, rs);
    forall d: Did | d in s.deaths ensures y.deaths[d] == NoticeOf(s, rs, d) {
      NotifyAgainRecord(s, u, y, rs, d);
    }
  }

  lemma NotifyOne(s: State, pend: set<RefId>, r: RefId)
    requires InvP(s, pend) && r in s.refs && r in pend
    ensures s.refs[r].death.Some? ==> s.refs[r].death.value in s.deaths && ProcTodo(s.refs[r].proc) in s.queues
    ensures NoticesQueued(s, Notify(s, r), [r])
  {
    assert RefOk(s, r) && QueueOk(s, ProcTodo(s.refs[r].proc));
    assert [r][1..] == [];
    forall d: Did | d in s.deaths ensures d in Notify(s, r).deaths && Notify(s, r).deaths[d] == NoticeOf(s, [r], d) {
      NotifyRecord(s, pend, r, d);
    }
  }

  /** The loop of binder_node_release over the refs of the node. */
  ghost function NotifyAll(s: State, n: NodeId, rs: seq<RefId>): (y: State)
    requires InvP(s, SetOf(rs)) && Distinct(rs) && !Alive(s, n) && forall r: RefId :: r in rs ==>
      r in s.refs && s.refs[r].node == n
    ensures Inv(y) && NoticesQueued(s, y, rs)
    decreases |rs|
  {
    if rs == [] then
      assert SetOf(rs) == {};
      s
    else
      assert rs == [rs[0]] + rs[1..];
      NotifyKeeps(s, SetOf(rs), rs[0]);
      NotifyOne(s, SetOf(rs), rs[0]);
      assert SetOf(rs) - {rs[0]} == SetOf(rs[1..]);
      var y := NotifyAll(Notify(s, rs[0]), n, rs[1..]);
      NotifyAgain(s, Notify(s, rs[0]), y, rs);
      y
  }

  function Orphan(s: State, n: NodeId): State
    requires n in s.nodes
  {
    s.(nodes := s.nodes[n := s.nodes[n].(owner := None)])
  }

  lemma OrphanKeeps(s: State, n: NodeId)
    requires Inv(s) && Alive(s, n)
    ensures InvP(Orphan(s, n), SetOf(s.nodes[n].refs))
  {
    var y := Orphan(s, n);
    forall q: Queue ensures QueueOk(y, q) {
      assert QueueOk(s, q);
    }
    forall t: Tid ensures ThreadOk(y, t) {
      assert ThreadOk(s, t);
    }
    forall e: Did ensures AtOk(y, e) && KindOk(y, SetOf(s.nodes[n].refs), e) && LogOk(y, e) {
      assert AtOk(s, e) && KindOk(s, {}, e) && LogOk(s, e);
      assert e in s.deaths ==> RefOk(s, s.deaths[e].ref);
      assert NodeOk(s, n);
    }
    forall k: RefId ensures RefOk(y, k) {
      assert RefOk(s, k);
    }
    forall m: NodeId ensures NodeOk(y, m) {
      assert NodeOk(s, m);
    }
  }

  /** binder_node_release. */
  ghost function NodeDies(s: State, n: NodeId): (y: State)
    requires Inv(s) && Alive(s, n)
    ensures Inv(y) && (forall r: RefId :: r in s.nodes[n].refs ==> r in s.refs)
    ensures NoticesQueued(s, y.(nodes := s.nodes), s.nodes[n].refs)
    ensures y.nodes == s.nodes[n := s.nodes[n].(owner := None)]
  {
    OrphanKeeps(s, n);
    assert NodeOk(s, n);
    NotifyAll(Orphan(s, n), n, s.nodes[n].refs)
  }

  /** The record part of binder_delete_ref. */
  function DropRecord(s: State, r: RefId): State
    requires r in s.refs && (s.refs[r].death.Some? ==> s.refs[r].death.value in s.deaths)
  {
    if s.refs[r].death.None? then s
    else
      var d := s.refs[r].death.value;
      Free(Unlink(s, d), d).(refs := s.refs[r := s.refs[r].(death := None)])
  }

  lemma DropRecordKeeps(s: State, r: RefId)
    requires Inv(s) && r in s.refs && s.refs[r].death.Some?
    ensures s.refs[r].death.value in s.deaths && Inv(DropRecord(s, r))
  {
    var d := s.refs[r].death.value;
    assert RefOk(s, r) && LogOk(s, d) && AtOk(s, d);
    AcceptAppend(s.log[d], Freed);
    RemovedKeeps(s, d, [Freed]);
    RemovedIsFree(s, d);
  }

  function RemoveRef(u: State, r: RefId): State
    requires r in u.refs && u.refs[r].node in u.nodes
  {
    var n := u.refs[r].node;
    u.(refs := u.refs - {r}, nodes := u.nodes[n := u.nodes[n].(refs := Without(u.nodes[n].refs, r))])
  }

  /** binder_delete_ref. */
  function DeleteRef(s: State, r: RefId): State
    requires r in s.refs && s.refs[r].node in s.nodes && (s.refs[r].death.Some? ==> s.refs[r].death.value in s.deaths)
  {
    RemoveRef(DropRecord(s, r), r)
  }

  lemma RemoveRefKeeps(u: State, r: RefId)
    requires Inv(u) && r in u.refs && u.refs[r].node in u.nodes && u.refs[r].death.None?
    ensures Inv(RemoveRef(u, r))
  {
    var y := RemoveRef(u, r);
    SameLinks(u, y, 0);
    forall e: Did ensures KindOk(y, {}, e) && LogOk(y, e) {
      assert KindOk(u, {}, e) && LogOk(u, e);
      assert e in u.deaths ==> RefOk(u, u.deaths[e].ref);
    }
    forall k: RefId ensures RefOk(y, k) {
      assert RefOk(u, k) && NodeOk(u, u.refs[r].node);
    }
    forall n: NodeId ensures NodeOk(y, n) {
      assert NodeOk(u, n);
    }
  }

  lemma DeleteRefKeeps(s: State, r: RefId)
    requires Inv(s) && r in s.refs
    ensures s.refs[r].node in s.nodes && (s.refs[r].death.Some? ==> s.refs[r].death.value in s.deaths)
    ensures Inv(DeleteRef(s, r))
  {
    assert RefOk(s, r);
    if s.refs[r].death.Some? {
      DropRecordKeeps(s, r);
    }
    RemoveRefKeeps(DropRecord(s, r), r);
  }

  /** One iteration of binder_release_work. */
  function ReleaseOne(s: State, d: Did): State
    requires d in s.deaths
  {
    if IsCleared(s.deaths[d]) then Free(Unlink(s, d), d) else Unlink(s, d)
  }

  lemma ReleaseOneKeeps(s: State, d: Did)
    requires Inv(s) && d in s.deaths && s.deaths[d].at.Some?
    ensures Inv(ReleaseOne(s, d))
  {
    assert AtOk(s, d) && KindOk(s, {}, d) && LogOk(s, d) && RefOk(s, s.deaths[d].ref);
    if IsCleared(s.deaths[d]) {
      AcceptAppend(s.log[d], Freed);
      RemovedKeeps(s, d, [Freed]);
      RemovedIsFree(s, d);
    } else {
      UnlinkKeeps(s, d);
      RecordFrame(s, ReleaseOne(s, d), {}, d);
    }
  }

  /** Only `q` becomes shorter. */
  ghost predicate Shortened(s: State, y: State, q: Queue)
    requires q in s.queues
  {
    && q in y.queues && |y.queues[q]| < |s.queues[q]| && y.queues.Keys == s.queues.Keys
    && (forall k: Queue :: k in s.queues && k != q ==> y.queues[k] == s.queues[k])
    && y.nodes == s.nodes && y.refs == s.refs && y.procs == s.procs && y.threads == s.threads
  }

  predicate IsCleared(x: Record) {
    x.kind == DeadAndClear || x.kind == Clear
  }

  /** Record `d` once list `q` has been released: a cleared one is freed, any other unlinked. */
  ghost predicate Released(s: State, y: State, q: Queue, d: Did)
    requires q in s.queues
  {
    && (d in y.log <==> d in s.log)
    && (d in s.queues[q] && d in s.deaths && IsCleared(s.deaths[d]) ==>
          d !in y.deaths && d in s.log && d in y.log && y.log[d] == s.log[d] + [Freed])
    && (d in s.queues[q] && d in s.deaths && !IsCleared(s.deaths[d]) ==>
          d in y.deaths && y.deaths[d] == s.deaths[d].(at := None))
    && (d !in s.queues[q] || d !in s.deaths ==>
          (d in y.deaths <==> d in s.deaths) && (d in s.deaths ==> y.deaths[d] == s.deaths[d]))
    && (d in s.log && (d !in s.queues[q] || d !in s.deaths || !IsCleared(s.deaths[d])) ==>
      d in y.log && y.log[d] == s.log[d])
  }

  lemma ReleaseQueues(s: State, q: Queue, d: Did)
    requires q in s.queues && d in s.deaths && s.deaths[d].at == Some(q)
    ensures ReleaseOne(s, d) == s.(queues := s.queues[q := Without(s.queues[q], d)],
      deaths := ReleaseOne(s, d).deaths, log := ReleaseOne(s, d).log)
  {
  }

  lemma ReleaseShortens(s: State, y: State, q: Queue, d: Did)
    requires q in s.queues && d in s.queues[q]
    requires y == s.(queues := s.queues[q := Without(s.queues[q], d)], deaths := y.deaths, log := y.log)
    ensures Shortened(s, y, q)
  {
  }

  lemma ReleaseHead(s: State, q: Queue)
    requires Inv(s) && q in s.queues && s.queues[q] != []
    ensures s.queues[q][0] in s.deaths && s.deaths[s.queues[q][0]].at == Some(q) && Distinct(s.queues[q])
    ensures Inv(ReleaseOne(s, s.queues[q][0])) && Shortened(s, ReleaseOne(s, s.queues[q][0]), q)
    ensures ReleaseOne(s, s.queues[q][0]).queues == s.queues[q := Without(s.queues[q], s.queues[q][0])]
  {
    assert s.queues[q][0] in s.queues[q] && QueueOk(s, q);
    ReleaseQueues(s, q, s.queues[q][0]);
    ReleaseShortens(s, ReleaseOne(s, s.queues[q][0]), q, s.queues[q][0]);
    ReleaseOneKeeps(s, s.queues[q][0]);
  }

  /** The first record of a list is released and no other. */
  lemma ReleaseHeadRecord(s: State, q: Queue, d: Did)
    requires Inv(s) && q in s.queues && s.queues[q] != [] && s.queues[q][0] in s.deaths
    ensures var h, u := s.queues[q][0], ReleaseOne(s, s.queues[q][0]);
      Released(s.(queues := s.queues[q := [h]]), u, q, d)
  {
    assert LogOk(s, s.queues[q][0]) && AtOk(s, s.queues[q][0]) && QueueOk(s, q);
    assert s.queues[q][0] in s.queues[q];
  }

  lemma ReleaseRest(s: State, u: State, y: State, q: Queue, h: Did, d: Did)
    requires q in s.queues && q in u.queues && Distinct(s.queues[q]) && h in s.queues[q]
    requires u.queues[q] == Without(s.queues[q], h)
    requires Released(s.(queues := s.queues[q := [h]]), u, q, d) && Released(u, y, q, d)
    ensures Released(s, y, q, d)
  {
  }

  ghost predicate AllReleased(s: State, y: State, q: Queue)
    requires q in s.queues
  {
    forall d: Did {:trigger Released(s, y, q, d)} :: Released(s, y, q, d)
  }

  lemma ReleaseChain(s: State, q: Queue, y: State)
    requires Inv(s) && q in s.queues && s.queues[q] != [] && s.queues[q][0] in s.deaths && Distinct(s.queues[q])
    requires var u := ReleaseOne(s, s.queues[q][0]);
      q in u.queues && u.queues[q] == Without(s.queues[q], s.queues[q][0]) && AllReleased(u, y, q)
    ensures AllReleased(s, y, q)
  {
    var h, u := s.queues[q][0], ReleaseOne(s, s.queues[q][0]);
    forall d: Did ensures Released(s, y, q, d) {
      ReleaseHeadRecord(s, q, d);
      assert Released(u, y, q, d) && h in s.queues[q];
      ReleaseRest(s, u, y, q, h, d);
    }
  }

  /** binder_release_work: the list is emptied, its cleared records are freed, the others are
      only unlinked, and nothing else changes. */
  ghost function ReleaseWork(s: State, q: Queue): (y: State)
    requires Inv(s) && q in s.queues
    ensures Inv(y) && y == s.(queues := s.queues[q := []], deaths := y.deaths, log := y.log)
    ensures AllReleased(s, y, q)
    decreases |s.queues[q]|
  {
    if s.queues[q] == [] then s
    else
      ReleaseHead(s, q);
      var y := ReleaseWork(ReleaseOne(s, s.queues[q][0]), q);
      ReleaseChain(s, q, y);
      y
  }

  /** The death part of binder_free_thread. */
  ghost function ExitThread(s: State, t: Tid): State
    requires Inv(s) && t in s.threads && Todo(t) in s.queues
  {
    var u := ReleaseWork(s, Todo(t));
    u.(threads := u.threads - {t}, queues := u.queues - {Todo(t)})
  }

  lemma ExitThreadKeeps(s: State, t: Tid)
    requires Inv(s) && t in s.threads
    ensures Todo(t) in s.queues && Inv(ExitThread(s, t))
  {
    assert QueueOk(s, Todo(t));
    var u, y := ReleaseWork(s, Todo(t)), ExitThread(s, t);
    forall q: Queue ensures QueueOk(y, q) {
      assert QueueOk(u, q);
    }
    forall k: Tid ensures ThreadOk(y, k) {
      assert ThreadOk(u, k);
    }
    forall e: Did ensures AtOk(y, e) && KindOk(y, {}, e) && LogOk(y, e) {
      assert AtOk(u, e) && KindOk(u, {}, e) && LogOk(u, e);
    }
    forall k: RefId ensures RefOk(y, k) {
      assert RefOk(u, k);
    }
    forall n: NodeId ensures NodeOk(y, n) {
      assert NodeOk(u, n);
    }
  }

  /** Process `p` has no thread, no node and no ref left. */
  ghost predicate Bare(s: State, p: Pid) {
    && (forall t: Tid :: t in s.threads ==> s.threads[t].proc != p)
    && (forall n: NodeId :: n in s.nodes ==> s.nodes[n].owner != Some(p))
    && (forall r: RefId :: r in s.refs ==> s.refs[r].proc != p)
  }

  function Retire(s: State, p: Pid): State {
    s.(procs := s.procs - {p}, queues := s.queues - {ProcTodo(p), Delivered(p)})
  }

  /** The end of binder_deferred_release, after its threads, nodes and refs: the work still
      queued to the process, then the delivered death records. */
  ghost function CloseProc(s: State, p: Pid): State
    requires Inv(s) && p in s.procs && ProcTodo(p) in s.queues && Delivered(p) in s.queues
  {
    Retire(ReleaseWork(ReleaseWork(s, ProcTodo(p)), Delivered(p)), p)
  }

  ghost predicate Emptied(s: State, p: Pid) {
    && ProcTodo(p) in s.queues && s.queues[ProcTodo(p)] == []
    && Delivered(p) in s.queues && s.queues[Delivered(p)] == []
  }

  /** Once its lists are empty, a bare process has no record left. */
  lemma BareHasNoRecords(s: State, p: Pid, d: Did)
    requires Inv(s) && Bare(s, p) && Emptied(s, p) && d in s.deaths
    ensures s.deaths[d].proc != p
  {
    assert AtOk(s, d) && KindOk(s, {}, d) && RefOk(s, s.deaths[d].ref);
  }

  lemma RetireKeeps(u: State, p: Pid)
    requires Inv(u) && Bare(u, p) && Emptied(u, p)
    ensures Inv(Retire(u, p)) && forall d: Did :: d in Retire(u, p).deaths ==> Retire(u, p).deaths[d].proc != p
  {
    var y := Retire(u, p);
    forall q: Queue ensures QueueOk(y, q) {
      assert QueueOk(u, q);
    }
    forall k: Tid ensures ThreadOk(y, k) {
      assert ThreadOk(u, k);
    }
    forall e: Did ensures AtOk(y, e) && KindOk(y, {}, e) && LogOk(y, e) && (e in y.deaths ==> y.deaths[e].proc != p) {
      assert AtOk(u, e) && KindOk(u, {}, e) && LogOk(u, e);
      if e in u.deaths {
        BareHasNoRecords(u, p, e);
      }
    }
    forall k: RefId ensures RefOk(y, k) {
      assert RefOk(u, k);
    }
    forall n: NodeId ensures NodeOk(y, n) {
      assert NodeOk(u, n);
    }
  }

  lemma CloseProcKeeps(s: State, p: Pid)
    requires Inv(s) && p in s.procs && Bare(s, p)
    ensures ProcTodo(p) in s.queues && Delivered(p) in s.queues && Inv(CloseProc(s, p))
    ensures forall d: Did :: d in CloseProc(s, p).deaths ==> CloseProc(s, p).deaths[d].proc != p
  {
    assert QueueOk(s, ProcTodo(p)) && QueueOk(s, Delivered(p));
    RetireKeeps(ReleaseWork(ReleaseWork(s, ProcTodo(p)), Delivered(p)), p);
  }

  // ---------------------------------------------------------------- making things

  function OpenProc(s: State, p: Pid): State {
    s.(procs := s.procs + {p}, queues := s.queues[ProcTodo(p) := []][Delivered(p) := []])
  }

  function NewThread(s: State, t: Tid, p: Pid): State {
    s.(threads := s.threads[t := Thread(p, false)], queues := s.queues[Todo(t) := []])
  }

  function EnterLooper(s: State, t: Tid): State
    requires t in s.threads
  {
    s.(threads := s.threads[t := s.threads[t].(looper := true)])
  }

  function NewNode(s: State, n: NodeId, p: Pid): State {
    s.(nodes := s.nodes[n := Node(Some(p), [])])
  }

  /** A new ref goes to the head of the node's list. */
  function NewRef(s: State, p: Pid, n: NodeId): State
    requires n in s.nodes
  {
    s.(refs := s.refs[s.nextRef := Ref(p, n, None)], nextRef := s.nextRef + 1,
       nodes := s.nodes[n := s.nodes[n].(refs := [s.nextRef] + s.nodes[n].refs)])
  }

  /** Steps that add a process, a thread, a node or a ref leave every record alone. */
  lemma GrowthKeeps(s: State, y: State)
    requires Inv(s)
    requires y.deaths == s.deaths && y.log == s.log && y.next == s.next && s.nextRef <= y.nextRef && s.procs <= y.procs
    requires forall q: Queue :: QueueOk(s, q) ==> QueueOk(y, q)
    requires forall q: Queue :: q in s.queues ==>
      q in y.queues && y.queues[q] == s.queues[q] && OwnerOf(y, q) == OwnerOf(s, q)
    requires forall t: Tid :: t in y.threads ==> y.threads[t].proc in y.procs
    requires forall r: RefId :: r in s.refs ==> r in y.refs && y.refs[r] == s.refs[r]
    requires forall n: NodeId :: n in s.nodes ==> n in y.nodes && y.nodes[n].owner == s.nodes[n].owner
    requires forall r: RefId :: r in y.refs ==> RefOk(s, r) ==> RefOk(y, r)
    requires forall n: NodeId :: NodeOk(s, n) ==> NodeOk(y, n)
    ensures Inv(y)
  {
    forall q: Queue ensures QueueOk(y, q) {
      assert QueueOk(s, q);
    }
    forall k: Tid ensures ThreadOk(y, k) {
    }
    forall e: Did ensures AtOk(y, e) && KindOk(y, {}, e) && LogOk(y, e) {
      assert AtOk(s, e) && KindOk(s, {}, e) && LogOk(s, e);
      assert e in s.deaths ==> RefOk(s, s.deaths[e].ref);
    }
    forall k: RefId ensures RefOk(y, k) {
      assert RefOk(s, k);
    }
    forall n: NodeId ensures NodeOk(y, n) {
      assert NodeOk(s, n);
    }
  }

  lemma OpenProcKeeps(s: State, p: Pid)
    requires Inv(s) && p !in s.procs
    ensures Inv(OpenProc(s, p))
  {
    var y := OpenProc(s, p);
    assert QueueOk(s, ProcTodo(p)) && QueueOk(s, Delivered(p));
    forall t: Tid | t in y.threads ensures y.threads[t].proc in y.procs {
      assert ThreadOk(s, t);
    }
    GrowthKeeps(s, y);
  }

  lemma NewThreadKeeps(s: State, t: Tid, p: Pid)
    requires Inv(s) && t !in s.threads && p in s.procs
    ensures Inv(NewThread(s, t, p))
  {
    var y := NewThread(s, t, p);
    assert QueueOk(s, Todo(t));
    forall k: Tid | k in y.threads ensures y.threads[k].proc in y.procs {
      assert ThreadOk(s, k);
    }
    GrowthKeeps(s, y);
  }

  lemma EnterLooperKeeps(s: State, t: Tid)
    requires Inv(s) && t in s.threads
    ensures Inv(EnterLooper(s, t))
  {
    var y := EnterLooper(s, t);
    forall k: Tid | k in y.threads ensures y.threads[k].proc in y.procs {
      assert ThreadOk(s, k);
    }
    GrowthKeeps(s, y);
  }

  lemma NewNodeKeeps(s: State, n: NodeId, p: Pid)
    requires Inv(s) && n !in s.nodes && p in s.procs
    ensures Inv(NewNode(s, n, p))
  {
    var y := NewNode(s, n, p);
    forall k: Tid | k in y.threads ensures y.threads[k].proc in y.procs {
      assert ThreadOk(s, k);
    }
    GrowthKeeps(s, y);
  }

  lemma NewRefKeeps(s: State, p: Pid, n: NodeId)
    requires Inv(s) && n in s.nodes && p in s.procs
    ensures Inv(NewRef(s, p, n))
  {
    var y := NewRef(s, p, n);
    assert RefOk(s, s.nextRef);
    forall k: Tid | k in y.threads ensures y.threads[k].proc in y.procs {
      assert ThreadOk(s, k);
    }
    GrowthKeeps(s, y);
  }

  // ---------------------------------------------------------------- runs

  /** The atomic steps.  A process release is a run of them: the threads exit, the nodes die,
      the refs are deleted, and the process is closed. */
  datatype Op =
    | Open(p: Pid)
    | Start(t: Tid, p: Pid)
    | Loop(t: Tid)
    | Publish(n: NodeId, p: Pid)
    | Learn(p: Pid, n: NodeId)
    | Ask(t: Tid, r: RefId, cookie: nat)
    | Revoke(t: Tid, r: RefId, cookie: nat)
    | Answer(t: Tid, cookie: nat)
    | Read(t: Tid)
    | Forget(r: RefId)
    | Exit(t: Tid)
    | Die(n: NodeId)
    | Close(p: Pid)

  ghost predicate Enabled(s: State, op: Op) {
    match op
    case Open(p) => p !in s.procs
    case Start(t, p) => t !in s.threads && p in s.procs
    case Loop(t) => t in s.threads
    case Publish(n, p) => n !in s.nodes && p in s.procs
    case Learn(p, n) => n in s.nodes && p in s.procs
    case Ask(t, r, cookie) => t in s.threads && r in s.refs && s.refs[r].proc == s.threads[t].proc
    case Revoke(t, r, cookie) => t in s.threads && r in s.refs && s.refs[r].proc == s.threads[t].proc
    case Answer(t, cookie) => t in s.threads
    case Read(t) => t in s.threads
    case Forget(r) => r in s.refs
    case Exit(t) => t in s.threads
    case Die(n) => Alive(s, n)
    case Close(p) => p in s.procs && Bare(s, p)
  }

  /** BC_DEAD_BINDER_DONE: the first delivered record with the cookie, if any. */
  ghost function DoneStep(s: State, t: Tid, cookie: nat): (y: State)
    requires Inv(s) && t in s.threads
    ensures Inv(y)
  {
    var q := Delivered(s.threads[t].proc);
    assert ThreadOk(s, t) && QueueOk(s, q);
    var found := FindCookie(s, s.queues[q], cookie);
    FoundIsListed(s, s.queues[q], cookie);
    match found
    case None => s
    case Some(d) => AcknowledgeKeeps(s, t, d); Acknowledge(s, t, d)
  }

  ghost function ReadStep(s: State, t: Tid): (y: State)
    requires Inv(s) && t in s.threads
    ensures Inv(y)
  {
    var q := ReadList(s, t);
    assert ThreadOk(s, t) && QueueOk(s, q);
    if s.queues[q] == [] then s
    else
      DeliverKeeps(s, t, s.queues[q][0]);
      Deliver(s, t, s.queues[q][0])
  }

  ghost function Step(s: State, op: Op): (y: State)
    requires Inv(s) && Enabled(s, op)
    ensures Inv(y)
  {
    match op
    case Open(p) => OpenProcKeeps(s, p); OpenProc(s, p)
    case Start(t, p) => NewThreadKeeps(s, t, p); NewThread(s, t, p)
    case Loop(t) => EnterLooperKeeps(s, t); EnterLooper(s, t)
    case Publish(n, p) => NewNodeKeeps(s, n, p); NewNode(s, n, p)
    case Learn(p, n) => NewRefKeeps(s, p, n); NewRef(s, p, n)
    case Ask(t, r, cookie) => RequestKeeps(s, t, r, cookie); Request(s, t, r, cookie)
    case Revoke(t, r, cookie) => ClearKeeps(s, t, r, cookie); ClearDeath(s, t, r, cookie)
    case Answer(t, cookie) => DoneStep(s, t, cookie)
    case Read(t) => ReadStep(s, t)
    case Forget(r) => DeleteRefKeeps(s, r); DeleteRef(s, r)
    case Exit(t) => ExitThreadKeeps(s, t); ExitThread(s, t)
    case Die(n) => NodeDies(s, n)
    case Close(p) => CloseProcKeeps(s, p); CloseProc(s, p)
  }

  ghost predicate CanRun(s: State, ops: seq<Op>)
    requires Inv(s)
    decreases |ops|, 0
  {
    ops == [] || (CanRun(s, ops[..|ops| - 1]) && Enabled(Run(s, ops[..|ops| - 1]), ops[|ops| - 1]))
  }

  /** The state after the steps `ops`; the last one is taken last. */
  ghost function Run(s: State, ops: seq<Op>): (y: State)
    requires Inv(s) && CanRun(s, ops)
    ensures Inv(y)
    decreases |ops|, 1
  {
    if ops == [] then s else Step(Run(s, ops[..|ops| - 1]), ops[|ops| - 1])
  }

  lemma RunAppend(s: State, ops: seq<Op>, op: Op)
    requires Inv(s) && CanRun(s, ops) && Enabled(Run(s, ops), op)
    ensures CanRun(s, ops + [op]) && Run(s, ops + [op]) == Step(Run(s, ops), op)
  {
    assert (ops + [op])[..|ops|] == ops;
  }

  lemma InitOk()
    ensures Inv(Init)
  {
    forall q: Queue ensures QueueOk(Init, q) {
    }
    forall d: Did ensures AtOk(Init, d) && LogOk(Init, d) && KindOk(Init, {}, d) {
    }
  }

  /** `ops` is a run from the empty driver. */
  ghost predicate IsRun(ops: seq<Op>) {
    InitOk();
    CanRun(Init, ops)
  }

  /** The state after a run; a reachable state is one of these. */
  ghost function After(ops: seq<Op>): (s: State)
    requires IsRun(ops)
    ensures Inv(s)
  {
    InitOk();
    Run(Init, ops)
  }
}
