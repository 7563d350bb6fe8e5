/**
 Nodes, references and the reference commands the driver exchanges with a node's owner
 (driver/binder/binder.c).

 `heldStrong` and `heldWeak` count what live transaction buffers hold on a node: one strong
 count for the target of the transaction, one per translated object.  `log` is the stream of
 reference commands sent to the owner of each node ever created, `orphaned` the nodes whose
 process has been released; both are history.
 */
module BinderRefs {
  import opened Wrappers

  type Pid = nat
  type NodeId = nat
  type RefId = nat

  datatype Cmd = Increfs | Acquire | Release | Decrefs

  datatype Node = Node(
    owner: Option<Pid>, refs: set<RefId>,
    internalStrong: int, localStrong: int, localWeak: int,
    hasStrong: bool, pendStrong: bool, hasWeak: bool, pendWeak: bool,
    queued: bool)

  datatype Ref = Ref(proc: Pid, node: NodeId, desc: nat, strong: int, weak: int)

  datatype State = State(
    nodes: map<NodeId, Node>, refs: map<RefId, Ref>,
    byDesc: map<(Pid, nat), RefId>, byNode: map<(Pid, NodeId), RefId>,
    mgr: Option<NodeId>,
    heldStrong: multiset<NodeId>, heldWeak: multiset<NodeId>,
    log: map<NodeId, seq<Cmd>>, orphaned: set<NodeId>, nextNode: NodeId, nextRef: RefId)

  const Init := State(map[], map[], map[], map[], None, multiset{}, multiset{}, map[], {}, 0, 0)

  // ---------------------------------------------------------------- the command protocol

  datatype Phase = Idle | Weak | Strong

  /** One command of the protocol INCREFS (ACQUIRE RELEASE)* DECREFS. */
  function Advance(p: Phase, c: Cmd): Option<Phase> {
    match (p, c)
    case (Idle, Increfs) => Some(Weak)
    case (Weak, Acquire) => Some(Strong)
    case (Strong, Release) => Some(Weak)
    case (Weak, Decrefs) => Some(Idle)
    case _ => None
  }

  function Accept(log: seq<Cmd>): Option<Phase> {
    if log == [] then Some(Idle)
    else
      var p := Accept(log[..|log| - 1]);
      if p.None? then None else Advance(p.value, log[|log| - 1])
  }

  lemma AcceptAppend(log: seq<Cmd>, c: Cmd)
    ensures Accept(log + [c]) == if Accept(log).None? then None else Advance(Accept(log).value, c)
  {
    assert (log + [c])[..|log|] == log;
  }

  function Pairs(n: nat): seq<Cmd> {
    if n == 0 then [] else Pairs(n - 1) + [Acquire, Release]
  }

  /** (INCREFS (ACQUIRE RELEASE)^n DECREFS), one block per element of `eps`. */
  function Word(eps: seq<nat>): seq<Cmd> {
    if eps == [] then [] else Word(eps[..|eps| - 1]) + [Increfs] + Pairs(eps[|eps| - 1]) + [Decrefs]
  }

  /** What is still missing for a complete word. */
  function Closing(p: Phase): seq<Cmd> {
    match p case Idle => [] case Weak => [Decrefs] case Strong => [Release, Decrefs]
  }

  /** Accepted streams are exactly the unfinished words of the grammar. */
  lemma {:induction false} AcceptedIsPrefixOfWord(log: seq<Cmd>) returns (eps: seq<nat>, n: nat)
    requires Accept(log).Some?
    ensures log == match Accept(log).value
                   case Idle => Word(eps)
                   case Weak => Word(eps) + [Increfs] + Pairs(n)
                   case Strong => Word(eps) + [Increfs] + Pairs(n) + [Acquire]
    ensures Accept(log) == Some(Idle) ==> log == Word(eps)
    decreases |log|
  {
    if log == [] {
      return [], 0;
    }
    var rest, c := log[..|log| - 1], log[|log| - 1];
    assert log == rest + [c];
    eps, n := AcceptedIsPrefixOfWord(rest);
    match (Accept(rest).value, c)
    case (Idle, Increfs) =>
      n := 0;
      assert Word(eps) + [Increfs] + Pairs(0) == Word(eps) + [Increfs];
    case (Weak, Acquire) =>
    case (Strong, Release) =>
      assert Pairs(n + 1) == Pairs(n) + [Acquire, Release];
      assert log == Word(eps) + [Increfs] + (Pairs(n) + [Acquire, Release]);
      n := n + 1;
    case (Weak, Decrefs) =>
      assert (eps + [n])[..|eps|] == eps;
      eps := eps + [n];
  }

  // ---------------------------------------------------------------- counting on nodes

  function PhaseOf(n: Node): Phase {
    if n.hasStrong then Strong else if n.hasWeak then Weak else Idle
  }

  /** binder_inc_node; `listed` tells whether the caller passed a list to queue the node's work
      on.  The second result is false for -EINVAL. */
  function IncNode(n: Node, strong: bool, internal: bool, listed: bool, isMgr: bool): (Node, bool) {
    if strong then
      if internal && !listed && n.internalStrong == 0 && !(isMgr && n.hasStrong) then (n, false)
      else
        var m := if internal then n.(internalStrong := n.internalStrong + 1) else n.(localStrong := n.localStrong + 1);
        (if !m.hasStrong && listed then m.(queued := true) else m, true)
    else
      var m := if internal then n else n.(localWeak := n.localWeak + 1);
      if !m.hasWeak && !m.queued then
        if listed then (m.(queued := true), true) else (m, false)
      else (m, true)
  }

  /** binder_dec_node; None means that the node is freed. */
  function DecNode(n: Node, strong: bool, internal: bool): Option<Node> {
    var m := if strong then
               if internal then n.(internalStrong := n.internalStrong - 1) else n.(localStrong := n.localStrong - 1)
             else if internal then n else n.(localWeak := n.localWeak - 1);
    if (if strong then m.localStrong != 0 || m.internalStrong != 0 else m.localWeak != 0 || m.refs != {}) then Some(m)
    else if m.owner.Some? && (m.hasStrong || m.hasWeak) then Some(m.(queued := true))
    else if m.refs == {} && m.localStrong == 0 && m.localWeak == 0 then None
    else Some(m)
  }

  function PutNode(s: State, n: NodeId, m: Option<Node>): State {
    s.(nodes := if m.Some? then s.nodes[n := m.value] else s.nodes - {n})
  }

  // ---------------------------------------------------------------- the invariant

  ghost function RefsOf(s: State, n: NodeId): set<RefId> {
    set r: RefId | r in s.refs && s.refs[r].node == n
  }

  ghost function StrongOf(s: State, n: NodeId): set<RefId> {
    set r: RefId | r in s.refs && s.refs[r].node == n && s.refs[r].strong > 0
  }

  /** The counts of a node say exactly who refers to it. */
  ghost predicate CountsOk(s: State, n: NodeId) {
    n in s.nodes ==>
      var x := s.nodes[n];
      && x.refs == RefsOf(s, n) && x.internalStrong == |StrongOf(s, n)|
      && (x.owner.Some? ==>
            && x.localStrong == s.heldStrong[n] + One(x.pendStrong) + One(s.mgr == Some(n))
            && x.localWeak == s.heldWeak[n] + One(x.pendWeak) + One(s.mgr == Some(n)))
      && (x.owner.None? ==> x.localStrong == 0 && x.localWeak == 0 && s.heldStrong[n] == 0 && s.heldWeak[n] == 0
                            && s.mgr != Some(n) && !x.queued)
      && (x.pendStrong ==> x.hasStrong) && (x.pendWeak ==> x.hasWeak) && (x.hasStrong ==> x.hasWeak)
  }

  /** Nothing refers to a node that is gone. */
  ghost predicate GoneOk(s: State, n: NodeId) {
    && (n !in s.nodes ==> s.heldStrong[n] == 0 && s.heldWeak[n] == 0 && s.mgr != Some(n))
    && (n in s.nodes ==> n < s.nextNode)
  }

  /** A ref is filed under its descriptor and under its node. */
  ghost predicate RefOk(s: State, r: RefId) {
    r in s.refs ==>
      var x := s.refs[r];
      && r < s.nextRef && x.node in s.nodes && x.strong >= 0 && x.weak >= 0
      && (x.proc, x.desc) in s.byDesc && s.byDesc[(x.proc, x.desc)] == r
      && (x.proc, x.node) in s.byNode && s.byNode[(x.proc, x.node)] == r
  }

  ghost predicate DescOk(s: State, p: Pid, d: nat) {
    (p, d) in s.byDesc ==>
      s.byDesc[(p, d)] in s.refs && s.refs[s.byDesc[(p, d)]].proc == p && s.refs[s.byDesc[(p, d)]].desc == d
  }

  ghost predicate FileOk(s: State, p: Pid, n: NodeId) {
    (p, n) in s.byNode ==>
      s.byNode[(p, n)] in s.refs && s.refs[s.byNode[(p, n)]].proc == p && s.refs[s.byNode[(p, n)]].node == n
  }

  /** The commands sent so far form an unfinished word whose phase is the node's flags; a node
      freed while its process lived has had a complete word. */
  ghost predicate LogOk(s: State, n: NodeId) {
    && (n in s.log ==> n < s.nextNode)
    && (n in s.nodes ==>
          && n in s.log && Accept(s.log[n]) == Some(PhaseOf(s.nodes[n]))
          && (n in s.orphaned <==> s.nodes[n].owner.None?))
    && (n in s.log && n !in s.nodes && n !in s.orphaned ==> Accept(s.log[n]) == Some(Idle))
    && (n in s.log ==> Accept(s.log[n]).Some?)
    && (n in s.orphaned ==> n in s.log)
  }

  ghost predicate Inv(s: State) {
    && (forall n: NodeId {:trigger CountsOk(s, n)} :: CountsOk(s, n))
    && (forall n: NodeId {:trigger GoneOk(s, n)} :: GoneOk(s, n))
    && (forall r: RefId {:trigger RefOk(s, r)} :: RefOk(s, r))
    && (forall p: Pid, d: nat {:trigger DescOk(s, p, d)} :: DescOk(s, p, d))
    && (forall p: Pid, n: NodeId {:trigger FileOk(s, p, n)} :: FileOk(s, p, n))
    && (forall n: NodeId {:trigger LogOk(s, n)} :: LogOk(s, n))
  }

  /** Changes confined to node `n` and what buffers hold on it. */
  ghost predicate OnlyNode(s: State, r: State, n: NodeId) {
    && r == s.(nodes := r.nodes, heldStrong := r.heldStrong, heldWeak := r.heldWeak, log := r.log,
      orphaned := r.orphaned, mgr := r.mgr)
    && (forall k: NodeId :: k != n ==>
          && (k in r.nodes <==> k in s.nodes) && (k in s.nodes ==> r.nodes[k] == s.nodes[k])
          && r.heldStrong[k] == s.heldStrong[k] && r.heldWeak[k] == s.heldWeak[k]
          && (k in r.log <==> k in s.log) && (k in s.log ==> r.log[k] == s.log[k])
          && (k in r.orphaned <==> k in s.orphaned)
          && (r.mgr == Some(k) <==> s.mgr == Some(k)))
  }

  lemma NodeFrame(s: State, r: State, n: NodeId)
    requires Inv(s) && OnlyNode(s, r, n)
    requires CountsOk(r, n) && GoneOk(r, n) && LogOk(r, n)
    requires n in s.nodes && n !in r.nodes ==> RefsOf(s, n) == {}
    ensures Inv(r)
  {
    forall k: NodeId ensures CountsOk(r, k) && GoneOk(r, k) && LogOk(r, k) {
      assert CountsOk(s, k) && GoneOk(s, k) && LogOk(s, k);
      assert RefsOf(r, k) == RefsOf(s, k) && StrongOf(r, k) == StrongOf(s, k);
    }
    forall x: RefId ensures RefOk(r, x) {
      assert RefOk(s, x);
      assert x in s.refs && s.refs[x].node == n ==> x in RefsOf(s, n);
    }
    forall p: Pid, d: nat ensures DescOk(r, p, d) {
      assert DescOk(s, p, d);
    }
    forall p: Pid, k: NodeId ensures FileOk(r, p, k) {
      assert FileOk(s, p, k);
    }
  }

  /** A node with no refs has no strong refs. */
  lemma NoRefsNoStrong(s: State, n: NodeId)
    requires RefsOf(s, n) == {}
    ensures StrongOf(s, n) == {}
  {
    forall r: RefId | r in StrongOf(s, n) ensures r in RefsOf(s, n) {
    }
  }

  // ---------------------------------------------------------------- steps on nodes

  /** binder_new_node. */
  function NewNode(s: State, p: Pid): State {
    s.(nodes := s.nodes[s.nextNode := Node(Some(p), {}, 0, 0, 0, false, false, false, false, false)],
       log := s.log[s.nextNode := []], nextNode := s.nextNode + 1)
  }

  lemma NewNodeKeeps(s: State, p: Pid)
    requires Inv(s)
    ensures Inv(NewNode(s, p))
  {
    var n := s.nextNode;
    var t := s.(nextNode := n + 1);
    assert GoneOk(s, n) && LogOk(s, n);
    FreshIdsKeep(s, t);
    assert RefsOf(t, n) == {} && StrongOf(t, n) == {} by {
      forall r: RefId | r in t.refs ensures t.refs[r].node != n {
        assert RefOk(s, r);
      }
    }
    var r := NewNode(s, p);
    assert RefsOf(r, n) == RefsOf(t, n) && StrongOf(r, n) == StrongOf(t, n);
    NodeFrame(t, r, n);
  }

  lemma FreshIdsKeep(s: State, t: State)
    requires Inv(s) && t == s.(nextNode := t.nextNode, nextRef := t.nextRef) && s.nextNode <= t.nextNode &&
      s.nextRef <= t.nextRef
    ensures Inv(t)
  {
    forall k: NodeId ensures CountsOk(t, k) && GoneOk(t, k) && LogOk(t, k) {
      assert CountsOk(s, k) && GoneOk(s, k) && LogOk(s, k);
      assert RefsOf(t, k) == RefsOf(s, k) && StrongOf(t, k) == StrongOf(s, k);
    }
    forall x: RefId ensures RefOk(t, x) {
      assert RefOk(s, x);
    }
    forall p: Pid, d: nat ensures DescOk(t, p, d) {
      assert DescOk(s, p, d);
    }
    forall p: Pid, k: NodeId ensures FileOk(t, p, k) {
      assert FileOk(s, p, k);
    }
  }

  /** BINDER_SET_CONTEXT_MGR turns a new node into the context manager.  It starts with both
      counts taken, as if INCREFS and ACQUIRE had been sent and acknowledged. */
  function MakeManager(s: State, p: Pid): State {
    var n := s.nextNode;
    s.(nodes := s.nodes[n := Node(Some(p), {}, 0, 1, 1, true, false, true, false, false)],
       log := s.log[n := [Increfs, Acquire]], mgr := Some(n), nextNode := n + 1)
  }

  lemma MakeManagerKeeps(s: State, p: Pid)
    requires Inv(s) && s.mgr.None?
    ensures Inv(MakeManager(s, p))
  {
    var n := s.nextNode;
    var t, r := s.(nextNode := n + 1), MakeManager(s, p);
    assert GoneOk(s, n) && LogOk(s, n);
    FreshIdsKeep(s, t);
    forall x: RefId | x in t.refs ensures t.refs[x].node != n {
      assert RefOk(s, x);
    }
    assert RefsOf(r, n) == {} && StrongOf(r, n) == {};
    AcceptAppend([], Increfs);
    AcceptAppend([Increfs], Acquire);
    assert [] + [Increfs] == [Increfs] && [Increfs] + [Acquire] == [Increfs, Acquire];
    NodeFrame(t, r, n);
  }

  /** A transaction buffer takes a local count on a live node: as its target (strong) or for an
      object translated back to the owner. */
  function HoldNode(s: State, n: NodeId, strong: bool): State
    requires n in s.nodes
  {
    var t := s.(nodes := s.nodes[n := IncNode(s.nodes[n], strong, false, false, s.mgr == Some(n)).0]);
    if strong then t.(heldStrong := s.heldStrong + multiset{n}) else t.(heldWeak := s.heldWeak + multiset{n})
  }

  lemma HoldNodeKeeps(s: State, n: NodeId, strong: bool)
    requires Inv(s) && n in s.nodes && s.nodes[n].owner.Some?
    ensures Inv(HoldNode(s, n, strong))
  {
    var r := HoldNode(s, n, strong);
    assert CountsOk(s, n) && GoneOk(s, n) && LogOk(s, n);
    assert RefsOf(r, n) == RefsOf(s, n) && StrongOf(r, n) == StrongOf(s, n);
    NodeFrame(s, r, n);
  }

  /** binder_transaction_buffer_release gives such a count back. */
  function DropNode(s: State, n: NodeId, strong: bool): State
    requires n in s.nodes
  {
    var t := PutNode(s, n, DecNode(s.nodes[n], strong, false));
    if strong then t.(heldStrong := s.heldStrong - multiset{n}) else t.(heldWeak := s.heldWeak - multiset{n})
  }

  lemma DroppedNode(s: State, n: NodeId, strong: bool)
    requires Inv(s) && n in s.nodes && (if strong then n in s.heldStrong else n in s.heldWeak)
    ensures var r := DropNode(s, n, strong);
      && CountsOk(r, n) && GoneOk(r, n) && LogOk(r, n) && (n !in r.nodes ==> RefsOf(s, n) == {})
  {
    var r := DropNode(s, n, strong);
    assert CountsOk(s, n) && GoneOk(s, n) && LogOk(s, n);
    assert RefsOf(r, n) == RefsOf(s, n) && StrongOf(r, n) == StrongOf(s, n);
    if RefsOf(s, n) == {} {
      NoRefsNoStrong(s, n);
    }
  }

  lemma DropNodeKeeps(s: State, n: NodeId, strong: bool)
    requires Inv(s) && n in s.nodes && (if strong then n in s.heldStrong else n in s.heldWeak)
    ensures Inv(DropNode(s, n, strong))
  {
    DroppedNode(s, n, strong);
    NodeFrame(s, DropNode(s, n, strong), n);
  }

  /** BC_ACQUIRE_DONE and BC_INCREFS_DONE. */
  function Done(s: State, n: NodeId, strong: bool): State
    requires n in s.nodes
  {
    var x := s.nodes[n];
    if !(if strong then x.pendStrong else x.pendWeak) then s
    else PutNode(s, n, DecNode(if strong then x.(pendStrong := false) else x.(pendWeak := false), strong, false))
  }

  lemma DoneKeeps(s: State, n: NodeId, strong: bool)
    requires Inv(s) && n in s.nodes && s.nodes[n].owner.Some?
    ensures Inv(Done(s, n, strong))
  {
    var r := Done(s, n, strong);
    assert CountsOk(s, n) && GoneOk(s, n) && LogOk(s, n);
    assert RefsOf(r, n) == RefsOf(s, n) && StrongOf(r, n) == StrongOf(s, n);
    NodeFrame(s, r, n);
  }

  /** Whether the owner should hold a strong, or any, reference. */
  predicate WantsStrong(x: Node) {
    x.internalStrong != 0 || x.localStrong != 0
  }

  predicate WantsWeak(x: Node) {
    x.refs != {} || x.localWeak != 0 || WantsStrong(x)
  }

  /** The command the read loop sends for a node's work item. */
  function NextCmd(x: Node): Option<Cmd> {
    if WantsWeak(x) && !x.hasWeak then Some(Increfs)
    else if WantsStrong(x) && !x.hasStrong then Some(Acquire)
    else if !WantsStrong(x) && x.hasStrong then Some(Release)
    else if !WantsWeak(x) && x.hasWeak then Some(Decrefs)
    else None
  }

  function AfterCmd(x: Node, c: Cmd): Node {
    match c
    case Increfs => x.(hasWeak := true, pendWeak := true, localWeak := x.localWeak + 1)
    case Acquire => x.(hasStrong := true, pendStrong := true, localStrong := x.localStrong + 1)
    case Release => x.(hasStrong := false)
    case Decrefs => x.(hasWeak := false)
  }

  /** One iteration of the read loop on a node's work item: send a command and keep the item, or
      drop the item, and the node with it if nobody wants it. */
  function ReadNodeWork(s: State, n: NodeId): State
    requires n in s.nodes && n in s.log
  {
    var x := s.nodes[n];
    match NextCmd(x)
    case Some(c) => s.(nodes := s.nodes[n := AfterCmd(x, c)], log := s.log[n := s.log[n] + [c]])
    case None => if WantsWeak(x) then s.(nodes := s.nodes[n := x.(queued := false)]) else s.(nodes := s.nodes - {n})
  }

  /** A release is never sent while the matching acquire is unacknowledged. */
  lemma CommandIsTimely(s: State, n: NodeId, c: Cmd)
    requires Inv(s) && n in s.nodes && s.nodes[n].owner.Some? && NextCmd(s.nodes[n]) == Some(c)
    ensures c == Release ==> !s.nodes[n].pendStrong
    ensures c == Decrefs ==> !s.nodes[n].pendWeak && !s.nodes[n].pendStrong
    ensures Advance(PhaseOf(s.nodes[n]), c) == Some(PhaseOf(AfterCmd(s.nodes[n], c)))
  {
    assert CountsOk(s, n);
  }

  lemma SendKeeps(s: State, n: NodeId, c: Cmd)
    requires Inv(s) && n in s.nodes && s.nodes[n].owner.Some? && NextCmd(s.nodes[n]) == Some(c)
    ensures n in s.log && Inv(ReadNodeWork(s, n))
  {
    CommandIsTimely(s, n, c);
    assert CountsOk(s, n) && GoneOk(s, n) && LogOk(s, n);
    var r := ReadNodeWork(s, n);
    assert RefsOf(r, n) == RefsOf(s, n) && StrongOf(r, n) == StrongOf(s, n);
    AcceptAppend(s.log[n], c);
    NodeFrame(s, r, n);
  }

  lemma ReadNodeWorkKeeps(s: State, n: NodeId)
    requires Inv(s) && n in s.nodes && s.nodes[n].owner.Some?
    ensures n in s.log && Inv(ReadNodeWork(s, n))
  {
    assert CountsOk(s, n) && GoneOk(s, n) && LogOk(s, n);
    if NextCmd(s.nodes[n]).Some? {
      SendKeeps(s, n, NextCmd(s.nodes[n]).value);
    } else {
      var r := ReadNodeWork(s, n);
      assert RefsOf(r, n) == RefsOf(s, n) && StrongOf(r, n) == StrongOf(s, n);
      NodeFrame(s, r, n);
    }
  }

  /** binder_release_work unlinks a node's work item without acting on it. */
  function LoseWork(s: State, n: NodeId): State
    requires n in s.nodes
  {
    s.(nodes := s.nodes[n := s.nodes[n].(queued := false)])
  }

  lemma LoseWorkKeeps(s: State, n: NodeId)
    requires Inv(s) && n in s.nodes
    ensures Inv(LoseWork(s, n))
  {
    var r := LoseWork(s, n);
    assert CountsOk(s, n) && GoneOk(s, n) && LogOk(s, n);
    assert RefsOf(r, n) == RefsOf(s, n) && StrongOf(r, n) == StrongOf(s, n);
    NodeFrame(s, r, n);
  }

  function Without(m: multiset<NodeId>, n: NodeId): multiset<NodeId> {
    m[n := 0]
  }

  /** binder_node_release: the node's process goes, and with it every buffer that held the node. */
  function ReleaseNode(s: State, n: NodeId): State
    requires n in s.nodes
  {
    var x := s.nodes[n];
    s.(nodes := if x.refs == {} then s.nodes - {n}
                else s.nodes[n := x.(owner := None, localStrong := 0, localWeak := 0, queued := false)],
       heldStrong := Without(s.heldStrong, n), heldWeak := Without(s.heldWeak, n),
       orphaned := s.orphaned + {n}, mgr := if s.mgr == Some(n) then None else s.mgr)
  }

  lemma ReleaseNodeKeeps(s: State, n: NodeId)
    requires Inv(s) && n in s.nodes
    ensures Inv(ReleaseNode(s, n))
  {
    var r := ReleaseNode(s, n);
    assert CountsOk(s, n) && GoneOk(s, n) && LogOk(s, n);
    assert RefsOf(r, n) == RefsOf(s, n) && StrongOf(r, n) == StrongOf(s, n);
    NodeFrame(s, r, n);
  }

  // ---------------------------------------------------------------- steps on refs

  /** The descriptors a process uses. */
  ghost function Descs(s: State, p: Pid): set<nat> {
    set r: RefId | r in s.refs && s.refs[r].proc == p :: s.refs[r].desc
  }

  /** The least number from `start` on that is not in `used`. */
  ghost predicate LeastUnused(used: set<nat>, start: nat, d: nat) {
    d !in used && start <= d && forall e: nat :: start <= e < d ==> e in used
  }

  function FirstDesc(s: State, n: NodeId): nat {
    if s.mgr == Some(n) then 0 else 1
  }

  /** A new ref of process `p` to node `n`, with descriptor `d`. */
  function NewRef(s: State, p: Pid, n: NodeId, d: nat): State
    requires n in s.nodes
  {
    var r := s.nextRef;
    s.(refs := s.refs[r := Ref(p, n, d, 0, 0)], byDesc := s.byDesc[(p, d) := r], byNode := s.byNode[(p, n) := r],
       nodes := s.nodes[n := s.nodes[n].(refs := s.nodes[n].refs + {r})], nextRef := r + 1)
  }

  lemma NewRefNodes(s: State, p: Pid, n: NodeId, d: nat, k: NodeId)
    requires Inv(s) && n in s.nodes
    ensures CountsOk(NewRef(s, p, n, d), k) && GoneOk(NewRef(s, p, n, d), k) && LogOk(NewRef(s, p, n, d), k)
  {
    var r, x := NewRef(s, p, n, d), s.nextRef;
    assert RefOk(s, x);
    assert CountsOk(s, k) && GoneOk(s, k) && LogOk(s, k);
    assert RefsOf(r, k) == if k == n then RefsOf(s, k) + {x} else RefsOf(s, k);
    assert StrongOf(r, k) == StrongOf(s, k);
  }

  lemma NewRefKeeps(s: State, p: Pid, n: NodeId, d: nat)
    requires Inv(s) && n in s.nodes && (p, n) !in s.byNode && LeastUnused(Descs(s, p), FirstDesc(s, n), d)
    ensures Inv(NewRef(s, p, n, d))
  {
    var r := NewRef(s, p, n, d);
    assert RefOk(s, s.nextRef);
    assert (p, d) !in s.byDesc by {
      assert DescOk(s, p, d);
    }
    forall k: NodeId ensures CountsOk(r, k) && GoneOk(r, k) && LogOk(r, k) {
      NewRefNodes(s, p, n, d, k);
    }
    forall y: RefId ensures RefOk(r, y) {
      assert RefOk(s, y);
    }
    forall q: Pid, e: nat ensures DescOk(r, q, e) {
      assert DescOk(s, q, e);
    }
    forall q: Pid, k: NodeId ensures FileOk(r, q, k) {
      assert FileOk(s, q, k);
    }
  }

  /** binder_inc_ref; the second result is false for -EINVAL. */
  function IncRef(s: State, r: RefId, strong: bool, listed: bool): (State, bool)
    requires r in s.refs && s.refs[r].node in s.nodes
  {
    var x := s.refs[r];
    if (if strong then x.strong else x.weak) == 0 then
      var (m, ok) := IncNode(s.nodes[x.node], strong, true, listed, s.mgr == Some(x.node));
      var t := s.(nodes := s.nodes[x.node := m]);
      if !ok then (t, false) else (t.(refs := s.refs[r := Bump(x, strong, 1)]), true)
    else (s.(refs := s.refs[r := Bump(x, strong, 1)]), true)
  }

  function Bump(x: Ref, strong: bool, k: int): Ref {
    if strong then x.(strong := x.strong + k) else x.(weak := x.weak + k)
  }

  lemma StrongCount(s: State, t: State, r: RefId, y: Ref, k: NodeId)
    requires r in s.refs && t.refs == s.refs[r := y] && y.node == s.refs[r].node
    ensures RefsOf(t, k) == RefsOf(s, k)
    ensures |StrongOf(t, k)| == |StrongOf(s, k)| + if k == y.node then One(y.strong > 0) - One(s.refs[r].strong > 0)
      else 0
  {
    if k == y.node {
      assert r in StrongOf(s, k) <==> s.refs[r].strong > 0;
      if y.strong > 0 {
        assert StrongOf(t, k) == StrongOf(s, k) + {r};
      } else {
        assert StrongOf(t, k) == StrongOf(s, k) - {r};
      }
    } else {
      assert StrongOf(t, k) == StrongOf(s, k);
    }
  }

  /** A change of one ref's counts, with the node's internal count following. */
  lemma RefFrame(s: State, t: State, r: RefId, y: Ref, m: Node)
    requires Inv(s) && r in s.refs && t == s.(refs := s.refs[r := y], nodes := s.nodes[y.node := m])
    requires y == s.refs[r].(strong := y.strong, weak := y.weak) && y.strong >= 0 && y.weak >= 0 && y.node in s.nodes
    requires
      var x := s.nodes[y.node];
      && m == x.(internalStrong := x.internalStrong + One(y.strong > 0) - One(s.refs[r].strong > 0), queued := m.queued)
      && (x.owner.None? ==> !m.queued)
    ensures Inv(t)
  {
    assert RefOk(s, r);
    forall k: NodeId ensures CountsOk(t, k) && GoneOk(t, k) && LogOk(t, k) {
      assert CountsOk(s, k) && GoneOk(s, k) && LogOk(s, k);
      StrongCount(s, t, r, y, k);
    }
    forall z: RefId ensures RefOk(t, z) {
      assert RefOk(s, z);
    }
    forall q: Pid, e: nat ensures DescOk(t, q, e) {
      assert DescOk(s, q, e);
    }
    forall q: Pid, k: NodeId ensures FileOk(t, q, k) {
      assert FileOk(s, q, k);
    }
  }

  /** A first strong or weak count on a ref changes only the node's internal count and queueing. */
  lemma IncInternal(x: Node, strong: bool, listed: bool, isMgr: bool)
    ensures
      var (m, ok) := IncNode(x, strong, true, listed, isMgr);
      && m == x.(internalStrong := x.internalStrong + One(ok && strong), queued := m.queued)
      && (m.queued && !x.queued ==> listed)
  {
  }

  lemma IncRefKeeps(s: State, r: RefId, strong: bool, listed: bool)
    requires Inv(s) && r in s.refs && (listed ==> s.refs[r].node in s.nodes && s.nodes[s.refs[r].node].owner.Some?)
    ensures s.refs[r].node in s.nodes && Inv(IncRef(s, r, strong, listed).0)
  {
    assert RefOk(s, r);
    var x := s.refs[r];
    assert CountsOk(s, x.node);
    IncInternal(s.nodes[x.node], strong, listed, s.mgr == Some(x.node));
    var (m, ok) := IncNode(s.nodes[x.node], strong, true, listed, s.mgr == Some(x.node));
    if (if strong then x.strong else x.weak) != 0 {
      assert s.nodes == s.nodes[x.node := s.nodes[x.node]];
      RefFrame(s, IncRef(s, r, strong, listed).0, r, Bump(x, strong, 1), s.nodes[x.node]);
    } else if ok {
      RefFrame(s, IncRef(s, r, strong, listed).0, r, Bump(x, strong, 1), m);
    } else {
      assert s.refs == s.refs[r := x];
      RefFrame(s, IncRef(s, r, strong, listed).0, r, x, m);
    }
  }

  /** What binder_delete_ref makes of the node: its strong count drops while the ref is still
      listed, then the ref is unlisted and the node may go. */
  function Unref(x: Node, r: RefId, wasStrong: bool): Option<Node> {
    var m := if wasStrong then DecNode(x, true, true) else Some(x);
    if m.None? then None else DecNode(m.value.(refs := m.value.refs - {r}), false, true)
  }

  function DeleteRef(s: State, r: RefId): State
    requires r in s.refs && s.refs[r].node in s.nodes
  {
    var x := s.refs[r];
    var t := PutNode(s, x.node, Unref(s.nodes[x.node], r, x.strong > 0));
    t.(refs := s.refs - {r}, byDesc := s.byDesc - {(x.proc, x.desc)}, byNode := s.byNode - {(x.proc, x.node)})
  }

  lemma DeletedCounts(s: State, t: State, r: RefId, k: NodeId)
    requires r in s.refs && t.refs == s.refs - {r}
    ensures RefsOf(t, k) == RefsOf(s, k) - {r}
    ensures |StrongOf(t, k)| == |StrongOf(s, k)| - if k == s.refs[r].node then One(s.refs[r].strong > 0) else 0
    ensures k != s.refs[r].node ==> r !in RefsOf(s, k)
  {
    assert r in StrongOf(s, k) <==> k == s.refs[r].node && s.refs[r].strong > 0;
    assert StrongOf(t, k) == StrongOf(s, k) - {r};
  }

  /** Unref keeps the flags and local counts, and frees the node only when nothing is left. */
  lemma UnrefResult(s: State, r: RefId)
    requires Inv(s) && r in s.refs
    ensures s.refs[r].node in s.nodes
    ensures
      var n := s.refs[r].node;
      var x := s.nodes[n];
      match Unref(x, r, s.refs[r].strong > 0)
      case None => RefsOf(s, n) == {r} && x.localStrong == 0 && x.localWeak == 0 &&
        (x.owner.Some? ==> !x.hasStrong && !x.hasWeak)
      case Some(m) => m == x.(refs := x.refs - {r}, internalStrong := x.internalStrong - One(s.refs[r].strong > 0),
        queued := m.queued)
                      && (x.owner.None? ==> !m.queued)
  {
    assert RefOk(s, r);
    var n := s.refs[r].node;
    assert CountsOk(s, n) && r in RefsOf(s, n);
    var x := s.nodes[n];
    if s.refs[r].strong > 0 {
      assert DecNode(x, true, true).Some?;
    }
  }

  lemma DeletedNodeCounts(s: State, r: RefId, k: NodeId)
    requires Inv(s) && r in s.refs
    ensures s.refs[r].node in s.nodes && CountsOk(DeleteRef(s, r), k)
  {
    UnrefResult(s, r);
    assert CountsOk(s, k);
    DeletedCounts(s, DeleteRef(s, r), r, k);
  }

  lemma DeletedNodes(s: State, r: RefId, k: NodeId)
    requires Inv(s) && r in s.refs
    ensures s.refs[r].node in s.nodes && CountsOk(DeleteRef(s, r), k) && GoneOk(DeleteRef(s, r), k) &&
      LogOk(DeleteRef(s, r), k)
  {
    UnrefResult(s, r);
    DeletedNodeCounts(s, r, k);
    assert CountsOk(s, k) && GoneOk(s, k) && LogOk(s, k);
  }

  lemma DeleteRefKeeps(s: State, r: RefId)
    requires Inv(s) && r in s.refs
    ensures s.refs[r].node in s.nodes && Inv(DeleteRef(s, r))
  {
    UnrefResult(s, r);
    var x, t := s.refs[r], DeleteRef(s, r);
    assert RefOk(s, r);
    forall k: NodeId ensures CountsOk(t, k) && GoneOk(t, k) && LogOk(t, k) {
      DeletedNodes(s, r, k);
    }
    forall z: RefId ensures RefOk(t, z) {
      assert RefOk(s, z);
      assert z in s.refs && s.refs[z].node == x.node ==> z in RefsOf(s, x.node);
    }
    forall q: Pid, e: nat ensures DescOk(t, q, e) {
      assert DescOk(s, q, e);
    }
    forall q: Pid, k: NodeId ensures FileOk(t, q, k) {
      assert FileOk(s, q, k);
    }
  }

  /** binder_dec_ref; an unbalanced request changes nothing. */
  function DecRef(s: State, r: RefId, strong: bool): State
    requires r in s.refs && s.refs[r].node in s.nodes
  {
    var x := s.refs[r];
    if (if strong then x.strong else x.weak) == 0 then s
    else
      var y := Bump(x, strong, -1);
      var m := if strong && y.strong == 0 then DecNode(s.nodes[x.node], true, true) else Some(s.nodes[x.node]);
      var t := PutNode(s, x.node, m).(refs := s.refs[r := y]);
      if y.strong == 0 && y.weak == 0 && m.Some? then DeleteRef(t, r) else t
  }

  lemma DecRefKeeps(s: State, r: RefId, strong: bool)
    requires Inv(s) && r in s.refs
    ensures s.refs[r].node in s.nodes && Inv(DecRef(s, r, strong))
  {
    assert RefOk(s, r);
    var x := s.refs[r];
    assert CountsOk(s, x.node) && r in RefsOf(s, x.node);
    if (if strong then x.strong else x.weak) != 0 {
      var y := Bump(x, strong, -1);
      var m := if strong && y.strong == 0 then DecNode(s.nodes[x.node], true, true) else Some(s.nodes[x.node]);
      assert m.Some?;
      var t := s.(nodes := s.nodes[x.node := m.value], refs := s.refs[r := y]);
      RefFrame(s, t, r, y, m.value);
      if y.strong == 0 && y.weak == 0 {
        DeleteRefKeeps(t, r);
      }
    }
  }

  // ---------------------------------------------------------------- runs

  /** One atomic step.  The driver composes some of these in one command: sending an object makes
      the receiver's ref and counts it, a process release releases its nodes and deletes its refs. */
  datatype Op =
    | Create(p: Pid)
    | BecomeManager(p: Pid)
    | Hold(n: NodeId, strong: bool)
    | Drop(n: NodeId, strong: bool)
    | Ack(n: NodeId, strong: bool)
    | ReadWork(n: NodeId)
    | ForgetWork(n: NodeId)
    | Orphan(n: NodeId)
    | MakeRef(p: Pid, n: NodeId, d: nat)
    | Take(r: RefId, strong: bool, listed: bool)
    | Give(r: RefId, strong: bool)
    | Remove(r: RefId)

  ghost predicate Enabled(s: State, op: Op) {
    match op
    case Create(p) => true
    case BecomeManager(p) => s.mgr.None?
    case Hold(n, strong) => n in s.nodes && s.nodes[n].owner.Some?
    case Drop(n, strong) => n in s.nodes && (if strong then n in s.heldStrong else n in s.heldWeak)
    case Ack(n, strong) => n in s.nodes && s.nodes[n].owner.Some?
    case ReadWork(n) => n in s.nodes && s.nodes[n].owner.Some? && s.nodes[n].queued
    case ForgetWork(n) => n in s.nodes
    case Orphan(n) => n in s.nodes && s.nodes[n].owner.Some?
    case MakeRef(p, n, d) => n in s.nodes && (p, n) !in s.byNode && LeastUnused(Descs(s, p), FirstDesc(s, n), d)
    case Take(r, strong, listed) =>
      r in s.refs && (listed ==> s.refs[r].node in s.nodes && s.nodes[s.refs[r].node].owner.Some?)
    case Give(r, strong) => r in s.refs
    case Remove(r) => r in s.refs
  }

  ghost function Step(s: State, op: Op): (t: State)
    requires Inv(s) && Enabled(s, op)
    ensures Inv(t)
  {
    match op
    case Create(p) => NewNodeKeeps(s, p); NewNode(s, p)
    case BecomeManager(p) => MakeManagerKeeps(s, p); MakeManager(s, p)
    case Hold(n, strong) => HoldNodeKeeps(s, n, strong); HoldNode(s, n, strong)
    case Drop(n, strong) => DropNodeKeeps(s, n, strong); DropNode(s, n, strong)
    case Ack(n, strong) => DoneKeeps(s, n, strong); Done(s, n, strong)
    case ReadWork(n) => ReadNodeWorkKeeps(s, n); ReadNodeWork(s, n)
    case ForgetWork(n) => LoseWorkKeeps(s, n); LoseWork(s, n)
    case Orphan(n) => ReleaseNodeKeeps(s, n); ReleaseNode(s, n)
    case MakeRef(p, n, d) => NewRefKeeps(s, p, n, d); NewRef(s, p, n, d)
    case Take(r, strong, listed) => IncRefKeeps(s, r, strong, listed); IncRef(s, r, strong, listed).0
    case Give(r, strong) => DecRefKeeps(s, r, strong); DecRef(s, r, strong)
    case Remove(r) => DeleteRefKeeps(s, r); DeleteRef(s, r)
  }

  ghost predicate CanRun(s: State, ops: seq<Op>)
    requires Inv(s)
    decreases |ops|
  {
    ops == [] || (Enabled(s, ops[0]) && CanRun(Step(s, ops[0]), ops[1..]))
  }

  ghost function Run(s: State, ops: seq<Op>): (t: State)
    requires Inv(s) && CanRun(s, ops)
    ensures Inv(t)
    decreases |ops|
  {
    if ops == [] then s else Run(Step(s, ops[0]), ops[1..])
  }

  lemma InitOk()
    ensures Inv(Init)
  {
    forall n: NodeId ensures CountsOk(Init, n) && GoneOk(Init, n) && LogOk(Init, n) {
    }
  }

  /** `ops` is a run from the empty driver. */
  ghost predicate IsRun(ops: seq<Op>) {
    InitOk();
    CanRun(Init, ops)
  }

  /** The state after a run; a reachable state is one of these. */
  ghost function After(ops: seq<Op>): (s: State)
    requires IsRun(ops)
    ensures Inv(s)
  {
    InitOk();
    Run(Init, ops)
  }
}
