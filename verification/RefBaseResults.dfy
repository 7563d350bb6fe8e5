/**
 What the reference counts guarantee, over all interleavings from a new object in which the first
 strong reference is fixed up once; RefBaseFirst says what happens in the others.
 */
module RefBaseResults {
  import opened Wrappers
  import opened RefBase

  /** In every state of such a run mStrong is the number of strong references (those whose promotion
      has succeeded included), INITIAL more until the first of them is fixed up; mWeak counts
      them, the weak ones and the operations under way. */
  lemma CountsAreExact(ops: seq<Op>)
    requires IsOrderly(ops)
    ensures var s := After(ops);
      && s.strong == |set t: Token | t in s.toks && CountsStrong(s.toks[t])| + Offset(s)
      && s.weak == |set t: Token | t in s.toks && CountsWeak(s.toks[t])|
      && (s.strong > INITIAL ==> exists t: Token :: t in s.toks && Pending(s.toks[t]))
  {
    var s := After(ops);
    assert StrongSet(s.toks) == set t: Token | t in s.toks && CountsStrong(s.toks[t]);
  }

  /** The object is deleted at most once, the weakref_impl at most once and only after the
      object; when no reference is left, both have been deleted. */
  lemma DeletedExactlyOnce(ops: seq<Op>)
    requires IsOrderly(ops)
    ensures var s := After(ops);
      && s.objectDeletes <= 1 && s.implDeletes <= s.objectDeletes
      && (s.toks == map[] <==> s.implDeletes == 1)
      && (s.objectDeletes == 1 ==> forall t: Token :: t in s.toks ==> !CountsStrong(s.toks[t]))
      && (s.objectDeletes == 1 ==> s.strong == 0 || (s.strong == INITIAL && s.toks == map[]))
  {
    var s := After(ops);
    if s.toks == map[] {
      assert StrongSet(s.toks) == {} && WeakSet(s.toks) == {};
    }
    forall t: Token | t in s.toks ensures s.objectDeletes == 1 ==> !CountsStrong(s.toks[t]) {
      HeldIsCounted(s, t);
    }
  }

  /** Every step uses the weakref_impl; the steps of a strong reference use the object, and so do the
      increment of mStrong and the decrement that drops the last: neither is ever deleted before. */
  lemma NoUseAfterDelete(ops: seq<Op>, t: Token)
    requires IsOrderly(ops) && t in After(ops).toks
    ensures var s := After(ops);
      && s.implDeletes == 0
      && (CountsStrong(s.toks[t]) || s.toks[t].LastStrong? || (s.toks[t].IncStrong? && Enabled(s, Continue(t))) ==>
            s.objectDeletes == 0)
  {
    HeldIsCounted(After(ops), t);
    assert TokenOk(After(ops), t);
  }

  /** While somebody holds a strong reference the object is there, so clients who make references
      from strong ones call incStrong as they should. */
  lemma StrongKeepsAlive(s: State, t: Token, via: Token)
    requires Inv(s) && via in s.toks && s.toks[via].HeldStrong?
    ensures Alive(s) && 0 < s.strong
    ensures t in s.toks ==> Enabled(s, Continue(t))
  {
    HeldIsCounted(s, via);
    AliveIsCounted(s, via);
  }

  lemma ZeroStaysOneStep(s: State, op: Op)
    requires Inv(s) && Enabled(s, op) && s.strong == 0
    ensures Orderly(s, op) && Step(s, op).strong == 0
  {
    match op
    case NewStrong(t, v) => AliveIsCounted(s, v);
    case NewWeak(t, v) =>
    case Promote(t, v) =>
    case PromoteWeak(t, v) =>
    case ReleaseStrong(t) => HeldIsCounted(s, t);
    case ReleaseWeak(t) =>
    case Continue(t) =>
      assert TokenOk(s, t);
      AliveIsCounted(s, t);
  }

  /** Once mStrong is zero it stays zero: whatever runs afterwards, no attemptIncStrong succeeds
      and there is never a strong reference again. */
  lemma {:induction false} ZeroIsForever(s: State, ops: seq<Op>)
    requires Inv(s) && CanRun(s, ops) && s.strong == 0
    ensures var y := Run(s, ops);
      y.strong == 0 && forall t: Token :: t in y.toks ==> !CountsStrong(y.toks[t])
    decreases |ops|
  {
    if ops == [] {
      forall t: Token | t in s.toks ensures !CountsStrong(s.toks[t]) {
        HeldIsCounted(s, t);
      }
    } else {
      ZeroStaysOneStep(s, ops[0]);
      StepKeeps(s, ops[0]);
      ZeroIsForever(Step(s, ops[0]), ops[1..]);
    }
  }

  /** A promotion succeeds at exactly the steps that find a positive count unchanged. */
  lemma PromotionSucceedsOnlyWhileAlive(s: State, t: Token)
    requires Inv(s) && t in s.toks && (s.toks[t].TryCas? || s.toks[t].TryHard?)
    ensures Advance(s, t).toks[t].Fix? <==> s.strong == s.toks[t].cur
    ensures Advance(s, t).toks[t].Fix? ==> s.strong > 0 && s.objectDeletes == 0 && Alive(s)
  {
    assert TokenOk(s, t);
    AliveIsCounted(s, t);
  }

  /** The token is in attemptIncStrong and has no strong reference yet. */
  predicate Trying(a: At) {
    a.Try? || a.TryCas? || a.TryHard? || a.TryHardRead?
  }

  /** A token leaves attemptIncStrong without a strong reference only at a step of its own that
      reads a strong count of zero; when its swap fails it reads again. */
  lemma PromotionIsGivenUpOnlyAtZero(s: State, op: Op, t: Token)
    requires Inv(s) && Enabled(s, op) && t in s.toks && Trying(s.toks[t])
    ensures var y := Step(s, op);
      && t in y.toks
      && (!Trying(y.toks[t]) ==>
            && op == Continue(t)
            && if y.toks[t].Fix? then s.strong > 0 && y.strong == s.strong + 1
               else (s.toks[t].Try? || s.toks[t].TryHardRead?) && s.strong == 0 && y.toks[t].DropWeak?)
      && (op == Continue(t) && s.toks[t].TryCas? && s.strong != s.toks[t].cur ==> y.toks[t].Try?)
      && (op == Continue(t) && s.toks[t].TryHard? && s.strong != s.toks[t].cur ==> y.toks[t].TryHardRead?)
  {
    assert TokenOk(s, t);
    HeldIsCounted(s, t);
  }

  /** Over every run: a promotion that is over has succeeded or was given up at a step that read
      zero. */
  lemma {:induction false} PromotionEnds(s: State, ops: seq<Op>, t: Token) returns (k: nat)
    requires Inv(s) && CanRun(s, ops) && AllOrderly(s, ops) && t in s.toks && Trying(s.toks[t])
    requires !(t in Run(s, ops).toks && Trying(Run(s, ops).toks[t]))
    ensures k < |ops| && ops[k] == Continue(t) && CanRun(s, ops[..k])
    ensures var u := Run(s, ops[..k]);
      && t in u.toks && Trying(u.toks[t])
      && (u.strong == 0 || (u.strong > 0 && u.objectDeletes == 0 && Advance(u, t).toks[t].Fix?))
    decreases |ops|
  {
    if ops == [] {
      assert false;
    } else {
      StepKeeps(s, ops[0]);
      PromotionIsGivenUpOnlyAtZero(s, ops[0], t);
      var y := Step(s, ops[0]);
      if Trying(y.toks[t]) {
        var j := PromotionEnds(y, ops[1..], t);
        k := j + 1;
        assert ops[..k][0] == ops[0] && ops[..k][1..] == ops[1..][..j];
      } else {
        k := 0;
        assert ops[..0] == [];
        PromotionFinds(s, t);
      }
    }
  }

  lemma PromotionFinds(s: State, t: Token)
    requires Inv(s) && t in s.toks && Trying(s.toks[t]) && !Trying(Advance(s, t).toks[t])
    ensures s.strong == 0 || (s.strong > 0 && s.objectDeletes == 0 && Advance(s, t).toks[t].Fix?)
  {
    assert TokenOk(s, t);
    HeldIsCounted(s, t);
  }

  /** attemptIncWeak from a held reference never fails: it goes on until it has a weak reference. */
  lemma WeakPromotionSucceeds(s: State, op: Op, t: Token)
    requires Inv(s) && Enabled(s, op) && t in s.toks && (s.toks[t].TryWeak? || s.toks[t].TryWeakCas?)
    ensures var y := Step(s, op);
      && t in y.toks && (y.toks[t].TryWeak? || y.toks[t].TryWeakCas? || y.toks[t].HeldWeak?)
      && (y.toks[t].HeldWeak? ==> op == Continue(t) && y.weak == s.weak + 1)
  {
    assert TokenOk(s, t);
    HeldIsCounted(s, t);
  }

  /** Token `t` runs alone until its operation is over, for `k` steps at most. */
  function Alone(s: State, t: Token, k: nat): State
    decreases k
  {
    if k == 0 || t !in s.toks || Held(s.toks[t]) then s else Alone(Advance(s, t), t, k - 1)
  }

  /** What the operation of a token that runs alone comes to. */
  function Outcome(s: State, a: At): Option<At> {
    match a
    case HeldStrong => Some(HeldStrong)
    case HeldWeak => Some(HeldWeak)
    case IncStrong(_) => Some(HeldStrong)
    case IncFix => Some(HeldStrong)
    case Fix => Some(HeldStrong)
    case FixCas(_) => Some(HeldStrong)
    case Try(_) => if s.strong > 0 then Some(HeldStrong) else None
    case TryCas(_, _) => if s.strong > 0 then Some(HeldStrong) else None
    case TryHard(_, _) => if s.strong > 0 then Some(HeldStrong) else None
    case TryHardRead(_) => if s.strong > 0 then Some(HeldStrong) else None
    case TryWeak(_) => Some(HeldWeak)
    case TryWeakCas(_, _) => Some(HeldWeak)
    case _ => None
  }

  /** How many steps of its own an operation has left. */
  function Left(s: State, a: At): nat {
    match a
    case HeldStrong => 0
    case HeldWeak => 0
    case IncStrong(_) => 2
    case Fix => if s.strong >= INITIAL then 2 else 1
    case FixCas(cur) => if s.strong == cur then 1 else 3
    case Try(_) => 4
    case TryCas(_, cur) => if s.strong == cur then 3 else 5
    case TryHardRead(_) => 4
    case TryHard(_, cur) => if s.strong == cur then 3 else 5
    case LastStrong => 3
    case DropWeak => 2
    case TryWeakCas(_, cur) => if s.weak == cur then 1 else 3
    case TryWeak(_) => 2
    case _ => 1
  }

  /** A step of a token that runs alone leaves less to do and the outcome as it was. */
  lemma StepAlone(s: State, t: Token)
    requires Inv(s) && t in s.toks && !Held(s.toks[t])
    ensures var y := Advance(s, t);
      && (t in y.toks ==> Left(y, y.toks[t]) < Left(s, s.toks[t]) && Outcome(y, y.toks[t]) == Outcome(s, s.toks[t]))
      && (t !in y.toks ==> Outcome(s, s.toks[t]) == None)
  {
    assert TokenOk(s, t);
    HeldIsCounted(s, t);
  }

  /** Unless that ends the operation it keeps the invariant. */
  lemma StepAloneKeeps(s: State, t: Token)
    requires Inv(s) && t in s.toks && !Held(s.toks[t]) && t in Advance(s, t).toks && !Held(Advance(s, t).toks[t])
    ensures Inv(Advance(s, t))
  {
    AliveIsCounted(s, t);
    AdvanceKeeps(s, t);
  }

  lemma {:induction false} AloneEnds(s: State, t: Token, k: nat)
    requires Inv(s) && t in s.toks && Left(s, s.toks[t]) <= k
    ensures Get(Alone(s, t, k).toks, t) == Outcome(s, s.toks[t])
    decreases k
  {
    if !Held(s.toks[t]) {
      StepAlone(s, t);
      var y := Advance(s, t);
      if t in y.toks && !Held(y.toks[t]) {
        StepAloneKeeps(s, t);
        AloneEnds(y, t, k - 1);
      } else {
        assert Alone(y, t, k - 1) == y;
      }
    }
  }

  /** Every operation ends, after at most five steps of its own if nothing interferes: incStrong with
      a strong reference, attemptIncStrong with one exactly if the count was not zero,
      attemptIncWeak with a weak one, decStrong and decWeak with none. */
  lemma OperationsEnd(s: State, t: Token, k: nat)
    requires Inv(s) && t in s.toks && k >= 5
    ensures Get(Alone(s, t, k).toks, t) == Outcome(s, s.toks[t])
  {
    AloneEnds(s, t, k);
  }

  /** The bound on the number of references is needed: an incStrong that finds the count at
      INITIAL subtracts INITIAL from it. */
  lemma CountWrapsAtInitial(s: State, t: Token)
    requires t in s.toks && s.toks[t].IncStrong?
    ensures Advance(Advance(s, t), t).strong == s.strong + 1 <==> s.strong != INITIAL
  {
  }
}
