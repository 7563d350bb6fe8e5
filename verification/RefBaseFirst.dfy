/**
 The first strong reference (libs/utils/RefBase.cpp).  mStrong starts at INITIAL, which the first
 incStrong takes off again in a second step, and so does a promotion that finds the count that
 high.  When both do, it is taken off twice: from then on the count is INITIAL too low, and the
 object is never deleted.
 */
module RefBaseFirst {
  import opened Wrappers
  import opened RefBase

  /** INITIAL was taken off by a promotion; the first incStrong, token `p`, is going to take it off
      again or has done so. */
  ghost predicate Twice(s: State, p: Option<Token>) {
    && |s.toks| < INITIAL && s.objectDeletes == 0
    && (p.Some? ==> p.value in s.toks && s.toks[p.value].IncFix?)
    && (forall t: Token {:trigger PlainOk(s, p, t)} :: PlainOk(s, p, t))
    && s.strong == |StrongSet(s.toks)| - if p.Some? then 0 else INITIAL
  }

  ghost predicate PlainOk(s: State, p: Option<Token>, t: Token) {
    t in s.toks ==>
      && !s.toks[t].LastStrong? && (s.toks[t].IncFix? ==> p == Some(t))
      && (s.toks[t].FixCas? ==> s.toks[t].cur >= INITIAL)
  }

  lemma FewStrong(s: State)
    requires |s.toks| < INITIAL
    ensures 0 <= |StrongSet(s.toks)| <= |s.toks| < INITIAL
  {
    Cardinality(StrongSet(s.toks), s.toks.Keys);
    assert |s.toks| == |s.toks.Keys|;
  }

  /** The fix-up of a promotion between the two steps of the first incStrong. */
  lemma FixedTwice(s: State, t: Token) returns (p: Token)
    requires Inv(s) && t in s.toks && !OrderlyStep(s, t)
    ensures Twice(Advance(s, t), Some(p))
  {
    p :| p in s.toks && s.toks[p].IncFix?;
    var y := Advance(s, t);
    assert TokenOk(s, t) && TokenOk(s, p);
    HeldIsCounted(s, t);
    Recount(s.toks, t, Some(HeldStrong));
    forall u: Token ensures PlainOk(y, Some(p), u) {
      assert TokenOk(s, u);
    }
  }

  /** A step of token `t` that leaves the state twice fixed up. */
  lemma StaysTwice(s: State, y: State, p: Option<Token>, q: Option<Token>, t: Token, a: Option<At>)
    requires Twice(s, p) && y.toks == Put(s.toks, t, a) && y.objectDeletes == 0
    requires t in s.toks || |s.toks| < INITIAL - 1
    requires a.Some? ==>
      !a.value.LastStrong? && (a.value.IncFix? ==> q == Some(t)) && (a.value.FixCas? ==> a.value.cur >= INITIAL)
    requires q.Some? ==> q == p && (q == Some(t) ==> a.Some? && a.value.IncFix?)
    requires q.None? && p.Some? ==> p == Some(t)
    requires y.strong == s.strong - One(t in s.toks && CountsStrong(s.toks[t])) + One(a.Some? && CountsStrong(a.value))
      - if p.Some? && q.None? then INITIAL else 0
    ensures Twice(y, q)
  {
    Recount(s.toks, t, a);
    forall u: Token ensures PlainOk(y, q, u) {
      assert PlainOk(s, p, u) && PlainOk(s, p, t);
      assert u != t ==> Get(y.toks, u) == Get(s.toks, u);
    }
  }

  /** Two strong references at least while the first incStrong is not over, none counted afterwards:
      no decrement finds one. */
  lemma NeverTheLast(s: State, p: Option<Token>, t: Token)
    requires Twice(s, p) && t in s.toks && s.toks[t].HeldStrong?
    ensures s.strong != 1 && s.strong < INITIAL
  {
    FewStrong(s);
    if p.Some? {
      assert {t, p.value} <= StrongSet(s.toks);
      Cardinality({t, p.value}, StrongSet(s.toks));
    }
  }

  lemma NewStaysTwice(s: State, p: Option<Token>, op: Op)
    requires Twice(s, p) && Enabled(s, op) && (op.NewStrong? || op.NewWeak? || op.Promote? || op.PromoteWeak?)
    ensures Twice(Step(s, op), p)
  {
    var y := Step(s, op);
    StaysTwice(s, y, p, p, op.t, Some(y.toks[op.t]));
  }

  lemma ReleaseStaysTwice(s: State, p: Option<Token>, op: Op)
    requires Twice(s, p) && Enabled(s, op) && (op.ReleaseStrong? || op.ReleaseWeak?)
    ensures Twice(Step(s, op), p)
  {
    var y := Step(s, op);
    if op.ReleaseStrong? {
      NeverTheLast(s, p, op.t);
    }
    StaysTwice(s, y, p, p, op.t, Get(y.toks, op.t));
  }

  lemma AdvanceStaysTwice(s: State, p: Option<Token>, t: Token)
    requires Twice(s, p) && t in s.toks && !Held(s.toks[t])
    ensures Twice(Advance(s, t), if p == Some(t) then None else p)
  {
    var y := Advance(s, t);
    FewStrong(s);
    assert PlainOk(s, p, t);
    StaysTwice(s, y, p, if p == Some(t) then None else p, t, Get(y.toks, t));
  }

  /** Whatever happens then, it stays so until the first incStrong is over, and afterwards for good. */
  lemma TwiceStep(s: State, p: Option<Token>, op: Op) returns (q: Option<Token>)
    requires Twice(s, p) && Enabled(s, op)
    ensures Twice(Step(s, op), q) && q == if p.Some? && op == Continue(p.value) then None else p
  {
    q := if p.Some? && op == Continue(p.value) then None else p;
    match op
    case ReleaseStrong(t) => ReleaseStaysTwice(s, p, op);
    case ReleaseWeak(t) => ReleaseStaysTwice(s, p, op);
    case Continue(t) =>
      if Held(s.toks[t]) {
        assert Step(s, op) == s;
      } else {
        AdvanceStaysTwice(s, p, t);
      }
    case _ => NewStaysTwice(s, p, op);
  }

  lemma {:induction false} TwiceForever(s: State, p: Option<Token>, ops: seq<Op>) returns (q: Option<Token>)
    requires Twice(s, p) && CanRun(s, ops)
    ensures Twice(Run(s, ops), q) && (p.None? ==> q.None?)
    decreases |ops|
  {
    if ops == [] {
      q := p;
    } else {
      var r := TwiceStep(s, p, ops[0]);
      q := TwiceForever(Step(s, ops[0]), r, ops[1..]);
    }
  }

  lemma {:induction false} UnorderlyIsTwice(s: State, ops: seq<Op>) returns (q: Option<Token>)
    requires Inv(s) && CanRun(s, ops) && !AllOrderly(s, ops)
    ensures Twice(Run(s, ops), q)
    decreases |ops|
  {
    if Orderly(s, ops[0]) {
      StepKeeps(s, ops[0]);
      q := UnorderlyIsTwice(Step(s, ops[0]), ops[1..]);
    } else {
      var p := FixedTwice(s, ops[0].t);
      q := TwiceForever(Step(s, ops[0]), Some(p), ops[1..]);
    }
  }

  /** In every run of a new object: at a moment when no first incStrong is between its two steps the
      strong count is that of the strong references (INITIAL more before the first of them) if and
      only if no promotion fixed the count up between those two steps; otherwise it is INITIAL less. */
  lemma CountsAreExactIff(ops: seq<Op>)
    requires IsRun(ops) && forall t: Token :: t in Run(Init, ops).toks ==> !Run(Init, ops).toks[t].IncFix?
    ensures var s := Run(Init, ops);
      && (IsOrderly(ops) <==> s.strong == |StrongSet(s.toks)| + Offset(s))
      && (!IsOrderly(ops) ==> s.strong == |StrongSet(s.toks)| - INITIAL < 0)
  {
    var s := Run(Init, ops);
    InitOk();
    if IsOrderly(ops) {
      RunKeeps(Init, ops);
    } else {
      var q := UnorderlyIsTwice(Init, ops);
      FewStrong(s);
    }
  }

  /** When all references of a new object have been given back, it has been deleted if and only if
      no promotion fixed the count up between the two steps of the first incStrong. */
  lemma DeletedIff(ops: seq<Op>)
    requires IsRun(ops) && Run(Init, ops).toks == map[]
    ensures Run(Init, ops).objectDeletes == if IsOrderly(ops) then 1 else 0
  {
    var s := Run(Init, ops);
    InitOk();
    if IsOrderly(ops) {
      RunKeeps(Init, ops);
      assert StrongSet(s.toks) == {} && WeakSet(s.toks) == {};
    } else {
      var q := UnorderlyIsTwice(Init, ops);
    }
  }

  /** Once the first incStrong is over after that, no promotion succeeds any more, however many strong
      references there are. */
  lemma PromotionsAreRefused(s: State, t: Token)
    requires Twice(s, None) && t in s.toks && (s.toks[t].Try? || s.toks[t].TryHardRead?)
    ensures s.strong < 0 && s.objectDeletes == 0 && Advance(s, t).toks[t].DropWeak?
  {
    FewStrong(s);
  }

  lemma OneMore(s: State, op: Op, ops: seq<Op>)
    requires Enabled(s, op) && CanRun(Step(s, op), ops)
    ensures CanRun(s, [op] + ops) && Run(s, [op] + ops) == Run(Step(s, op), ops)
  {
    assert ([op] + ops)[1..] == ops;
  }

  /** A weak reference, and two operations `a` and `b` under way. */
  function Both(strong: int, a: At, b: At): State {
    State(strong, 3, map[0 := HeldWeak, 1 := a, 2 := b], 0, 0)
  }

  /** Operation 1 or 2 takes its next step. */
  lemma BothStep(strong: int, a: At, b: At, next: int, x: At, y: At, t: Token)
    requires t == 1 || t == 2
    requires Advance(Both(strong, a, b), t).strong == next && Advance(Both(strong, a, b), t).weak == 3
    requires (if t == 1 then a else b) != LastStrong && (if t == 1 then a else b) != LastWeak
    requires Get(Advance(Both(strong, a, b), t).toks, t) == Some(if t == 1 then x else y)
    requires (if t == 1 then b == y else a == x)
    ensures Step(Both(strong, a, b), Continue(t)) == Both(next, x, y)
  {
    var s := Both(strong, a, b);
    assert Advance(s, t).toks == s.toks[t := if t == 1 then x else y];
    assert s.toks[t := if t == 1 then x else y] == Both(next, x, y).toks;
  }

  /** The promotion swaps INITIAL + 1 for INITIAL + 2, then takes INITIAL off, and so does the first
      incStrong. */
  lemma SecondHalf() returns (ops: seq<Op>)
    ensures CanRun(Both(INITIAL + 1, IncFix, TryCas(0, INITIAL + 1)), ops)
    ensures Run(Both(INITIAL + 1, IncFix, TryCas(0, INITIAL + 1)), ops) == Both(2 - INITIAL, HeldStrong, HeldStrong)
  {
    var k := INITIAL;
    BothStep(k + 1, IncFix, TryCas(0, k + 1), k + 2, IncFix, Fix, 2);
    BothStep(k + 2, IncFix, Fix, k + 2, IncFix, FixCas(k + 2), 2);
    BothStep(k + 2, IncFix, FixCas(k + 2), 2, IncFix, HeldStrong, 2);
    BothStep(2, IncFix, HeldStrong, 2 - k, HeldStrong, HeldStrong, 1);
    ops := [];
    OneMore(Both(2, IncFix, HeldStrong), Continue(1), ops);
    ops := [Continue(1)] + ops;
    OneMore(Both(k + 2, IncFix, FixCas(k + 2)), Continue(2), ops);
    ops := [Continue(2)] + ops;
    OneMore(Both(k + 2, IncFix, Fix), Continue(2), ops);
    ops := [Continue(2)] + ops;
    OneMore(Both(k + 1, IncFix, TryCas(0, k + 1)), Continue(2), ops);
    ops := [Continue(2)] + ops;
  }

  /** The creator starts the first incStrong and another thread a promotion. */
  lemma FirstHalf()
    ensures var s1 := Step(Init, NewStrong(1, 0));
      && Enabled(Init, NewStrong(1, 0)) && Enabled(s1, Promote(2, 0))
      && Step(s1, Promote(2, 0)) == Both(INITIAL, IncStrong(0), Try(0)) && Alive(Both(INITIAL, IncStrong(0), Try(0)))
  {
    var s1 := Step(Init, NewStrong(1, 0));
    assert |Init.toks| == 1;
    assert |s1.toks| == 2;
    assert s1.toks[2 := Try(0)] == Both(INITIAL, IncStrong(0), Try(0)).toks;
  }

  /** One thread takes the first strong reference while another promotes a weak one: after both are
      done the object has two strong references, and its count is 2 - INITIAL. */
  lemma TwoThreadsLoseTheCount() returns (ops: seq<Op>)
    ensures IsRun(ops) && !IsOrderly(ops)
    ensures Run(Init, ops) == Both(2 - INITIAL, HeldStrong, HeldStrong)
  {
    var k := INITIAL;
    FirstHalf();
    BothStep(k, IncStrong(0), Try(0), k + 1, IncFix, Try(0), 1);
    BothStep(k + 1, IncFix, Try(0), k + 1, IncFix, TryCas(0, k + 1), 2);
    ops := SecondHalf();
    OneMore(Both(k + 1, IncFix, Try(0)), Continue(2), ops);
    ops := [Continue(2)] + ops;
    OneMore(Both(k, IncStrong(0), Try(0)), Continue(1), ops);
    ops := [Continue(1)] + ops;
    OneMore(Step(Init, NewStrong(1, 0)), Promote(2, 0), ops);
    ops := [Promote(2, 0)] + ops;
    OneMore(Init, NewStrong(1, 0), ops);
    ops := [NewStrong(1, 0)] + ops;
    NegativeIsUnorderly(ops);
  }

  lemma NegativeIsUnorderly(ops: seq<Op>)
    requires IsRun(ops) && Run(Init, ops).strong < 0
    ensures !IsOrderly(ops)
  {
    if IsOrderly(ops) {
      InitOk();
      RunKeeps(Init, ops);
    }
  }
}
