/**
 The reference counts of an object with the normal (strong) lifetime (libs/utils/RefBase.cpp),
 from a new object on which its creator has taken a weak reference.

 Any number of threads run incStrong, decStrong, incWeak, decWeak, attemptIncStrong and
 attemptIncWeak at once; every access to mStrong and mWeak is one atomic step and all
 interleavings are allowed.  A token stands for one reference, held or under way: it says
 where its operation is.  An operation that makes a new reference runs on behalf of a held one,
 its `via`, which its owner does not release meanwhile.
 */
module RefBase {
  import opened Wrappers

  const INITIAL := 0x1000_0000

  type Token = nat

  datatype At =
    | HeldStrong
    | HeldWeak
    | IncStrong(via: Token)              // incStrong: weak count taken, strong count not yet
    | IncFix                             // incStrong: the old count was INITIAL
    | LastStrong                         // decStrong: took the strong count to zero
    | DropWeak                           // about to give the weak count back
    | LastWeak                           // took the weak count to zero
    | Try(via: Token)                    // attemptIncStrong: about to read mStrong
    | TryCas(via: Token, cur: int)       // attemptIncStrong: about to swap cur for cur + 1
    | TryHard(via: Token, cur: int)      // the same in the loop for a count that was INITIAL
    | TryHardRead(via: Token)
    | Fix                                // attemptIncStrong: swapped, about to check for INITIAL
    | FixCas(cur: int)
    | TryWeak(via: Token)                // attemptIncWeak: about to read mWeak
    | TryWeakCas(via: Token, cur: int)

  /** `objectDeletes` and `implDeletes` count the deletions of the object and of its weakref_impl. */
  datatype State = State(strong: int, weak: int, toks: map<Token, At>, objectDeletes: nat, implDeletes: nat)

  /** A new object with one weak reference and no strong one yet. */
  const Init := State(INITIAL, 1, map[0 := HeldWeak], 0, 0)

  predicate CountsStrong(a: At) {
    a.HeldStrong? || a.IncFix? || a.Fix? || a.FixCas?
  }

  predicate CountsWeak(a: At) {
    !a.LastWeak? && !a.TryWeak? && !a.TryWeakCas?
  }

  function Via(a: At): Option<Token> {
    match a
    case IncStrong(v) => Some(v)
    case Try(v) => Some(v)
    case TryCas(v, _) => Some(v)
    case TryHard(v, _) => Some(v)
    case TryHardRead(v) => Some(v)
    case TryWeak(v) => Some(v)
    case TryWeakCas(v, _) => Some(v)
    case _ => None
  }

  predicate Held(a: At) {
    a.HeldStrong? || a.HeldWeak?
  }

  ghost predicate Used(s: State, t: Token) {
    exists u: Token :: u in s.toks && Via(s.toks[u]) == Some(t)
  }

  function Put(toks: map<Token, At>, t: Token, a: Option<At>): map<Token, At> {
    if a.Some? then toks[t := a.value] else toks - {t}
  }

  function Get(toks: map<Token, At>, t: Token): Option<At> {
    if t in toks then Some(toks[t]) else None
  }

  // ---------------------------------------------------------------- atomic steps

  /** Where attemptIncStrong goes after it read `cur`. */
  function Route(via: Token, cur: int): At {
    if cur > 0 && cur != INITIAL then TryCas(via, cur) else if cur <= 0 then DropWeak else TryHard(via, cur)
  }

  /** The atomic decrement of mWeak by token `t`. */
  function GiveWeak(s: State, t: Token): State {
    s.(weak := s.weak - 1, toks := Put(s.toks, t, if s.weak == 1 then Some(LastWeak) else None))
  }

  /** The atomic decrement of mStrong by token `t`. */
  function GiveStrong(s: State, t: Token): State {
    s.(strong := s.strong - 1, toks := s.toks[t := if s.strong == 1 then LastStrong else DropWeak])
  }

  /** The next atomic step of the operation token `t` is in. */
  function Advance(s: State, t: Token): State
    requires t in s.toks
  {
    match s.toks[t]
    case HeldStrong => s
    case HeldWeak => s
    case IncStrong(v) => s.(strong := s.strong + 1,
      toks := s.toks[t := if s.strong == INITIAL then IncFix else HeldStrong])
    case IncFix => s.(strong := s.strong - INITIAL, toks := s.toks[t := HeldStrong])
    case LastStrong => s.(objectDeletes := s.objectDeletes + 1, toks := s.toks[t := DropWeak])
    case DropWeak => GiveWeak(s, t)
    case LastWeak => // without a strong reference ever, the object goes too and its destructor deletes the impl
      if s.strong == INITIAL then
        s.(objectDeletes := s.objectDeletes + 1, implDeletes := s.implDeletes + 1, toks := s.toks - {t})
      else s.(implDeletes := s.implDeletes + 1, toks := s.toks - {t})
    case Try(v) => s.(toks := s.toks[t := Route(v, s.strong)])
    case TryCas(v, cur) =>
      if s.strong == cur then s.(strong := cur + 1, toks := s.toks[t := Fix]) else s.(toks := s.toks[t := Try(v)])
    case TryHard(v, cur) =>
      if s.strong == cur then s.(strong := cur + 1, toks := s.toks[t := Fix])
        else s.(toks := s.toks[t := TryHardRead(v)])
    case TryHardRead(v) => s.(toks := s.toks[t := if s.strong <= 0 then DropWeak else TryHard(v, s.strong)])
    case Fix => s.(toks := s.toks[t := if s.strong >= INITIAL then FixCas(s.strong) else HeldStrong])
    case FixCas(cur) =>
      if s.strong == cur then s.(strong := cur - INITIAL, toks := s.toks[t := HeldStrong])
        else s.(toks := s.toks[t := Fix])
    case TryWeak(v) => s.(toks := Put(s.toks, t, if s.weak > 0 then Some(TryWeakCas(v, s.weak)) else None))
    case TryWeakCas(v, cur) =>
      if s.weak == cur then s.(weak := cur + 1, toks := s.toks[t := HeldWeak]) else s.(toks := s.toks[t := TryWeak(v)])
  }

  datatype Op =
    | NewStrong(t: Token, via: Token)
    | NewWeak(t: Token, via: Token)
    | Promote(t: Token, via: Token)
    | PromoteWeak(t: Token, via: Token)
    | ReleaseStrong(t: Token)
    | ReleaseWeak(t: Token)
    | Continue(t: Token)

  /** Nobody has deleted the object or is about to. */
  ghost predicate Alive(s: State) {
    s.objectDeletes == 0 && forall t: Token :: t in s.toks ==> !s.toks[t].LastStrong?
  }

  /** Clients make references only while they hold one, call incStrong only on an object that is
      there (its creator does so holding no strong reference), release only what they hold and do
      not use, and fewer than INITIAL references are held or under way at once. */
  ghost predicate Enabled(s: State, op: Op) {
    match op
    case NewStrong(t, v) => t !in s.toks && |s.toks| < INITIAL - 1 && v in s.toks && Held(s.toks[v]) && Alive(s)
    case NewWeak(t, v) => t !in s.toks && |s.toks| < INITIAL - 1 && v in s.toks && Held(s.toks[v])
    case Promote(t, v) => t !in s.toks && |s.toks| < INITIAL - 1 && v in s.toks && Held(s.toks[v])
    case PromoteWeak(t, v) => t !in s.toks && |s.toks| < INITIAL - 1 && v in s.toks && Held(s.toks[v])
    case ReleaseStrong(t) => t in s.toks && s.toks[t].HeldStrong? && !Used(s, t)
    case ReleaseWeak(t) => t in s.toks && s.toks[t].HeldWeak? && !Used(s, t)
    case Continue(t) => t in s.toks && (s.toks[t].IncStrong? ==> Alive(s))
  }

  function Step(s: State, op: Op): State
    requires op.Continue? ==> op.t in s.toks
  {
    match op
    case NewStrong(t, v) => s.(weak := s.weak + 1, toks := s.toks[t := IncStrong(v)])
    case NewWeak(t, v) => s.(weak := s.weak + 1, toks := s.toks[t := HeldWeak])
    case Promote(t, v) => s.(weak := s.weak + 1, toks := s.toks[t := Try(v)])
    case PromoteWeak(t, v) => s.(toks := s.toks[t := TryWeak(v)])
    case ReleaseStrong(t) => GiveStrong(s, t)
    case ReleaseWeak(t) => GiveWeak(s, t)
    case Continue(t) => Advance(s, t)
  }

  // ---------------------------------------------------------------- the invariant

  ghost function StrongSet(toks: map<Token, At>): set<Token> {
    set t: Token | t in toks && CountsStrong(toks[t])
  }

  ghost function WeakSet(toks: map<Token, At>): set<Token> {
    set t: Token | t in toks && CountsWeak(toks[t])
  }

  /** Until the first strong reference is fixed up mStrong is INITIAL too high. */
  function Offset(s: State): int {
    if s.strong >= INITIAL then INITIAL else 0
  }

  /** A strong reference that has yet to fix the count up, or to see that it is. */
  predicate Pending(a: At) {
    a.IncFix? || a.Fix? || a.FixCas?
  }

  /** What one token promises. */
  ghost predicate TokenOk(s: State, t: Token) {
    t in s.toks ==>
      var a := s.toks[t];
      && (Via(a).Some? ==> Via(a).value in s.toks && Held(s.toks[Via(a).value]))
      && (a.TryCas? ==> a.cur > 0 && a.cur != INITIAL)
      && (a.TryHard? ==> a.cur > 0)
      && (a.FixCas? ==> a.cur >= INITIAL)
      && (a.TryWeakCas? ==> a.cur > 0)
      && (a.IncFix? ==> s.strong >= INITIAL && forall u: Token :: u in s.toks && s.toks[u].IncFix? ==> u == t)
      && (a.LastStrong? ==>
            && s.strong == 0 && s.objectDeletes == 0
            && forall u: Token :: u in s.toks && s.toks[u].LastStrong? ==> u == t)
      && (a.LastWeak? ==> s.weak == 0 && s.implDeletes == 0 && forall u: Token :: u in s.toks ==> u == t)
  }

  ghost predicate Inv(s: State) {
    && s.strong == |StrongSet(s.toks)| + Offset(s) && s.weak == |WeakSet(s.toks)| && |s.toks| < INITIAL
    && (forall t: Token {:trigger TokenOk(s, t)} :: TokenOk(s, t))
    && (s.strong > INITIAL ==> exists t: Token :: t in s.toks && Pending(s.toks[t]))
    && s.objectDeletes <= 1 && s.implDeletes <= 1
    && (s.objectDeletes == 1 ==>
          && (s.strong == 0 || (s.strong == INITIAL && s.implDeletes == 1))
          && forall t: Token :: t in s.toks ==> !s.toks[t].LastStrong?)
    && (s.objectDeletes == 0 && s.strong == 0 ==> exists t: Token :: t in s.toks && s.toks[t].LastStrong?)
    && (s.implDeletes == 1 ==> s.weak == 0 && s.toks == map[] && s.objectDeletes == 1)
    && (s.implDeletes == 0 && s.weak == 0 ==> exists t: Token :: t in s.toks && s.toks[t].LastWeak?)
  }

  lemma SameBut(a: set<Token>, b: set<Token>, t: Token)
    requires a - {t} == b - {t}
    ensures |b| == |a| - One(t in a) + One(t in b)
  {
    assert t in a ==> a == (a - {t}) + {t};
    assert t in b ==> b == (b - {t}) + {t};
    assert t !in a ==> a == a - {t};
    assert t !in b ==> b == b - {t};
  }

  lemma RecountStrong(toks: map<Token, At>, t: Token, a: Option<At>)
    ensures |StrongSet(Put(toks, t, a))| == |StrongSet(toks)| - One(t in toks &&
      CountsStrong(toks[t])) + One(a.Some? && CountsStrong(a.value))
  {
    var x, y := StrongSet(toks), StrongSet(Put(toks, t, a));
    forall u: Token ensures u in x - {t} <==> u in y - {t} {
      assert Get(Put(toks, t, a), t) == a && (u != t ==> Get(Put(toks, t, a), u) == Get(toks, u));
    }
    SameBut(x, y, t);
  }

  lemma RecountWeak(toks: map<Token, At>, t: Token, a: Option<At>)
    ensures |WeakSet(Put(toks, t, a))| == |WeakSet(toks)| - One(t in toks && CountsWeak(toks[t])) + One(a.Some? &&
      CountsWeak(a.value))
  {
    var x, y := WeakSet(toks), WeakSet(Put(toks, t, a));
    forall u: Token ensures u in x - {t} <==> u in y - {t} {
      assert Get(Put(toks, t, a), t) == a && (u != t ==> Get(Put(toks, t, a), u) == Get(toks, u));
    }
    SameBut(x, y, t);
  }

  /** How the counts follow a change of one token. */
  lemma Recount(toks: map<Token, At>, t: Token, a: Option<At>)
    ensures |StrongSet(Put(toks, t, a))| == |StrongSet(toks)| - One(t in toks &&
      CountsStrong(toks[t])) + One(a.Some? && CountsStrong(a.value))
    ensures |WeakSet(Put(toks, t, a))| == |WeakSet(toks)| - One(t in toks && CountsWeak(toks[t])) + One(a.Some? &&
      CountsWeak(a.value))
    ensures |Put(toks, t, a)| == |toks| - One(t in toks) + One(a.Some?)
  {
    RecountStrong(toks, t, a);
    RecountWeak(toks, t, a);
    SameBut(toks.Keys, Put(toks, t, a).Keys, t);
    assert |toks| == |toks.Keys| && |Put(toks, t, a)| == |Put(toks, t, a).Keys|;
  }

  /** A held reference is counted; no count exceeds the number of tokens. */
  lemma HeldIsCounted(s: State, t: Token)
    requires Inv(s) && t in s.toks
    ensures CountsStrong(s.toks[t]) ==> s.strong > Offset(s)
    ensures CountsWeak(s.toks[t]) || Via(s.toks[t]).Some? ==> s.weak > 0
    ensures 0 <= s.strong < 2 * INITIAL && s.implDeletes == 0
  {
    assert TokenOk(s, t);
    assert CountsStrong(s.toks[t]) ==> t in StrongSet(s.toks);
    assert CountsWeak(s.toks[t]) ==> t in WeakSet(s.toks);
    if Via(s.toks[t]).Some? {
      assert Via(s.toks[t]).value in WeakSet(s.toks);
    }
    assert StrongSet(s.toks) <= s.toks.Keys;
    Cardinality(StrongSet(s.toks), s.toks.Keys);
    assert |s.toks| == |s.toks.Keys|;
  }

  lemma {:induction false} Cardinality(a: set<Token>, b: set<Token>)
    requires a <= b
    ensures |a| <= |b|
  {
    assert b == a + (b - a);
  }

  /** The step moves token `t` to `a` and keeps the counts true. */
  ghost predicate Moves(s: State, y: State, t: Token, a: Option<At>) {
    && y.toks == Put(s.toks, t, a)
    && y.strong == s.strong - One(t in s.toks && CountsStrong(s.toks[t])) + One(a.Some? && CountsStrong(a.value))
    && y.weak == s.weak - One(t in s.toks && CountsWeak(s.toks[t])) + One(a.Some? && CountsWeak(a.value))
  }

  lemma CountsFollow(s: State, y: State, t: Token, a: Option<At>)
    requires Inv(s) && Moves(s, y, t, a) && (t in s.toks || |s.toks| < INITIAL - 1)
    ensures y.strong == |StrongSet(y.toks)| + Offset(y) && y.weak == |WeakSet(y.toks)| && Offset(y) == Offset(s)
    ensures |y.toks| == |s.toks| - One(t in s.toks) + One(a.Some?)
  {
    Recount(s.toks, t, a);
    Cardinality(StrongSet(y.toks), y.toks.Keys);
    assert |y.toks| == |y.toks.Keys|;
  }

  /** Tokens other than `t` keep their promises. */
  lemma OtherToken(s: State, y: State, t: Token, a: Option<At>, u: Token)
    requires Inv(s) && Moves(s, y, t, a) && u != t && Offset(y) == Offset(s)
    requires a.Some? && a.value.IncFix? ==> forall v: Token :: v in s.toks && s.toks[v].IncFix? ==> v == t
    requires s.strong == 0 ==> y.strong == 0 && !(a.Some? && a.value.LastStrong?)
    requires y.objectDeletes == s.objectDeletes || (t in s.toks && s.toks[t].LastStrong?)
    requires y.implDeletes == s.implDeletes || (t in s.toks && s.toks[t].LastWeak?)
    requires Used(s, t) ==> a.Some? && a == Get(s.toks, t)
    requires t in s.toks || (a.Some? && Via(a.value).Some? && Via(a.value).value in s.toks) || s.weak > 0
    requires forall v: Token :: v in s.toks && s.toks[v].LastWeak? ==> v == t
    ensures TokenOk(y, u)
  {
    assert TokenOk(s, u) && TokenOk(s, t);
    if u in s.toks && Via(s.toks[u]).Some? {
      assert Via(s.toks[u]).value == t ==> Used(s, t);
    }
  }

  /** A step that takes neither count to zero and deletes nothing. */
  lemma OrdinaryKeeps(s: State, y: State, t: Token, a: Option<At>)
    requires Inv(s) && Moves(s, y, t, a) && y.objectDeletes == s.objectDeletes && y.implDeletes == s.implDeletes
    requires (s.strong == 0 <==> y.strong == 0) && s.weak > 0 && y.weak > 0
    requires t in s.toks ==> !s.toks[t].LastStrong?
    requires a.Some? ==> !a.value.LastStrong? && !a.value.LastWeak?
    requires a.Some? && a.value.IncFix? ==> forall v: Token :: v in s.toks && s.toks[v].IncFix? ==> v == t
    requires s.strong >= INITIAL && y.strong > INITIAL && (s.strong == INITIAL || (t in s.toks && Pending(s.toks[t])))
      ==> a.Some? && Pending(a.value)
    requires Used(s, t) ==> a.Some? && a == Get(s.toks, t)
    requires TokenOk(y, t) && (t in s.toks || |s.toks| < INITIAL - 1)
    ensures Inv(y)
  {
    CountsFollow(s, y, t, a);
    forall u: Token ensures TokenOk(y, u) {
      if u != t {
        forall v: Token ensures v in s.toks && s.toks[v].LastWeak? ==> v == t {
          assert TokenOk(s, v);
        }
        OtherToken(s, y, t, a, u);
      }
    }
    if s.objectDeletes == 0 && s.strong == 0 {
      var v: Token :| v in s.toks && s.toks[v].LastStrong?;
      assert v in y.toks && y.toks[v].LastStrong?;
    }
    if y.strong > INITIAL {
      StaysPending(s, y, t, a);
    }
  }

  lemma StaysPending(s: State, y: State, t: Token, a: Option<At>)
    requires Inv(s) && Moves(s, y, t, a) && s.strong >= INITIAL
    requires s.strong == INITIAL || (t in s.toks && Pending(s.toks[t])) ==> a.Some? && Pending(a.value)
    ensures exists u: Token :: u in y.toks && Pending(y.toks[u])
  {
    if a.Some? && Pending(a.value) {
      assert t in y.toks && Pending(y.toks[t]);
    } else {
      var v: Token :| v in s.toks && Pending(s.toks[v]);
      assert v in y.toks && Pending(y.toks[v]);
    }
  }

  /** incStrong on an object that is there finds a positive count. */
  lemma AliveIsCounted(s: State, t: Token)
    requires Inv(s) && t in s.toks
    ensures Alive(s) <==> s.strong > 0
  {
    HeldIsCounted(s, t);
    if s.strong > 0 {
      forall u: Token | u in s.toks ensures !s.toks[u].LastStrong? {
        assert TokenOk(s, u);
      }
    }
  }

  /** A new reference is made from a held one. */
  lemma NewKeeps(s: State, op: Op)
    requires Inv(s) && Enabled(s, op) && (op.NewStrong? || op.NewWeak? || op.Promote? || op.PromoteWeak?)
    ensures Inv(Step(s, op))
  {
    var y := Step(s, op);
    HeldIsCounted(s, op.via);
    forall u: Token ensures u in s.toks && Via(s.toks[u]) == Some(op.t) ==> op.t in s.toks {
      assert TokenOk(s, u);
    }
    OrdinaryKeeps(s, y, op.t, Some(y.toks[op.t]));
  }

  /** decStrong's decrement: the last one leaves exactly one token to delete the object. */
  lemma GiveStrongKeeps(s: State, t: Token)
    requires Inv(s) && t in s.toks && s.toks[t].HeldStrong? && !Used(s, t)
    ensures Inv(GiveStrong(s, t))
  {
    var y := GiveStrong(s, t);
    HeldIsCounted(s, t);
    if s.strong != 1 {
      OrdinaryKeeps(s, y, t, Some(DropWeak));
    } else {
      CountsFollow(s, y, t, Some(LastStrong));
      forall v: Token ensures v in s.toks && s.toks[v].LastStrong? ==> v == t {
        assert TokenOk(s, v);
      }
      forall v: Token ensures v in s.toks && s.toks[v].LastWeak? ==> v == t {
        assert TokenOk(s, v);
      }
      forall u: Token ensures TokenOk(y, u) {
        if u != t {
          OtherToken(s, y, t, Some(LastStrong), u);
        }
      }
      assert y.toks[t].LastStrong?;
    }
  }

  lemma OnlyToken(s: State, t: Token)
    requires Inv(s) && t in WeakSet(s.toks) && s.weak == 1
    ensures WeakSet(s.toks) == {t}
    ensures forall u: Token :: u in s.toks && u != t ==> Via(s.toks[u]) == Some(t)
  {
    assert |WeakSet(s.toks) - {t}| == 0;
    forall u: Token | u in s.toks && u != t ensures Via(s.toks[u]) == Some(t) {
      assert TokenOk(s, u) && u !in WeakSet(s.toks);
      assert Via(s.toks[u]).Some? ==> Via(s.toks[u]).value in WeakSet(s.toks);
    }
  }

  /** decWeak's decrement: the last one leaves exactly one token to delete the weakref_impl. */
  lemma GiveWeakKeeps(s: State, t: Token)
    requires Inv(s) && t in s.toks && (s.toks[t].HeldWeak? || s.toks[t].DropWeak?) && !Used(s, t)
    ensures Inv(GiveWeak(s, t))
  {
    var y := GiveWeak(s, t);
    HeldIsCounted(s, t);
    if s.weak != 1 {
      OrdinaryKeeps(s, y, t, None);
    } else {
      CountsFollow(s, y, t, Some(LastWeak));
      assert t in WeakSet(s.toks);
      OnlyToken(s, t);
      forall u: Token | u in s.toks ensures u == t {
        assert u != t ==> Used(s, t);
      }
      assert StrongSet(s.toks) == {};
      assert y.toks == map[t := LastWeak];
      forall u: Token ensures TokenOk(y, u) {
      }
      assert y.toks[t].LastWeak?;
    }
  }

  /** decStrong deletes the object. */
  lemma DeleteObjectKeeps(s: State, t: Token)
    requires Inv(s) && t in s.toks && s.toks[t].LastStrong?
    ensures Inv(Advance(s, t)) && s.objectDeletes == 0
  {
    var y := Advance(s, t);
    assert TokenOk(s, t);
    HeldIsCounted(s, t);
    CountsFollow(s, y, t, Some(DropWeak));
    forall v: Token ensures v in s.toks && s.toks[v].LastWeak? ==> v == t {
      assert TokenOk(s, v);
    }
    forall u: Token | u in s.toks && Via(s.toks[u]) == Some(t) ensures Held(s.toks[t]) {
      assert TokenOk(s, u);
    }
    forall u: Token ensures TokenOk(y, u) {
      if u != t {
        OtherToken(s, y, t, Some(DropWeak), u);
      }
    }
  }

  /** decWeak deletes the weakref_impl; the object is gone by then, or goes with it if it never had
      a strong reference. */
  lemma DeleteImplKeeps(s: State, t: Token)
    requires Inv(s) && t in s.toks && s.toks[t].LastWeak?
    ensures Inv(Advance(s, t)) && s.implDeletes == 0 && Advance(s, t).implDeletes == 1
    ensures s.objectDeletes == (if s.strong == INITIAL then 0 else 1) && Advance(s, t).objectDeletes == 1
  {
    assert TokenOk(s, t);
    assert StrongSet(s.toks) == {} by {
      forall u: Token | u in s.toks ensures u == t {
      }
    }
    var y := Advance(s, t);
    assert y.toks == map[];
    assert StrongSet(y.toks) == {} && WeakSet(y.toks) == {};
    forall u: Token ensures TokenOk(y, u) {
    }
  }

  /** incStrong's increment. */
  lemma IncStrongKeeps(s: State, t: Token)
    requires Inv(s) && t in s.toks && s.toks[t].IncStrong? && Alive(s)
    ensures Inv(Advance(s, t))
  {
    assert TokenOk(s, t);
    HeldIsCounted(s, t);
    AliveIsCounted(s, t);
    NotUsed(s, t);
    if s.strong == INITIAL {
      forall u: Token | u in s.toks ensures !s.toks[u].IncFix? {
        HeldIsCounted(s, u);
      }
    }
    OrdinaryKeeps(s, Advance(s, t), t, Get(Advance(s, t).toks, t));
  }

  /** The reads of mStrong in attemptIncStrong. */
  lemma TryReadKeeps(s: State, t: Token)
    requires Inv(s) && t in s.toks && (s.toks[t].Try? || s.toks[t].TryHardRead? || s.toks[t].Fix?)
    ensures Inv(Advance(s, t))
  {
    assert TokenOk(s, t);
    HeldIsCounted(s, t);
    NotUsed(s, t);
    OrdinaryKeeps(s, Advance(s, t), t, Get(Advance(s, t).toks, t));
  }

  /** The swaps that fail. */
  lemma TryAgainKeeps(s: State, t: Token)
    requires Inv(s) && t in s.toks && (s.toks[t].TryCas? || s.toks[t].TryHard? || s.toks[t].FixCas?)
    requires s.strong != s.toks[t].cur
    ensures Inv(Advance(s, t))
  {
    assert TokenOk(s, t);
    HeldIsCounted(s, t);
    NotUsed(s, t);
    OrdinaryKeeps(s, Advance(s, t), t, Get(Advance(s, t).toks, t));
  }

  /** The swaps that succeed. */
  lemma TrySwapKeeps(s: State, t: Token)
    requires Inv(s) && t in s.toks && (s.toks[t].TryCas? || s.toks[t].TryHard?) && s.strong == s.toks[t].cur
    ensures Inv(Advance(s, t))
  {
    assert TokenOk(s, t);
    HeldIsCounted(s, t);
    NotUsed(s, t);
    OrdinaryKeeps(s, Advance(s, t), t, Some(Fix));
  }

  /** The fix-up of the first strong reference: nobody else is to make it as well. */
  lemma FixUpKeeps(s: State, t: Token)
    requires Inv(s) && t in s.toks && (s.toks[t].IncFix? || (s.toks[t].FixCas? && s.strong == s.toks[t].cur))
    requires forall u: Token :: u in s.toks && s.toks[u].IncFix? ==> u == t
    ensures Inv(Advance(s, t)) && Advance(s, t).strong == s.strong - INITIAL < INITIAL
  {
    var y := Advance(s, t);
    assert TokenOk(s, t);
    HeldIsCounted(s, t);
    NotUsed(s, t);
    Recount(s.toks, t, Some(HeldStrong));
    Cardinality(StrongSet(y.toks), y.toks.Keys);
    assert |y.toks| == |y.toks.Keys|;
    forall u: Token ensures TokenOk(y, u) {
      assert TokenOk(s, u);
      if u in s.toks && Via(s.toks[u]).Some? {
        assert Via(s.toks[u]).value == t ==> Used(s, t);
      }
    }
  }

  /** The steps of attemptIncWeak on mWeak. */
  lemma WeakStepKeeps(s: State, t: Token)
    requires Inv(s) && t in s.toks && (s.toks[t].TryWeak? || s.toks[t].TryWeakCas?)
    ensures Inv(Advance(s, t))
  {
    assert TokenOk(s, t);
    HeldIsCounted(s, t);
    NotUsed(s, t);
    OrdinaryKeeps(s, Advance(s, t), t, Get(Advance(s, t).toks, t));
  }

  /** Not the fix-up of a promotion between the two steps of the first incStrong. */
  ghost predicate OrderlyStep(s: State, t: Token)
    requires t in s.toks
  {
    s.toks[t].FixCas? && s.strong == s.toks[t].cur ==> forall u: Token :: u in s.toks ==> !s.toks[u].IncFix?
  }

  lemma AdvanceKeeps(s: State, t: Token)
    requires Inv(s) && t in s.toks && OrderlyStep(s, t) && (s.toks[t].IncStrong? ==> Alive(s))
    ensures Inv(Advance(s, t))
  {
    assert TokenOk(s, t);
    var a := s.toks[t];
    if a.LastStrong? {
      DeleteObjectKeeps(s, t);
    } else if a.LastWeak? {
      DeleteImplKeeps(s, t);
    } else if a.DropWeak? {
      NotUsed(s, t);
      GiveWeakKeeps(s, t);
    } else if a.TryWeak? || a.TryWeakCas? {
      WeakStepKeeps(s, t);
    } else if a.IncFix? || (a.FixCas? && s.strong == a.cur) {
      FixUpKeeps(s, t);
    } else if a.IncStrong? {
      IncStrongKeeps(s, t);
    } else if (a.TryCas? || a.TryHard?) && s.strong == a.cur {
      TrySwapKeeps(s, t);
    } else if a.TryCas? || a.TryHard? || a.FixCas? {
      TryAgainKeeps(s, t);
    } else if !Held(a) {
      TryReadKeeps(s, t);
    }
  }

  lemma NotUsed(s: State, t: Token)
    requires Inv(s) && t in s.toks && !Held(s.toks[t])
    ensures !Used(s, t)
  {
    forall u: Token | u in s.toks ensures Via(s.toks[u]) != Some(t) {
      assert TokenOk(s, u);
    }
  }

  ghost predicate Orderly(s: State, op: Op) {
    op.Continue? && op.t in s.toks ==> OrderlyStep(s, op.t)
  }

  lemma StepKeeps(s: State, op: Op)
    requires Inv(s) && Enabled(s, op) && Orderly(s, op)
    ensures Inv(Step(s, op))
  {
    match op
    case ReleaseStrong(t) => GiveStrongKeeps(s, t);
    case ReleaseWeak(t) => GiveWeakKeeps(s, t);
    case Continue(t) => AdvanceKeeps(s, t);
    case _ => NewKeeps(s, op);
  }

  // ---------------------------------------------------------------- runs

  ghost predicate CanRun(s: State, ops: seq<Op>)
    decreases |ops|
  {
    ops == [] || (Enabled(s, ops[0]) && CanRun(Step(s, ops[0]), ops[1..]))
  }

  ghost function Run(s: State, ops: seq<Op>): State
    requires CanRun(s, ops)
    decreases |ops|
  {
    if ops == [] then s else Run(Step(s, ops[0]), ops[1..])
  }

  /** No promotion fixes the count up between the two steps of the first incStrong. */
  ghost predicate AllOrderly(s: State, ops: seq<Op>)
    requires CanRun(s, ops)
    decreases |ops|
  {
    ops == [] || (Orderly(s, ops[0]) && AllOrderly(Step(s, ops[0]), ops[1..]))
  }

  lemma {:induction false} RunKeeps(s: State, ops: seq<Op>)
    requires Inv(s) && CanRun(s, ops) && AllOrderly(s, ops)
    ensures Inv(Run(s, ops))
    decreases |ops|
  {
    if ops != [] {
      StepKeeps(s, ops[0]);
      RunKeeps(Step(s, ops[0]), ops[1..]);
    }
  }

  lemma InitOk()
    ensures Inv(Init)
  {
    assert StrongSet(Init.toks) == {} && WeakSet(Init.toks) == {0};
    forall t: Token ensures TokenOk(Init, t) {
    }
  }

  /** `ops` is a run from a new object. */
  ghost predicate IsRun(ops: seq<Op>) {
    CanRun(Init, ops)
  }

  /** It is one in which the first strong reference is fixed up by whoever is alone to do it. */
  ghost predicate IsOrderly(ops: seq<Op>) {
    IsRun(ops) && AllOrderly(Init, ops)
  }

  /** The state after such a run. */
  ghost function After(ops: seq<Op>): (s: State)
    requires IsOrderly(ops)
    ensures Inv(s)
  {
    InitOk();
    RunKeeps(Init, ops);
    Run(Init, ops)
  }
}
