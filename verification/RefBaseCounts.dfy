/**
 The counts of a weakref_impl as its methods change them (libs/utils/RefBase.cpp): each method
 is one atomic access with the local decision that follows it, and takes exactly the step
 RefBase specifies.
 */
module RefBaseCounts {
  import opened Wrappers
  import opened RefBase

  class WeakrefImpl {
    var mStrong: int
    var mWeak: int
    var toks: map<Token, At>
    ghost var objectDeletes: nat
    ghost var implDeletes: nat

    ghost function View(): State
      reads this
    {
      State(mStrong, mWeak, toks, objectDeletes, implDeletes)
    }

    /** A new object on which its creator has taken a weak reference. */
    constructor ()
      ensures View() == RefBase.Init
    {
      mStrong, mWeak, toks, objectDeletes, implDeletes := INITIAL, 1, map[0 := HeldWeak], 0, 0;
    }

    /** android_atomic_cmpxchg on mStrong. */
    method CompareAndSwapStrong(expected: int, wanted: int) returns (swapped: bool)
      modifies this`mStrong
      ensures swapped <==> old(mStrong) == expected
      ensures mStrong == if swapped then wanted else old(mStrong)
    {
      swapped := mStrong == expected;
      if swapped {
        mStrong := wanted;
      }
    }

    /** incStrong: the increment of mStrong after incWeak; the first one has to fix the count up. */
    method IncStrongSecond(t: Token) returns (first: bool)
      requires Inv(View()) && Enabled(View(), Continue(t)) && toks[t].IncStrong?
      modifies this`mStrong, this`toks
      ensures Inv(View()) && View() == Step(old(View()), Continue(t))
      ensures first <==> forall u: Token :: u in old(toks) ==> !CountsStrong(old(toks)[u])
      ensures toks[t] == if first then IncFix else HeldStrong
    {
      StepKeeps(View(), Continue(t));
      AliveIsCounted(View(), t);
      NoneCounted(View());
      var c := mStrong;
      mStrong := mStrong + 1;
      assert c > 0; // ALOG_ASSERT
      first := c == INITIAL;
      toks := toks[t := if first then IncFix else HeldStrong];
    }

    /** incStrong: the first one takes INITIAL_STRONG_VALUE off. */
    method FixFirst(t: Token)
      requires Inv(View()) && t in toks && toks[t].IncFix?
      modifies this`mStrong, this`toks
      ensures Inv(View()) && View() == Step(old(View()), Continue(t))
      ensures toks[t] == HeldStrong && 0 < mStrong < INITIAL
    {
      FixUpCounts(View(), t);
      mStrong := mStrong - INITIAL;
      toks := toks[t := HeldStrong];
    }

    /** decStrong: the decrement of mStrong. */
    method DecStrong(t: Token) returns (last: bool)
      requires Inv(View()) && Enabled(View(), ReleaseStrong(t))
      modifies this`mStrong, this`toks
      ensures Inv(View()) && View() == Step(old(View()), ReleaseStrong(t))
      ensures last <==> mStrong == 0
    {
      StepKeeps(View(), ReleaseStrong(t));
      HeldIsCounted(View(), t);
      var c := mStrong;
      mStrong := mStrong - 1;
      assert c >= 1; // ALOG_ASSERT
      last := c == 1;
      toks := toks[t := if last then LastStrong else DropWeak];
    }

    /** decStrong: `delete this` by the token that took the count to zero. */
    method DeleteObject(t: Token)
      requires Inv(View()) && t in toks && toks[t].LastStrong?
      modifies this`toks, this`objectDeletes
      ensures Inv(View()) && View() == Step(old(View()), Continue(t))
      ensures old(objectDeletes) == 0 && objectDeletes == 1
    {
      StepKeeps(View(), Continue(t));
      assert TokenOk(View(), t);
      objectDeletes := objectDeletes + 1;
      toks := toks[t := DropWeak];
    }

    /** decWeak at the end of decStrong or of a failed promotion. */
    method DecWeak(t: Token) returns (last: bool)
      requires Inv(View()) && t in toks && toks[t].DropWeak?
      modifies this`mWeak, this`toks
      ensures Inv(View()) && View() == Step(old(View()), Continue(t))
      ensures last <==> mWeak == 0
    {
      StepKeeps(View(), Continue(t));
      HeldIsCounted(View(), t);
      var c := mWeak;
      mWeak := mWeak - 1;
      assert c >= 1; // ALOG_ASSERT
      last := c == 1;
      toks := if last then toks[t := LastWeak] else toks - {t};
    }

    /** decWeak: `delete impl` by the token that took the weak count to zero; an object that never had
        a strong reference goes first. */
    method DeleteImpl(t: Token)
      requires Inv(View()) && t in toks && toks[t].LastWeak?
      modifies this`toks, this`implDeletes, this`objectDeletes
      ensures Inv(View()) && View() == Step(old(View()), Continue(t))
      ensures old(implDeletes) == 0 && implDeletes == 1 && objectDeletes == 1 && toks == map[]
    {
      DeleteImplKeeps(View(), t);
      HeldIsCounted(View(), t);
      if mStrong == INITIAL {
        objectDeletes := objectDeletes + 1;   // delete mBase, whose destructor deletes mRefs
      }
      implDeletes := implDeletes + 1;
      toks := toks - {t};
    }

    /** attemptIncStrong: a read of mStrong and where the loop goes from there. */
    method TryRead(t: Token) returns (cur: int)
      requires Inv(View()) && t in toks && toks[t].Try?
      modifies this`toks
      ensures Inv(View()) && View() == Step(old(View()), Continue(t)) && cur == mStrong
      ensures cur == 0 ==> toks[t] == DropWeak
      ensures cur == INITIAL ==> toks[t] == TryHard(old(toks[t].via), cur)
      ensures cur != 0 && cur != INITIAL ==> toks[t] == TryCas(old(toks[t].via), cur)
    {
      StepKeeps(View(), Continue(t));
      HeldIsCounted(View(), t);
      cur := mStrong;
      toks := toks[t := Route(toks[t].via, cur)];
    }

    /** attemptIncStrong: one turn of the compare-and-swap loop. */
    method TrySwap(t: Token) returns (swapped: bool)
      requires Inv(View()) && t in toks && toks[t].TryCas?
      modifies this`mStrong, this`toks
      ensures Inv(View()) && View() == Step(old(View()), Continue(t))
      ensures swapped ==> old(mStrong) > 0 && objectDeletes == 0 && mStrong == old(mStrong) + 1
      ensures !swapped ==> mStrong == old(mStrong)
    {
      StepKeeps(View(), Continue(t));
      assert TokenOk(View(), t);
      var x := toks[t];
      swapped := CompareAndSwapStrong(x.cur, x.cur + 1);
      toks := toks[t := if swapped then Fix else Try(x.via)];
    }

    /** attemptIncStrong: one turn of the loop for an object that never had a strong reference. */
    method TryFirst(t: Token) returns (swapped: bool)
      requires Inv(View()) && t in toks && toks[t].TryHard?
      modifies this`mStrong, this`toks
      ensures Inv(View()) && View() == Step(old(View()), Continue(t))
      ensures swapped ==> old(mStrong) > 0 && objectDeletes == 0 && mStrong == old(mStrong) + 1 && toks[t] == Fix
      ensures !swapped ==> mStrong == old(mStrong) && toks[t] == TryHardRead(old(toks[t].via))
    {
      StepKeeps(View(), Continue(t));
      assert TokenOk(View(), t);
      var x := toks[t];
      swapped := CompareAndSwapStrong(x.cur, x.cur + 1);
      toks := toks[t := if swapped then Fix else TryHardRead(x.via)];
    }

    /** attemptIncStrong: the read at the end of that turn. */
    method TryFirstRead(t: Token) returns (more: bool)
      requires Inv(View()) && t in toks && toks[t].TryHardRead?
      modifies this`toks
      ensures Inv(View()) && View() == Step(old(View()), Continue(t))
      ensures more <==> mStrong > 0
    {
      StepKeeps(View(), Continue(t));
      var cur := mStrong;
      more := cur > 0;
      toks := toks[t := if more then TryHard(toks[t].via, cur) else DropWeak];
    }

    /** attemptIncStrong: the read that decides whether the count is to be fixed up. */
    method FixRead(t: Token) returns (more: bool)
      requires Inv(View()) && t in toks && toks[t].Fix?
      modifies this`toks
      ensures Inv(View()) && View() == Step(old(View()), Continue(t))
      ensures more <==> mStrong >= INITIAL
    {
      StepKeeps(View(), Continue(t));
      HeldIsCounted(View(), t);
      var cur := mStrong;
      more := cur >= INITIAL;
      if more {
        assert cur > INITIAL; // ALOG_ASSERT
      }
      toks := toks[t := if more then FixCas(cur) else HeldStrong];
    }

    /** attemptIncStrong: one turn of the fix-up loop.  The count stays right if no first incStrong is
        between its two steps. */
    method FixSwap(t: Token) returns (swapped: bool)
      requires Inv(View()) && t in toks && toks[t].FixCas?
      modifies this`mStrong, this`toks
      ensures View() == Step(old(View()), Continue(t))
      ensures swapped ==> mStrong == old(mStrong) - INITIAL && toks[t] == HeldStrong
      ensures !swapped ==> mStrong == old(mStrong) && toks[t] == Fix
      ensures Inv(View()) <==> !swapped || forall u: Token :: u in old(toks) ==> !old(toks)[u].IncFix?
    {
      FixSwapKeepsIff(View(), t);
      var cur := toks[t].cur;
      swapped := CompareAndSwapStrong(cur, cur - INITIAL);
      toks := toks[t := if swapped then HeldStrong else Fix];
    }

    /** attemptIncWeak: a read of mWeak; from a held reference it is not zero. */
    method TryWeakRead(t: Token)
      requires Inv(View()) && t in toks && toks[t].TryWeak?
      modifies this`toks
      ensures Inv(View()) && View() == Step(old(View()), Continue(t))
      ensures mWeak > 0 && toks[t] == TryWeakCas(old(toks[t].via), mWeak)
    {
      StepKeeps(View(), Continue(t));
      HeldIsCounted(View(), t);
      var cur := mWeak;
      assert cur >= 0; // ALOG_ASSERT
      toks := if cur > 0 then toks[t := TryWeakCas(toks[t].via, cur)] else toks - {t};
    }

    /** attemptIncWeak: one turn of the compare-and-swap loop. */
    method TryWeakSwap(t: Token) returns (swapped: bool)
      requires Inv(View()) && t in toks && toks[t].TryWeakCas?
      modifies this`mWeak, this`toks
      ensures Inv(View()) && View() == Step(old(View()), Continue(t))
      ensures swapped ==> mWeak == old(mWeak) + 1 && toks[t] == HeldWeak
      ensures !swapped ==> mWeak == old(mWeak) && toks[t] == TryWeak(old(toks[t].via))
    {
      StepKeeps(View(), Continue(t));
      var x := toks[t];
      swapped := mWeak == x.cur;
      if swapped {
        mWeak := x.cur + 1;
      }
      toks := toks[t := if swapped then HeldWeak else TryWeak(x.via)];
    }
  }

  /** mStrong is at its initial value exactly while nobody has a strong reference and none was lost. */
  lemma NoneCounted(s: State)
    requires Inv(s) && s.strong > 0
    ensures s.strong == INITIAL <==> forall u: Token :: u in s.toks ==> !CountsStrong(s.toks[u])
  {
    if forall u: Token :: u in s.toks ==> !CountsStrong(s.toks[u]) {
      assert StrongSet(s.toks) == {};
    }
    if s.strong == INITIAL {
      forall u: Token | u in s.toks ensures !CountsStrong(s.toks[u]) {
        HeldIsCounted(s, u);
      }
    }
  }

  lemma FixUpCounts(s: State, t: Token)
    requires Inv(s) && t in s.toks && s.toks[t].IncFix?
    ensures Inv(Step(s, Continue(t))) && INITIAL < s.strong < 2 * INITIAL
  {
    assert TokenOk(s, t);
    HeldIsCounted(s, t);
    StepKeeps(s, Continue(t));
  }

  /** A turn of the fix-up loop keeps the invariant exactly if it swaps nothing or nobody else is to
      fix the count up. */
  lemma FixSwapKeepsIff(s: State, t: Token)
    requires Inv(s) && t in s.toks && s.toks[t].FixCas?
    ensures Inv(Step(s, Continue(t))) <==>
      s.strong != s.toks[t].cur || forall u: Token :: u in s.toks ==> !s.toks[u].IncFix?
  {
    HeldIsCounted(s, t);
    if OrderlyStep(s, t) {
      AdvanceKeeps(s, t);
    } else {
      var u: Token :| u in s.toks && s.toks[u].IncFix?;
      assert Get(Advance(s, t).toks, u) == Some(IncFix);
      assert TokenOk(Advance(s, t), u) ==> s.strong - INITIAL >= INITIAL;
    }
  }
}
