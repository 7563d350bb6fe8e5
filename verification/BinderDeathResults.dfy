/** What death notifications guarantee, over all runs from the empty driver. */
module BinderDeathResults {
  import opened Wrappers
  import opened BinderDeath

  /** In every reachable state a live record has exactly one owner: its ref, as long as it is
      not cleared, or the one list it is linked into, once it is. */
  lemma RecordsHaveOneOwner(ops: seq<Op>, d: Did)
    requires IsRun(ops) && d in After(ops).deaths
    ensures var s := After(ops);
      var cleared := s.deaths[d].kind == DeadAndClear || s.deaths[d].kind == Clear;
      && (!cleared ==> forall r: RefId :: r in s.refs && s.refs[r].death == Some(d) <==> r == s.deaths[d].ref)
      && (cleared ==> forall r: RefId :: r in s.refs ==> s.refs[r].death != Some(d))
      && (cleared ==> s.deaths[d].at.Some?)
      && (forall q: Queue :: q in s.queues && d in s.queues[q] <==> s.deaths[d].at == Some(q))
  {
    var s := After(ops);
    assert KindOk(s, {}, d) && AtOk(s, d);
    forall r: RefId | r in s.refs && s.refs[r].death == Some(d)
      ensures r == s.deaths[d].ref && s.deaths[d].kind != DeadAndClear && s.deaths[d].kind != Clear
    {
      assert RefOk(s, r);
    }
    forall q: Queue ensures q in s.queues && d in s.queues[q] <==> s.deaths[d].at == Some(q) {
      assert QueueOk(s, q);
    }
  }

  /** Over a whole run each registration sees at most one death notice, at most one accepted
      clear, a confirmation only after an accepted clear and only once, no notice after the
      confirmation, and its record is freed at most once, as the last thing that happens; a
      record that is not alive any more has been freed. */
  lemma NotificationsAreOrdered(ops: seq<Op>, d: Did)
    requires IsRun(ops) && d < After(ops).next
    ensures var s := After(ops);
      d in s.log && InOrder(s.log[d]) && (d in s.deaths <==> Freed !in s.log[d])
  {
    var s := After(ops);
    assert LogOk(s, d);
    AcceptedMeansInOrder(s.log[d]);
  }

  /** A cleared record whose death notice is still to come, or is not yet answered, keeps its
      confirmation back until it is answered. */
  lemma NoticeBeforeConfirmation(ops: seq<Op>, d: Did)
    requires IsRun(ops) && d in After(ops).deaths && After(ops).deaths[d].kind == DeadAndClear
    ensures var s := After(ops);
      && d in s.log && SentDone !in s.log[d] && Cleared in s.log[d] && s.deaths[d].at.Some?
      && (SentDead in s.log[d] <==> s.deaths[d].at.value.Delivered?)
  {
    var s := After(ops);
    assert LogOk(s, d) && KindOk(s, {}, d) && AtOk(s, d);
    AcceptedMeansInOrder(s.log[d]);
  }

  /** No list and no ref ever points at a freed record, and a process that is gone leaves none
      behind. */
  lemma NoDanglingRecord(ops: seq<Op>, d: Did)
    requires IsRun(ops)
    ensures var s := After(ops);
      && (forall q: Queue :: q in s.queues && d in s.queues[q] ==> d in s.deaths)
      && (forall r: RefId :: r in s.refs && s.refs[r].death == Some(d) ==> d in s.deaths)
      && (d in s.deaths ==> s.deaths[d].proc in s.procs)
  {
    var s := After(ops);
    assert AtOk(s, d);
    forall q: Queue | q in s.queues && d in s.queues[q] ensures d in s.deaths {
      assert QueueOk(s, q);
    }
    forall r: RefId | r in s.refs && s.refs[r].death == Some(d) ensures d in s.deaths {
      assert RefOk(s, r);
    }
  }
}
