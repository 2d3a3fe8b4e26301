/** How the tasks of a queue come to an end when nothing they write is stored. */
module Draining {
  import opened Documents
  import opened Options
  import opened WriteAhead

  // ----- giving up the lease -----

  /** The task in progress gives up the lease when it ends. */
  ghost predicate IsLeaving(q: DocQueue)
  {
    (q.running.Writing? && q.running.thenDeactivate) || (q.running.Compacting? && q.running.thenDeactivate)
  }

  /** A deactivation has been called and is not over. */
  ghost predicate LeavePending(q: DocQueue)
  {
    Flush(true) in q.chain || IsLeaving(q)
  }

  /** What an event puts in front of the queue: the outcome of a catch-up. */
  function PutFirst(s: State, e: Event): seq<Update>
  {
    if e.Compared? && s.q.running.Comparing? then Missing(s.doc, s.q.running.loaded)
    else if e.BoardUnreadable? && s.q.running.Reading? then [s.doc]
    else []
  }

  /** One update may still be put first. */
  ghost function Due(q: DocQueue): nat
  {
    if CatchingUp(q) then 1 else 0
  }

  // ----- tasks that fail -----

  /** The next event of a queue whose appends fail, whose board cannot be read and which is never compacted. */
  function NextFailing(q: DocQueue): Event
  {
    match q.running
    case Idle => Start
    case Writing(_, _, _) => AppendFails(false)
    case Reading => BoardUnreadable
    case Comparing(_, _) => Compared
    case Compacting(_) => CompactionEnds(false)
  }

  ghost predicate HasTask(q: DocQueue)
  {
    !q.running.Idle? || q.chain != []
  }

  function Remaining(q: DocQueue): nat
  {
    2 * |q.chain| + if q.running.Idle? then 0 else 1
  }

  /** The next failing event ends the lease. */
  ghost predicate EndsLease(q: DocQueue)
  {
    IsLeaving(q) || (q.running.Idle? && q.chain != [] && q.chain[0] == Flush(true) && q.pending == [])
  }

  /** Everything but the queue is as before. */
  ghost predicate OnlyQueue(s: State, t: State)
  {
    && t.doc == s.doc && t.stored == s.stored && t.committed == s.committed && t.purged == s.purged
    && t.q.closed == s.q.closed && t.q.disposed == s.q.disposed
  }

  lemma FailingStart(s: State)
    requires ChainInvariant(s.q) && !s.q.disposed && s.q.running.Idle? && s.q.chain != []
    ensures var t := Step(s, Start);
      && OnlyQueue(s, t) && Remaining(t.q) < Remaining(s.q)
      && (if EndsLease(s.q) then !t.q.active && t.q.pending == []
          else t.q.active == s.q.active && Unwritten(t.q) == Unwritten(s.q) && Due(t.q) == Due(s.q))
  {
    var q := s.q;
    assert q.pending[..CutSize(q)] + q.pending[CutSize(q)..] == q.pending;
    assert |q.chain| > 1 ==> q.chain[1] != CatchUp;
  }

  lemma StartKeepsLeave(s: State)
    requires s.q.running.Idle? && s.q.chain != [] && !s.q.disposed && !EndsLease(s.q)
    ensures LeavePending(Step(s, Start).q) <==> LeavePending(s.q)
  {
    var q, t := s.q, Step(s, Start);
    assert q.chain == [q.chain[0]] + q.chain[1..];
    assert q.pending != [] ==> q.pending[..CutSize(q)] != [];
  }

  /** A catch-up finds something missing as long as the document is not stored. */
  lemma SomethingMissing(s: State)
    requires CoverInvariant(s) && s.q.running.Comparing? && !(s.doc <= s.stored)
    ensures |Missing(s.doc, s.q.running.loaded)| == 1
  {
    var c :| c in s.doc && c !in s.stored;
    hide Carried, Unwritten;
    assert c in s.doc - s.q.running.loaded;
  }

  lemma FailingEnd(s: State)
    requires ChainInvariant(s.q) && !s.q.disposed && !s.q.running.Idle?
    requires s.q.running.Comparing? ==> |Missing(s.doc, s.q.running.loaded)| == 1
    ensures var e := NextFailing(s.q); var t := Step(s, e);
      && OnlyQueue(s, t) && Remaining(t.q) < Remaining(s.q)
      && (if EndsLease(s.q) then !t.q.active && t.q.pending == []
          else && t.q.active == s.q.active && Unwritten(t.q) == PutFirst(s, e) + Unwritten(s.q)
               && Due(t.q) + |PutFirst(s, e)| == Due(s.q) && (LeavePending(t.q) <==> LeavePending(s.q)))
  {
    hide Carried, Missing;
  }

  /** One failing event: what is queued stays queued, behind the outcome of a catch-up, until the lease ends. */
  lemma FailingStep(s: State)
    requires Invariant(s) && !s.q.disposed && HasTask(s.q) && !(s.doc <= s.stored)
    ensures var e := NextFailing(s.q); var t := Step(s, e);
      && Allowed(s, e) && Invariant(t) && OnlyQueue(s, t) && Remaining(t.q) < Remaining(s.q)
      && (if EndsLease(s.q) then !t.q.active && t.q.pending == []
          else && t.q.active == s.q.active && Unwritten(t.q) == PutFirst(s, e) + Unwritten(s.q)
               && Due(t.q) + |PutFirst(s, e)| == Due(s.q) && (LeavePending(t.q) <==> LeavePending(s.q)))
  {
    var e := NextFailing(s.q);
    assert Allowed(s, e);
    StepKeepsInvariant(s, e);
    if s.q.running.Idle? {
      FailingStart(s);
      if !EndsLease(s.q) { StartKeepsLeave(s); }
      hide *;
      assert PutFirst(s, Start) == [] by { StartPutsNothing(s); }
    } else {
      if s.q.running.Comparing? { SomethingMissing(s); }
      hide Step, Missing, Unwritten, Due, LeavePending, EndsLease, PutFirst, OnlyQueue, Remaining, CoverInvariant, AcksAreStored;
      FailingEnd(s);
    }
  }

  lemma StartPutsNothing(s: State)
    ensures PutFirst(s, Start) == []
  {
  }

  ghost predicate Undisturbed(e: Event)
  {
    !MovesLease(e) && !e.Purge?
  }

  ghost predicate AllUndisturbed(events: seq<Event>)
  {
    forall e | e in events :: Undisturbed(e)
  }

  /** All tasks can come to their end without anything being stored. */
  lemma {:induction false} DrainAll(s: State) returns (events: seq<Event>)
    requires Invariant(s) && !s.q.disposed && !(s.doc <= s.stored)
    ensures AllowedRun(s, events) && AllUndisturbed(events)
    ensures var t := Run(s, events);
      && OnlyQueue(s, t) && t.q.running.Idle? && t.q.chain == []
      && (LeavePending(s.q) || !s.q.active ==> !t.q.active && t.q.pending == [])
    decreases Remaining(s.q)
  {
    if !HasTask(s.q) {
      return [];
    }
    var e := NextFailing(s.q);
    var next := Step(s, e);
    FailingStep(s);
    assert Undisturbed(e);
    assert !next.q.active || LeavePending(s.q) || s.q.active;
    hide Step, Invariant, LeavePending, Unwritten, Undisturbed;
    var rest := DrainAll(next);
    events := [e] + rest;
    assert events[0] == e && events[1..] == rest;
  }

  // ----- fresh changes -----

  lemma {:induction false} ClockBound(cs: set<Change>) returns (n: nat)
    ensures forall c | c in cs && c.Insert? :: c.clock < n
    decreases |cs|
  {
    if cs == {} {
      return 0;
    }
    var c :| c in cs;
    var m := ClockBound(cs - {c});
    n := if c.Insert? && c.clock >= m then c.clock + 1 else m;
    assert forall d | d in cs :: d == c || d in cs - {c};
  }

  lemma FreshChange(cs: set<Change>) returns (c: Change)
    ensures c !in cs
  {
    var n := ClockBound(cs);
    c := Insert(0, n);
  }
}
