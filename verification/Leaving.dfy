/** What becomes of a queue whose room gives up the lease. */
module Leaving {
  import opened Documents
  import opened Options
  import opened WriteAhead
  import opened Draining

  // ----- from the start of a deactivation's flush to its end -----

  /** The run starts with a task in progress and ends where that task does. */
  ghost predicate TaskEnds(s: State, events: seq<Event>)
    decreases |events|
  {
    if s.q.running == Idle then events == []
    else events != [] && Allowed(s, events[0]) && TaskEnds(Step(s, events[0]), events[1..])
  }

  /** The append in flight commits in this run. */
  ghost predicate AppendSucceeds(s: State, events: seq<Event>)
    decreases |events|
  {
    && events != [] && s.q.running.Writing?
    && ((events[0].AppendCommits? && !s.purged) || AppendSucceeds(Step(s, events[0]), events[1..]))
  }

  /** The edits made in a run, in order. */
  function EditsIn(events: seq<Event>): seq<Update>
  {
    if events == [] then [] else (if events[0].Edit? then [events[0].update] else []) + EditsIn(events[1..])
  }

  ghost predicate NotDisposed(events: seq<Event>)
  {
    forall e | e in events :: !e.Dispose?
  }

  /** A deactivation's flush in progress, with `batch` being written or, once it is, a compaction under way. */
  ghost predicate Flushing(q: DocQueue, batch: seq<Update>)
  {
    || (q.running.Writing? && q.running.batch == batch && q.running.thenDeactivate)
    || q.running == Compacting(true)
  }

  ghost predicate GivenUp(q: DocQueue)
  {
    q.running == Idle && !q.active && q.pending == []
  }

  /** One event during the flush: it goes on, or the queue is given up; only a commit adds to what is committed. */
  lemma FlushingStep(s: State, e: Event, batch: seq<Update>)
    requires Flushing(s.q, batch) && Allowed(s, e)
    ensures var t, commits := Step(s, e), s.q.running.Writing? && e.AppendCommits? && !s.purged;
      && (Flushing(t.q, batch) || GivenUp(t.q))
      && (commits || s.q.running.Compacting? ==> !t.q.running.Writing?)
      && t.committed == s.committed + (if commits then batch else [])
  {
    hide Carried;
  }

  lemma {:induction false} FlushingRun(s: State, events: seq<Event>, batch: seq<Update>)
    requires Flushing(s.q, batch) && TaskEnds(s, events)
    ensures GivenUp(Run(s, events).q)
    ensures Run(s, events).committed == s.committed + (if AppendSucceeds(s, events) then batch else [])
    decreases |events|
  {
    var next, rest := Step(s, events[0]), events[1..];
    FlushingStep(s, events[0], batch);
    hide Step, Allowed;
    if Flushing(next.q, batch) {
      FlushingRun(next, rest, batch);
    }
  }

  lemma EditIsAccepted(s: State, e: Event, batch: seq<Update>)
    requires Flushing(s.q, batch) && Allowed(s, e) && s.q.active && !e.Dispose?
    ensures Step(s, e).accepted == s.accepted + (if e.Edit? then [e.update] else [])
    ensures Flushing(Step(s, e).q, batch) ==> Step(s, e).q.active
  {
    hide Carried;
  }

  /** A run taken apart at its first event. */
  lemma FirstOfTask(s: State, events: seq<Event>, batch: seq<Update>)
    requires Flushing(s.q, batch) && TaskEnds(s, events) && NotDisposed(events)
    ensures events != [] && Allowed(s, events[0]) && !events[0].Dispose?
    ensures var e, next, rest := events[0], Step(s, events[0]), events[1..];
      && TaskEnds(next, rest) && NotDisposed(rest) && Run(s, events) == Run(next, rest)
      && EditsIn(events) == (if e.Edit? then [e.update] else []) + EditsIn(rest)
      && (GivenUp(next.q) ==> Run(next, rest) == next && EditsIn(rest) == [])
  {
    hide Step, Allowed;
    assert events[0] in events && forall x | x in events[1..] :: x in events;
  }

  /** Until the flush ends the instance counts as the writer and accepts edits. */
  lemma {:induction false} FlushingAccepts(s: State, events: seq<Event>, batch: seq<Update>)
    requires Flushing(s.q, batch) && TaskEnds(s, events) && s.q.active && NotDisposed(events)
    ensures Run(s, events).accepted == s.accepted + EditsIn(events)
    decreases |events|
  {
    FirstOfTask(s, events, batch);
    EditIsAccepted(s, events[0], batch);
    FlushingStep(s, events[0], batch);
    hide *;
    var e, next, rest := events[0], Step(s, events[0]), events[1..];
    var first := if e.Edit? then [e.update] else [];
    if GivenUp(next.q) {
      assert s.accepted + (first + []) == s.accepted + first;
    } else {
      FlushingAccepts(next, rest, batch);
      assert s.accepted + (first + EditsIn(rest)) == s.accepted + first + EditsIn(rest);
    }
  }

  // ----- what is written, and what is lost -----

  /** A writer about to start the flush that ends its lease. */
  ghost predicate AboutToLeave(s: State)
  {
    s.q.active && !s.q.disposed && s.q.running == Idle && s.q.chain != [] && s.q.chain[0] == Flush(true)
  }

  lemma FlushBegins(s: State)
    requires AboutToLeave(s)
    ensures var t := Step(s, Start);
      && t.committed == s.committed && t.accepted == s.accepted && t.purged == s.purged
      && (if s.q.pending == [] then GivenUp(t.q) else t.q.active && Flushing(t.q, s.q.pending[..CutSize(s.q)]))
      && (t.q.running.Writing? <==> s.q.pending != [])
  {
  }

  /**
   * Leaving, over every run from the start of the flush to its end, compaction included: afterwards nothing is queued,
   * and the only updates committed are the first batch, if its append commits. The rest of the queue and every edit
   * accepted meanwhile are dropped; of a batch whose append fails all of the queue is.
   */
  lemma LeavingWritesOneBatch(s: State, events: seq<Event>)
    requires AboutToLeave(s) && TaskEnds(Step(s, Start), events)
    ensures var t, written := Run(Step(s, Start), events), AppendSucceeds(Step(s, Start), events);
      && GivenUp(t.q) && t.committed == s.committed + (if written then s.q.pending[..CutSize(s.q)] else [])
      && (t.committed == s.committed + s.q.pending <==> s.q.pending == [] || (written && |s.q.pending| <= MAX_BATCH))
      && (s.q.pending != [] && NotDisposed(events) ==> t.accepted == s.accepted + EditsIn(events))
  {
    var started, n := Step(s, Start), CutSize(s.q);
    FlushBegins(s);
    hide Step, Allowed;
    if s.q.pending == [] {
      assert events == [];
    } else {
      FlushingRun(started, events, s.q.pending[..n]);
      if NotDisposed(events) {
        FlushingAccepts(started, events, s.q.pending[..n]);
      }
      hide TaskEnds, AppendSucceeds, Flushing, EditsIn, Run, NotDisposed;
      SamePart(s.committed, s.q.pending, n);
      assert s.committed + [] == s.committed;
    }
  }

  lemma SamePart(a: seq<Update>, b: seq<Update>, n: nat)
    requires n <= |b|
    ensures a + b[..n] == a + b <==> n == |b|
    ensures a == a + b <==> b == []
  {
    assert |a + b[..n]| == |a| + n && |a + b| == |a| + |b|;
    assert n == |b| ==> b[..n] == b;
    assert b == [] ==> a + b == a;
  }

  // ----- what was queued when the lease is given up -----

  /** The run ends where the instance stops being the writer; the board is not purged nor the room disposed of. */
  ghost predicate LeaseEnds(s: State, events: seq<Event>)
    decreases |events|
  {
    if !s.q.active then events == []
    else
      events != [] && Allowed(s, events[0]) && !events[0].Purge? && !events[0].Dispose? && LeaseEnds(Step(s, events[0]), events[1..])
  }

  /** The append of the flush that gives up the lease does not fail. */
  ghost predicate LeaveSucceeds(s: State, events: seq<Event>)
    decreases |events|
  {
    events == [] || (!(IsLeaving(s.q) && events[0].AppendFails?) && LeaveSucceeds(Step(s, events[0]), events[1..]))
  }

  /** What catch-ups put in front of the queue during a run. */
  function PutFirstIn(s: State, events: seq<Event>): seq<Update>
    decreases |events|
  {
    if events == [] then [] else PutFirstIn(Step(s, events[0]), events[1..]) + PutFirst(s, events[0])
  }

  /** All of `queued` is committed in the run, behind what a catch-up put in front of it. */
  ghost predicate IsWritten(s: State, queued: seq<Update>, events: seq<Event>)
  {
    s.committed + PutFirstIn(s, events) + queued <= Run(s, events).committed
  }

  /** What is queued, in flight included, fits the last batch together with a catch-up that is still due. */
  ghost predicate FitsLastBatch(q: DocQueue)
  {
    if IsLeaving(q) then q.pending == [] else |Unwritten(q)| + Due(q) <= MAX_BATCH
  }

  ghost predicate IsLeaver(s: State)
  {
    s.q.active && !s.q.disposed && !s.purged && LeavePending(s.q) && ChainInvariant(s.q)
  }

  /** `owed` comes next, and will be in the last batch at the latest. */
  ghost predicate Owes(s: State, owed: seq<Update>)
  {
    && IsLeaver(s) && !CatchingUp(s.q)
    && if IsLeaving(s.q) then owed <= (if s.q.running.Writing? then s.q.running.batch else [])
       else |owed| <= MAX_BATCH && owed <= Unwritten(s.q)
  }

  /** What is still owed once `batch` is committed. */
  function OwedAfter(owed: seq<Update>, batch: seq<Update>): seq<Update>
  {
    if |owed| <= |batch| then [] else owed[|batch|..]
  }

  ghost predicate Continues(s: State, e: Event)
  {
    Allowed(s, e) && !e.Purge? && !e.Dispose? && !(IsLeaving(s.q) && e.AppendFails?)
  }

  lemma StartOwes(s: State, owed: seq<Update>)
    requires Owes(s, owed) && s.q.running.Idle?
    ensures var t := Step(s, Start);
      && t.committed == s.committed && (if t.q.active then Owes(t, owed) else owed == [])
  {
    var q := s.q;
    StartKeepsChain(s);
    if q.chain != [] {
      assert q.chain == [q.chain[0]] + q.chain[1..];
      assert q.pending[..CutSize(q)] + q.pending[CutSize(q)..] == q.pending;
      assert |q.chain| > 1 ==> q.chain[1] != CatchUp;
    }
  }

  lemma CommitOwes(s: State, owed: seq<Update>)
    requires Owes(s, owed) && s.q.running.Writing?
    ensures var t := Step(s, AppendCommits); var b := s.q.running.batch;
      && t.committed == s.committed + b && owed <= b + OwedAfter(owed, b)
      && (if t.q.active then Owes(t, OwedAfter(owed, b)) else OwedAfter(owed, b) == [])
  {
    hide Carried;
    EndKeepsChain(s, AppendCommits);
    var b := s.q.running.batch;
    if |owed| > |b| {
      assert owed[..|b|] == b;
    }
  }

  lemma OtherOwes(s: State, e: Event, owed: seq<Update>)
    requires Owes(s, owed) && Continues(s, e) && !(e.Start? && s.q.running.Idle?) && !(e.AppendCommits? && s.q.running.Writing?)
    ensures var t := Step(s, e);
      && t.committed == s.committed && PutFirst(s, e) == [] && (if t.q.active then Owes(t, owed) else owed == [])
  {
    hide Carried, Missing, StartFlush;
    StepKeepsChain(s, e);
  }

  /** One event on: what is owed is committed or still owed. */
  lemma OwesOn(s: State, e: Event, owed: seq<Update>) returns (left: seq<Update>)
    requires Owes(s, owed) && Continues(s, e)
    ensures var t := Step(s, e);
      && s.committed + owed <= t.committed + left && PutFirst(s, e) == [] && (if t.q.active then Owes(t, left) else left == [])
  {
    left := owed;
    if e.AppendCommits? && s.q.running.Writing? {
      CommitOwes(s, owed);
      left := OwedAfter(owed, s.q.running.batch);
    } else if e.Start? && s.q.running.Idle? {
      StartOwes(s, owed);
    } else {
      hide Step, Owes;
      OtherOwes(s, e, owed);
    }
    hide Step, Owes, OwedAfter;
  }

  /** A run of a writer taken apart at its first event. */
  lemma FirstOfLease(s: State, events: seq<Event>)
    requires s.q.active && LeaseEnds(s, events) && LeaveSucceeds(s, events)
    ensures events != [] && Continues(s, events[0])
    ensures var next, rest := Step(s, events[0]), events[1..];
      && LeaseEnds(next, rest) && LeaveSucceeds(next, rest) && Run(s, events) == Run(next, rest)
      && PutFirstIn(s, events) == PutFirstIn(next, rest) + PutFirst(s, events[0])
      && (!next.q.active ==> rest == [] && Run(next, rest) == next && PutFirstIn(next, rest) == [])
  {
    hide Step, Allowed, PutFirst, IsLeaving;
  }

  lemma {:induction false} OwedIsWritten(s: State, events: seq<Event>, owed: seq<Update>)
    requires Owes(s, owed) && LeaseEnds(s, events) && LeaveSucceeds(s, events)
    ensures PutFirstIn(s, events) == [] && s.committed + owed <= Run(s, events).committed
    decreases |events|
  {
    FirstOfLease(s, events);
    hide *;
    var next, rest := Step(s, events[0]), events[1..];
    var left := OwesOn(s, events[0], owed);
    if next.q.active {
      OwedIsWritten(next, rest, left);
    } else {
      assert next.committed + [] == next.committed;
    }
  }

  lemma MissingIsOne(doc: set<Change>, loaded: set<Change>)
    ensures |Missing(doc, loaded)| <= 1
  {
  }

  ghost predicate IsDue(s: State, owed: seq<Update>)
  {
    IsLeaver(s) && CatchingUp(s.q) && |owed| < MAX_BATCH && owed <= s.q.pending
  }

  /** `owed` is still due, or owed behind the outcome of the catch-up. */
  ghost predicate DueOn(s: State, e: Event, owed: seq<Update>)
  {
    var t := Step(s, e);
    && t.committed == s.committed
    && (if CatchingUp(t.q) then IsDue(t, owed) && PutFirst(s, e) == [] else Owes(t, PutFirst(s, e) + owed))
  }

  lemma CatchUpStartsDue(s: State, owed: seq<Update>)
    requires IsDue(s, owed)
    ensures DueOn(s, Start, owed)
  {
    hide StartFlush;
    StartKeepsChain(s);
    assert s.q.chain != [] ==> s.q.chain == [s.q.chain[0]] + s.q.chain[1..];
  }

  lemma CatchUpEndsDue(s: State, e: Event, owed: seq<Update>)
    requires IsDue(s, owed) && (e.Compared? || e.BoardUnreadable?)
    ensures DueOn(s, e, owed)
  {
    hide Missing;
    CatchUpKeepsChain(s, e);
    MissingIsOne(s.doc, if s.q.running.Comparing? then s.q.running.loaded else {});
    assert PutFirst(s, e) + owed <= PutFirst(s, e) + s.q.pending;
  }

  lemma OthersLeaveDue(s: State, e: Event, owed: seq<Update>)
    requires IsDue(s, owed) && Continues(s, e) && !e.Start? && !e.Compared? && !e.BoardUnreadable?
    ensures DueOn(s, e, owed)
  {
    hide Carried, Missing, StartTask;
    StepKeepsChain(s, e);
  }

  /** While a catch-up is due nothing is written; when it is over its outcome is owed first. */
  lemma CatchUpOwes(s: State, e: Event, owed: seq<Update>)
    requires IsDue(s, owed) && Continues(s, e)
    ensures DueOn(s, e, owed)
  {
    hide *;
    if e.Start? {
      CatchUpStartsDue(s, owed);
    } else if e.Compared? || e.BoardUnreadable? {
      CatchUpEndsDue(s, e, owed);
    } else {
      OthersLeaveDue(s, e, owed);
    }
  }

  lemma {:induction false} DueIsWritten(s: State, events: seq<Event>, owed: seq<Update>)
    requires IsDue(s, owed) && LeaseEnds(s, events) && LeaveSucceeds(s, events)
    ensures s.committed + PutFirstIn(s, events) + owed <= Run(s, events).committed
    decreases |events|
  {
    assert IsLeaver(s);
    LeaverIsActive(s);
    FirstOfLease(s, events);
    CatchUpOwes(s, events[0], owed);
    var next, rest, first := Step(s, events[0]), events[1..], PutFirst(s, events[0]);
    hide Step, PutFirst, CatchingUp, Owes, IsDue, LeaseEnds, LeaveSucceeds, PutFirstIn, Run, Continues, IsLeaver, ChainInvariant;
    if CatchingUp(next.q) {
      DueIsWritten(next, rest, owed);
      assert PutFirstIn(next, rest) + [] == PutFirstIn(next, rest);
    } else {
      WriterOwes(next, first + owed);
      OwedIsWritten(next, rest, first + owed);
      assert s.committed + (first + owed) == s.committed + first + owed;
      assert [] + first == first;
    }
  }

  lemma WriterOwes(s: State, owed: seq<Update>)
    requires Owes(s, owed)
    ensures IsLeaver(s) && s.q.active
  {
  }

  /** A writer with fewer than a batch to write, and a deactivation called, writes it in every run. */
  lemma FittingIsWritten(s: State, events: seq<Event>)
    requires Invariant(s) && s.q.active && !s.q.disposed && !s.purged && FitsLastBatch(s.q)
    requires LeaseEnds(Step(s, Deactivate), events) && LeaveSucceeds(Step(s, Deactivate), events)
    ensures IsWritten(Step(s, Deactivate), Unwritten(s.q), events)
  {
    var d, queued := Step(s, Deactivate), Unwritten(s.q);
    LeaseKeepsChain(s, Deactivate);
    DeactivateKeeps(s);
    hide Step, Invariant, LeaseEnds, LeaveSucceeds, Run, PutFirstIn, ChainInvariant, LeavePending;
    if CatchingUp(s.q) {
      assert queued == d.q.pending;
      DueIsWritten(d, events, queued);
      assert IsWritten(d, queued, events);
    } else {
      OwedIsWritten(d, events, queued);
      assert d.committed + [] == d.committed;
    }
  }

  lemma DeactivateKeeps(s: State)
    requires s.q.active && ChainInvariant(s.q)
    ensures var d := Step(s, Deactivate);
      && LeavePending(d.q) && d.q.pending == s.q.pending && d.q.running == s.q.running && d.q.active && d.q.disposed == s.q.disposed
      && d.committed == s.committed && d.purged == s.purged && d.doc == s.doc && d.stored == s.stored
      && Unwritten(d.q) == Unwritten(s.q) && (CatchingUp(d.q) <==> CatchingUp(s.q)) && (IsLeaving(d.q) <==> IsLeaving(s.q))
      && (CatchingUp(s.q) ==> Unwritten(s.q) == s.q.pending && !IsLeaving(s.q))
      && (IsLeaving(s.q) && s.q.pending == [] ==> Unwritten(s.q) == if s.q.running.Writing? then s.q.running.batch else [])
      && Due(d.q) == Due(s.q)
  {
    var d := Step(s, Deactivate);
    assert d.q.chain[|s.q.chain|] == Flush(true);
    assert s.q.chain != [] ==> d.q.chain[0] == s.q.chain[0];
    assert IsLeaving(s.q) && s.q.pending == [] && s.q.running.Writing? ==> s.q.running.batch + [] == s.q.running.batch;
  }

  lemma CompactedLeave(s: State)
    requires s.q.active && s.q.running == Compacting(true)
    ensures var t := Step(s, CompactionEnds(false)); !t.q.active && t.committed == s.committed
    ensures PutFirst(s, CompactionEnds(false)) == []
  {
  }

  lemma CommittedLeave(s: State)
    requires s.q.active && !s.purged && s.q.running.Writing? && s.q.running.thenDeactivate
    ensures var t := Step(s, AppendCommits);
      && t.committed == s.committed + s.q.running.batch && (t.q.active ==> t.q.running == Compacting(true))
    ensures PutFirst(s, AppendCommits) == []
  {
    hide Carried;
  }

  lemma OneMoreEvent(s: State, e: Event, rest: seq<Event>)
    requires s.q.active && Continues(s, e) && LeaseEnds(Step(s, e), rest) && LeaveSucceeds(Step(s, e), rest)
    ensures LeaseEnds(s, [e] + rest) && LeaveSucceeds(s, [e] + rest) && Run(s, [e] + rest) == Run(Step(s, e), rest)
    ensures PutFirstIn(s, [e] + rest) == PutFirstIn(Step(s, e), rest) + PutFirst(s, e)
  {
    hide Step, Allowed, IsLeaving, PutFirst;
    assert ([e] + rest)[0] == e && ([e] + rest)[1..] == rest;
  }

  lemma NothingMore(s: State)
    ensures Run(s, []) == s && PutFirstIn(s, []) == [] && LeaveSucceeds(s, []) && (!s.q.active ==> LeaseEnds(s, []))
  {
  }

  /** The flush that gives up the lease can commit and end. */
  lemma LeaveCommits(s: State) returns (events: seq<Event>)
    requires s.q.active && !s.purged && IsLeaving(s.q)
    ensures LeaseEnds(s, events) && LeaveSucceeds(s, events) && PutFirstIn(s, events) == []
    ensures Run(s, events).committed == s.committed + if s.q.running.Writing? then s.q.running.batch else []
    decreases if s.q.running.Writing? then 1 else 0
  {
    var e := if s.q.running.Writing? then AppendCommits else CompactionEnds(false);
    var next := Step(s, e);
    if s.q.running.Writing? { CommittedLeave(s); } else { CompactedLeave(s); }
    assert Continues(s, e);
    assert !next.purged;
    hide Step, Run, LeaseEnds, LeaveSucceeds, PutFirstIn, Continues;
    NothingMore(next);
    var rest := [];
    if next.q.active {
      rest := LeaveCommits(next);
      assert next.committed + [] == next.committed;
    }
    OneMoreEvent(s, e, rest);
    events := [e] + rest;
    assert PutFirst(s, e) == [];
    assert [] + PutFirst(s, e) == [];
    assert s.committed + [] == s.committed;
  }

  lemma LongQueueLeaves(s: State) returns (events: seq<Event>)
    requires AboutToLeave(s) && !s.purged && |s.q.pending| > MAX_BATCH
    ensures LeaseEnds(s, events) && LeaveSucceeds(s, events) && PutFirstIn(s, events) == []
    ensures |Run(s, events).committed| == |s.committed| + MAX_BATCH
  {
    LongQueueIsCut(s);
    assert Continues(s, Start) && PutFirst(s, Start) == [];
    hide Step, Run, LeaseEnds, LeaveSucceeds, PutFirstIn, Continues, PutFirst;
    var rest := LeaveCommits(Step(s, Start));
    OneMoreEvent(s, Start, rest);
    events := [Start] + rest;
  }

  lemma NotYetLeaving(s: State)
    requires !IsLeaving(s.q) && HasTask(s.q) && (s.q.running.Idle? ==> s.q.chain[0] != Flush(true))
    ensures !EndsLease(s.q) && Continues(s, NextFailing(s.q)) && !IsLeaving(Step(s, NextFailing(s.q)).q)
  {
    hide Carried, Missing;
  }

  /** With too much queued, and everything else failing, the leaving flush commits one batch and leaves the rest. */
  lemma {:induction false} WorstRun(s: State) returns (events: seq<Event>)
    requires Invariant(s) && IsLeaver(s) && !IsLeaving(s.q) && !(s.doc <= s.stored)
    requires |Unwritten(s.q)| + Due(s.q) > MAX_BATCH
    ensures LeaseEnds(s, events) && LeaveSucceeds(s, events) && |PutFirstIn(s, events)| == Due(s.q)
    ensures |Run(s, events).committed| == |s.committed| + MAX_BATCH
    decreases Remaining(s.q)
  {
    assert HasTask(s.q);
    if s.q.running.Idle? && s.q.chain[0] == Flush(true) {
      events := LongQueueLeaves(s);
    } else {
      var e := NextFailing(s.q);
      var next := Step(s, e);
      NotYetLeaving(s);
      FailingStep(s);
      assert IsLeaver(next);
      hide Step, Invariant, IsLeaver, Unwritten, Due, Run, LeaseEnds, LeaveSucceeds, PutFirstIn, Continues, PutFirst;
      var rest := WorstRun(next);
      OneMoreEvent(s, e, rest);
      events := [e] + rest;
    }
  }

  lemma EditOfLeaver(s: State, c: Change)
    requires IsLeaver(s) && c !in s.stored
    ensures var t := Step(s, Edit({c}));
      && IsLeaver(t) && !(t.doc <= t.stored) && |Unwritten(t.q)| == |Unwritten(s.q)| + 1 && Due(t.q) == Due(s.q)
      && (IsLeaving(t.q) <==> IsLeaving(s.q)) && Continues(s, Edit({c})) && t.committed == s.committed
      && PutFirst(s, Edit({c})) == []
  {
    assert c in Step(s, Edit({c})).doc;
  }

  /** A leaver with more than fits loses some of it in some run whose last append commits. */
  lemma OverfullIsCut(s: State) returns (events: seq<Event>)
    requires Invariant(s) && IsLeaver(s) && !FitsLastBatch(s.q)
    ensures LeaseEnds(s, events) && LeaveSucceeds(s, events) && !IsWritten(s, Unwritten(s.q), events)
  {
    if IsLeaving(s.q) {
      hide ChainInvariant, CoverInvariant, AcksAreStored;
      events := LeaveCommits(s);
      assert |Run(s, events).committed| < |s.committed + PutFirstIn(s, events) + Unwritten(s.q)|;
    } else {
      var c := FreshChange(s.stored);
      var edited := Step(s, Edit({c}));
      StepKeepsInvariant(s, Edit({c}));
      EditOfLeaver(s, c);
      hide Step, Invariant, IsLeaver, Unwritten, Due, IsLeaving, Continues, PutFirst, Run, LeaseEnds, LeaveSucceeds, PutFirstIn;
      var rest := WorstRun(edited);
      LeaverIsActive(s);
      OneMoreEvent(s, Edit({c}), rest);
      events := [Edit({c})] + rest;
      assert |Run(s, events).committed| < |s.committed + PutFirstIn(s, events) + Unwritten(s.q)|;
    }
  }

  lemma LeaverIsActive(s: State)
    requires IsLeaver(s)
    ensures s.q.active
  {
  }

  /**
   * That what is queued when the lease is given up is still written, in every run in which the last append does not
   * fail, holds exactly if it all fits that append's batch: at most 500 updates, what is in flight and a catch-up that
   * is still due included, or, when a deactivation is already at its last task, none.
   */
  lemma QueueIsWrittenUpToOneBatch(s: State)
    requires Invariant(s) && s.q.active && !s.q.disposed && !s.purged
    ensures FitsLastBatch(s.q) <==>
      forall events | LeaseEnds(Step(s, Deactivate), events) && LeaveSucceeds(Step(s, Deactivate), events) ::
        IsWritten(Step(s, Deactivate), Unwritten(s.q), events)
  {
    var d := Step(s, Deactivate);
    StepKeepsInvariant(s, Deactivate);
    DeactivateKeeps(s);
    hide Step, Unwritten, Due, IsLeaving, LeavePending, LeaseEnds, LeaveSucceeds, IsWritten;
    if FitsLastBatch(s.q) {
      forall events | LeaseEnds(d, events) && LeaveSucceeds(d, events)
        ensures IsWritten(d, Unwritten(s.q), events)
      {
        FittingIsWritten(s, events);
      }
    } else {
      var events := OverfullIsCut(d);
    }
  }

  // ----- an instance -----

  /** A writer whose board is loaded and empty. */
  const WRITER := State(Queue([], true, false, false, [], Idle, 0, 1000), {}, {}, false, [], [], [], [])

  function Edits(us: seq<Update>): seq<Event>
  {
    if us == [] then [] else [Edit(us[0])] + Edits(us[1..])
  }

  lemma {:induction false} EditsQueueUp(s: State, us: seq<Update>)
    requires s.q.active
    ensures AllowedRun(s, Edits(us))
    ensures Run(s, Edits(us)) ==
      s.(doc := s.doc + Carried(us), q := s.q.(pending := s.q.pending + us), accepted := s.accepted + us)
    decreases us
  {
    if us == [] {
      assert s.doc + Carried(us) == s.doc && s.q.pending + us == s.q.pending && s.accepted + us == s.accepted;
    } else {
      var u, rest, t := us[0], us[1..], Step(s, Edit(us[0]));
      assert t == s.(doc := s.doc + u, q := s.q.(pending := s.q.pending + [u]), accepted := s.accepted + [u]);
      assert Edits(us)[0] == Edit(u) && Edits(us)[1..] == Edits(rest);
      assert Allowed(s, Edit(u));
      assert Carried(us) == u + Carried(rest);
      hide Step, Allowed, Edits, Carried;
      EditsQueueUp(t, rest);
      FirstAndRest(s.q.pending, us);
      FirstAndRest(s.accepted, us);
      assert s.doc + u + Carried(rest) == s.doc + Carried(us);
    }
  }

  lemma FirstAndRest(a: seq<Update>, us: seq<Update>)
    requires us != []
    ensures a + [us[0]] + us[1..] == a + us
  {
  }

  /** One change after the other by one client. */
  function Changes(n: nat): seq<Update>
  {
    seq(n, i requires 0 <= i < n => {Insert(1, i)})
  }

  lemma {:induction false} LaterIsNotCarried(us: seq<Update>, c: Change)
    requires forall u | u in us :: c !in u
    ensures c !in Carried(us)
  {
    if us != [] {
      assert forall u | u in us[1..] :: u in us;
      LaterIsNotCarried(us[1..], c);
    }
  }

  /** A writer with 501 queued updates gives up the lease: the last one is neither stored nor queued. */
  lemma LastOf501IsLost()
    ensures var last := Insert(1, 500); var events := Edits(Changes(501)) + [Deactivate, Start, AppendCommits];
      Initial(WRITER) && AllowedRun(WRITER, events) &&
      var t := Run(WRITER, events);
      {last} in t.accepted && last !in t.stored && {last} !in t.committed && t.q.pending == [] && !t.q.active
  {
    var us, end := Changes(501), [Deactivate, Start, AppendCommits];
    var s := Run(WRITER, Edits(us));
    EditsQueueUp(WRITER, us);
    FullQueueLeaves(s);
    hide Step, Allowed, Changes;
    RunAppend(WRITER, Edits(us), end);
    AllowedJoins(WRITER, Edits(us), end);
    RunOfThree(s, Deactivate, Start, AppendCommits);
  }

  lemma LongQueueIsCut(s: State)
    requires AboutToLeave(s) && |s.q.pending| > MAX_BATCH
    ensures var t := Step(s, Start);
      t == s.(q := s.q.(chain := s.q.chain[1..], pending := s.q.pending[MAX_BATCH..],
                        running := Writing(s.q.pending[..MAX_BATCH], None, true)))
  {
  }

  lemma CommitEndsLease(s: State, batch: seq<Update>)
    requires s.q.running == Writing(batch, None, true) && !s.purged && s.q.updatesSinceSnapshot + |batch| < s.q.snapshotEvery
    ensures var t := Step(s, AppendCommits);
      && t.committed == s.committed + batch && t.stored == s.stored + Carried(batch) && t.accepted == s.accepted
      && t.q.pending == [] && !t.q.active
  {
    hide Carried;
  }

  lemma FullQueueLeaves(s: State)
    requires s.q == WRITER.q.(pending := Changes(501)) && s.accepted == Changes(501)
    requires !s.purged && s.stored == {} && s.committed == []
    ensures AllowedRun(s, [Deactivate, Start, AppendCommits])
    ensures var t := Step(Step(Step(s, Deactivate), Start), AppendCommits); var last := Insert(1, 500);
      {last} in t.accepted && last !in t.stored && {last} !in t.committed && t.q.pending == [] && !t.q.active
  {
    var us, last, d := Changes(501), Insert(1, 500), Step(s, Deactivate);
    assert d == s.(q := s.q.(chain := [Flush(true)]));
    AllowedThree(s, Deactivate, Start, AppendCommits);
    FirstOnes();
    assert {last} in us by { assert us[500] == {last}; }
    hide Changes, Carried, Allowed, AllowedRun, Step;
    LongQueueIsCut(d);
    CommitEndsLease(Step(d, Start), us[..500]);
    assert {} + Carried(us[..500]) == Carried(us[..500]) && [] + us[..500] == us[..500];
  }

  lemma FirstOnes()
    ensures Changes(501)[500] == {Insert(1, 500)}
    ensures Insert(1, 500) !in Carried(Changes(501)[..500]) && {Insert(1, 500)} !in Changes(501)[..500]
  {
    var us := Changes(501);
    assert forall u | u in us[..500] :: Insert(1, 500) !in u;
    LaterIsNotCarried(us[..500], Insert(1, 500));
  }

  lemma AllowedThree(s: State, e: Event, f: Event, g: Event)
    requires Allowed(s, e) && Allowed(Step(s, e), f) && Allowed(Step(Step(s, e), f), g)
    ensures AllowedRun(s, [e, f, g])
  {
    hide Step, Allowed;
    assert [e, f, g][1..] == [f, g] && [f, g][1..] == [g] && [g][1..] == [];
    assert AllowedRun(Step(Step(s, e), f), [g]);
    assert AllowedRun(Step(s, e), [f, g]);
  }

  lemma {:induction false} AllowedJoins(s: State, a: seq<Event>, b: seq<Event>)
    requires AllowedRun(s, a) && AllowedRun(Run(s, a), b)
    ensures AllowedRun(s, a + b)
    decreases |a|
  {
    hide Step, Allowed;
    if a == [] {
      assert a + b == b;
    } else {
      assert (a + b)[1..] == a[1..] + b;
      AllowedJoins(Step(s, a[0]), a[1..], b);
    }
  }
}
