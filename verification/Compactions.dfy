/** When a room's queue has the board compacted, and what its count of updates since the latest snapshot stands for. */
module Compactions {
  import opened Documents
  import opened Options
  import opened WriteAhead

  /** A batch is about to be committed to a board that exists. */
  ghost predicate CanCommit(s: State)
  {
    s.q.running.Writing? && !s.purged
  }

  /**
   * A commit counts its batch, and compacts at once, within the same flush, exactly if enough updates follow the
   * latest snapshot by then; otherwise the flush is over.
   */
  lemma CommitCompactsWhenDue(s: State)
    requires CanCommit(s)
    ensures var t := Step(s, AppendCommits); var count := s.q.updatesSinceSnapshot + |s.q.running.batch|;
      && t.q.updatesSinceSnapshot == count && t.q.snapshotEvery == s.q.snapshotEvery
      && t.q.running == if count >= s.q.snapshotEvery then Compacting(s.q.running.thenDeactivate) else Idle
  {
    hide Carried;
  }

  // ----- the count -----

  /** What becomes of the number of updates since the latest snapshot. */
  function Counted(n: nat, s: State, e: Event): nat
  {
    match e
    case AppendCommits => if s.q.running.Writing? && !s.purged then n + |s.q.running.batch| else n
    case Compared => if s.q.running.Comparing? then s.q.running.storedSinceSnapshot else n
    case CompactionEnds(done) => if s.q.running.Compacting? && done then 0 else n
    case SnapshotInstalled(archived) => if n > archived then n - archived else 0
    case _ => n
  }

  function CountedIn(n: nat, s: State, events: seq<Event>): nat
    decreases |events|
  {
    if events == [] then n else CountedIn(Counted(n, s, events[0]), Step(s, events[0]), events[1..])
  }

  lemma TaskCounts(s: State, e: Event)
    requires EndsWriting(e) || e.CompactionEnds?
    ensures Step(s, e).q.updatesSinceSnapshot == Counted(s.q.updatesSinceSnapshot, s, e)
    ensures Step(s, e).q.snapshotEvery == s.q.snapshotEvery
  {
    hide Carried, Missing, StartTask;
  }

  lemma StartCounts(s: State, e: Event)
    requires e.Start? || CatchesUp(e)
    ensures Step(s, e).q.updatesSinceSnapshot == Counted(s.q.updatesSinceSnapshot, s, e)
    ensures Step(s, e).q.snapshotEvery == s.q.snapshotEvery
  {
    hide Carried, Missing;
  }

  lemma OtherCounts(s: State, e: Event)
    requires !EndsWriting(e) && !e.CompactionEnds? && !e.Start? && !CatchesUp(e)
    ensures Step(s, e).q.updatesSinceSnapshot == Counted(s.q.updatesSinceSnapshot, s, e)
    ensures Step(s, e).q.snapshotEvery == s.q.snapshotEvery
  {
    hide Carried, Missing, StartTask;
  }

  lemma StepCounts(s: State, e: Event)
    ensures Step(s, e).q.updatesSinceSnapshot == Counted(s.q.updatesSinceSnapshot, s, e)
    ensures Step(s, e).q.snapshotEvery == s.q.snapshotEvery
  {
    hide *;
    if EndsWriting(e) || e.CompactionEnds? {
      TaskCounts(s, e);
    } else if e.Start? || CatchesUp(e) {
      StartCounts(s, e);
    } else {
      OtherCounts(s, e);
    }
  }

  /** In every run the count is that of the commits, comparisons, compactions and installed snapshots in it. */
  lemma {:induction false} RunCounts(s: State, events: seq<Event>)
    ensures Run(s, events).q.updatesSinceSnapshot == CountedIn(s.q.updatesSinceSnapshot, s, events)
    ensures Run(s, events).q.snapshotEvery == s.q.snapshotEvery
    decreases |events|
  {
    hide Step;
    if events != [] {
      StepCounts(s, events[0]);
      RunCounts(Step(s, events[0]), events[1..]);
    }
  }

  /** Nothing sets the count back, and the instance does not become the writer anew. */
  predicate Accumulates(e: Event)
  {
    !e.Compared? && !e.CompactionEnds? && !e.SnapshotInstalled? && !e.Activate? && !e.Close?
  }

  /** Between two resets the count grows by exactly what is committed. */
  lemma {:induction false} CountIsWhatWasCommitted(s: State, events: seq<Event>)
    requires forall e | e in events :: Accumulates(e)
    ensures var t := Run(s, events);
      t.q.updatesSinceSnapshot - s.q.updatesSinceSnapshot == |t.committed| - |s.committed|
    decreases |events|
  {
    if events != [] {
      assert events[0] in events && forall e | e in events[1..] :: e in events;
      AccumulatesStep(s, events[0]);
      hide Step;
      CountIsWhatWasCommitted(Step(s, events[0]), events[1..]);
    }
  }

  lemma AccumulatesStep(s: State, e: Event)
    requires Accumulates(e)
    ensures var t := Step(s, e); t.q.updatesSinceSnapshot - s.q.updatesSinceSnapshot == |t.committed| - |s.committed|
  {
    hide Carried, Missing;
  }

  // ----- compaction is never overdue -----

  /** Fewer updates follow the latest snapshot than a compaction is due for, or one is under way. */
  ghost predicate NotOverdue(q: DocQueue)
  {
    q.updatesSinceSnapshot < q.snapshotEvery || q.running.Compacting?
  }

  /** A compaction that ends is done, and a catch-up finds fewer updates than a compaction is due for. */
  ghost predicate Succeeds(s: State, e: Event)
  {
    && (e.CompactionEnds? && s.q.running.Compacting? ==> e.done)
    && (e.Compared? && s.q.running.Comparing? ==> s.q.running.storedSinceSnapshot < s.q.snapshotEvery)
  }

  ghost predicate AllSucceed(s: State, events: seq<Event>)
    decreases |events|
  {
    events == [] || (Allowed(s, events[0]) && Succeeds(s, events[0]) && AllSucceed(Step(s, events[0]), events[1..]))
  }

  /** A compaction goes on until it ends. */
  lemma CompactionGoesOn(s: State, e: Event)
    requires s.q.running.Compacting? && !e.CompactionEnds?
    ensures Step(s, e).q.running == s.q.running
  {
    hide Carried, Missing;
  }

  lemma StepNotOverdue(s: State, e: Event)
    requires (NotOverdue(s.q) || (e.AppendCommits? && CanCommit(s))) && s.q.snapshotEvery > 0 && Allowed(s, e) && Succeeds(s, e)
    ensures NotOverdue(Step(s, e).q) && Step(s, e).q.snapshotEvery > 0
  {
    StepCounts(s, e);
    if e.AppendCommits? && CanCommit(s) {
      CommitCompactsWhenDue(s);
    } else if s.q.running.Compacting? && !e.CompactionEnds? {
      CompactionGoesOn(s, e);
    }
    hide Step, Allowed;
  }

  lemma {:induction false} RunNotOverdue(s: State, events: seq<Event>)
    requires NotOverdue(s.q) && s.q.snapshotEvery > 0 && AllSucceed(s, events)
    ensures NotOverdue(Run(s, events).q)
    decreases |events|
  {
    if events != [] {
      StepNotOverdue(s, events[0]);
      hide Step, Allowed, Succeeds, NotOverdue;
      RunNotOverdue(Step(s, events[0]), events[1..]);
    }
  }

  /**
   * However many updates there were before: from the first commit on, in every run in which compactions succeed, fewer
   * updates follow the latest snapshot than one is due for, or a compaction is under way.
   */
  lemma CommitsKeepBoardCompacted(s: State, events: seq<Event>)
    requires CanCommit(s) && s.q.snapshotEvery > 0 && AllSucceed(Step(s, AppendCommits), events)
    ensures NotOverdue(Run(Step(s, AppendCommits), events).q)
  {
    StepNotOverdue(s, AppendCommits);
    hide Step, AllSucceed, Run, NotOverdue;
    RunNotOverdue(Step(s, AppendCommits), events);
  }
}
