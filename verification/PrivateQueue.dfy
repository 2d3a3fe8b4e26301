/** That the queue of a private room takes the same course as that of any other room. */
module PrivateQueue {
  import opened Options
  import CipherLogs
  import P = PrivateAcks
  import W = WriteAhead

  /** What a queue does at the moment. */
  datatype Busy = Nothing | Writes(size: nat, marked: bool, leaving: bool) | Reads | Compares(count: nat) | Compacts(leaving: bool)

  /** A queue without the contents of what it writes. */
  datatype Course = Course(waiting: nat, active: bool, closed: bool, disposed: bool, chain: seq<W.Task>, busy: Busy,
                           count: nat, every: nat)

  function BusyWith<U, M, L>(r: W.RunningOf<U, M, L>): Busy
  {
    match r
    case Idle => Nothing
    case Writing(batch, marker, d) => Writes(|batch|, marker.Some?, d)
    case Reading => Reads
    case Comparing(_, n) => Compares(n)
    case Compacting(d) => Compacts(d)
  }

  function CourseOf<U, M, L>(q: W.QueueOf<U, M, L>): Course
  {
    Course(|q.pending|, q.active, q.closed, q.disposed, q.chain, BusyWith(q.running), q.updatesSinceSnapshot, q.snapshotEvery)
  }

  /**
   * The same happens to both rooms: a new envelope arrives in one, an edit in the other; a catch-up finds equally much
   * missing; the server cannot compact a private board itself.
   */
  ghost predicate Corresponds(s: P.State, e: P.Event, w: W.State, f: W.Event)
  {
    match e
    case Arrive(blob, _) => blob !in s.log.known && f.Edit?
    case RelayRow(_) => f.OthersCommit?
    case OthersStore(_) => f.OthersCommit?
    case Purge => f.Purge?
    case QueueFlush => f.QueueFlush?
    case QueueCompaction => f.QueueCompaction?
    case Start => f.Start?
    case AppendCommits(_) => f.AppendCommits?
    case AppendFails(_) => f.AppendFails?
    case AppendFindsNoBoard => f.AppendFindsNoBoard?
    case BoardRead(_, n) => f == W.BoardRead(n)
    case BoardUnreadable => f.BoardUnreadable? && |CipherLogs.NotStored(s.log.entries)| == 1
    case Compared => f.Compared? && (s.q.running.Comparing? && w.q.running.Comparing? ==>
      |CipherLogs.NotStored(CipherLogs.Located(s.q.running.loaded, s.log.entries))| == |W.Missing(w.doc, w.q.running.loaded)|)
    case CompactionEnds => f == W.CompactionEnds(false)
    case SnapshotInstalled(_, _, n) => f == W.SnapshotInstalled(n)
    case Activate => f.Activate?
    case Deactivate => f.Deactivate?
    case Close => f.Close?
    case Reopen(active) => f == W.Reopen(active)
    case Dispose => f.Dispose?
  }

  ghost predicate Alike(s: P.State, w: W.State)
  {
    CourseOf(s.q) == CourseOf(w.q) && s.purged == w.purged
  }

  // ----- the queue's own transitions -----

  lemma EndTaskAlike<U, M, L, V, N, K>(q: W.QueueOf<U, M, L>, r: W.QueueOf<V, N, K>, d: bool)
    requires CourseOf(q) == CourseOf(r)
    ensures CourseOf(W.EndTask(q, d)) == CourseOf(W.EndTask(r, d))
  {
  }

  lemma CommittedAlike<U, M, L, V, N, K>(q: W.QueueOf<U, M, L>, r: W.QueueOf<V, N, K>)
    requires CourseOf(q) == CourseOf(r) && q.running.Writing?
    ensures r.running.Writing? && CourseOf(W.Committed(q)) == CourseOf(W.Committed(r))
  {
  }

  lemma FailedAlike<U, M, L, V, N, K>(q: W.QueueOf<U, M, L>, r: W.QueueOf<V, N, K>)
    requires CourseOf(q) == CourseOf(r) && q.running.Writing?
    ensures r.running.Writing? && CourseOf(W.Failed(q)) == CourseOf(W.Failed(r))
  {
  }

  lemma StartFlushAlike<U, M, L, V, N, K>(q: W.QueueOf<U, M, L>, m: M, r: W.QueueOf<V, N, K>, n: N, d: bool)
    requires CourseOf(q) == CourseOf(r)
    ensures CourseOf(W.StartFlush(q, m, d)) == CourseOf(W.StartFlush(r, n, d))
  {
    EndTaskAlike(q, r, d);
    hide W.EndTask;
  }

  lemma StartTaskAlike<U, M, L, V, N, K>(q: W.QueueOf<U, M, L>, m: M, r: W.QueueOf<V, N, K>, n: N)
    requires CourseOf(q) == CourseOf(r)
    ensures CourseOf(W.StartTask(q, m)) == CourseOf(W.StartTask(r, n))
  {
    if q.running.Idle? && q.chain != [] && q.chain[0].Flush? {
      StartFlushAlike(q.(chain := q.chain[1..]), m, r.(chain := r.chain[1..]), n, q.chain[0].thenDeactivate);
    }
    hide W.StartFlush;
  }

  lemma MissingAlike<U, M, L, V, N, K>(q: W.QueueOf<U, M, L>, first: seq<U>, r: W.QueueOf<V, N, K>, other: seq<V>)
    requires CourseOf(q) == CourseOf(r) && |first| == |other|
    ensures CourseOf(W.FinishCatchUp(q, first)) == CourseOf(W.FinishCatchUp(r, other))
  {
  }

  lemma WriterAlike<U, M, L, V, N, K>(q: W.QueueOf<U, M, L>, r: W.QueueOf<V, N, K>)
    requires CourseOf(q) == CourseOf(r)
    ensures CourseOf(W.BecomeWriter(q)) == CourseOf(W.BecomeWriter(r))
  {
  }

  // ----- the steps -----

  lemma StartAlike(s: P.State, w: W.State)
    requires Alike(s, w)
    ensures Alike(P.Step(s, P.Start), W.Step(w, W.Start))
  {
    StartTaskAlike(s.q, P.Now(s), w.q, w.doc);
    hide W.StartTask, CourseOf;
  }

  lemma WriteAlike(s: P.State, e: P.Event, w: W.State, f: W.Event)
    requires Alike(s, w) && Corresponds(s, e, w, f) && (e.AppendCommits? || e.AppendFails?)
    ensures Alike(P.Step(s, e), W.Step(w, f))
  {
    if s.q.running.Writing? {
      CommittedAlike(s.q, w.q);
      FailedAlike(s.q, w.q);
    }
    hide W.Committed, W.Failed;
  }

  lemma NoBoardAlike(s: P.State, w: W.State)
    requires Alike(s, w)
    ensures Alike(P.Step(s, P.AppendFindsNoBoard), W.Step(w, W.AppendFindsNoBoard))
  {
    if s.q.running.Writing? {
      EndTaskAlike(s.q.(pending := []), w.q.(pending := []), s.q.running.thenDeactivate);
    }
    hide W.EndTask;
  }

  lemma CompactionAlike(s: P.State, w: W.State)
    requires Alike(s, w)
    ensures Alike(P.Step(s, P.CompactionEnds), W.Step(w, W.CompactionEnds(false)))
  {
    if s.q.running.Compacting? {
      EndTaskAlike(s.q, w.q, s.q.running.thenDeactivate);
    }
    hide W.EndTask;
  }

  lemma CatchUpAlike(s: P.State, e: P.Event, w: W.State, f: W.Event)
    requires Alike(s, w) && Corresponds(s, e, w, f) && P.CatchesUp(e)
    ensures Alike(P.Step(s, e), W.Step(w, f))
  {
    hide CipherLogs.NotStored, CipherLogs.Located, W.Missing;
    if e.Compared? && s.q.running.Comparing? {
      var log := CipherLogs.CatchUpIn(s.log, s.q.running.loaded);
      MissingAlike(s.q, CipherLogs.NotStored(log.entries), w.q, W.Missing(w.doc, w.q.running.loaded));
      hide W.FinishCatchUp;
    } else if e.BoardUnreadable? && s.q.running.Reading? {
      MissingAlike(s.q, CipherLogs.NotStored(s.log.entries), w.q, [w.doc]);
      hide W.FinishCatchUp;
    }
  }

  lemma WriterStepAlike(s: P.State, e: P.Event, w: W.State, f: W.Event)
    requires Alike(s, w) && Corresponds(s, e, w, f) && (e.Activate? || e.Close?)
    ensures Alike(P.Step(s, e), W.Step(w, f))
  {
    WriterAlike(s.q, w.q);
    hide W.BecomeWriter, BusyWith;
  }

  lemma OtherAlike(s: P.State, e: P.Event, w: W.State, f: W.Event)
    requires Alike(s, w) && Corresponds(s, e, w, f)
    requires !e.Start? && !P.EndsWriting(e) && !e.CompactionEnds? && !P.CatchesUp(e) && !e.Activate? && !e.Close?
    ensures Alike(P.Step(s, e), W.Step(w, f))
  {
    hide BusyWith;
  }

  /** Queues that are alike stay alike, whatever happens to both. */
  lemma StaysAlike(s: P.State, e: P.Event, w: W.State, f: W.Event)
    requires Alike(s, w) && Corresponds(s, e, w, f)
    ensures Alike(P.Step(s, e), W.Step(w, f))
  {
    hide P.Step, W.Step, Alike;
    if e.Start? {
      StartAlike(s, w);
    } else if e.AppendCommits? || e.AppendFails? {
      WriteAlike(s, e, w, f);
    } else if e.AppendFindsNoBoard? {
      NoBoardAlike(s, w);
    } else if e.CompactionEnds? {
      CompactionAlike(s, w);
    } else if P.CatchesUp(e) {
      CatchUpAlike(s, e, w, f);
    } else if e.Activate? || e.Close? {
      WriterStepAlike(s, e, w, f);
    } else {
      OtherAlike(s, e, w, f);
    }
  }
}
