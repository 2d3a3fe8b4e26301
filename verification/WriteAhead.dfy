/** The write-ahead queue of one room, as a state machine over the points where its code can be interrupted. */
module WriteAhead {
  import opened Documents
  import opened Options

  const MAX_BATCH := 500

  /** A queued task; the flush a deactivation waits for is marked. */
  datatype Task = Flush(thenDeactivate: bool) | CatchUp | Compaction

  /** What the task in progress is waiting for: `U` is what is written, `M` a marker, `L` what a catch-up loads. */
  datatype RunningOf<U, M, L> = Idle
                              | Writing(batch: seq<U>, marker: Option<M>, thenDeactivate: bool)
                              | Reading
                              | Comparing(loaded: L, storedSinceSnapshot: nat)
                              | Compacting(thenDeactivate: bool)

  /** The queue of one room, whatever kind of content it writes. */
  datatype QueueOf<U, M, L> = Queue(pending: seq<U>, active: bool, closed: bool, disposed: bool, chain: seq<Task>,
                                    running: RunningOf<U, M, L>, updatesSinceSnapshot: nat, snapshotEvery: nat)

  type DocQueue = QueueOf<Update, set<Change>, set<Change>>

  /**
   * The queue and its surroundings: the room's document, everything any instance ever committed, whether the board
   * was purged, the markers acknowledged so far; and since this instance last became the writer, what it accepted for
   * writing, what it saw committed, and what the database took from it.
   */
  datatype State = State(q: DocQueue, doc: set<Change>, stored: set<Change>, purged: bool, acks: seq<set<Change>>,
                         accepted: seq<Update>, committed: seq<Update>, taken: seq<Update>)

  datatype Event = Edit(update: Update)
                 | OthersCommit(changes: set<Change>)
                 | Purge
                 | QueueFlush
                 | QueueCompaction
                 | Start
                 | AppendCommits
                 | AppendFails(tookEffect: bool)
                 | AppendFindsNoBoard
                 | BoardRead(storedSinceSnapshot: nat)
                 | BoardUnreadable
                 | Compared
                 | CompactionEnds(done: bool)
                 | SnapshotInstalled(archived: nat)
                 | Activate
                 | Deactivate
                 | Close
                 | Reopen(active: bool)
                 | Dispose

  // ----- the queue's own transitions -----

  function Enqueue<U, M, L>(q: QueueOf<U, M, L>, update: U): QueueOf<U, M, L>
  {
    if q.active then q.(pending := q.pending + [update]) else q
  }

  function CutSize<U, M, L>(q: QueueOf<U, M, L>): nat
  {
    if |q.pending| <= MAX_BATCH then |q.pending| else MAX_BATCH
  }

  /** The task is over; a deactivation that waited for it stops writing and drops what is left. */
  function EndTask<U, M, L>(q: QueueOf<U, M, L>, thenDeactivate: bool): QueueOf<U, M, L>
  {
    if thenDeactivate then q.(running := Idle, active := false, pending := []) else q.(running := Idle)
  }

  function StartFlush<U, M, L>(q: QueueOf<U, M, L>, marker: M, thenDeactivate: bool): QueueOf<U, M, L>
  {
    if q.disposed || q.pending == [] then EndTask(q, thenDeactivate)
    else
      var n := CutSize(q);
      var rest := q.pending[n..];
      q.(pending := rest, running := Writing(q.pending[..n], if rest == [] then Some(marker) else None, thenDeactivate))
  }

  function StartTask<U, M, L>(q: QueueOf<U, M, L>, marker: M): QueueOf<U, M, L>
  {
    if !q.running.Idle? || q.chain == [] then q
    else
      var rest := q.(chain := q.chain[1..]);
      match q.chain[0]
      case Flush(d) => StartFlush(rest, marker, d)
      case CatchUp => rest.(running := Reading)
      case Compaction => rest.(running := Compacting(false))
  }

  /** A batch committed: count it, and compact at once when enough updates follow the latest snapshot. */
  function Committed<U, M, L>(q: QueueOf<U, M, L>): QueueOf<U, M, L>
    requires q.running.Writing?
  {
    var d, counted := q.running.thenDeactivate, q.(updatesSinceSnapshot := q.updatesSinceSnapshot + |q.running.batch|);
    if counted.updatesSinceSnapshot >= q.snapshotEvery then counted.(running := Compacting(d)) else EndTask(counted, d)
  }

  /** A failed batch is first in line again. */
  function Failed<U, M, L>(q: QueueOf<U, M, L>): QueueOf<U, M, L>
    requires q.running.Writing?
  {
    EndTask(q.(pending := q.running.batch + q.pending), q.running.thenDeactivate)
  }

  function Missing(doc: set<Change>, loaded: set<Change>): seq<Update>
  {
    if doc - loaded == {} then [] else [doc - loaded]
  }

  function FinishCatchUp<U, M, L>(q: QueueOf<U, M, L>, missing: seq<U>): QueueOf<U, M, L>
  {
    q.(running := Idle, pending := missing + q.pending)
  }

  function BecomeWriter<U, M, L>(q: QueueOf<U, M, L>): QueueOf<U, M, L>
  {
    q.(active := true, chain := q.chain + [CatchUp])
  }

  // ----- the whole -----

  function Step(s: State, e: Event): State
  {
    var q := s.q;
    match e
    case Edit(u) =>
      s.(doc := s.doc + u, q := Enqueue(q, u), accepted := if q.active then s.accepted + [u] else s.accepted)
    case OthersCommit(c) => if s.purged then s else s.(stored := s.stored + c)
    case Purge => s.(purged := true)
    case QueueFlush => s.(q := q.(chain := q.chain + [Flush(false)]))
    case QueueCompaction => s.(q := q.(chain := q.chain + [Compaction]))
    case Start => s.(q := StartTask(q, s.doc))
    case AppendCommits =>
      if !q.running.Writing? || s.purged then s
      else s.(q := Committed(q), stored := s.stored + Carried(q.running.batch),
              committed := s.committed + q.running.batch, taken := s.taken + q.running.batch,
              acks := if q.running.marker.Some? then s.acks + [q.running.marker.value] else s.acks)
    case AppendFails(tookEffect) =>
      if !q.running.Writing? then s
      else
        var t := s.(q := Failed(q));
        if tookEffect && !s.purged
        then t.(stored := s.stored + Carried(q.running.batch), taken := s.taken + q.running.batch)
        else t
    case AppendFindsNoBoard =>
      if !q.running.Writing? || !s.purged then s
      else s.(q := EndTask(q.(pending := []), q.running.thenDeactivate))
    case BoardRead(n) =>
      if q.running != Reading then s
      else s.(q := q.(running := Comparing(if s.purged then {} else s.stored, n)))
    case BoardUnreadable =>
      if q.running != Reading then s
      else s.(q := FinishCatchUp(q, [s.doc]), accepted := [s.doc] + s.accepted)
    case Compared =>
      if !q.running.Comparing? then s
      else
        var missing := Missing(s.doc, q.running.loaded);
        s.(q := FinishCatchUp(q, missing).(updatesSinceSnapshot := q.running.storedSinceSnapshot),
           accepted := missing + s.accepted,
           acks := if missing == [] && q.pending == [] then s.acks + [s.doc] else s.acks)
    case CompactionEnds(done) =>
      if !q.running.Compacting? then s
      else s.(q := EndTask(if done then q.(updatesSinceSnapshot := 0) else q, q.running.thenDeactivate))
    case SnapshotInstalled(archived) =>
      s.(q := q.(updatesSinceSnapshot := if q.updatesSinceSnapshot > archived then q.updatesSinceSnapshot - archived else 0))
    case Activate =>
      if q.active then s
      else s.(q := BecomeWriter(q).(closed := false), accepted := [], committed := [], taken := [])
    case Deactivate =>
      if !q.active then s else s.(q := q.(chain := q.chain + [Flush(true)]))
    case Close =>
      var writing := if q.active then s else s.(q := BecomeWriter(q), accepted := [], committed := [], taken := []);
      writing.(q := writing.q.(closed := true, chain := writing.q.chain + [Flush(false)]))
    case Reopen(active) =>
      s.(q := q.(closed := false, active := active, pending := if active then q.pending else []))
    case Dispose =>
      s.(q := q.(disposed := true, closed := true, active := false))
  }

  /**
   * What the surroundings promise: the lease is only taken over while no earlier task is queued or running, a room is
   * only closed as a non-writer or reopened under the same condition, and reopening follows closing.
   */
  ghost predicate Allowed(s: State, e: Event)
  {
    match e
    case Activate => s.q.active || (s.q.chain == [] && s.q.running == Idle)
    case Close => s.q.active || (s.q.chain == [] && s.q.running == Idle)
    case Reopen(_) => s.q.active && s.q.chain == [] && s.q.running == Idle
    case _ => true
  }

  // ----- acknowledged means durable -----

  /** Updates being written or waiting. */
  ghost function Unwritten<U, M, L>(q: QueueOf<U, M, L>): seq<U>
  {
    if q.running.Writing? then q.running.batch + q.pending else q.pending
  }

  /** A catch-up is due or under way: the document may hold changes the queue does not know. */
  ghost predicate CatchingUp<U, M, L>(q: QueueOf<U, M, L>)
  {
    (q.chain != [] && q.chain[0] == CatchUp) || q.running.Reading? || q.running.Comparing?
  }

  ghost predicate AcksAreStored(s: State)
  {
    forall i | 0 <= i < |s.acks| :: s.acks[i] <= s.stored
  }

  ghost predicate ChainInvariant<U, M, L>(q: QueueOf<U, M, L>)
  {
    && (forall i | 1 <= i < |q.chain| :: q.chain[i] != CatchUp)
    && (q.chain != [] && q.chain[0] == CatchUp ==> q.running.Idle?)
    && (!q.active && !q.disposed ==> q.pending == [] && !q.running.Writing? && !CatchingUp(q))
    && (q.running.Writing? ==> 0 < |q.running.batch| <= MAX_BATCH)
  }

  ghost predicate CoverInvariant(s: State)
  {
    && (s.q.running.Comparing? ==> s.q.running.loaded <= s.stored)
    && (!s.purged && s.q.running.Writing? && s.q.running.marker.Some? ==>
          s.q.running.marker.value <= s.stored + Carried(s.q.running.batch))
    && (!s.purged && s.q.active && !s.q.disposed && !CatchingUp(s.q) ==> s.doc <= s.stored + Carried(Unwritten(s.q)))
  }

  ghost predicate Invariant(s: State)
  {
    AcksAreStored(s) && ChainInvariant(s.q) && CoverInvariant(s)
  }

  lemma StartKeepsChain(s: State)
    requires ChainInvariant(s.q)
    ensures ChainInvariant(Step(s, Start).q)
  {
    var q, t := s.q, Step(s, Start).q;
    if q.running == Idle && q.chain != [] {
      assert forall i | 0 <= i < |t.chain| :: t.chain[i] == q.chain[i + 1];
    }
  }

  ghost predicate EndsWriting(e: Event)
  {
    e.AppendCommits? || e.AppendFails? || e.AppendFindsNoBoard?
  }

  lemma EndKeepsChain(s: State, e: Event)
    requires ChainInvariant(s.q) && Allowed(s, e) && EndsWriting(e)
    ensures ChainInvariant(Step(s, e).q)
  {
    hide Carried, StartTask, FinishCatchUp, Missing, BecomeWriter, Enqueue;
  }

  ghost predicate MovesLease(e: Event)
  {
    e.Activate? || e.Deactivate? || e.Close? || e.Reopen? || e.Dispose?
  }

  lemma LeaseKeepsChain(s: State, e: Event)
    requires ChainInvariant(s.q) && Allowed(s, e) && MovesLease(e)
    ensures ChainInvariant(Step(s, e).q)
  {
    hide Carried, StartTask, Committed, Failed, FinishCatchUp, EndTask;
  }

  ghost predicate CatchesUp(e: Event)
  {
    e.BoardRead? || e.BoardUnreadable? || e.Compared?
  }

  lemma CatchUpKeepsChain(s: State, e: Event)
    requires ChainInvariant(s.q) && CatchesUp(e)
    ensures ChainInvariant(Step(s, e).q)
  {
    hide Carried, StartTask, Committed, Failed, EndTask, Missing;
  }

  ghost predicate QueuesTask(e: Event)
  {
    e.QueueFlush? || e.QueueCompaction?
  }

  lemma QueueingKeepsChain(s: State, e: Event)
    requires ChainInvariant(s.q) && QueuesTask(e)
    ensures ChainInvariant(Step(s, e).q)
  {
    hide Carried, StartTask, Committed, Failed, FinishCatchUp, EndTask;
  }

  lemma RestKeepsChain(s: State, e: Event)
    requires ChainInvariant(s.q) && !e.Start? && !EndsWriting(e) && !MovesLease(e) && !CatchesUp(e) && !QueuesTask(e)
    ensures ChainInvariant(Step(s, e).q)
  {
    hide Carried, StartTask, Committed, Failed, FinishCatchUp, Missing;
  }

  lemma StepKeepsChain(s: State, e: Event)
    requires ChainInvariant(s.q) && Allowed(s, e)
    ensures ChainInvariant(Step(s, e).q)
  {
    hide *;
    if e.Start? {
      StartKeepsChain(s);
    } else if EndsWriting(e) {
      EndKeepsChain(s, e);
    } else if MovesLease(e) {
      LeaseKeepsChain(s, e);
    } else if CatchesUp(e) {
      CatchUpKeepsChain(s, e);
    } else if QueuesTask(e) {
      QueueingKeepsChain(s, e);
    } else {
      RestKeepsChain(s, e);
    }
  }

  /** Cutting a batch covers what it leaves out. */
  lemma StartKeepsCover(s: State)
    requires Invariant(s)
    ensures CoverInvariant(Step(s, Start))
  {
    var q := s.q;
    if q.running == Idle && q.chain != [] {
      if q.chain[0].Flush? && !q.disposed && q.pending != [] {
        var n := CutSize(q);
        assert q.pending[..n] + q.pending[n..] == q.pending;
        CarriedAppend(q.pending[..n], q.pending[n..]);
        assert Unwritten(q) == q.pending;
      }
    }
  }

  lemma EndKeepsCover(s: State, e: Event)
    requires Invariant(s) && s.q.running.Writing?
    requires EndsWriting(e)
    ensures CoverInvariant(Step(s, e))
  {
    var q := s.q;
    CarriedAppend(q.running.batch, q.pending);
  }

  lemma CatchUpKeepsCover(s: State, e: Event)
    requires Invariant(s) && CatchesUp(e)
    ensures CoverInvariant(Step(s, e))
  {
    var q, t := s.q, Step(s, e);
    if e.BoardUnreadable? && q.running == Reading {
      CarriedAppend([s.doc], q.pending);
    }
    if e.Compared? && q.running.Comparing? {
      CarriedAppend(Missing(s.doc, q.running.loaded), q.pending);
    }
  }

  lemma StepKeepsCover(s: State, e: Event)
    requires Invariant(s) && Allowed(s, e)
    ensures CoverInvariant(Step(s, e))
  {
    var q, t := s.q, Step(s, e);
    match e
    case Edit(u) =>
      CarriedAppend(Unwritten(q), [u]);
      assert q.active ==> Unwritten(t.q) == Unwritten(q) + [u];
    case Start => StartKeepsCover(s);
    case AppendCommits => if q.running.Writing? { EndKeepsCover(s, e); }
    case AppendFails(_) => if q.running.Writing? { EndKeepsCover(s, e); }
    case AppendFindsNoBoard => if q.running.Writing? { EndKeepsCover(s, e); }
    case BoardRead(_) => CatchUpKeepsCover(s, e);
    case BoardUnreadable => CatchUpKeepsCover(s, e);
    case Compared => CatchUpKeepsCover(s, e);
    case _ =>
  }

  lemma StepKeepsAcks(s: State, e: Event)
    requires AcksAreStored(s) && CoverInvariant(s)
    ensures AcksAreStored(Step(s, e)) && s.stored <= Step(s, e).stored && s.acks <= Step(s, e).acks
  {
    hide Carried;
    var t := Step(s, e);
    if e.Compared? && s.q.running.Comparing? && Missing(s.doc, s.q.running.loaded) == [] {
      assert forall c | c in s.doc && c !in s.q.running.loaded :: c in s.doc - s.q.running.loaded;
    }
    forall i | 0 <= i < |t.acks|
      ensures t.acks[i] <= t.stored
    {
      if i < |s.acks| {
        assert s.acks[i] <= s.stored;
      }
    }
  }

  lemma StepKeepsInvariant(s: State, e: Event)
    requires Invariant(s) && Allowed(s, e)
    ensures Invariant(Step(s, e))
  {
    StepKeepsAcks(s, e);
    StepKeepsChain(s, e);
    StepKeepsCover(s, e);
    hide *;
  }

  /** A room that just loaded: its document came from storage, nothing is queued. */
  ghost predicate Initial(s: State)
  {
    && s.doc <= s.stored && !s.purged && s.acks == [] && s.accepted == [] && s.committed == [] && s.taken == []
    && s.q.pending == [] && s.q.chain == [] && s.q.running == Idle && !s.q.closed && !s.q.disposed
  }

  ghost predicate AllowedRun(s: State, events: seq<Event>)
    decreases |events|
  {
    events == [] || (Allowed(s, events[0]) && AllowedRun(Step(s, events[0]), events[1..]))
  }

  function Run(s: State, events: seq<Event>): State
    decreases |events|
  {
    if events == [] then s else Run(Step(s, events[0]), events[1..])
  }

  lemma {:induction false} RunKeepsInvariant(s: State, events: seq<Event>)
    requires Invariant(s) && AllowedRun(s, events)
    ensures Invariant(Run(s, events)) && s.stored <= Run(s, events).stored && s.acks <= Run(s, events).acks
    decreases |events|
  {
    hide Invariant, Allowed, Step;
    if events != [] {
      StepKeepsInvariant(s, events[0]);
      StepGrows(s, events[0]);
      RunKeepsInvariant(Step(s, events[0]), events[1..]);
    }
  }

  lemma StepGrows(s: State, e: Event)
    requires Invariant(s)
    ensures s.stored <= Step(s, e).stored && s.acks <= Step(s, e).acks
  {
    StepKeepsAcks(s, e);
  }

  /** Acknowledged means durable: at every point of every run, each marker sent describes only committed changes. */
  lemma AcknowledgedIsDurable(s: State, events: seq<Event>)
    requires Initial(s) && AllowedRun(s, events)
    ensures forall i | 0 <= i < |Run(s, events).acks| :: Run(s, events).acks[i] <= Run(s, events).stored
  {
    RunKeepsInvariant(s, events);
  }

  /** A non-writer's room that just loaded an empty board. */
  const NON_WRITER := State(Queue([], false, false, false, [], Idle, 0, 100), {}, {}, false, [], [], [], [])

  /** An edit arrives, a flush is still queued, and the lease is taken over. */
  function LeaseTakenEarly(a: Change): State
  {
    Step(Step(Step(NON_WRITER, Edit({a})), QueueFlush), Activate)
  }

  /**
   * Taking the lease over while a flush is still queued would break it: the flush runs before the catch-up and
   * acknowledges a document whose earlier changes were never stored.
   */
  lemma ActivatingEarlyWouldBreakIt(a: Change, b: Change)
    requires a != b
    ensures var events := [Edit({a}), QueueFlush, Activate] + [Edit({b}), Start, AppendCommits];
      Initial(NON_WRITER) && !AllowedRun(NON_WRITER, events) && !AcksAreStored(Run(NON_WRITER, events))
  {
    var first, last := [Edit({a}), QueueFlush, Activate], [Edit({b}), Start, AppendCommits];
    var s := LeaseTakenEarly(a);
    LeaseStateIs(a);
    var started := EarlyFlushCaptures(Step(s, Edit({b})), a, b);
    EarlyCommitAcknowledges(started, a, b);
    hide Step, Allowed, AcksAreStored, LeaseTakenEarly, EarlyFlush;
    RunOfThree(s, Edit({b}), Start, AppendCommits);
    RunAppend(NON_WRITER, first, last);
    LeaseIsRun(a);
    AllowedPrefix(NON_WRITER, first, last);
    EarlyRunNotAllowed(a);
  }

  lemma RunOfThree(s: State, e: Event, f: Event, g: Event)
    ensures Run(s, [e, f, g]) == Step(Step(Step(s, e), f), g)
  {
    hide Step;
    assert [e, f, g][1..] == [f, g] && [f, g][1..] == [g] && [g][1..] == [];
    assert Run(s, [e, f, g]) == Run(Step(s, e), [f, g]) == Run(Step(Step(s, e), f), [g]);
  }

  lemma LeaseStateIs(a: Change)
    ensures LeaseTakenEarly(a)
         == State(Queue([], true, false, false, [Flush(false), CatchUp], Idle, 0, 100), {a}, {}, false, [], [], [], [])
  {
    assert {} + {a} == {a};
  }

  lemma LeaseIsRun(a: Change)
    ensures LeaseTakenEarly(a) == Run(NON_WRITER, [Edit({a}), QueueFlush, Activate])
  {
    RunOfThree(NON_WRITER, Edit({a}), QueueFlush, Activate);
    hide Step;
  }

  lemma EarlyRunNotAllowed(a: Change)
    ensures !AllowedRun(NON_WRITER, [Edit({a}), QueueFlush, Activate])
  {
    var events := [Edit({a}), QueueFlush, Activate];
    assert events[1..] == [QueueFlush, Activate] && events[1..][1..] == [Activate];
    assert !Allowed(Step(Step(NON_WRITER, Edit({a})), QueueFlush), Activate);
    hide Step, Allowed;
    assert !AllowedRun(Step(NON_WRITER, Edit({a})), events[1..]);
  }

  lemma {:induction false} RunAppend(s: State, a: seq<Event>, b: seq<Event>)
    ensures Run(s, a + b) == Run(Run(s, a), b)
    decreases |a|
  {
    hide Step;
    if a == [] {
      assert a + b == b;
    } else {
      assert (a + b)[1..] == a[1..] + b;
      RunAppend(Step(s, a[0]), a[1..], b);
    }
  }

  lemma {:induction false} AllowedPrefix(s: State, a: seq<Event>, b: seq<Event>)
    ensures AllowedRun(s, a + b) ==> AllowedRun(s, a)
    decreases |a|
  {
    hide Step, Allowed;
    if a != [] {
      assert (a + b)[1..] == a[1..] + b;
      AllowedPrefix(Step(s, a[0]), a[1..], b);
    }
  }

  /** The flush in flight carries `b` alone but will acknowledge `a` too. */
  ghost predicate EarlyFlush(s: State, a: Change, b: Change)
  {
    && s.q.running == Writing([{b}], Some({a, b}), false) && s.stored == {} && !s.purged && s.acks == []
    && s.q.updatesSinceSnapshot == 0 && s.q.snapshotEvery == 100
  }

  lemma EarlyFlushCaptures(s: State, a: Change, b: Change) returns (started: State)
    requires s.q == Queue([{b}], true, false, false, [Flush(false), CatchUp], Idle, 0, 100)
    requires s.doc == {a, b} && s.stored == {} && !s.purged && s.acks == []
    ensures started == Step(s, Start) && EarlyFlush(started, a, b)
  {
    started := Step(s, Start);
    assert s.q.pending[..1] == [{b}] && s.q.pending[1..] == [];
  }

  lemma EarlyCommitAcknowledges(s: State, a: Change, b: Change)
    requires a != b && EarlyFlush(s, a, b)
    ensures !AcksAreStored(Step(s, AppendCommits))
  {
    var done := Step(s, AppendCommits);
    assert Carried([{b}]) == {b};
    assert done.acks[0] == {a, b} && a !in done.stored;
  }

  // ----- queue conservation -----

  /**
   * While the instance is the writer of a board that exists: committed, being written and waiting updates are
   * together exactly the accepted ones, in order. Until the catch-up is done nothing has been committed.
   */
  ghost predicate Conserved(s: State)
  {
    && (s.q.active && !s.purged && !s.q.disposed ==> s.committed + Unwritten(s.q) == s.accepted)
    && (s.q.active && CatchingUp(s.q) ==> s.committed == [] && !s.q.running.Writing?)
  }

  lemma StartConserves(s: State)
    requires ChainInvariant(s.q) && Conserved(s)
    ensures Conserved(Step(s, Start))
  {
    var q := s.q;
    if q.running == Idle && q.chain != [] {
      assert q.pending[..CutSize(q)] + q.pending[CutSize(q)..] == q.pending;
    }
  }

  lemma EndConserves(s: State, e: Event)
    requires ChainInvariant(s.q) && Conserved(s) && s.q.running.Writing? && (e.AppendCommits? || e.AppendFails?)
    ensures Conserved(Step(s, e))
  {
    hide Carried;
    var b := s.q.running.batch;
    assert s.committed + (b + s.q.pending) == s.committed + b + s.q.pending;
  }

  lemma CatchUpConserves(s: State, e: Event)
    requires ChainInvariant(s.q) && Conserved(s) && CatchesUp(e)
    ensures Conserved(Step(s, e))
  {
  }

  lemma StepConserves(s: State, e: Event)
    requires ChainInvariant(s.q) && Conserved(s) && Allowed(s, e)
    ensures Conserved(Step(s, e))
  {
    hide Carried;
    match e
    case Edit(u) => assert s.committed + (Unwritten(s.q) + [u]) == s.committed + Unwritten(s.q) + [u];
    case Start => StartConserves(s);
    case AppendCommits => if s.q.running.Writing? { EndConserves(s, e); }
    case AppendFails(_) => if s.q.running.Writing? { EndConserves(s, e); }
    case BoardRead(_) => CatchUpConserves(s, e);
    case BoardUnreadable => CatchUpConserves(s, e);
    case Compared => CatchUpConserves(s, e);
    case _ =>
  }

  /** Failed appends leave no effect. */
  predicate NoHalfFailures(events: seq<Event>)
  {
    forall e | e in events :: e.AppendFails? ==> !e.tookEffect
  }

  /**
   * Queue conservation over every run: as long as the instance stays the writer of a board that exists, what it saw
   * committed, the batch in flight and the queue are exactly the catch-up followed by the enqueued updates, in order,
   * in batches of at most 500; and without half-failures the database took exactly the committed ones.
   */
  lemma {:induction false} RunConserves(s: State, events: seq<Event>)
    requires Invariant(s) && Conserved(s) && AllowedRun(s, events)
    ensures Conserved(Run(s, events)) && Invariant(Run(s, events))
    ensures NoHalfFailures(events) && s.taken == s.committed ==> Run(s, events).taken == Run(s, events).committed
    decreases |events|
  {
    if events != [] {
      StepKeepsInvariant(s, events[0]);
      StepConserves(s, events[0]);
      assert events[0] in events;
      assert NoHalfFailures(events) && s.taken == s.committed ==> Step(s, events[0]).taken == Step(s, events[0]).committed;
      hide Invariant, Conserved, Allowed, Step;
      RunConserves(Step(s, events[0]), events[1..]);
    }
  }

  // ----- a room that is gone -----

  lemma DisposedStaysIdle(s: State, e: Event)
    requires s.q.disposed && !s.q.running.Writing?
    ensures Step(s, e).q.disposed && !Step(s, e).q.running.Writing?
  {
    hide Carried, Missing;
  }

  /** Once disposed of, a room with no batch in flight writes nothing any more, whatever happens. */
  lemma {:induction false} DisposedWritesNothing(s: State, events: seq<Event>)
    requires s.q.disposed && !s.q.running.Writing?
    ensures Run(s, events).q.disposed && !Run(s, events).q.running.Writing?
    decreases |events|
  {
    hide Step;
    if events != [] {
      DisposedStaysIdle(s, events[0]);
      DisposedWritesNothing(Step(s, events[0]), events[1..]);
    }
  }
}
