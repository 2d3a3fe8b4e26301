/** The write-ahead queue as the object that holds it; its asynchronous methods are split where they wait. */
module RoomPersistences {
  import opened Documents
  import opened Options
  import opened WriteAhead
  import Closing

  /** How an append ended; one that threw may have taken effect all the same. */
  datatype AppendResult = Wrote | Threw(tookEffect: bool) | NoBoard

  /** Appends to a purged board never commit, and only they find no board. */
  predicate CanEnd(result: AppendResult, purged: bool)
  {
    (result.Wrote? ==> !purged) && (result.NoBoard? ==> purged)
  }

  /** The marker of a batch describes what will be stored once the batch is. */
  lemma MarkerIsCovered(s: State)
    requires Invariant(s) && s.q.running.Writing? && s.q.running.marker.Some? && !s.purged
    ensures s.q.running.marker.value <= s.stored + Carried(s.q.running.batch)
  {
    hide AcksAreStored, ChainInvariant, Carried;
  }

  lemma ComparedIsStored(s: State)
    requires Invariant(s) && s.q.running.Comparing? && s.doc <= s.q.running.loaded
    ensures s.doc <= s.stored
  {
    hide AcksAreStored, ChainInvariant, Carried;
  }

  lemma InitialIsInvariant(s: State)
    requires Initial(s)
    ensures Invariant(s)
  {
    assert Carried([]) == {};
  }

  // ----- what a task leaves behind -----

  /** The task is over; if a deactivation waited for it, the queue is dropped and no longer written. */
  ghost predicate HasEnded(was: DocQueue, q: DocQueue, thenDeactivate: bool)
  {
    && q.running == Idle
    && if thenDeactivate then !q.active && q.pending == [] else q.active == was.active && q.pending == was.pending
  }

  /**
   * A batch of at most 500 has been cut off the front and is being written; taking everything queued, it carries the
   * marker. A room that is gone writes nothing, nor does one with an empty queue.
   */
  ghost predicate HasCut(was: DocQueue, q: DocQueue, marker: set<Change>, thenDeactivate: bool)
  {
    if was.disposed || was.pending == [] then HasEnded(was, q, thenDeactivate)
    else
      && q.running.Writing? && q.running.batch + q.pending == was.pending && q.active == was.active
      && 0 < |q.running.batch| <= 500 && (|q.running.batch| < 500 ==> q.pending == [])
      && q.running.marker == (if q.pending == [] then Some(marker) else None)
      && q.running.thenDeactivate == thenDeactivate
  }

  // ----- what the tasks of a close do to the state -----

  /** A writer on its way out, with these tasks to do and none in progress. */
  ghost predicate IsClosing(s: State, tasks: seq<Task>)
  {
    s.q.active && s.q.closed && !s.q.disposed && s.q.running == Idle && s.q.chain == tasks
  }

  /** The same with its last task in progress. */
  ghost predicate IsBusy(s: State, after: seq<Task>)
  {
    s.q.active && s.q.closed && !s.q.disposed && s.q.running != Idle && s.q.chain == after
  }

  lemma CloseBegins(s: State)
    requires Allowed(s, WriteAhead.Close) && !s.q.disposed && s.q.running == Idle && s.q.chain == []
    ensures var t := Step(s, WriteAhead.Close);
      && (IsClosing(t, [CatchUp, WriteAhead.Flush(false)]) || IsClosing(t, [WriteAhead.Flush(false)]))
      && t.doc == s.doc && t.stored == s.stored && t.purged == s.purged && t.q.chain != []
      && (t.q.chain[0] == CatchUp <==> IsClosing(t, [CatchUp, WriteAhead.Flush(false)]))
  {
  }

  lemma FlushIsQueued(s: State)
    requires IsClosing(s, [])
    ensures IsClosing(Step(s, QueueFlush), [WriteAhead.Flush(false)]) && Step(s, QueueFlush).doc == s.doc
    ensures Step(s, QueueFlush).purged == s.purged
  {
  }

  lemma FlushStarts(s: State)
    requires IsClosing(s, [WriteAhead.Flush(false)])
    ensures s.q.running == Idle && s.q.chain != []
    ensures var t := Step(s, Start);
      && (if t.q.running == Idle then IsClosing(t, []) else IsBusy(t, []) && t.q.running.Writing? && !t.q.running.thenDeactivate)
      && t.doc == s.doc && t.purged == s.purged
  {
  }

  lemma FlushEnds(s: State)
    requires IsBusy(s, []) && s.q.running.Writing? && !s.q.running.thenDeactivate
    ensures forall e | EndsWriting(e) && (e.AppendCommits? <==> !s.purged && !e.AppendFails?) :: var t := Step(s, e);
      && (if t.q.running == Idle then IsClosing(t, []) else IsBusy(t, []) && t.q.running == Compacting(false))
      && t.doc == s.doc && t.purged == s.purged
  {
    hide Carried;
  }

  lemma CompactionLeaves(s: State, done: bool)
    requires IsBusy(s, []) && s.q.running == Compacting(false)
    ensures var t := Step(s, CompactionEnds(done));
      IsClosing(t, []) && t.doc == s.doc && t.q.pending == s.q.pending && t.stored == s.stored && t.purged == s.purged
  {
  }

  lemma CatchUpStarts(s: State)
    requires IsClosing(s, [CatchUp, WriteAhead.Flush(false)])
    ensures s.q.running == Idle && s.q.chain != []
    ensures var t := Step(s, Start);
      IsBusy(t, [WriteAhead.Flush(false)]) && t.q.running == Reading && t.doc == s.doc && t.stored == s.stored
      && t.purged == s.purged
  {
  }

  lemma CatchUpReads(s: State, n: nat)
    requires IsBusy(s, [WriteAhead.Flush(false)]) && s.q.running == Reading
    ensures var t := Step(s, BoardRead(n));
      IsBusy(t, [WriteAhead.Flush(false)]) && t.q.running.Comparing? && t.doc == s.doc && t.purged == s.purged
  {
  }

  lemma CatchUpEnds(s: State)
    requires IsBusy(s, [WriteAhead.Flush(false)])
    ensures forall e | (e == Compared && s.q.running.Comparing?) || (e == BoardUnreadable && s.q.running == Reading) ::
      IsClosing(Step(s, e), [WriteAhead.Flush(false)]) && Step(s, e).doc == s.doc && Step(s, e).purged == s.purged
  {
  }

  lemma CompactionRuns(s: State, done: bool)
    requires IsClosing(s, [])
    ensures var t := Step(Step(s, QueueCompaction), Start); var u := Step(t, CompactionEnds(done));
      && Step(s, QueueCompaction).q.running == Idle && Step(s, QueueCompaction).q.chain != []
      && t.q.running.Compacting? && IsClosing(u, []) && u.doc == s.doc && u.q.pending == s.q.pending && u.stored == s.stored
      && u.purged == s.purged
  {
    var queued := Step(s, QueueCompaction);
    assert queued == s.(q := s.q.(chain := [Compaction]));
    var t := Step(queued, Start);
    assert t == s.(q := s.q.(running := Compacting(false), chain := [])) by { assert [Compaction][1..] == []; }
    CompactionIsOver(t, done);
  }

  lemma CompactionIsOver(t: State, done: bool)
    requires t.q.running == Compacting(false)
    ensures Step(t, CompactionEnds(done))
         == t.(q := t.q.(running := Idle, updatesSinceSnapshot := if done then 0 else t.q.updatesSinceSnapshot))
  {
    hide Carried;
  }

  lemma ClosedIsStored(s: State)
    requires Invariant(s) && IsClosing(s, []) && s.q.pending == [] && !s.purged
    ensures s.doc <= s.stored
  {
    Closing.SettledWriterIsStored(s);
  }

  class RoomPersistence {
    var pending: seq<Update>
    var active: bool
    var closed: bool
    var disposed: bool
    var chain: seq<Task>
    var running: RunningOf<Update, set<Change>, set<Change>>
    var updatesSinceSnapshot: nat
    const snapshotEvery: nat
    /** The room's document, as the content adapter sees it. */
    var doc: set<Change>
    ghost var stored: set<Change>
    ghost var purged: bool
    ghost var acks: seq<set<Change>>
    ghost var accepted: seq<Update>
    ghost var committed: seq<Update>
    ghost var taken: seq<Update>

    function View(): DocQueue
      reads this
    {
      Queue(pending, active, closed, disposed, chain, running, updatesSinceSnapshot, snapshotEvery)
    }

    /** The queue with its surroundings, as the state machine sees them. */
    ghost function Whole(): State
      reads this
    {
      State(View(), doc, stored, purged, acks, accepted, committed, taken)
    }

    /** What is acknowledged is stored, and the document is covered by storage and queue. */
    ghost predicate Valid()
      reads this
    {
      Invariant(Whole())
    }

    constructor (loaded: set<Change>, active: bool, updatesSinceSnapshot: nat, snapshotEvery: nat, ghost inStorage: set<Change>)
      requires loaded <= inStorage
      ensures Valid() && Initial(Whole())
      ensures doc == loaded && stored == inStorage && this.active == active
      ensures this.updatesSinceSnapshot == updatesSinceSnapshot && this.snapshotEvery == snapshotEvery
    {
      this.pending, this.active, this.closed, this.disposed := [], active, false, false;
      this.chain, this.running := [], Idle;
      this.updatesSinceSnapshot, this.snapshotEvery := updatesSinceSnapshot, snapshotEvery;
      doc, stored, purged, acks, accepted, committed, taken := loaded, inStorage, false, [], [], [], [];
      new;
      InitialIsInvariant(Whole());
    }

    /** The document changed; a writer queues the change. */
    method Add(update: Update)
      requires Valid()
      modifies this`pending, this`doc, this`accepted
      ensures Valid() && Whole() == Step(old(Whole()), Edit(update))
      ensures doc == old(doc) + update && pending == old(pending) + if active then [update] else []
    {
      StepKeepsInvariant(Whole(), Edit(update));
      hide Invariant;
      doc := doc + update;
      if !active { return; }
      pending := pending + [update];
      accepted := accepted + [update];
    }

    method EnqueueTask(task: Task)
      modifies this`chain
      ensures chain == old(chain) + [task]
    {
      chain := chain + [task];
    }

    method Flush()
      requires Valid()
      modifies this`chain
      ensures Valid() && Whole() == Step(old(Whole()), QueueFlush)
      ensures chain == old(chain) + [WriteAhead.Flush(false)]
    {
      StepKeepsInvariant(Whole(), QueueFlush);
      hide Invariant;
      EnqueueTask(WriteAhead.Flush(false));
    }

    method Compact()
      requires Valid()
      modifies this`chain
      ensures Valid() && Whole() == Step(old(Whole()), QueueCompaction)
      ensures chain == old(chain) + [Compaction]
    {
      StepKeepsInvariant(Whole(), QueueCompaction);
      hide Invariant;
      EnqueueTask(Compaction);
    }

    /** Starts the next task, up to where it first waits. */
    method RunNext()
      requires Valid() && running == Idle && chain != []
      modifies this`chain, this`pending, this`running, this`active
      ensures Valid() && Whole() == Step(old(Whole()), Start)
      ensures chain == old(chain)[1..]
      ensures match old(chain)[0]
        case Flush(thenDeactivate) => HasCut(old(View()), View(), doc, thenDeactivate)
        case CatchUp => running == Reading && pending == old(pending) && active == old(active)
        case Compaction => running == Compacting(false) && pending == old(pending) && active == old(active)
    {
      StepKeepsInvariant(Whole(), Start);
      hide Invariant, StartFlush;
      var task := chain[0];
      chain := chain[1..];
      match task {
        case Flush(thenDeactivate) => FlushNow(thenDeactivate);
        case CatchUp => running := Reading;
        case Compaction => running := Compacting(false);
      }
    }

    /** Cuts a batch off the queue; when it takes the whole queue, the document is what its commit makes durable. */
    method FlushNow(thenDeactivate: bool)
      requires running == Idle
      modifies this`pending, this`running, this`active
      ensures View() == StartFlush(old(View()), doc, thenDeactivate)
      ensures HasCut(old(View()), View(), doc, thenDeactivate)
    {
      if disposed || pending == [] {
        Finish(thenDeactivate);
        return;
      }
      var size := if |pending| < MAX_BATCH then |pending| else MAX_BATCH;
      var batch := pending[..size];
      pending := pending[size..];
      var durable := if pending == [] then Some(doc) else None;
      running := Writing(batch, durable, thenDeactivate);
    }

    /** The task is over, and with it the deactivation that waited for it. */
    method Finish(thenDeactivate: bool)
      modifies this`pending, this`running, this`active
      ensures View() == EndTask(old(View()), thenDeactivate)
      ensures HasEnded(old(View()), View(), thenDeactivate)
    {
      running := Idle;
      if thenDeactivate {
        active := false;
        pending := [];
      }
    }

    /** The append committed. What it lets the room acknowledge is stored. */
    method AppendCommitted() returns (acknowledge: Option<set<Change>>)
      requires Valid() && running.Writing? && !purged
      modifies this`pending, this`running, this`active, this`updatesSinceSnapshot
      modifies this`stored, this`committed, this`taken, this`acks
      ensures Valid() && Whole() == Step(old(Whole()), AppendCommits)
      ensures acknowledge == old(running.marker) && (acknowledge.Some? ==> acknowledge.value <= stored)
      ensures stored == old(stored) + Carried(old(running.batch)) && committed == old(committed) + old(running.batch)
      ensures acks == old(acks) + if acknowledge.Some? then [acknowledge.value] else []
      ensures updatesSinceSnapshot == old(updatesSinceSnapshot) + |old(running.batch)|
      ensures running == if updatesSinceSnapshot >= snapshotEvery then Compacting(old(running.thenDeactivate)) else Idle
      ensures running == Idle ==> HasEnded(old(View()), View(), old(running.thenDeactivate))
      ensures running != Idle ==> pending == old(pending) && active == old(active)
    {
      StepKeepsInvariant(Whole(), AppendCommits);
      acknowledge := running.marker;
      if acknowledge.Some? { MarkerIsCovered(Whole()); }
      hide Invariant, Carried, Committed;
      CountCommit(acknowledge);
      CountBatch();
    }

    /** The batch counts towards the next snapshot, which is made at once when it is due. */
    method CountBatch()
      requires running.Writing?
      modifies this`pending, this`running, this`active, this`updatesSinceSnapshot
      ensures View() == Committed(old(View()))
      ensures updatesSinceSnapshot == old(updatesSinceSnapshot) + |old(running.batch)|
      ensures running == if updatesSinceSnapshot >= snapshotEvery then Compacting(old(running.thenDeactivate)) else Idle
      ensures running == Idle ==> HasEnded(old(View()), View(), old(running.thenDeactivate))
      ensures running != Idle ==> pending == old(pending) && active == old(active)
    {
      var thenDeactivate := running.thenDeactivate;
      updatesSinceSnapshot := updatesSinceSnapshot + |running.batch|;
      if updatesSinceSnapshot >= snapshotEvery {
        running := Compacting(thenDeactivate);
      } else {
        Finish(thenDeactivate);
      }
    }

    /** For the record: the batch in flight is stored, and what it completes acknowledged. */
    ghost method CountCommit(acknowledge: Option<set<Change>>)
      requires running.Writing?
      modifies this`stored, this`committed, this`taken, this`acks
      ensures stored == old(stored) + Carried(running.batch) && acks == old(acks) + if acknowledge.Some? then [acknowledge.value] else []
      ensures committed == old(committed) + running.batch && taken == old(taken) + running.batch
    {
      stored := stored + Carried(running.batch);
      committed, taken := committed + running.batch, taken + running.batch;
      if acknowledge.Some? { acks := acks + [acknowledge.value]; }
    }

    /** The append failed: the batch is first in line again. */
    method AppendFailed(ghost tookEffect: bool)
      requires Valid() && running.Writing?
      modifies this`pending, this`running, this`active, this`stored, this`taken
      ensures Valid() && Whole() == Step(old(Whole()), AppendFails(tookEffect))
      ensures running == Idle && (!old(running.thenDeactivate) ==> pending == old(running.batch) + old(pending) && active == old(active))
      ensures old(running.thenDeactivate) ==> pending == [] && !active
      ensures stored == old(stored) + if tookEffect && !purged then Carried(old(running.batch)) else {}
    {
      StepKeepsInvariant(Whole(), AppendFails(tookEffect));
      hide Invariant, Carried, Failed;
      if tookEffect && !purged {
        stored, taken := stored + Carried(running.batch), taken + running.batch;
      }
      Requeue();
    }

    method Requeue()
      requires running.Writing?
      modifies this`pending, this`running, this`active
      ensures View() == Failed(old(View()))
      ensures running == Idle && (!old(running.thenDeactivate) ==> pending == old(running.batch) + old(pending) && active == old(active))
      ensures old(running.thenDeactivate) ==> pending == [] && !active
    {
      pending := running.batch + pending;
      Finish(running.thenDeactivate);
    }

    /** There is no such board any more, so what waits for it is given up. */
    method BoardMissing()
      requires Valid() && running.Writing? && purged
      modifies this`pending, this`running, this`active
      ensures Valid() && Whole() == Step(old(Whole()), AppendFindsNoBoard)
      ensures running == Idle && pending == [] && active == (old(active) && !old(running.thenDeactivate))
    {
      StepKeepsInvariant(Whole(), AppendFindsNoBoard);
      hide Invariant;
      pending := [];
      Finish(running.thenDeactivate);
    }

    /** The stored board has been read for the catch-up. */
    method BoardLoaded(loaded: set<Change>, storedSinceSnapshot: nat)
      requires Valid() && running == Reading && loaded == if purged then {} else stored
      modifies this`running
      ensures Valid() && Whole() == Step(old(Whole()), BoardRead(storedSinceSnapshot))
      ensures running == Comparing(loaded, storedSinceSnapshot)
    {
      StepKeepsInvariant(Whole(), BoardRead(storedSinceSnapshot));
      hide Invariant;
      running := Comparing(loaded, storedSinceSnapshot);
    }

    /** Queues what the board lacks of the document; with nothing lacking or queued the document is acknowledged. */
    method Compare() returns (acknowledge: Option<set<Change>>)
      requires Valid() && running.Comparing?
      modifies this`pending, this`running, this`updatesSinceSnapshot, this`accepted, this`acks
      ensures Valid() && Whole() == Step(old(Whole()), Compared)
      ensures acknowledge.Some? <==> doc <= old(running.loaded) && old(pending) == []
      ensures acknowledge.Some? ==> acknowledge.value == doc <= stored
      ensures running == Idle && updatesSinceSnapshot == old(running.storedSinceSnapshot)
      ensures doc <= old(running.loaded) ==> pending == old(pending)
      ensures !(doc <= old(running.loaded)) ==> pending == [doc - old(running.loaded)] + old(pending)
    {
      StepKeepsInvariant(Whole(), Compared);
      MissingMeans(doc, running.loaded);
      if doc <= running.loaded { ComparedIsStored(Whole()); }
      hide Invariant, Missing, FinishCatchUp;
      var missing := Missing(doc, running.loaded);
      acknowledge := if missing == [] && pending == [] then Some(doc) else None;
      accepted := missing + accepted;
      if acknowledge.Some? { acks := acks + [doc]; }
      QueueFirst(missing, running.storedSinceSnapshot);
    }

    /** Updates found missing go before all others. */
    method QueueFirst(missing: seq<Update>, storedSinceSnapshot: nat)
      modifies this`pending, this`running, this`updatesSinceSnapshot
      ensures View() == FinishCatchUp(old(View()), missing).(updatesSinceSnapshot := storedSinceSnapshot)
      ensures running == Idle && pending == missing + old(pending) && updatesSinceSnapshot == storedSinceSnapshot
    {
      updatesSinceSnapshot := storedSinceSnapshot;
      running := Idle;
      if missing == [] {
        assert missing + pending == pending;
        return;
      }
      pending := missing + pending;
    }

    /** The stored board could not be read: the whole document is queued. */
    method WriteFullState()
      requires Valid() && running == Reading
      modifies this`pending, this`running, this`accepted
      ensures Valid() && Whole() == Step(old(Whole()), BoardUnreadable)
      ensures running == Idle && pending == [doc] + old(pending)
    {
      StepKeepsInvariant(Whole(), BoardUnreadable);
      hide Invariant;
      pending, accepted := [doc] + pending, [doc] + accepted;
      running := Idle;
    }

    method CompactionEnded(done: bool)
      requires Valid() && running.Compacting?
      modifies this`pending, this`running, this`active, this`updatesSinceSnapshot
      ensures Valid() && Whole() == Step(old(Whole()), CompactionEnds(done))
      ensures HasEnded(old(View()), View(), old(running.thenDeactivate))
      ensures updatesSinceSnapshot == if done then 0 else old(updatesSinceSnapshot)
    {
      StepKeepsInvariant(Whole(), CompactionEnds(done));
      hide Invariant;
      if done { updatesSinceSnapshot := 0; }
      Finish(running.thenDeactivate);
    }

    /** From now on this instance writes, the catch-up first; for the record, what it accepts counts from here. */
    method TakeOver()
      modifies this`active, this`chain, this`accepted, this`committed, this`taken
      ensures View() == BecomeWriter(old(View())) && accepted == committed == taken == []
      ensures active && chain == old(chain) + [CatchUp]
    {
      active := true;
      accepted, committed, taken := [], [], [];
      EnqueueTask(CatchUp);
    }

    method Activate()
      requires Valid() && Allowed(Whole(), WriteAhead.Activate)
      modifies this`active, this`closed, this`chain, this`accepted, this`committed, this`taken
      ensures Valid() && Whole() == Step(old(Whole()), WriteAhead.Activate)
      ensures active && (old(active) ==> chain == old(chain) && closed == old(closed))
      ensures !old(active) ==> chain == old(chain) + [CatchUp] && !closed
    {
      StepKeepsInvariant(Whole(), WriteAhead.Activate);
      hide Invariant;
      if active { return; }
      closed := false;
      TakeOver();
    }

    method Deactivate()
      requires Valid()
      modifies this`chain
      ensures Valid() && Whole() == Step(old(Whole()), WriteAhead.Deactivate)
      ensures chain == old(chain) + if active then [WriteAhead.Flush(true)] else []
    {
      StepKeepsInvariant(Whole(), WriteAhead.Deactivate);
      hide Invariant;
      if !active { return; }
      EnqueueTask(WriteAhead.Flush(true));
    }

    /** A non-writer takes over before it leaves, so that no edit goes unsaved with the room. */
    method BeginClose()
      requires Valid() && Allowed(Whole(), WriteAhead.Close)
      modifies this`active, this`closed, this`chain, this`accepted, this`committed, this`taken
      ensures Valid() && Whole() == Step(old(Whole()), WriteAhead.Close)
      ensures active && closed
      ensures chain == old(chain) + (if old(active) then [] else [CatchUp]) + [WriteAhead.Flush(false)]
    {
      StepKeepsInvariant(Whole(), WriteAhead.Close);
      hide Invariant, BecomeWriter;
      if !active { TakeOver(); }
      closed := true;
      EnqueueTask(WriteAhead.Flush(false));
    }

    /** Fewer updates follow the latest snapshot of a private room, which a client made outside this queue. */
    method SnapshotInstalled(archived: nat)
      requires Valid()
      modifies this`updatesSinceSnapshot
      ensures Valid() && Whole() == Step(old(Whole()), WriteAhead.SnapshotInstalled(archived))
      ensures updatesSinceSnapshot == if old(updatesSinceSnapshot) > archived then old(updatesSinceSnapshot) - archived else 0
    {
      StepKeepsInvariant(Whole(), WriteAhead.SnapshotInstalled(archived));
      hide Invariant;
      updatesSinceSnapshot := if updatesSinceSnapshot > archived then updatesSinceSnapshot - archived else 0;
    }

    method Reopen(isActive: bool)
      requires Valid() && Allowed(Whole(), WriteAhead.Reopen(isActive))
      modifies this`active, this`closed, this`pending
      ensures Valid() && Whole() == Step(old(Whole()), WriteAhead.Reopen(isActive))
      ensures !closed && active == isActive && pending == if isActive then old(pending) else []
    {
      StepKeepsInvariant(Whole(), WriteAhead.Reopen(isActive));
      hide Invariant;
      closed, active := false, isActive;
      if !isActive { pending := []; }
    }

    method Dispose()
      requires Valid()
      modifies this`active, this`closed, this`disposed
      ensures Valid() && Whole() == Step(old(Whole()), WriteAhead.Dispose)
      ensures disposed && closed && !active
    {
      StepKeepsInvariant(Whole(), WriteAhead.Dispose);
      hide Invariant;
      disposed, closed, active := true, true, false;
    }

    // ----- a whole close -----

    /** One flush to its end, with the compaction it may bring. */
    method FlushToEnd(result: AppendResult)
      requires Valid() && IsClosing(Whole(), [WriteAhead.Flush(false)]) && CanEnd(result, purged)
      modifies this
      ensures Valid() && IsClosing(Whole(), []) && doc == old(doc) && purged == old(purged)
      ensures result.Wrote? ==> |pending| == if |old(pending)| > 500 then |old(pending)| - 500 else 0
    {
      FlushStarts(Whole());
      assert chain[0] == WriteAhead.Flush(false) && !disposed;
      hide Step, Invariant, IsClosing;
      RunNext();
      if running == Idle { return; }
      FlushEnds(Whole());
      match result {
        case Wrote => var acknowledge := AppendCommitted();
        case Threw(tookEffect) => AppendFailed(tookEffect);
        case NoBoard => BoardMissing();
      }
      if running == Idle { return; }
      CompactionLeaves(Whole(), true);
      CompactionEnded(true);
    }

    /** The catch-up of a room that was not the writer; `board` is nothing if it cannot be read. */
    method CatchUpToEnd(board: Option<(set<Change>, nat)>)
      requires Valid() && IsClosing(Whole(), [CatchUp, WriteAhead.Flush(false)])
      requires board.Some? ==> board.value.0 == if purged then {} else stored
      modifies this
      ensures Valid() && IsClosing(Whole(), [WriteAhead.Flush(false)]) && doc == old(doc) && purged == old(purged)
      ensures |pending| <= |old(pending)| + 1
    {
      CatchUpStarts(Whole());
      assert chain[0] == CatchUp;
      hide Step, Invariant, IsClosing;
      RunNext();
      CatchUpEnds(Whole());
      match board {
        case Some(b) =>
          CatchUpReads(Whole(), b.1);
          BoardLoaded(b.0, b.1);
          CatchUpEnds(Whole());
          var acknowledge := Compare();
        case None => WriteFullState();
      }
    }

    /** A last compaction, should updates follow the latest snapshot. */
    method CompactLast(compacted: bool)
      requires Valid() && IsClosing(Whole(), [])
      modifies this
      ensures Valid() && IsClosing(Whole(), []) && doc == old(doc) && pending == old(pending) && stored == old(stored)
      ensures purged == old(purged) && (compacted ==> updatesSinceSnapshot == 0)
    {
      if updatesSinceSnapshot == 0 { return; }
      CompactionRuns(Whole(), compacted);
      hide Step, Invariant, IsClosing;
      Compact();
      RunNext();
      CompactionEnded(compacted);
    }

    /**
     * Closes a room with no other task: catch up if need be, flush, flush again until nothing is queued or the time for
     * `retries` more attempts is over, and compact. If nothing is left queued, the whole document is stored, unless the
     * board was purged.
     */
    method Close(board: Option<(set<Change>, nat)>, results: nat -> AppendResult, retries: nat, compacted: bool)
      returns (saved: bool)
      requires Valid() && !disposed && running == Idle && chain == []
      requires board.Some? ==> board.value.0 == if purged then {} else stored
      requires forall k :: CanEnd(results(k), purged)
      modifies this
      ensures Valid() && IsClosing(Whole(), []) && doc == old(doc)
      ensures saved == (pending == []) && (saved && !purged ==> doc <= stored)
      ensures compacted ==> updatesSinceSnapshot == 0
      ensures (forall k :: results(k).Wrote?) && |old(pending)| < 500 * (retries + 1) ==> saved
    {
      CloseBegins(Whole());
      hide Step, Invariant, IsClosing;
      BeginClose();
      if chain[0] == CatchUp { CatchUpToEnd(board); }
      FlushToEnd(results(0));
      var k := 0;
      while pending != [] && k < retries
        decreases retries - k
        invariant Valid() && IsClosing(Whole(), []) && doc == old(doc) && purged == old(purged)
        invariant (forall j :: results(j).Wrote?) ==> pending == [] || |pending| + 500 * (k + 1) <= |old(pending)| + 1
      {
        k := k + 1;
        FlushIsQueued(Whole());
        Flush();
        FlushToEnd(results(k));
      }
      CompactLast(compacted);
      saved := pending == [];
      assert saved && !purged ==> doc <= stored by {
        if saved && !purged { ClosedIsStored(Whole()); }
      }
    }
  }

  lemma MissingMeans(doc: set<Change>, loaded: set<Change>)
    ensures Missing(doc, loaded) == [] <==> doc <= loaded
  {
    assert forall c | c in doc && c !in loaded :: c in doc - loaded;
  }
}
