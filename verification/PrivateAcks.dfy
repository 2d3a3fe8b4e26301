/** What the counters that a private room announces as persisted tell the connections about their updates. */
module PrivateAcks {
  import opened Options
  import opened Sequences
  import opened Storage
  import opened CipherLogs
  import W = WriteAhead

  // ----- the counters of a log -----

  /** Something that reaches a log: relayed by a connection with its counter, or a stored row without one. */
  datatype Arrival = Arrival(blob: Blob, ack: Option<Ack>, seqNo: Option<nat>)

  function Receive(l: Log, arrivals: seq<Arrival>): Log
  {
    if arrivals == [] then l
    else
      var last := arrivals[|arrivals| - 1];
      AddTo(Receive(l, arrivals[..|arrivals| - 1]), last.blob, last.ack, last.seqNo)
  }

  /** The counters under which a log took in updates; an envelope counts the first time it arrives. */
  function Named(l: Log, arrivals: seq<Arrival>): set<Ack>
  {
    if arrivals == [] then {}
    else
      var front, last := arrivals[..|arrivals| - 1], arrivals[|arrivals| - 1];
      Named(l, front) + if last.blob in Receive(l, front).known || last.ack == None then {} else {last.ack.value}
  }

  /** The highest counter of connection `p` among `m`, 0 without one. */
  ghost function High(m: set<Ack>, p: nat): (h: nat)
    ensures forall n: nat | Ack(p, n) in m :: n <= h
    ensures h == 0 || Ack(p, h) in m
    decreases |m|
  {
    if m == {} then 0
    else
      var a :| a in m;
      var rest := High(m - {a}, p);
      assert forall n: nat | Ack(p, n) in m :: Ack(p, n) == a || Ack(p, n) in m - {a};
      if a.peer == p && a.n > rest then a.n else rest
  }

  lemma HighIsUnique(m: set<Ack>, p: nat, h: nat)
    requires forall n: nat | Ack(p, n) in m :: n <= h
    requires h == 0 || Ack(p, h) in m
    ensures High(m, p) == h
  {
    assert High(m, p) == 0 || Ack(p, High(m, p)) in m;
  }

  /** The counter a log keeps for a connection is the highest under which it took in an update. */
  lemma {:induction false} CounterIsHighest(l: Log, arrivals: seq<Arrival>, p: nat)
    requires l.acks == map[]
    ensures CounterOf(Receive(l, arrivals).acks, p) == High(Named(l, arrivals), p)
  {
    if arrivals != [] {
      var front, last := arrivals[..|arrivals| - 1], arrivals[|arrivals| - 1];
      CounterIsHighest(l, front, p);
      var before, named := Receive(l, front), Named(l, front);
      if last.blob !in before.known && last.ack.Some? {
        var a := last.ack.value;
        NamedRaises(named, a, p);
        hide High;
        assert Named(l, arrivals) == named + {a};
      } else {
        assert named + {} == named;
      }
    }
  }

  lemma NamedRaises(named: set<Ack>, a: Ack, p: nat)
    ensures High(named + {a}, p) == if a.peer == p && a.n > High(named, p) then a.n else High(named, p)
  {
    var h := High(named, p);
    HighIsUnique(named + {a}, p, if a.peer == p && a.n > h then a.n else h);
  }

  /** Some arrival brought what a counter names. */
  ghost predicate BroughtAt(arrivals: seq<Arrival>, i: nat, a: Ack)
  {
    i < |arrivals| && arrivals[i].ack == Some(a)
  }

  lemma {:induction false} NamedArrived(l: Log, arrivals: seq<Arrival>, a: Ack)
    ensures a in Named(l, arrivals) ==> exists i: nat :: BroughtAt(arrivals, i, a)
  {
    if arrivals != [] && a in Named(l, arrivals) {
      var n := |arrivals| - 1;
      if a in Named(l, arrivals[..n]) {
        NamedArrived(l, arrivals[..n], a);
        var i: nat :| BroughtAt(arrivals[..n], i, a);
        assert BroughtAt(arrivals, i, a);
      } else {
        assert BroughtAt(arrivals, n, a);
      }
    }
  }

  // ----- a log and the queue that writes it -----

  /** What is announced once a batch is stored; for the record, after how many arrivals it was taken. */
  datatype Marker = Marker(acks: map<nat, nat>, heard: nat)

  type PrivateQueue = W.QueueOf<Blob, Marker, seq<Row<Blob>>>

  /**
   * One instance's private room: the log as it was loaded and as it is, everything that arrived since, the queue, what
   * any instance ever stored, whether the board was purged, and the markers announced so far.
   */
  datatype State = State(loaded: Log, log: Log, arrivals: seq<Arrival>, q: PrivateQueue, stored: set<Blob>, purged: bool,
                         announced: seq<Marker>)

  datatype Event = Arrive(blob: Blob, ack: Option<Ack>)
                 | RelayRow(row: Row<Blob>)
                 | OthersStore(blobs: set<Blob>)
                 | Purge
                 | QueueFlush
                 | QueueCompaction
                 | Start
                 | AppendCommits(firstSeq: nat)
                 | AppendFails(tookEffect: bool)
                 | AppendFindsNoBoard
                 | BoardRead(rows: seq<Row<Blob>>, storedSinceSnapshot: nat)
                 | BoardUnreadable
                 | Compared
                 | CompactionEnds
                 | SnapshotInstalled(seqUpto: nat, contents: Contents, archived: nat)
                 | Activate
                 | Deactivate
                 | Close
                 | Reopen(active: bool)
                 | Dispose

  ghost function Elements(blobs: seq<Blob>): set<Blob>
  {
    set b | b in blobs
  }

  function Now(s: State): Marker { Marker(s.log.acks, |s.arrivals|) }

  /** The catch-up is over: what the log misses in storage is queued first; if nothing is left to write, that is announced. */
  function FinishCatchUp(s: State, log: Log, missing: seq<Blob>): State
  {
    s.(log := log, q := W.FinishCatchUp(s.q, missing),
       announced := if missing == [] && s.q.pending == [] then s.announced + [Now(s)] else s.announced)
  }

  ghost function Step(s: State, e: Event): State
  {
    var q := s.q;
    match e
    case Arrive(blob, ack) =>
      s.(arrivals := s.arrivals + [Arrival(blob, ack, None)], log := AddTo(s.log, blob, ack, None),
         q := if blob in s.log.known then q else W.Enqueue(q, blob))
    case RelayRow(row) =>
      s.(arrivals := s.arrivals + [Arrival(row.content.update, None, Some(row.seqNo))],
         log := AddTo(s.log, row.content.update, None, Some(row.seqNo)))
    case OthersStore(blobs) => if s.purged then s else s.(stored := s.stored + blobs)
    case Purge => s.(purged := true)
    case QueueFlush => s.(q := q.(chain := q.chain + [W.Flush(false)]))
    case QueueCompaction => s.(q := q.(chain := q.chain + [W.Compaction]))
    case Start => s.(q := W.StartTask(q, Now(s)))
    case AppendCommits(firstSeq) =>
      if !q.running.Writing? || s.purged then s
      else s.(q := W.Committed(q), log := CommitIn(s.log, q.running.batch, firstSeq),
              stored := s.stored + Elements(q.running.batch),
              announced := if q.running.marker.Some? then s.announced + [q.running.marker.value] else s.announced)
    case AppendFails(tookEffect) =>
      if !q.running.Writing? then s
      else s.(q := W.Failed(q), stored := if tookEffect && !s.purged then s.stored + Elements(q.running.batch) else s.stored)
    case AppendFindsNoBoard =>
      if !q.running.Writing? || !s.purged then s
      else s.(q := W.EndTask(q.(pending := []), q.running.thenDeactivate))
    case BoardRead(rows, n) => if !q.running.Reading? then s else s.(q := q.(running := W.Comparing(rows, n)))
    case BoardUnreadable => if !q.running.Reading? then s else FinishCatchUp(s, s.log, NotStored(s.log.entries))
    case Compared =>
      if !q.running.Comparing? then s
      else
        var log := CatchUpIn(s.log, q.running.loaded);
        var t := FinishCatchUp(s, log, NotStored(log.entries));
        t.(q := t.q.(updatesSinceSnapshot := q.running.storedSinceSnapshot))
    case CompactionEnds => if !q.running.Compacting? then s else s.(q := W.EndTask(q, q.running.thenDeactivate))
    case SnapshotInstalled(n, contents, archived) =>
      s.(log := InstallIn(s.log, n, contents),
         q := q.(updatesSinceSnapshot := if q.updatesSinceSnapshot > archived then q.updatesSinceSnapshot - archived else 0))
    case Activate => if q.active then s else s.(q := W.BecomeWriter(q).(closed := false))
    case Deactivate => if !q.active then s else s.(q := q.(chain := q.chain + [W.Flush(true)]))
    case Close =>
      var writing := if q.active then q else W.BecomeWriter(q);
      s.(q := writing.(closed := true, chain := writing.chain + [W.Flush(false)]))
    case Reopen(active) => s.(q := q.(closed := false, active := active, pending := if active then q.pending else []))
    case Dispose => s.(q := q.(disposed := true, closed := true, active := false))
  }

  /** The `n`-th update of each connection: what it sent under that counter, wherever it arrives. */
  type Senders = (nat, nat) -> Blob

  ghost predicate AreStored(s: State, rows: seq<Row<Blob>>)
  {
    forall r | r in rows :: !s.purged && r.content.update in s.stored
  }

  /** Counters are those of their connections, rows come from storage, and the lease is kept as for other rooms. */
  ghost predicate Allowed(sent: Senders, s: State, e: Event)
  {
    match e
    case Arrive(blob, ack) => ack.Some? ==> blob == sent(ack.value.peer, ack.value.n)
    case RelayRow(row) => AreStored(s, [row])
    case BoardRead(rows, _) => AreStored(s, rows)
    case Activate => s.q.active || (s.q.chain == [] && s.q.running.Idle?)
    case Close => s.q.active || (s.q.chain == [] && s.q.running.Idle?)
    case Reopen(_) => s.q.active && s.q.chain == [] && s.q.running.Idle?
    case _ => true
  }

  ghost function Run(s: State, events: seq<Event>): State
    decreases |events|
  {
    if events == [] then s else Run(Step(s, events[0]), events[1..])
  }

  ghost predicate AllowedRun(sent: Senders, s: State, events: seq<Event>)
    decreases |events|
  {
    events == [] || (Allowed(sent, s, events[0]) && AllowedRun(sent, Step(s, events[0]), events[1..]))
  }

  /** A room that just loaded: its log holds stored rows and nothing else. */
  ghost predicate Initial(s: State)
  {
    && s.log == s.loaded && s.loaded.acks == map[] && s.arrivals == [] && s.announced == [] && !s.purged
    && s.loaded.known == Blobs(s.loaded.entries) && s.loaded.known <= s.stored
    && s.q.pending == [] && s.q.chain == [] && s.q.running.Idle? && !s.q.closed && !s.q.disposed
  }

  /** Loading a board of stored rows makes such a log. */
  lemma LoadedLogIsInitial(l: Log, rows: seq<Row<Blob>>)
    requires l.acks == map[] && l.known == Blobs(l.entries)
    ensures var t := AddRows(l, rows);
      && t.acks == map[] && t.known == Blobs(t.entries)
      && forall b | b in t.known :: b in l.known || exists r :: r in rows && r.content.update == b
  {
    RowsAreKnown(l, rows);
    hide AddRows, Blobs;
  }

  // ----- the invariant -----

  /** What a log knows after the first `n` arrivals. */
  ghost function KnownAfter(s: State, n: nat): set<Blob>
  {
    s.loaded.known + set i: nat | i < n && i < |s.arrivals| :: s.arrivals[i].blob
  }

  /** The log holds what was loaded and what arrived, and its counters those of the arrivals. */
  ghost predicate LogIsHistory(s: State)
  {
    && s.loaded.acks == map[] && s.log.known == KnownAfter(s, |s.arrivals|)
    && s.log.known == Receive(s.loaded, s.arrivals).known && s.log.acks == Receive(s.loaded, s.arrivals).acks
  }

  ghost predicate Truthful(sent: Senders, s: State)
  {
    forall i: nat, a: Ack | BroughtAt(s.arrivals, i, a) :: s.arrivals[i].blob == sent(a.peer, a.n)
  }

  /** What is known is stored or an entry; entries with a seq are stored. */
  ghost predicate EntriesHold(s: State)
  {
    && s.log.known <= s.stored + Blobs(s.log.entries) && Blobs(s.log.entries) <= s.log.known
    && (forall e | e in s.log.entries && e.seqNo.Some? :: e.blob in s.stored)
    && (s.q.running.Comparing? ==> forall r | r in s.q.running.loaded :: r.content.update in s.stored)
  }

  /** A marker was taken after some arrivals, with their counters. */
  ghost predicate IsTaken(s: State, m: Marker)
  {
    m.heard <= |s.arrivals| && m.acks == Receive(s.loaded, s.arrivals[..m.heard]).acks
  }

  ghost predicate MarkersHold(s: State)
  {
    && (forall m | m in s.announced :: IsTaken(s, m) && KnownAfter(s, m.heard) <= s.stored)
    && (!s.purged && s.q.running.Writing? && s.q.running.marker.Some? ==>
          var m := s.q.running.marker.value;
          IsTaken(s, m) && KnownAfter(s, m.heard) <= s.stored + Elements(s.q.running.batch))
  }

  /** What a writer knows is stored, or about to be written, unless a catch-up is due. */
  ghost predicate Covers(s: State)
  {
    !s.purged && s.q.active && !s.q.disposed && !W.CatchingUp(s.q) ==> s.log.known <= s.stored + Elements(W.Unwritten(s.q))
  }

  /** Only what is known is written. */
  ghost predicate WritesKnown(s: State)
  {
    Elements(W.Unwritten(s.q)) <= s.log.known
  }

  ghost predicate Invariant(sent: Senders, s: State)
  {
    && LogIsHistory(s) && Truthful(sent, s) && EntriesHold(s) && MarkersHold(s) && Covers(s) && WritesKnown(s)
    && W.ChainInvariant(s.q)
  }

  // ----- every step keeps it -----

  /** The event brings something to the log. */
  ghost predicate Brings(e: Event)
  {
    e.Arrive? || e.RelayRow?
  }

  lemma ReceiveNext(l: Log, arrivals: seq<Arrival>, a: Arrival)
    ensures Receive(l, arrivals + [a]) == AddTo(Receive(l, arrivals), a.blob, a.ack, a.seqNo)
  {
    assert (arrivals + [a])[..|arrivals|] == arrivals;
  }

  lemma KnownNext(s: State, t: State, a: Arrival)
    requires t.loaded == s.loaded && t.arrivals == s.arrivals + [a]
    ensures KnownAfter(t, |t.arrivals|) == KnownAfter(s, |s.arrivals|) + {a.blob}
  {
    assert t.arrivals[|s.arrivals|] == a;
    assert forall i | 0 <= i < |s.arrivals| :: t.arrivals[i] == s.arrivals[i];
  }

  lemma ArrivalKeepsHistory(sent: Senders, s: State, t: State, a: Arrival)
    requires LogIsHistory(s) && Truthful(sent, s) && (a.ack.Some? ==> a.blob == sent(a.ack.value.peer, a.ack.value.n))
    requires t.loaded == s.loaded && t.arrivals == s.arrivals + [a] && t.log == AddTo(s.log, a.blob, a.ack, a.seqNo)
    ensures LogIsHistory(t) && Truthful(sent, t)
  {
    ReceiveNext(s.loaded, s.arrivals, a);
    KnownNext(s, t, a);
    hide Receive, KnownAfter;
    forall i: nat, b: Ack | BroughtAt(t.arrivals, i, b)
      ensures t.arrivals[i].blob == sent(b.peer, b.n)
    {
      assert i < |s.arrivals| ==> BroughtAt(s.arrivals, i, b);
    }
  }

  lemma QuietKeepsHistory(sent: Senders, s: State, e: Event)
    requires LogIsHistory(s) && Truthful(sent, s) && !Brings(e)
    ensures LogIsHistory(Step(s, e)) && Truthful(sent, Step(s, e))
    ensures Step(s, e).arrivals == s.arrivals && Step(s, e).loaded == s.loaded && Step(s, e).log.known == s.log.known
  {
    hide Receive, Elements, NotStored;
    assert KnownAfter(Step(s, e), |s.arrivals|) == KnownAfter(s, |s.arrivals|);
  }

  lemma StepKeepsHistory(sent: Senders, s: State, e: Event)
    requires LogIsHistory(s) && Truthful(sent, s) && Allowed(sent, s, e)
    ensures LogIsHistory(Step(s, e)) && Truthful(sent, Step(s, e))
    ensures Step(s, e).loaded == s.loaded && s.arrivals <= Step(s, e).arrivals
  {
    hide LogIsHistory, Truthful;
    match e
    case Arrive(blob, ack) => ArrivalKeepsHistory(sent, s, Step(s, e), Arrival(blob, ack, None));
    case RelayRow(row) => ArrivalKeepsHistory(sent, s, Step(s, e), Arrival(row.content.update, None, Some(row.seqNo)));
    case _ => QuietKeepsHistory(sent, s, e);
  }

  lemma StoredGrows(s: State, e: Event)
    ensures s.stored <= Step(s, e).stored && s.announced <= Step(s, e).announced
  {
    hide Elements, NotStored;
  }

  lemma RenumberKeepsBlobs(f: Entry -> Entry, entries: seq<Entry>)
    requires forall e: Entry :: f(e).blob == e.blob
    ensures Blobs(Map(f, entries)) == Blobs(entries)
  {
    forall b
      ensures b in Blobs(Map(f, entries)) <==> b in Blobs(entries)
    {
      if b in Blobs(entries) {
        var i :| 0 <= i < |entries| && entries[i].blob == b;
        assert Map(f, entries)[i] in Map(f, entries);
      }
      if b in Blobs(Map(f, entries)) {
        var i :| 0 <= i < |entries| && Map(f, entries)[i].blob == b;
        assert entries[i] in entries;
      }
    }
  }

  /** Each entry keeps its envelope, and gets a new seq only if that is stored. */
  ghost predicate NumbersStored(stored: set<Blob>, f: Entry -> Entry)
  {
    forall e: Entry :: f(e).blob == e.blob && (f(e) == e || e.blob in stored)
  }

  lemma RenumberKeepsEntries(s: State, t: State, f: Entry -> Entry)
    requires EntriesHold(s) && NumbersStored(t.stored, f) && s.stored <= t.stored && !t.q.running.Comparing?
    requires t.log.known == s.log.known && t.log.entries == Map(f, s.log.entries)
    ensures EntriesHold(t)
  {
    RenumberKeepsBlobs(f, s.log.entries);
    forall e | e in t.log.entries && e.seqNo.Some?
      ensures e.blob in t.stored
    {
      var i :| 0 <= i < |t.log.entries| && t.log.entries[i] == e;
      assert s.log.entries[i] in s.log.entries;
    }
  }

  lemma BatchNumbersStored(batch: seq<Blob>, firstSeq: nat, stored: set<Blob>)
    requires Elements(batch) <= stored
    ensures NumbersStored(stored, Numbering(batch, firstSeq))
  {
    forall e: Entry
      ensures var f := Numbering(batch, firstSeq); f(e).blob == e.blob && (f(e) == e || e.blob in stored)
    {
      SeqInBatchIsLast(batch, firstSeq, e.blob);
      assert forall i | 0 <= i < |batch| :: batch[i] in Elements(batch);
    }
  }

  lemma RowsNumberStored(rows: seq<Row<Blob>>, stored: set<Blob>)
    requires forall r | r in rows :: r.content.update in stored
    ensures NumbersStored(stored, Locating(rows))
  {
    forall e: Entry
      ensures var f := Locating(rows); f(e).blob == e.blob && (f(e) == e || e.blob in stored)
    {
      SeqInRowsIsTrue(rows, e.blob);
    }
  }

  lemma InstallKeepsEntries(s: State, n: nat, contents: Contents, archived: nat)
    requires EntriesHold(s)
    ensures EntriesHold(Step(s, SnapshotInstalled(n, contents, archived)))
  {
    var t := Step(s, SnapshotInstalled(n, contents, archived));
    forall e
      ensures e in t.log.entries <==> e in s.log.entries && After(n)(e)
    {
      FilterMember(After(n), s.log.entries, e);
    }
    hide Filter;
  }

  lemma ArrivalKeepsEntries(s: State, e: Event)
    requires EntriesHold(s) && Brings(e) && (e.RelayRow? ==> e.row.content.update in s.stored)
    ensures EntriesHold(Step(s, e))
  {
    var t := Step(s, e);
    var a := if e.Arrive? then Entry(e.blob, e.ack, None) else Entry(e.row.content.update, None, Some(e.row.seqNo));
    BlobsAppend(s.log.entries, a);
    hide Blobs;
  }

  /** The event renumbers entries. */
  ghost predicate Renumbers(s: State, e: Event)
  {
    (e.AppendCommits? && s.q.running.Writing?) || (e.Compared? && s.q.running.Comparing?)
  }

  lemma RenumberingKeepsEntries(s: State, e: Event)
    requires EntriesHold(s) && Renumbers(s, e)
    ensures EntriesHold(Step(s, e))
  {
    var t := Step(s, e);
    if e.AppendCommits? {
      if !s.purged {
        BatchNumbersStored(s.q.running.batch, e.firstSeq, t.stored);
        hide NumbersStored, EntriesHold, Elements;
        RenumberKeepsEntries(s, t, Numbering(s.q.running.batch, e.firstSeq));
      }
    } else {
      RowsNumberStored(s.q.running.loaded, s.stored);
      hide NumbersStored, EntriesHold, NotStored;
      RenumberKeepsEntries(s, t, Locating(s.q.running.loaded));
    }
  }

  lemma StepKeepsEntries(sent: Senders, s: State, e: Event)
    requires EntriesHold(s) && Allowed(sent, s, e)
    ensures EntriesHold(Step(s, e))
  {
    if Brings(e) {
      assert e.RelayRow? ==> e.row in [e.row];
      hide Step, EntriesHold;
      ArrivalKeepsEntries(s, e);
    } else if Renumbers(s, e) {
      hide *;
      RenumberingKeepsEntries(s, e);
    } else if e.SnapshotInstalled? {
      hide *;
      InstallKeepsEntries(s, e.seqUpto, e.contents, e.archived);
    } else {
      hide Blobs, Elements, NotStored, Filter;
    }
  }

  lemma StartKeepsChain(s: State)
    requires W.ChainInvariant(s.q)
    ensures W.ChainInvariant(Step(s, Start).q)
  {
    var q, t := s.q, Step(s, Start);
    if q.running.Idle? && q.chain != [] {
      assert forall i | 0 <= i < |t.q.chain| :: t.q.chain[i] == q.chain[i + 1];
    }
  }

  ghost predicate EndsWriting(e: Event)
  {
    e.AppendCommits? || e.AppendFails? || e.AppendFindsNoBoard?
  }

  ghost predicate CatchesUp(e: Event)
  {
    e.BoardRead? || e.BoardUnreadable? || e.Compared?
  }

  lemma TaskKeepsChain(s: State, e: Event)
    requires W.ChainInvariant(s.q) && (EndsWriting(e) || CatchesUp(e))
    ensures W.ChainInvariant(Step(s, e).q)
  {
    hide Elements, NotStored, CatchUpIn, CommitIn;
  }

  ghost predicate MovesLease(e: Event)
  {
    e.Activate? || e.Deactivate? || e.Close? || e.Reopen? || e.Dispose?
  }

  lemma LeaseKeepsChain(sent: Senders, s: State, e: Event)
    requires W.ChainInvariant(s.q) && Allowed(sent, s, e) && MovesLease(e)
    ensures W.ChainInvariant(Step(s, e).q)
  {
    hide Elements, NotStored, CatchUpIn, CommitIn, InstallIn, AddTo, AreStored;
  }

  lemma OtherKeepsChain(s: State, e: Event)
    requires W.ChainInvariant(s.q) && !e.Start? && !EndsWriting(e) && !CatchesUp(e) && !MovesLease(e)
    ensures W.ChainInvariant(Step(s, e).q)
  {
    hide Elements, NotStored, CatchUpIn, CommitIn, InstallIn, AddTo;
  }

  lemma StepKeepsChain(sent: Senders, s: State, e: Event)
    requires W.ChainInvariant(s.q) && Allowed(sent, s, e)
    ensures W.ChainInvariant(Step(s, e).q)
  {
    hide *;
    if e.Start? {
      StartKeepsChain(s);
    } else if EndsWriting(e) || CatchesUp(e) {
      TaskKeepsChain(s, e);
    } else if MovesLease(e) {
      LeaseKeepsChain(sent, s, e);
    } else {
      OtherKeepsChain(s, e);
    }
  }

  lemma ElementsAppend(a: seq<Blob>, b: seq<Blob>)
    ensures Elements(a + b) == Elements(a) + Elements(b)
  {
  }

  lemma NotStoredMember(entries: seq<Entry>, b: Blob)
    ensures b in NotStored(entries) <==> exists e :: e in entries && e.seqNo == None && e.blob == b
  {
    var left := Filter(Unstored(), entries);
    if e :| e in entries && e.seqNo == None && e.blob == b {
      FilterMember(Unstored(), entries, e);
      var i :| 0 <= i < |left| && left[i] == e;
      assert NotStored(entries)[i] == b;
    }
    if b in NotStored(entries) {
      var i :| 0 <= i < |left| && NotStored(entries)[i] == b;
      FilterMember(Unstored(), entries, left[i]);
    }
  }

  /** What storage is not known to have is all that is missing from it. */
  lemma MissingIsAll(s: State)
    requires EntriesHold(s)
    ensures s.log.known <= s.stored + Elements(NotStored(s.log.entries))
  {
    hide NotStored;
    forall b | b in s.log.known && b !in s.stored
      ensures b in NotStored(s.log.entries)
    {
      assert b in Blobs(s.log.entries);
      var e :| e in s.log.entries && e.blob == b;
      NotStoredMember(s.log.entries, b);
    }
  }

  /** A catch-up ends: what is known is stored or in the queue. */
  lemma CatchUpCovers(s: State, e: Event)
    requires EntriesHold(s) && EntriesHold(Step(s, e))
    requires (e.Compared? && s.q.running.Comparing?) || (e.BoardUnreadable? && s.q.running.Reading?)
    ensures var t := Step(s, e);
      && t.log.known <= t.stored + Elements(t.q.pending) && W.Unwritten(t.q) == t.q.pending
      && t.log.known == s.log.known && t.arrivals == s.arrivals && t.stored == s.stored
      && (t.announced == s.announced || (t.announced == s.announced + [Now(t)] && t.q.pending == []))
  {
    var t := Step(s, e);
    MissingIsAll(t);
    hide EntriesHold, NotStored;
    ElementsAppend(NotStored(t.log.entries), s.q.pending);
  }

  /** Every envelope of the log has a seq or is among the rows. */
  ghost predicate AllFound(entries: seq<Entry>, rows: seq<Row<Blob>>)
  {
    forall e | e in entries :: e.seqNo.Some? || exists r | r in rows :: r.content.update == e.blob
  }

  lemma NothingMissing(entries: seq<Entry>, rows: seq<Row<Blob>>)
    ensures NotStored(Located(rows, entries)) == [] <==> AllFound(entries, rows)
  {
    var located := Located(rows, entries);
    LocatedAre(rows, entries);
    var at := UnstoredInOrder(located);
    assert at != [] ==> at[0] in at;
    hide Located, NotStored;
    if AllFound(entries, rows) {
      forall k: nat | k < |located|
        ensures located[k].seqNo != None
      {
        assert IsLocated(rows, entries[k], located[k]) && entries[k] in entries;
      }
    }
    if NotStored(located) == [] {
      forall e | e in entries
        ensures e.seqNo.Some? || exists r | r in rows :: r.content.update == e.blob
      {
        var k :| 0 <= k < |entries| && entries[k] == e;
        assert IsLocated(rows, entries[k], located[k]) && k !in at;
      }
    }
  }

  /** With nothing missing and nothing queued a catch-up announces all the log knows; otherwise it announces nothing. */
  lemma CatchUpAnnounces(s: State)
    requires s.q.running.Comparing?
    ensures Step(s, Compared).announced == s.announced +
      if s.q.pending == [] && AllFound(s.log.entries, s.q.running.loaded) then [Marker(s.log.acks, |s.arrivals|)] else []
  {
    NothingMissing(s.log.entries, s.q.running.loaded);
    hide Located, NotStored, AllFound;
  }

  lemma NowIsTaken(s: State)
    requires LogIsHistory(s)
    ensures IsTaken(s, Now(s)) && KnownAfter(s, Now(s).heard) == s.log.known
  {
    assert s.arrivals[..|s.arrivals|] == s.arrivals;
  }

  /** Later arrivals change nothing about a marker. */
  lemma MarkerStays(s: State, t: State, m: Marker)
    requires IsTaken(s, m) && t.loaded == s.loaded && s.arrivals <= t.arrivals
    ensures IsTaken(t, m) && KnownAfter(t, m.heard) == KnownAfter(s, m.heard)
  {
    hide Receive;
    assert t.arrivals[..m.heard] == s.arrivals[..m.heard];
    assert forall i | 0 <= i < m.heard :: t.arrivals[i] == s.arrivals[i];
  }

  lemma AnnouncedStay(s: State, e: Event, m: Marker)
    requires MarkersHold(s) && m in s.announced && Step(s, e).loaded == s.loaded && s.arrivals <= Step(s, e).arrivals
    ensures IsTaken(Step(s, e), m) && KnownAfter(Step(s, e), m.heard) <= Step(s, e).stored
  {
    StoredGrows(s, e);
    hide Step, KnownAfter;
    MarkerStays(s, Step(s, e), m);
  }

  /** A cut that takes a marker has everything known in storage or in its batch. */
  lemma CutCovers(s: State)
    requires Covers(s) && W.ChainInvariant(s.q) && !s.purged && s.q.running.Idle?
    ensures var t := Step(s, Start);
      t.q.running.Writing? && t.q.running.marker.Some? ==>
        t.q.running.marker.value == Now(s) && s.log.known <= s.stored + Elements(t.q.running.batch)
  {
    var q := s.q;
    if q.chain != [] {
      assert q.pending[..W.CutSize(q)] + q.pending[W.CutSize(q)..] == q.pending;
    }
  }

  /** The marker in flight after an event, unless it was there before. */
  lemma OnlyCutsTake(s: State, e: Event)
    requires !(e.Start? && s.q.running.Idle?)
    ensures Step(s, e).q.running.Writing? ==> s.q.running.Writing? && Step(s, e).q.running == s.q.running
  {
    hide Elements, NotStored;
  }

  lemma FlightHolds(sent: Senders, s: State, e: Event)
    requires Invariant(sent, s) && Allowed(sent, s, e) && LogIsHistory(Step(s, e))
    requires Step(s, e).loaded == s.loaded && s.arrivals <= Step(s, e).arrivals
    ensures var t := Step(s, e); !t.purged && t.q.running.Writing? && t.q.running.marker.Some? ==>
      var m := t.q.running.marker.value;
      IsTaken(t, m) && KnownAfter(t, m.heard) <= t.stored + Elements(t.q.running.batch)
  {
    var t := Step(s, e);
    if !t.purged && t.q.running.Writing? && t.q.running.marker.Some? {
      StoredGrows(s, e);
      PurgeStays(s, e);
      if e.Start? && s.q.running.Idle? {
        CutCovers(s);
        StartLeavesLog(s);
        NowIsTaken(s);
        hide Step, LogIsHistory, Covers, IsTaken, KnownAfter;
        MarkerStays(s, t, Now(s));
      } else {
        OnlyCutsTake(s, e);
        hide Step, LogIsHistory, Covers, IsTaken, KnownAfter;
        MarkerStays(s, t, t.q.running.marker.value);
      }
    }
  }

  lemma PurgeStays(s: State, e: Event)
    ensures s.purged ==> Step(s, e).purged
  {
    hide Elements, NotStored;
  }

  lemma StartLeavesLog(s: State)
    ensures var t := Step(s, Start); t.log == s.log && t.stored == s.stored && t.arrivals == s.arrivals && t.loaded == s.loaded
  {
  }

  /** What an event announces is known to be stored. */
  lemma AnnouncedHold(sent: Senders, s: State, e: Event, m: Marker)
    requires Invariant(sent, s) && LogIsHistory(Step(s, e)) && EntriesHold(Step(s, e))
    requires m in Step(s, e).announced && m !in s.announced
    requires Step(s, e).loaded == s.loaded && s.arrivals <= Step(s, e).arrivals
    ensures IsTaken(Step(s, e), m) && KnownAfter(Step(s, e), m.heard) <= Step(s, e).stored
  {
    var t := Step(s, e);
    Announcers(s, e, m);
    if e.AppendCommits? {
      CommitStores(s, e.firstSeq);
      hide Step, LogIsHistory, EntriesHold, IsTaken, KnownAfter, Covers;
      MarkerStays(s, t, m);
    } else {
      CatchUpCovers(s, e);
      NowIsTaken(t);
      hide Step, LogIsHistory, EntriesHold, IsTaken, KnownAfter, Covers;
      assert Elements([]) == {};
    }
  }

  lemma Announcers(s: State, e: Event, m: Marker)
    requires m in Step(s, e).announced && m !in s.announced
    ensures (e.AppendCommits? && s.q.running.Writing? && s.q.running.marker == Some(m) && !s.purged)
         || (((e.Compared? && s.q.running.Comparing?) || (e.BoardUnreadable? && s.q.running.Reading?)) && m == Now(Step(s, e)))
  {
    hide Elements, NotStored;
  }

  lemma CommitStores(s: State, firstSeq: nat)
    requires s.q.running.Writing? && !s.purged
    ensures var t := Step(s, AppendCommits(firstSeq));
      t.stored == s.stored + Elements(s.q.running.batch) && t.arrivals == s.arrivals && t.loaded == s.loaded && t.log.known == s.log.known
  {
  }

  lemma StepKeepsMarkers(sent: Senders, s: State, e: Event)
    requires Invariant(sent, s) && Allowed(sent, s, e) && LogIsHistory(Step(s, e)) && EntriesHold(Step(s, e))
    requires Step(s, e).loaded == s.loaded && s.arrivals <= Step(s, e).arrivals
    ensures MarkersHold(Step(s, e))
  {
    FlightHolds(sent, s, e);
    hide Step, Invariant, LogIsHistory, EntriesHold, IsTaken, KnownAfter, Allowed;
    forall m | m in Step(s, e).announced
      ensures IsTaken(Step(s, e), m) && KnownAfter(Step(s, e), m.heard) <= Step(s, e).stored
    {
      if m in s.announced {
        assert MarkersHold(s) by { MarkersOf(sent, s); }
        AnnouncedStay(s, e, m);
      } else {
        AnnouncedHold(sent, s, e, m);
      }
    }
  }

  lemma MarkersOf(sent: Senders, s: State)
    requires Invariant(sent, s)
    ensures MarkersHold(s)
  {
  }

  // ----- the cover -----

  lemma StartKeepsCover(s: State)
    requires Covers(s) && W.ChainInvariant(s.q)
    ensures Covers(Step(s, Start))
  {
    var q := s.q;
    if q.running.Idle? && q.chain != [] {
      assert q.pending[..W.CutSize(q)] + q.pending[W.CutSize(q)..] == q.pending;
    }
  }

  lemma WritingKeepsCover(s: State, e: Event)
    requires Covers(s) && W.ChainInvariant(s.q) && EndsWriting(e)
    ensures Covers(Step(s, e))
  {
    if s.q.running.Writing? {
      ElementsAppend(s.q.running.batch, s.q.pending);
    }
    hide Elements;
  }

  lemma ArrivalKeepsCover(s: State, e: Event)
    requires Covers(s) && Brings(e) && (e.RelayRow? ==> e.row.content.update in s.stored)
    ensures Covers(Step(s, e))
  {
    var b := if e.Arrive? then e.blob else e.row.content.update;
    ElementsAppend(W.Unwritten(s.q), [b]);
    assert Elements([b]) == {b};
    assert W.Unwritten(s.q.(pending := s.q.pending + [b])) == W.Unwritten(s.q) + [b];
    hide Elements;
  }

  lemma CatchUpKeepsCover(s: State, e: Event)
    requires Covers(s) && W.ChainInvariant(s.q) && CatchesUp(e) && EntriesHold(s) && EntriesHold(Step(s, e))
    ensures Covers(Step(s, e))
  {
    if (e.Compared? && s.q.running.Comparing?) || (e.BoardUnreadable? && s.q.running.Reading?) {
      CatchUpCovers(s, e);
      hide Step, EntriesHold, Elements;
    } else {
      hide EntriesHold, Elements, NotStored;
    }
  }

  lemma OtherKeepsCover(sent: Senders, s: State, e: Event)
    requires Covers(s) && W.ChainInvariant(s.q) && Allowed(sent, s, e)
    requires !e.Start? && !EndsWriting(e) && !CatchesUp(e) && !Brings(e)
    ensures Covers(Step(s, e))
  {
    hide Elements, InstallIn, AreStored;
    if e.SnapshotInstalled? { InstallKeepsKnown(s, e); }
  }

  lemma InstallKeepsKnown(s: State, e: Event)
    requires e.SnapshotInstalled?
    ensures InstallIn(s.log, e.seqUpto, e.contents).known == s.log.known
  {
  }

  lemma StepKeepsCover(sent: Senders, s: State, e: Event)
    requires Invariant(sent, s) && Allowed(sent, s, e) && EntriesHold(Step(s, e))
    ensures Covers(Step(s, e))
  {
    if Brings(e) {
      assert e.RelayRow? ==> e.row in [e.row];
      hide Step, EntriesHold, Covers;
      ArrivalKeepsCover(s, e);
    } else {
      hide Step, EntriesHold, Covers, Allowed, Brings, EndsWriting, CatchesUp;
      if e.Start? {
        StartKeepsCover(s);
      } else if EndsWriting(e) {
        WritingKeepsCover(s, e);
      } else if CatchesUp(e) {
        CatchUpKeepsCover(s, e);
      } else {
        OtherKeepsCover(sent, s, e);
      }
    }
  }

  // ----- only what is known is written -----

  lemma MissingIsKnown(entries: seq<Entry>)
    ensures Elements(NotStored(entries)) <= Blobs(entries)
  {
    forall b | b in NotStored(entries)
      ensures b in Blobs(entries)
    {
      NotStoredMember(entries, b);
    }
  }

  lemma CatchUpWritesKnown(s: State, e: Event)
    requires WritesKnown(s) && W.ChainInvariant(s.q) && CatchesUp(e) && EntriesHold(Step(s, e))
    ensures WritesKnown(Step(s, e))
  {
    var t := Step(s, e);
    MissingIsKnown(t.log.entries);
    ElementsAppend(NotStored(t.log.entries), s.q.pending);
    hide Elements, Blobs, NotStored;
  }

  lemma StartWritesKnown(s: State)
    requires WritesKnown(s)
    ensures WritesKnown(Step(s, Start))
  {
    var q := s.q;
    assert q.pending[..W.CutSize(q)] + q.pending[W.CutSize(q)..] == q.pending;
  }

  lemma EndWritesKnown(s: State, e: Event)
    requires WritesKnown(s) && EndsWriting(e)
    ensures WritesKnown(Step(s, e))
  {
    if s.q.running.Writing? {
      ElementsAppend(s.q.running.batch, s.q.pending);
    }
    assert Elements([]) == {};
    hide Elements;
  }

  lemma ArrivalWritesKnown(s: State, e: Event)
    requires WritesKnown(s) && Brings(e)
    ensures WritesKnown(Step(s, e))
  {
    if e.Arrive? {
      ElementsAppend(W.Unwritten(s.q), [e.blob]);
      assert Elements([e.blob]) == {e.blob};
      assert W.Unwritten(s.q.(pending := s.q.pending + [e.blob])) == W.Unwritten(s.q) + [e.blob];
    }
    hide Elements;
  }

  lemma OtherWritesKnown(s: State, e: Event)
    requires WritesKnown(s) && !e.Start? && !EndsWriting(e) && !CatchesUp(e) && !Brings(e)
    ensures WritesKnown(Step(s, e))
  {
    assert Elements([]) == {};
    if s.q.running.Writing? { ElementsAppend(s.q.running.batch, s.q.pending); ElementsAppend(s.q.running.batch, []); }
    hide Elements;
  }

  lemma StepWritesKnown(s: State, e: Event)
    requires WritesKnown(s) && W.ChainInvariant(s.q) && EntriesHold(Step(s, e))
    ensures WritesKnown(Step(s, e))
  {
    hide *;
    if Brings(e) {
      ArrivalWritesKnown(s, e);
    } else if e.Start? {
      StartWritesKnown(s);
    } else if EndsWriting(e) {
      EndWritesKnown(s, e);
    } else if CatchesUp(e) {
      CatchUpWritesKnown(s, e);
    } else {
      OtherWritesKnown(s, e);
    }
  }

  lemma StepKeepsInvariant(sent: Senders, s: State, e: Event)
    requires Invariant(sent, s) && Allowed(sent, s, e)
    ensures Invariant(sent, Step(s, e))
  {
    hide Step, Allowed, LogIsHistory, Truthful, EntriesHold, MarkersHold, Covers, WritesKnown;
    StepKeepsHistory(sent, s, e);
    StepKeepsEntries(sent, s, e);
    StepKeepsMarkers(sent, s, e);
    StepKeepsCover(sent, s, e);
    StepWritesKnown(s, e);
    StepKeepsChain(sent, s, e);
  }

  lemma {:induction false} RunKeepsInvariant(sent: Senders, s: State, events: seq<Event>)
    requires Invariant(sent, s) && AllowedRun(sent, s, events)
    ensures Invariant(sent, Run(s, events)) && Run(s, events).loaded == s.loaded && s.arrivals <= Run(s, events).arrivals
    decreases |events|
  {
    if events != [] {
      var next := Step(s, events[0]);
      StepKeepsInvariant(sent, s, events[0]);
      StepKeepsHistory(sent, s, events[0]);
      hide Step, Allowed, LogIsHistory, Truthful, EntriesHold, MarkersHold, Covers, WritesKnown;
      RunKeepsInvariant(sent, next, events[1..]);
    }
  }

  /** An envelope that arrives is known, and with a writer that is not catching up it is stored or will be written. */
  lemma ArrivalIsTakenIn(sent: Senders, s: State, blob: Blob, ack: Option<Ack>)
    requires Invariant(sent, s) && Allowed(sent, s, Arrive(blob, ack))
    ensures var t := Step(s, Arrive(blob, ack));
      && blob in t.log.known && t.arrivals == s.arrivals + [Arrival(blob, ack, None)]
      && (!s.purged && s.q.active && !s.q.disposed && !W.CatchingUp(s.q) ==> blob in t.stored + Elements(W.Unwritten(t.q)))
  {
    StepKeepsInvariant(sent, s, Arrive(blob, ack));
    hide LogIsHistory, Truthful, EntriesHold, MarkersHold, WritesKnown, W.ChainInvariant, Elements, W.Unwritten, Raise;
  }

  lemma InitialIsInvariant(sent: Senders, s: State)
    requires Initial(s)
    ensures Invariant(sent, s)
  {
  }

  // ----- announced counters -----

  /** Everything connection `p` sent with counters up to `h`. */
  ghost function SentUpTo(sent: Senders, p: nat, h: nat): set<Blob>
  {
    set n: nat | 1 <= n <= h :: sent(p, n)
  }

  /** A room loaded a board and got here by allowed events. */
  ghost predicate Reaches(sent: Senders, first: State, events: seq<Event>, s: State)
  {
    Initial(first) && AllowedRun(sent, first, events) && Run(first, events) == s
  }

  /** Announced means durable: whatever the log knew when an announced marker was taken is stored, in every run. */
  lemma AnnouncedIsDurable(sent: Senders, first: State, events: seq<Event>)
    requires Initial(first) && AllowedRun(sent, first, events)
    ensures var t := Run(first, events);
      forall m | m in t.announced :: IsTaken(t, m) && KnownAfter(t, m.heard) <= t.stored
  {
    InitialIsInvariant(sent, first);
    RunKeepsInvariant(sent, first, events);
    hide Initial, AllowedRun, Run, LogIsHistory, Truthful, EntriesHold, Covers, IsTaken, KnownAfter;
  }

  /** The next event is a cut that empties the queue into a batch. */
  ghost predicate IsCut(s: State)
  {
    && s.q.running.Idle? && s.q.chain != [] && s.q.chain[0].Flush? && !s.q.disposed && !s.purged
    && 0 < |s.q.pending| <= W.MAX_BATCH
  }

  /** In this run from a cut on, the marker taken there is announced. */
  ghost predicate Announces(sent: Senders, s: State, events: seq<Event>)
  {
    AllowedRun(sent, s, events) && Now(s) in Run(s, events).announced
  }

  ghost predicate Arrived(s: State, b: Blob)
  {
    exists i: nat :: i < |s.arrivals| && s.arrivals[i].blob == b
  }

  /** The connection's updates below its highest counter have all arrived here, or were stored some other way. */
  ghost predicate AllThere(sent: Senders, s: State, p: nat)
  {
    forall n: nat | 1 <= n < CounterOf(s.log.acks, p) :: Arrived(s, sent(p, n)) || sent(p, n) in s.stored
  }

  /** The update with the highest counter has arrived under it. */
  lemma HighestIsBrought(l: Log, arrivals: seq<Arrival>, p: nat) returns (i: nat)
    requires l.acks == map[] && CounterOf(Receive(l, arrivals).acks, p) > 0
    ensures BroughtAt(arrivals, i, Ack(p, CounterOf(Receive(l, arrivals).acks, p)))
  {
    var h := CounterOf(Receive(l, arrivals).acks, p);
    CounterIsHighest(l, arrivals, p);
    assert Ack(p, h) in Named(l, arrivals);
    hide High, Named, Receive;
    NamedArrived(l, arrivals, Ack(p, h));
    i :| BroughtAt(arrivals, i, Ack(p, h));
  }

  lemma AllThereMeans(sent: Senders, s: State, p: nat)
    requires LogIsHistory(s) && Truthful(sent, s) && s.loaded.known <= s.stored
    ensures AllThere(sent, s, p) <==> SentUpTo(sent, p, CounterOf(s.log.acks, p)) <= s.log.known + s.stored
  {
    var h := CounterOf(s.log.acks, p);
    if h > 0 {
      var i := HighestIsBrought(s.loaded, s.arrivals, p);
      assert Arrived(s, sent(p, h));
    }
    forall b
      ensures b in s.log.known + s.stored <==> Arrived(s, b) || b in s.stored
    {
    }
    hide Truthful, LogIsHistory, Arrived;
    forall n: nat | 1 <= n <= h
      ensures sent(p, n) in SentUpTo(sent, p, h)
    {
    }
  }

  /** A cut can be committed at once, and then no more is stored than was known or stored before. */
  lemma CutCommits(sent: Senders, s: State) returns (events: seq<Event>)
    requires Invariant(sent, s) && IsCut(s)
    ensures Announces(sent, s, events) && Run(s, events).stored <= s.log.known + s.stored
  {
    var writing := Step(s, Start);
    var t := Step(writing, AppendCommits(0));
    events := [Start, AppendCommits(0)];
    assert s.q.pending[..|s.q.pending|] == s.q.pending && s.q.pending[|s.q.pending|..] == [];
    assert writing.q.running.Writing? && writing.q.running.batch == s.q.pending && writing.q.running.marker == Some(Now(s));
    assert t.announced[|s.announced|] == Now(s);
    assert t.stored == s.stored + Elements(s.q.pending) && Elements(s.q.pending) <= s.log.known;
    assert events[1..] == [AppendCommits(0)] && [AppendCommits(0)][1..] == [];
    assert Allowed(sent, s, Start) && Allowed(sent, writing, AppendCommits(0));
    hide Step, Allowed, Invariant;
    assert Run(s, events) == Run(writing, [AppendCommits(0)]) == Run(t, []) == t;
    assert AllowedRun(sent, writing, [AppendCommits(0)]);
  }

  /** A marker announced after a cut covers all that was known at the cut. */
  lemma CutIsDurable(sent: Senders, s: State, events: seq<Event>)
    requires Invariant(sent, s) && Announces(sent, s, events)
    ensures s.log.known + s.stored <= Run(s, events).stored
  {
    var t := Run(s, events);
    RunKeepsInvariant(sent, s, events);
    RunStores(s, events);
    NowIsTaken(s);
    hide Run, AllowedRun, LogIsHistory, Truthful, EntriesHold, Covers, IsTaken, KnownAfter;
    MarkerStays(s, t, Now(s));
  }

  lemma {:induction false} RunStores(s: State, events: seq<Event>)
    ensures s.stored <= Run(s, events).stored
    decreases |events|
  {
    hide Step;
    if events != [] {
      StoredGrows(s, events[0]);
      RunStores(Step(s, events[0]), events[1..]);
    }
  }

  /**
   * What a connection of a private room may take from "persisted up to `h`": wherever a run takes a marker, with a
   * counter `h` for the connection, every later announcement of that marker means that all the connection's updates
   * up to `h` are stored if and only if each one below `h` had arrived at the writer, or was stored some other way, by then.
   */
  lemma CounterIsDurableExactlyWithoutGaps(sent: Senders, first: State, before: seq<Event>, s: State, p: nat)
    requires Reaches(sent, first, before, s) && IsCut(s)
    ensures AllThere(sent, s, p) <==>
      forall after | Announces(sent, s, after) :: SentUpTo(sent, p, CounterOf(s.log.acks, p)) <= Run(s, after).stored
  {
    InitialIsInvariant(sent, first);
    RunKeepsInvariant(sent, first, before);
    RunStores(first, before);
    assert s.loaded.known <= s.stored;
    AllThereMeans(sent, s, p);
    hide Invariant, AllThere, SentUpTo, Run, AllowedRun, Initial, Announces;
    if AllThere(sent, s, p) {
      forall after | Announces(sent, s, after)
        ensures SentUpTo(sent, p, CounterOf(s.log.acks, p)) <= Run(s, after).stored
      {
        CutIsDurable(sent, s, after);
      }
    }
    var after := CutCommits(sent, s);
  }

  // ----- where there are no gaps -----

  /** What arrives of connection `p` arrives in the order of its counters, none left out. */
  ghost predicate InOrder(arrivals: seq<Arrival>, p: nat)
  {
    forall i: nat, n: nat, k: nat | BroughtAt(arrivals, i, Ack(p, n)) && 1 <= k < n :: BroughtBefore(arrivals, i, Ack(p, k))
  }

  ghost predicate BroughtBefore(arrivals: seq<Arrival>, i: nat, a: Ack)
  {
    exists j: nat :: j < i && BroughtAt(arrivals, j, a)
  }

  lemma OrderedIsKnown(sent: Senders, t: State, m: Marker, p: nat, i: nat, h: nat, n: nat)
    requires Truthful(sent, t) && m.heard <= |t.arrivals| && InOrder(t.arrivals, p)
    requires i < m.heard && BroughtAt(t.arrivals, i, Ack(p, h)) && 1 <= n <= h
    ensures sent(p, n) in KnownAfter(t, m.heard)
  {
    var j: nat := i;
    if n < h {
      assert BroughtBefore(t.arrivals, i, Ack(p, n));
      j :| j < i && BroughtAt(t.arrivals, j, Ack(p, n));
    }
    assert t.arrivals[j].blob in KnownAfter(t, m.heard);
  }

  /** A connection whose own messages reach the writer in order can rely on every counter announced in any run. */
  lemma OrderedCounterIsDurable(sent: Senders, first: State, events: seq<Event>, m: Marker, p: nat)
    requires Initial(first) && AllowedRun(sent, first, events) && m in Run(first, events).announced
    requires InOrder(Run(first, events).arrivals, p)
    ensures SentUpTo(sent, p, CounterOf(m.acks, p)) <= Run(first, events).stored
  {
    var t, h := Run(first, events), CounterOf(m.acks, p);
    InitialIsInvariant(sent, first);
    RunKeepsInvariant(sent, first, events);
    assert t.loaded.acks == map[] && Truthful(sent, t) && KnownAfter(t, m.heard) <= t.stored;
    assert m.heard <= |t.arrivals| && m.acks == Receive(t.loaded, t.arrivals[..m.heard]).acks;
    hide *;
    if h > 0 {
      var i := HighestIsBrought(t.loaded, t.arrivals[..m.heard], p);
      BroughtInWhole(t.arrivals, m.heard, i, Ack(p, h));
      forall n: nat | 1 <= n <= h
        ensures sent(p, n) in t.stored
      {
        OrderedIsKnown(sent, t, m, p, i, h, n);
      }
    }
    SentAre(sent, p, h, t.stored);
  }

  lemma BroughtInWhole(arrivals: seq<Arrival>, n: nat, i: nat, a: Ack)
    requires n <= |arrivals| && BroughtAt(arrivals[..n], i, a)
    ensures BroughtAt(arrivals, i, a) && i < n
  {
  }

  lemma SentAre(sent: Senders, p: nat, h: nat, blobs: set<Blob>)
    requires forall n: nat | 1 <= n <= h :: sent(p, n) in blobs
    ensures SentUpTo(sent, p, h) <= blobs
  {
  }

  // ----- an instance -----

  /** A writer of an empty board that just loaded it. */
  ghost function Writer(): (s: State)
    ensures Initial(s)
  {
    State(EmptyLog(), EmptyLog(), [], W.Queue([], true, false, false, [], W.Idle, 0, 100), {}, false, [])
  }

  lemma LostRelaySteps(sent: Senders, p: nat)
    ensures var arrive := Arrive(sent(p, 2), Some(Ack(p, 2))); var q := Step(Step(Writer(), arrive), QueueFlush);
      && Allowed(sent, Writer(), arrive)
      && q.q == Writer().q.(pending := [sent(p, 2)], chain := [W.Flush(false)]) && q.stored == {} && q.announced == [] && !q.purged
      && CounterOf(q.log.acks, p) == 2
  {
  }

  lemma LostRelayEnds(s: State, b: Blob)
    requires s.q == Writer().q.(pending := [b], chain := [W.Flush(false)]) && s.stored == {} && s.announced == [] && !s.purged
    ensures var t := Step(Step(s, Start), AppendCommits(0)); t.announced == [Now(s)] && t.stored == {b}
  {
    var writing := Step(s, Start);
    assert s.q.chain[1..] == [] && s.q.pending[..1] == [b] && s.q.pending[1..] == [];
    assert writing.q.running.Writing? && writing.q.running.batch == [b] && writing.q.running.marker == Some(Now(s));
    assert Elements([b]) == {b};
  }

  lemma RunOfTwo(sent: Senders, s: State, e: Event, f: Event)
    ensures Run(s, [e, f]) == Step(Step(s, e), f)
    ensures Allowed(sent, s, e) && Allowed(sent, Step(s, e), f) ==> AllowedRun(sent, s, [e, f])
  {
    hide Step, Allowed;
    assert [e, f][1..] == [f] && [f][1..] == [];
    assert Run(Step(s, e), [f]) == Run(Step(Step(s, e), f), []);
    assert Allowed(sent, Step(s, e), f) ==> AllowedRun(sent, Step(s, e), [f]);
  }

  lemma {:induction false} RunAppend(sent: Senders, s: State, a: seq<Event>, b: seq<Event>)
    ensures Run(s, a + b) == Run(Run(s, a), b)
    ensures AllowedRun(sent, s, a) && AllowedRun(sent, Run(s, a), b) ==> AllowedRun(sent, s, a + b)
    decreases |a|
  {
    hide Step, Allowed;
    if a == [] {
      assert a + b == b;
    } else {
      assert (a + b)[1..] == a[1..] + b;
      RunAppend(sent, Step(s, a[0]), a[1..], b);
    }
  }

  /**
   * A relay lost on the way to the writer: the connection's second update arrives alone and is stored, counter 2 is
   * announced, and the first update is not stored.
   */
  lemma LostRelayIsAnnounced(sent: Senders, p: nat)
    requires sent(p, 1) != sent(p, 2)
    ensures var events := [Arrive(sent(p, 2), Some(Ack(p, 2))), QueueFlush] + [Start, AppendCommits(0)];
      var t := Run(Writer(), events);
      && AllowedRun(sent, Writer(), events) && t.announced != []
      && CounterOf(t.announced[0].acks, p) == 2 && sent(p, 1) !in t.stored
  {
    var w, b, arrive := Writer(), sent(p, 2), Arrive(sent(p, 2), Some(Ack(p, 2)));
    var q := Step(Step(w, arrive), QueueFlush);
    LostRelaySteps(sent, p);
    LostRelayEnds(q, b);
    assert Allowed(sent, Step(w, arrive), QueueFlush) && Allowed(sent, q, Start) && Allowed(sent, Step(q, Start), AppendCommits(0));
    hide Step, Allowed, Run, AllowedRun, Writer;
    RunOfTwo(sent, w, arrive, QueueFlush);
    RunOfTwo(sent, q, Start, AppendCommits(0));
    RunAppend(sent, w, [arrive, QueueFlush], [Start, AppendCommits(0)]);
  }
}
