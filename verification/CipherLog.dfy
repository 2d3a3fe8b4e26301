/** What a private room keeps of a board it cannot read: one snapshot and the envelopes that follow it. */
module CipherLogs {
  import opened Options
  import opened Sequences
  import opened Storage

  /** Bytes taken for an envelope; their identity stands for them and for their hash, taken to be without collisions. */
  datatype Blob = Blob(id: nat, isEnvelope: bool)

  /** Names an update: the connection that sent it and its counter there. */
  datatype Ack = Ack(peer: nat, n: nat)

  datatype Entry = Entry(blob: Blob, ack: Option<Ack>, seqNo: Option<nat>)

  /** A client-made snapshot: what it contains is known only to the key holders. */
  type Contents = set<Blob>

  datatype Log = Log(snapshot: Option<Snapshot<Contents>>, entries: seq<Entry>, known: set<Blob>,
                     acks: map<nat, nat>, lastCommittedSeq: nat)

  function EmptyLog(): Log { Log(None, [], {}, map[], 0) }

  function Covered(l: Log): nat
  {
    if l.snapshot.Some? then l.snapshot.value.seqUpto else 0
  }

  function SnapshotContents(l: Log): Contents
  {
    if l.snapshot.Some? then l.snapshot.value.state else {}
  }

  ghost function Blobs(entries: seq<Entry>): set<Blob>
  {
    set e | e in entries :: e.blob
  }

  ghost function Envelopes(blobs: set<Blob>): set<Blob>
  {
    set b | b in blobs && b.isEnvelope
  }

  /** The entries that are envelopes. */
  ghost function Sealed(entries: seq<Entry>): set<Blob>
  {
    set e | e in entries && e.blob.isEnvelope :: e.blob
  }

  function CounterOf(acks: map<nat, nat>, peer: nat): nat
  {
    if peer in acks then acks[peer] else 0
  }

  function Raise(acks: map<nat, nat>, ack: Option<Ack>): map<nat, nat>
  {
    if ack.Some? && ack.value.n > CounterOf(acks, ack.value.peer) then acks[ack.value.peer := ack.value.n] else acks
  }

  /** Adds an entry; an envelope seen before changes nothing. */
  function AddTo(l: Log, blob: Blob, ack: Option<Ack>, seqNo: Option<nat>): Log
  {
    if blob in l.known then l
    else l.(known := l.known + {blob}, entries := l.entries + [Entry(blob, ack, seqNo)], acks := Raise(l.acks, ack),
            lastCommittedSeq := if seqNo.Some? && seqNo.value > l.lastCommittedSeq then seqNo.value else l.lastCommittedSeq)
  }

  function AddRows(l: Log, rows: seq<Row<Blob>>): Log
  {
    if rows == [] then l
    else
      var front := AddRows(l, rows[..|rows| - 1]);
      var row := rows[|rows| - 1];
      AddTo(front, row.content.update, None, Some(row.seqNo))
  }

  function After(seqUpto: nat): Entry -> bool
  {
    (e: Entry) => e.seqNo == None || e.seqNo.value > seqUpto
  }

  /** Storage took a snapshot: entries known to have a seq up to its own are dropped from the log. */
  function InstallIn(l: Log, seqUpto: nat, state: Contents): Log
  {
    l.(snapshot := Some(Snapshot(seqUpto, state)), entries := Filter(After(seqUpto), l.entries))
  }

  /** The seq the batch gives to `blob`: that of its last occurrence. */
  function SeqInBatch(batch: seq<Blob>, firstSeq: nat, blob: Blob): Option<nat>
  {
    if batch == [] then None
    else if batch[|batch| - 1] == blob then Some(firstSeq + |batch| - 1)
    else SeqInBatch(batch[..|batch| - 1], firstSeq, blob)
  }

  function Numbering(batch: seq<Blob>, firstSeq: nat): Entry -> Entry
  {
    (e: Entry) => var n := SeqInBatch(batch, firstSeq, e.blob); if n.Some? then e.(seqNo := n) else e
  }

  /** Storage numbered the batch from `firstSeq` on; the entries concerned take over their numbers. */
  function CommitIn(l: Log, batch: seq<Blob>, firstSeq: nat): Log
  {
    l.(entries := Map(Numbering(batch, firstSeq), l.entries),
       lastCommittedSeq := if firstSeq + |batch| - 1 > l.lastCommittedSeq then firstSeq + |batch| - 1 else l.lastCommittedSeq)
  }

  /** The seq `rows` give to `blob`: that of the last row holding it. */
  function SeqInRows(rows: seq<Row<Blob>>, blob: Blob): Option<nat>
  {
    if rows == [] then None
    else if rows[|rows| - 1].content.update == blob then Some(rows[|rows| - 1].seqNo)
    else SeqInRows(rows[..|rows| - 1], blob)
  }

  function Locating(rows: seq<Row<Blob>>): Entry -> Entry
  {
    (e: Entry) => var n := SeqInRows(rows, e.blob); if n.Some? then e.(seqNo := n) else e
  }

  function Located(rows: seq<Row<Blob>>, entries: seq<Entry>): (r: seq<Entry>)
    ensures |r| == |entries|
  {
    Map(Locating(rows), entries)
  }

  /** Compares with the stored rows: entries found there learn their seq. */
  function CatchUpIn(l: Log, rows: seq<Row<Blob>>): Log
  {
    l.(entries := Located(rows, l.entries))
  }

  function Unstored(): Entry -> bool { (e: Entry) => e.seqNo == None }

  function BlobOf(): Entry -> Blob { (e: Entry) => e.blob }

  /** Without a readable database: everything not known to be stored. */
  function NotStored(entries: seq<Entry>): seq<Blob>
  {
    Map(BlobOf(), Filter(Unstored(), entries))
  }

  // ----- what becomes of the entries -----

  /** An entry of the batch has the number of its last place there, the others stay as they were. */
  ghost predicate IsNumbered(batch: seq<Blob>, firstSeq: nat, was: Entry, e: Entry)
  {
    && e.blob == was.blob && e.ack == was.ack
    && (was.blob !in batch ==> e.seqNo == was.seqNo)
    && (was.blob in batch ==> exists i :: IsLast(batch, i, was.blob) && e.seqNo == Some(firstSeq + i))
  }

  ghost predicate IsLast(batch: seq<Blob>, i: nat, blob: Blob)
  {
    i < |batch| && batch[i] == blob && blob !in batch[i + 1..]
  }

  /** An entry found among the rows has the seq of a row that holds it, the others stay as they were. */
  ghost predicate IsLocated(rows: seq<Row<Blob>>, was: Entry, e: Entry)
  {
    && e.blob == was.blob && e.ack == was.ack
    && ((forall r | r in rows :: r.content.update != was.blob) ==> e.seqNo == was.seqNo)
    && ((exists r | r in rows :: r.content.update == was.blob) ==>
         exists r :: r in rows && r.content.update == was.blob && e.seqNo == Some(r.seqNo))
  }

  /** These are the envelopes of all entries without a seq, in log order. */
  ghost predicate ListsUnstored(entries: seq<Entry>, at: seq<nat>, blobs: seq<Blob>)
  {
    && |blobs| == |at| && (forall k: nat :: k in at <==> k < |entries| && entries[k].seqNo == None)
    && (forall i, j | 0 <= i < j < |at| :: at[i] < at[j])
    && (forall i | 0 <= i < |at| :: at[i] < |entries| && blobs[i] == entries[at[i]].blob)
  }

  /** The rows not known before have become entries, each with the seq of a row that holds it and without a counter. */
  ghost predicate HasTakenIn(knownBefore: set<Blob>, before: seq<Entry>, known: set<Blob>, entries: seq<Entry>, rows: seq<Row<Blob>>)
  {
    && before <= entries && known == knownBefore + Held(rows)
    && Blobs(entries[|before|..]) == known - knownBefore
    && (forall e | e in entries[|before|..] :: IsOfRow(rows, e))
  }

  ghost predicate IsOfRow(rows: seq<Row<Blob>>, e: Entry)
  {
    exists r :: r in rows && e == Entry(r.content.update, None, Some(r.seqNo))
  }

  ghost function Held(rows: seq<Row<Blob>>): set<Blob>
  {
    set r | r in rows :: r.content.update
  }

  lemma {:induction false} SeqInBatchIsLast(batch: seq<Blob>, firstSeq: nat, blob: Blob)
    ensures var n := SeqInBatch(batch, firstSeq, blob);
      && (n.Some? <==> blob in batch)
      && (n.Some? ==> n.value >= firstSeq && IsLast(batch, n.value - firstSeq, blob))
  {
    if batch != [] {
      var n := |batch| - 1;
      assert batch == batch[..n] + [batch[n]];
      if batch[n] != blob {
        SeqInBatchIsLast(batch[..n], firstSeq, blob);
        if blob in batch {
          var i := SeqInBatch(batch[..n], firstSeq, blob).value - firstSeq;
          assert batch[i + 1..] == batch[..n][i + 1..] + [batch[n]];
        }
      }
    }
  }

  lemma NumberedIs(batch: seq<Blob>, firstSeq: nat, e: Entry)
    ensures IsNumbered(batch, firstSeq, e, Numbering(batch, firstSeq)(e))
  {
    SeqInBatchIsLast(batch, firstSeq, e.blob);
    hide SeqInBatch, IsLast;
  }

  lemma {:induction false} SeqInRowsIsTrue(rows: seq<Row<Blob>>, blob: Blob)
    ensures var n := SeqInRows(rows, blob);
      && (n.Some? <==> exists r | r in rows :: r.content.update == blob)
      && (n.Some? ==> exists r :: r in rows && r.seqNo == n.value && r.content.update == blob)
  {
    if rows != [] {
      var front, row := rows[..|rows| - 1], rows[|rows| - 1];
      assert rows == front + [row];
      SeqInRowsIsTrue(front, blob);
    }
  }

  lemma LocatedAre(rows: seq<Row<Blob>>, entries: seq<Entry>)
    ensures forall k | 0 <= k < |entries| :: IsLocated(rows, entries[k], Located(rows, entries)[k])
  {
    forall k | 0 <= k < |entries|
      ensures IsLocated(rows, entries[k], Located(rows, entries)[k])
    {
      SeqInRowsIsTrue(rows, entries[k].blob);
      hide SeqInRows;
    }
  }

  lemma UnstoredInOrder(entries: seq<Entry>) returns (at: seq<nat>)
    ensures ListsUnstored(entries, at, NotStored(entries))
  {
    at := FilterPicks(Unstored(), entries);
  }

  lemma {:induction false} RowsAreTakenIn(l: Log, rows: seq<Row<Blob>>)
    ensures var t := AddRows(l, rows);
      t.snapshot == l.snapshot && t.acks == l.acks && HasTakenIn(l.known, l.entries, t.known, t.entries, rows)
  {
    if rows != [] {
      var front, row := rows[..|rows| - 1], rows[|rows| - 1];
      RowsAreTakenIn(l, front);
      assert rows == front + [row];
      RowIsTakenIn(l, AddRows(l, front), front, row);
      hide HasTakenIn, AddTo;
    }
  }

  lemma RowIsTakenIn(l: Log, t: Log, rows: seq<Row<Blob>>, row: Row<Blob>)
    requires HasTakenIn(l.known, l.entries, t.known, t.entries, rows)
    ensures var u := AddTo(t, row.content.update, None, Some(row.seqNo));
      u.snapshot == t.snapshot && u.acks == t.acks && HasTakenIn(l.known, l.entries, u.known, u.entries, rows + [row])
  {
    var blob := row.content.update;
    HeldAppend(rows, row);
    assert forall e | IsOfRow(rows, e) :: IsOfRow(rows + [row], e);
    if blob !in t.known {
      var e := Entry(blob, None, Some(row.seqNo));
      assert IsOfRow(rows + [row], e);
      assert (t.entries + [e])[|l.entries|..] == t.entries[|l.entries|..] + [e];
      BlobsAppend(t.entries[|l.entries|..], e);
      hide Held, IsOfRow, Blobs;
    }
  }

  lemma HeldAppend(rows: seq<Row<Blob>>, row: Row<Blob>)
    ensures Held(rows + [row]) == Held(rows) + {row.content.update}
  {
    assert forall r :: r in rows + [row] <==> r in rows || r == row;
  }

  class CipherLog {
    var snapshot: Option<Snapshot<Contents>>
    var entries: seq<Entry>
    var known: set<Blob>
    var acks: map<nat, nat>
    var lastCommittedSeq: nat

    function View(): Log
      reads this
    {
      Log(snapshot, entries, known, acks, lastCommittedSeq)
    }

    constructor ()
      ensures View() == EmptyLog()
    {
      snapshot, entries, known, acks, lastCommittedSeq := None, [], {}, map[], 0;
    }

    method Load(loadedSnapshot: Option<Snapshot<Contents>>, updates: seq<Row<Blob>>, maxSeq: nat)
      modifies this
      ensures View() == AddRows(old(View()).(snapshot := loadedSnapshot), updates).(lastCommittedSeq := maxSeq)
      ensures snapshot == loadedSnapshot && lastCommittedSeq == maxSeq && acks == old(acks)
      ensures HasTakenIn(old(known), old(entries), known, entries, updates)
    {
      snapshot := loadedSnapshot;
      ghost var start := View();
      for i := 0 to |updates|
        invariant View() == AddRows(start, updates[..i])
      {
        assert updates[..i + 1][..i] == updates[..i];
        var added := Add(updates[i].content.update, None, Some(updates[i].seqNo));
      }
      assert updates[..|updates|] == updates;
      RowsAreTakenIn(start, updates);
      lastCommittedSeq := maxSeq;
    }

    method Add(blob: Blob, ack: Option<Ack>, seqNo: Option<nat>) returns (added: Option<Entry>)
      modifies this`known, this`entries, this`acks, this`lastCommittedSeq
      ensures View() == AddTo(old(View()), blob, ack, seqNo)
      ensures added == if blob in old(known) then None else Some(Entry(blob, ack, seqNo))
      ensures known == old(known) + {blob}
      ensures entries == old(entries) + if added.Some? then [Entry(blob, ack, seqNo)] else []
      ensures added.Some? && ack.Some? ==>
        var (p, n) := (ack.value.peer, ack.value.n); acks == if n > CounterOf(old(acks), p) then old(acks)[p := n] else old(acks)
      ensures added.None? || ack.None? ==> acks == old(acks)
      ensures lastCommittedSeq ==
        if added.Some? && seqNo.Some? && seqNo.value > old(lastCommittedSeq) then seqNo.value else old(lastCommittedSeq)
    {
      if blob in known { return None; }
      known := known + {blob};
      var entry := Entry(blob, ack, seqNo);
      entries := entries + [entry];
      if ack.Some? && ack.value.n > CounterOf(acks, ack.value.peer) { acks := acks[ack.value.peer := ack.value.n]; }
      if seqNo.Some? && seqNo.value > lastCommittedSeq { lastCommittedSeq := seqNo.value; }
      return Some(entry);
    }

    method InstallSnapshot(seqUpto: nat, state: Contents)
      modifies this`snapshot, this`entries
      ensures View() == InstallIn(old(View()), seqUpto, state)
      ensures snapshot == Some(Snapshot(seqUpto, state))
      ensures forall e :: e in entries <==> e in old(entries) && (e.seqNo.None? || e.seqNo.value > seqUpto)
      ensures exists at :: PickedAt(old(entries), at, entries)
    {
      CoveredLeave(View(), seqUpto, state);
      ghost var at := FilterPicks(After(seqUpto), entries);
      snapshot := Some(Snapshot(seqUpto, state));
      entries := Filter(After(seqUpto), entries);
    }

    /** Tells each entry of the batch its seq; later occurrences of an envelope overwrite earlier ones. */
    method Committed(batch: seq<Blob>, firstSeq: nat)
      requires batch != []
      modifies this`entries, this`lastCommittedSeq
      ensures View() == CommitIn(old(View()), batch, firstSeq)
      ensures |entries| == |old(entries)|
      ensures forall k | 0 <= k < |entries| :: IsNumbered(batch, firstSeq, old(entries)[k], entries[k])
      ensures lastCommittedSeq >= firstSeq + |batch| - 1 && lastCommittedSeq >= old(lastCommittedSeq)
      ensures lastCommittedSeq in {firstSeq + |batch| - 1, old(lastCommittedSeq)}
    {
      ghost var before := entries;
      for i := 0 to |batch|
        invariant |entries| == |before| && lastCommittedSeq == old(lastCommittedSeq)
        invariant forall k | 0 <= k < |before| :: entries[k] == Numbering(batch[..i], firstSeq)(before[k])
      {
        var current := entries;
        entries := seq(|current|, k requires 0 <= k < |current| =>
          if current[k].blob == batch[i] then current[k].(seqNo := Some(firstSeq + i)) else current[k]);
        forall k | 0 <= k < |before|
          ensures entries[k] == Numbering(batch[..i + 1], firstSeq)(before[k])
        {
          assert current[k] == Numbering(batch[..i], firstSeq)(before[k]);
          NumberingGrows(batch, firstSeq, i, before[k]);
        }
      }
      assert batch[..|batch|] == batch;
      assert entries == Map(Numbering(batch, firstSeq), before);
      forall k | 0 <= k < |before|
        ensures IsNumbered(batch, firstSeq, before[k], entries[k])
      {
        NumberedIs(batch, firstSeq, before[k]);
      }
      if firstSeq + |batch| - 1 > lastCommittedSeq { lastCommittedSeq := firstSeq + |batch| - 1; }
    }

    /**
     * The board was loaded, with `live` updates after its snapshot, and the `rows` after the log's own snapshot were
     * read. Returns the envelopes not among these rows, in log order, the others getting the seq of their row; and how
     * many updates follow the stored snapshot.
     */
    method CatchUp(live: seq<Row<Blob>>, rows: seq<Row<Blob>>) returns (missing: seq<Blob>, storedSinceSnapshot: nat)
      modifies this`entries
      ensures View() == CatchUpIn(old(View()), rows)
      ensures missing == NotStored(entries) && storedSinceSnapshot == |live|
      ensures |entries| == |old(entries)|
      ensures forall k | 0 <= k < |entries| :: IsLocated(rows, old(entries)[k], entries[k])
      ensures exists at :: ListsUnstored(entries, at, missing)
    {
      storedSinceSnapshot := |live|;
      ghost var before := entries;
      hide Located, NotStored, SeqInRows;
      missing := [];
      NothingLocated(rows, before[..0]);
      for i := 0 to |entries|
        invariant |entries| == |before| && entries == Located(rows, before[..i]) + before[i..]
        invariant missing == NotStored(Located(rows, before[..i]))
      {
        LocatedNext(rows, before, i);
        hide *;
        ghost var was := entries;
        var entry := entries[i];
        var found := SeqInRows(rows, entry.blob);
        if found.Some? {
          entries := entries[i := entry.(seqNo := found)];
        } else if entry.seqNo == None {
          missing := missing + [entry.blob];
        }
        assert entries == was[i := if found.Some? then entry.(seqNo := found) else entry];
      }
      assert before[..|before|] == before && before[|before|..] == [];
      LocatedAre(rows, before);
      ghost var at := UnstoredInOrder(entries);
    }
  }

  lemma LocatedNext(rows: seq<Row<Blob>>, before: seq<Entry>, i: nat)
    requires i < |before|
    ensures var was := Located(rows, before[..i]) + before[i..];
      var found := SeqInRows(rows, before[i].blob);
      var placed := if found.Some? then before[i].(seqNo := found) else before[i];
      && was[i] == before[i]
      && Located(rows, before[..i + 1]) + before[i + 1..] == was[i := placed]
      && NotStored(Located(rows, before[..i + 1]))
         == NotStored(Located(rows, before[..i])) + if placed.seqNo == None then [placed.blob] else []
  {
    LocatedGrows(rows, before[..i], before[i]);
    hide Located, NotStored, SeqInRows;
    assert before[..i + 1] == before[..i] + [before[i]];
  }

  lemma NumberingGrows(batch: seq<Blob>, firstSeq: nat, i: nat, e: Entry)
    requires i < |batch|
    ensures Numbering(batch[..i + 1], firstSeq)(e)
         == if e.blob == batch[i] then e.(seqNo := Some(firstSeq + i)) else Numbering(batch[..i], firstSeq)(e)
  {
    assert batch[..i + 1][..i] == batch[..i];
  }

  lemma NothingLocated(rows: seq<Row<Blob>>, entries: seq<Entry>)
    requires entries == []
    ensures Located(rows, entries) == [] && NotStored([]) == []
  {
  }

  lemma LocatedGrows(rows: seq<Row<Blob>>, front: seq<Entry>, entry: Entry)
    ensures var found := SeqInRows(rows, entry.blob);
      var placed := if found.Some? then entry.(seqNo := found) else entry;
      && Located(rows, front + [entry]) == Located(rows, front) + [placed]
      && NotStored(Located(rows, front) + [placed]) == NotStored(Located(rows, front)) + if placed.seqNo == None then [placed.blob] else []
  {
    var placed := Locating(rows)(entry);
    MapAppend(Locating(rows), front, [entry]);
    assert Map(Locating(rows), [entry]) == [placed];
    FilterAppend(Unstored(), Located(rows, front), [placed]);
    MapAppend(BlobOf(), Filter(Unstored(), Located(rows, front)), Filter(Unstored(), [placed]));
    assert Filter(Unstored(), [placed]) == if placed.seqNo == None then [placed] else [];
    hide Filter, SeqInRows;
  }

  // ----- what a log holds -----

  /** Folding drops the entries known to be covered, and only them. */
  lemma CoveredLeave(l: Log, seqUpto: nat, state: Contents)
    ensures forall e :: e in InstallIn(l, seqUpto, state).entries <==> e in l.entries && (e.seqNo.None? || e.seqNo.value > seqUpto)
  {
    forall e
      ensures e in InstallIn(l, seqUpto, state).entries <==> e in l.entries && (e.seqNo.None? || e.seqNo.value > seqUpto)
    {
      FilterMember(After(seqUpto), l.entries, e);
    }
  }

  lemma BlobsAppend(entries: seq<Entry>, e: Entry)
    ensures Blobs(entries + [e]) == Blobs(entries) + {e.blob}
  {
  }

  /** A log that knows its entries and nothing else takes in every row it is given, without a counter. */
  lemma {:induction false} RowsAreKnown(l: Log, rows: seq<Row<Blob>>)
    requires l.known == Blobs(l.entries)
    ensures var t := AddRows(l, rows);
      && t.acks == l.acks && t.snapshot == l.snapshot && t.known == Blobs(t.entries)
      && t.known == l.known + Held(rows)
  {
    if rows != [] {
      var front, row := rows[..|rows| - 1], rows[|rows| - 1];
      RowsAreKnown(l, front);
      var before := AddRows(l, front);
      assert rows == front + [row];
      if row.content.update !in before.known {
        BlobsAppend(before.entries, Entry(row.content.update, None, Some(row.seqNo)));
      }
    }
  }
}
