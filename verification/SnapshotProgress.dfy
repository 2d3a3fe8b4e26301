/** That a private room can always get its board compacted: from every state one of its clients can be brought to do it. */
module SnapshotProgress {
  import opened Options
  import opened Sequences
  import opened Storage
  import opened MemoryRepository
  import opened CipherLogs
  import opened EncryptedRooms

  ghost predicate HasWriter(r: Room)
  {
    exists p :: p in r.peers && p.canWrite
  }

  /** The room has heard of updates that no stored snapshot covers, and has a client to ask. */
  ghost predicate CanCompact(b: CipherBoard, r: Room)
  {
    !r.closing && HasWriter(r) && r.log.lastCommittedSeq > LatestUpto(b) && r.log.lastCommittedSeq > Covered(r.log)
  }

  lemma BroadcastKeepsWriters(r: Room, blob: Blob)
    requires HasWriter(r)
    ensures HasWriter(r.(peers := Broadcast(r.peers, blob)))
  {
    var p :| p in r.peers && p.canWrite;
    var i :| 0 <= i < |r.peers| && r.peers[i] == p;
    assert Broadcast(r.peers, blob)[i].canWrite;
  }

  lemma {:induction false} RelayingKeepsWriters(r: Room, rows: seq<Row<Blob>>)
    requires HasWriter(r)
    ensures var t := ReceiveRows(r, rows); HasWriter(t) && t.closing == r.closing && t.starting == r.starting && t.request == r.request
  {
    if rows != [] {
      var front, blob := ReceiveRows(r, rows[..|rows| - 1]), rows[|rows| - 1].content.update;
      RelayingKeepsWriters(r, rows[..|rows| - 1]);
      BroadcastKeepsWriters(front, blob);
      hide HasWriter, Broadcast, AddTo;
    }
  }

  lemma RequestCanEnd(b: CipherBoard, r: Room)
    requires WellFormed(b)
    ensures r.request.Some? ==> RoomStep(b, r, TimeOut(r.request.value.id)) == (b, r.(request := None))
    ensures RoomStep(b, r, ReadFails) == (b, r.(starting := None))
  {
  }

  lemma RequestBegins(b: CipherBoard, r: Room)
    requires WellFormed(b) && CanCompact(b, r) && r.request == None && r.starting == None
    ensures RoomStep(b, r, StartRequest) == (b, r.(starting := Some(r.log.lastCommittedSeq)))
  {
  }

  lemma ClientIsAsked(b: CipherBoard, r: Room, id: nat)
    requires WellFormed(b) && HasWriter(r) && !r.closing && r.starting.Some? && r.starting.value <= b.lastSeq
    ensures var (c, t) := RoomStep(b, r, AskPeer(id, b.lastSeq));
      c == b && t.request.Some? && t.request.value.id == id && t.request.value.seqUpto == r.starting.value
  {
    var rows := Rows(b)[Cut(Covered(r.log), 0, b.lastSeq)..b.lastSeq];
    RelayingKeepsWriters(r, Filter(Relayable(r.starting.value), rows));
    hide ReceiveRows, Filter, WellFormed;
  }

  lemma AnswerIsStored(b: CipherBoard, r: Room, contents: Contents)
    requires WellFormed(b) && r.request.Some? && LatestUpto(b) < r.request.value.seqUpto <= b.lastSeq
    ensures var (c, t) := RoomStep(b, r, Answer(r.request.value.peer, r.request.value.id, contents));
      && c.snapshots == b.snapshots + [Snapshot(r.request.value.seqUpto, contents)] && Rows(c) == Rows(b)
      && t.log.snapshot == Some(Snapshot(r.request.value.seqUpto, contents)) && t.request == None
  {
  }

  // ----- in the system -----

  lemma FirstEvent(s: System, e: Event, events: seq<Event>)
    requires WellFormed(s.board)
    ensures EncryptedRooms.Run(s, [e] + events) == EncryptedRooms.Run(Step(s, e), events)
    ensures AllowedRun(s, [e] + events) <==> Allowed(s, e) && AllowedRun(Step(s, e), events)
  {
    hide Step, Allowed, WellFormed;
    assert ([e] + events)[1..] == events;
  }

  lemma RoomEventIs(s: System, i: nat, e: RoomEvent)
    requires WellFormed(s.board) && i in s.rooms
    ensures var (b, r) := RoomStep(s.board, s.rooms[i], e); var t := Step(s, At(i, e));
      t.board == b && i in t.rooms && t.rooms[i] == r && t.asked == Recorded(s.asked, s.rooms[i], r)
  {
    hide RoomStep, WellFormed, Recorded;
  }

  /** With no request going on: the room asks a client, which answers with what it has been sent. */
  lemma ClientCompacts(s: System, i: nat, id: nat) returns (events: seq<Event>)
    requires WellFormed(s.board) && i in s.rooms && CanCompact(s.board, s.rooms[i]) && id !in s.asked
    requires s.rooms[i].request == None && s.rooms[i].starting == None && s.rooms[i].log.lastCommittedSeq <= s.board.lastSeq
    ensures AllowedRun(s, events) && OnlyIn(i, events)
    ensures CompactedUpTo(s, s.rooms[i].log.lastCommittedSeq, EncryptedRooms.Run(s, events))
  {
    var b, r := s.board, s.rooms[i];
    RequestBegins(b, r);
    RoomEventIs(s, i, StartRequest);
    var s1 := Step(s, At(i, StartRequest));
    ClientIsAsked(b, s1.rooms[i], id);
    RoomEventIs(s1, i, AskPeer(id, b.lastSeq));
    var s2 := Step(s1, At(i, AskPeer(id, b.lastSeq)));
    var q := s2.rooms[i].request.value;
    AnswerIsStored(b, s2.rooms[i], q.delivered);
    var answer := Answer(q.peer, id, q.delivered);
    RoomEventIs(s2, i, answer);
    assert Allowed(s, At(i, StartRequest)) && Allowed(s1, At(i, AskPeer(id, b.lastSeq))) && Allowed(s2, At(i, answer));
    hide Step, RoomStep, Allowed, WellFormed, CanCompact, HasWriter, Rows;
    FirstEvent(s2, At(i, answer), []);
    FirstEvent(s1, At(i, AskPeer(id, b.lastSeq)), [At(i, answer)] + []);
    FirstEvent(s, At(i, StartRequest), [At(i, AskPeer(id, b.lastSeq))] + ([At(i, answer)] + []));
    events := [At(i, StartRequest)] + ([At(i, AskPeer(id, b.lastSeq))] + ([At(i, answer)] + []));
  }

  ghost predicate OnlyIn(i: nat, events: seq<Event>)
  {
    forall e | e in events :: e.At? && e.room == i
  }

  /** The same rows are stored, and the latest snapshot is for those up to `n`. */
  ghost predicate CompactedUpTo(s: System, n: nat, t: System)
  {
    Rows(t.board) == Rows(s.board) && LatestUpto(t.board) == n
  }

  lemma RoomHasHeard(s: System, i: nat)
    requires Invariant(s) && i in s.rooms
    ensures s.rooms[i].log.lastCommittedSeq <= s.board.lastSeq
    ensures s.rooms[i].starting.Some? ==> s.rooms[i].request == None
  {
  }

  /**
   * Whatever has happened, a room that has heard of updates beyond every stored snapshot, is not closing and has a
   * client that may write can have the board compacted up to what it has heard of, by events of its own alone: an
   * earlier request running out, and a new one being put and answered.
   */
  lemma CompactionIsReachable(s: System, i: nat, id: nat) returns (events: seq<Event>)
    requires Invariant(s) && i in s.rooms && CanCompact(s.board, s.rooms[i]) && id !in s.asked
    ensures AllowedRun(s, events) && OnlyIn(i, events)
    ensures CompactedUpTo(s, s.rooms[i].log.lastCommittedSeq, EncryptedRooms.Run(s, events))
  {
    RoomHasHeard(s, i);
    var r := s.rooms[i];
    RequestCanEnd(s.board, r);
    if r.request == None && r.starting == None {
      events := ClientCompacts(s, i, id);
    } else {
      var end := if r.request.Some? then TimeOut(r.request.value.id) else ReadFails;
      RoomEventIs(s, i, end);
      var t := Step(s, At(i, end));
      assert Allowed(s, At(i, end));
      hide Step, RoomStep, Allowed, Invariant;
      events := ClientCompacts(t, i, id);
      FirstEvent(s, At(i, end), events);
      events := [At(i, end)] + events;
    }
  }
}
