/** Private rooms on any number of instances sharing one stored board: compaction by client-made snapshots. */
module EncryptedRooms {
  import opened Options
  import opened Sequences
  import opened Storage
  import opened MemoryRepository
  import opened CipherLogs

  type CipherBoard = Board<Contents, Blob>

  /** A welcomed connection: whether it may write, and what it has been sent or has sent itself. */
  datatype Peer = Peer(id: nat, canWrite: bool, sent: set<Blob>)

  /** A snapshot asked of a connection; `delivered` is what that had been sent by then. */
  datatype Request = Request(id: nat, seqUpto: nat, peer: nat, delivered: set<Blob>)

  /**
   * One instance's room: its log, the connections in the order of their welcome, whether it is closing, the seq a
   * starting request is for while the stored updates are being read, and the request in progress.
   */
  datatype Room = Room(log: Log, peers: seq<Peer>, closing: bool, starting: Option<nat>, request: Option<Request>)

  /** Whom some request was put to, and what that connection had been sent by then. */
  datatype Asked = Asked(peer: nat, delivered: set<Blob>)

  /** The stored board, the open rooms, and for the record every request ever put to a client, by its id. */
  datatype System = System(board: CipherBoard, rooms: map<nat, Room>, asked: map<nat, Asked>)

  /** What can happen in one room. */
  datatype RoomEvent = Welcome(peer: nat, canWrite: bool)
                     | Leave(peer: nat)
                     | SetClosing(closing: bool)
                     | ClientUpdate(peer: nat, n: nat, blob: Blob)
                     | ClusterUpdate(blob: Blob, ack: Option<Ack>)
                     | AppendCommits(batch: seq<NewUpdate<Blob>>)
                     | CatchUp
                     | StartRequest
                     | AskPeer(id: nat, upTo: nat)
                     | ReadFails
                     | TimeOut(id: nat)
                     | Answer(peer: nat, id: nat, contents: Contents)

  /** Rooms open and close on instances, and an append may commit without its room hearing of it. */
  datatype Event = Open(room: nat) | Evict(room: nat) | AppendUnheard(batch: seq<NewUpdate<Blob>>) | At(room: nat, event: RoomEvent)

  // ----- the steps of one room -----

  function SentAlso(blob: Blob): Peer -> Peer
  {
    (p: Peer) => p.(sent := p.sent + {blob})
  }

  /** Sends an envelope to every welcomed connection. */
  function Broadcast(peers: seq<Peer>, blob: Blob): seq<Peer>
  {
    Map(SentAlso(blob), peers)
  }

  /** A connection joins last; one that is there already keeps its place. */
  function Put(peers: seq<Peer>, peer: Peer): seq<Peer>
  {
    if peers == [] then [peer]
    else if peers[0].id == peer.id then [peer] + peers[1..]
    else [peers[0]] + Put(peers[1..], peer)
  }

  function IsOther(peer: nat): Peer -> bool { (p: Peer) => p.id != peer }

  /** The first connection that may write. */
  function FirstWriter(peers: seq<Peer>): (r: Option<Peer>)
    ensures if r.Some? then r.value in peers && r.value.canWrite else forall p | p in peers :: !p.canWrite
  {
    if peers == [] then None else if peers[0].canWrite then Some(peers[0]) else FirstWriter(peers[1..])
  }

  /** The connection at `i` may write and none before it may. */
  ghost predicate IsFirstWriter(peers: seq<Peer>, i: int)
  {
    0 <= i < |peers| && peers[i].canWrite && forall j | 0 <= j < i :: !peers[j].canWrite
  }

  /** Some row with a seq up to `n` holds the envelope. */
  ghost predicate IsRelayable(rows: seq<Row<Blob>>, n: nat, b: Blob)
  {
    exists r :: r in rows && r.seqNo <= n && r.content.update == b && b.isEnvelope
  }

  function EmptyRoom(): Room { Room(EmptyLog(), [], false, None, None) }

  function LoadRoom(b: CipherBoard): Room
  {
    var l := AddRows(EmptyLog().(snapshot := Latest(b)), b.updates);
    EmptyRoom().(log := l.(lastCommittedSeq := b.lastSeq))
  }

  /** A connection gets the snapshot and every entry; from then on it is sent every new one. */
  ghost function WelcomePeer(r: Room, peer: nat, canWrite: bool): Room
  {
    r.(peers := Put(r.peers, Peer(peer, canWrite, SnapshotContents(r.log) + Blobs(r.log.entries))))
  }

  function LeaveRoom(r: Room, peer: nat): Room
  {
    r.(peers := Filter(IsOther(peer), r.peers),
       request := if r.request.Some? && r.request.value.peer == peer then None else r.request)
  }

  /** An envelope arrives, from a local connection or from another instance; known ones are ignored. */
  function Receive(r: Room, blob: Blob, ack: Option<Ack>, seqNo: Option<nat>): Room
  {
    if blob in r.log.known then r
    else r.(log := AddTo(r.log, blob, ack, seqNo), peers := Broadcast(r.peers, blob))
  }

  /** Stored rows this room may never have seen are added and relayed, one after the other. */
  function ReceiveRows(r: Room, rows: seq<Row<Blob>>): Room
  {
    if rows == [] then r
    else
      var row := rows[|rows| - 1];
      Receive(ReceiveRows(r, rows[..|rows| - 1]), row.content.update, None, Some(row.seqNo))
  }

  function BeginRequest(r: Room): Room
  {
    if r.request.Some? || r.starting.Some? || r.closing || r.log.lastCommittedSeq <= Covered(r.log) || FirstWriter(r.peers) == None
    then r
    else r.(starting := Some(r.log.lastCommittedSeq))
  }

  /** Envelopes with a seq up to `n` are relayed. */
  function Relayable(n: nat): Row<Blob> -> bool
  {
    (r: Row<Blob>) => r.seqNo <= n && r.content.update.isEnvelope
  }

  /** What was read is relayed; then, unless the room is closing by now, the first connection that may write is asked. */
  function AskWith(r: Room, id: nat, read: seq<Row<Blob>>): Room
    requires r.starting.Some?
  {
    var n := r.starting.value;
    var sent := ReceiveRows(r, Filter(Relayable(n), read));
    var peer := FirstWriter(sent.peers);
    sent.(starting := None,
          request := if peer == None || sent.closing then sent.request else Some(Request(id, n, peer.value.id, peer.value.sent)))
  }

  /** The database was read up to some seq no lower than the one the request is for. */
  ghost function Ask(b: CipherBoard, r: Room, id: nat, upTo: nat): Room
    requires |Rows(b)| == b.lastSeq
  {
    if r.starting == None || !(r.starting.value <= upTo <= b.lastSeq) then r
    else AskWith(r, id, Rows(b)[Cut(Covered(r.log), 0, upTo)..upTo])
  }

  /** The answer comes from the connection that was asked, for the request it was asked. */
  predicate IsAnswered(r: Room, peer: nat, id: nat)
  {
    r.request.Some? && r.request.value.peer == peer && r.request.value.id == id
  }

  function Installed(r: Room, accepted: bool, contents: Contents): Room
    requires r.request.Some?
  {
    var l := if accepted then InstallIn(r.log, r.request.value.seqUpto, contents) else r.log;
    r.(log := l, request := None)
  }

  function TimedOut(r: Room, id: nat): Room
  {
    r.(request := if r.request.Some? && r.request.value.id == id then None else r.request)
  }

  lemma ReceiveRowsNext(r: Room, rows: seq<Row<Blob>>, row: Row<Blob>)
    ensures ReceiveRows(r, rows + [row]) == Receive(ReceiveRows(r, rows), row.content.update, None, Some(row.seqNo))
  {
    assert (rows + [row])[..|rows|] == rows;
  }

  lemma NothingReceived(r: Room)
    ensures ReceiveRows(r, []) == r
  {
  }

  function UpdateOf(): NewUpdate<Blob> -> Blob { (u: NewUpdate<Blob>) => u.update }

  /** One room's event: what becomes of the stored board and of the room. */
  ghost function RoomStep(b: CipherBoard, r: Room, e: RoomEvent): (t: (CipherBoard, Room))
    requires WellFormed(b)
    ensures WellFormed(t.0)
  {
    match e
    case Welcome(p, w) => (b, WelcomePeer(r, p, w))
    case Leave(p) => (b, LeaveRoom(r, p))
    case SetClosing(c) => (b, r.(closing := c))
    case ClientUpdate(p, n, blob) => (b, Receive(r, blob, Some(Ack(p, n)), None))
    case ClusterUpdate(blob, ack) => (b, Receive(r, blob, ack, None))
    case AppendCommits(batch) =>
      if batch == [] then (b, r)
      else AppendKeepsWellFormed(b, batch); (AppendTo(b, batch), r.(log := CommitIn(r.log, Map(UpdateOf(), batch), b.lastSeq + 1)))
    case CatchUp => (b, r.(log := CatchUpIn(r.log, Rows(b)[Cut(Covered(r.log), 0, b.lastSeq)..])))
    case StartRequest => (b, BeginRequest(r))
    case AskPeer(id, upTo) => (b, Ask(b, r, id, upTo))
    case ReadFails => (b, r.(starting := None))
    case TimeOut(id) => (b, TimedOut(r, id))
    case Answer(p, id, contents) =>
      if !IsAnswered(r, p, id) then (b, r)
      else
        var n := r.request.value.seqUpto;
        InstallKeepsWellFormed(b, n, contents);
        (InstallTo(b, n, contents), Installed(r, Accepts(b, n), contents))
  }

  ghost function Step(s: System, e: Event): (t: System)
    requires WellFormed(s.board)
    ensures WellFormed(t.board)
  {
    match e
    case Open(i) => s.(rooms := s.rooms[i := LoadRoom(s.board)])
    case Evict(i) => s.(rooms := s.rooms - {i})
    case AppendUnheard(batch) => AppendKeepsWellFormed(s.board, batch); s.(board := AppendTo(s.board, batch))
    case At(i, event) =>
      if i !in s.rooms then s
      else
        var (b, r) := RoomStep(s.board, s.rooms[i], event);
        System(b, s.rooms[i := r], Recorded(s.asked, s.rooms[i], r))
  }

  /** A new request goes on record. */
  function Recorded(asked: map<nat, Asked>, before: Room, after: Room): map<nat, Asked>
  {
    if after.request.Some? && after.request != before.request
    then var q := after.request.value; asked[q.id := Asked(q.peer, q.delivered)]
    else asked
  }

  /**
   * A connection answers the requests put to it, however late, with contents that include what it had been sent when
   * the request it names was put to it; what others send under that id may be anything.
   */
  ghost predicate Honest(asked: map<nat, Asked>, e: RoomEvent)
  {
    e.Answer? && e.id in asked && asked[e.id].peer == e.peer ==> asked[e.id].delivered <= e.contents
  }

  /** Ids of requests are never used again. */
  ghost predicate NewId(asked: map<nat, Asked>, e: RoomEvent)
  {
    e.AskPeer? ==> e.id !in asked
  }

  ghost predicate Allowed(s: System, e: Event)
  {
    e.At? ==> Honest(s.asked, e.event) && NewId(s.asked, e.event)
  }

  // ----- the invariant -----

  /** The envelopes in the rows with seq up to `n`. */
  ghost function Stored(b: CipherBoard, n: nat): set<Blob>
  {
    set r | r in Rows(b) && r.seqNo <= n && r.content.update.isEnvelope :: r.content.update
  }

  ghost predicate Holds(b: CipherBoard, n: nat, blob: Blob)
  {
    exists r :: r in Rows(b) && r.seqNo == n && r.content.update == blob
  }

  /** Everything the log answers for: the envelopes its snapshot covers, and those among its entries. */
  ghost function Answers(b: CipherBoard, l: Log): set<Blob>
  {
    Stored(b, Covered(l)) + Sealed(l.entries)
  }

  ghost predicate LogInvariant(b: CipherBoard, l: Log)
  {
    && l.lastCommittedSeq <= b.lastSeq && Covered(l) <= b.lastSeq
    && Stored(b, Covered(l)) <= SnapshotContents(l)
    && (forall e | e in l.entries && e.seqNo.Some? :: Holds(b, e.seqNo.value, e.blob))
    && Envelopes(l.known) <= Answers(b, l)
  }

  ghost predicate PeersInvariant(b: CipherBoard, r: Room)
  {
    forall p | p in r.peers :: Answers(b, r.log) <= p.sent
  }

  ghost predicate RequestInvariant(b: CipherBoard, r: Room)
  {
    && (r.starting.Some? ==> Covered(r.log) < r.starting.value <= b.lastSeq && r.request == None)
    && (r.request.Some? ==>
          var q := r.request.value;
          && Covered(r.log) < q.seqUpto <= b.lastSeq
          && Stored(b, q.seqUpto) <= q.delivered && Stored(b, q.seqUpto) <= Answers(b, r.log))
  }

  /** The request in progress is on record as it was put. */
  ghost predicate IsOnRecord(asked: map<nat, Asked>, r: Room)
  {
    r.request.Some? ==> var q := r.request.value; q.id in asked && asked[q.id] == Asked(q.peer, q.delivered)
  }

  ghost predicate RoomInvariant(b: CipherBoard, r: Room)
  {
    LogInvariant(b, r.log) && PeersInvariant(b, r) && RequestInvariant(b, r)
  }

  /** Every snapshot contains every stored envelope it claims to cover. */
  ghost predicate SnapshotsCover(b: CipherBoard)
  {
    forall s | s in b.snapshots :: Stored(b, s.seqUpto) <= s.state
  }

  ghost predicate Invariant(s: System)
  {
    && WellFormed(s.board) && SnapshotsCover(s.board)
    && forall i | i in s.rooms :: RoomInvariant(s.board, s.rooms[i]) && IsOnRecord(s.asked, s.rooms[i])
  }

  // ----- the board's steps leave the rooms' invariants alone -----

  /** `c` stores what `b` stores, and perhaps more after it. */
  ghost predicate Continues(b: CipherBoard, c: CipherBoard)
  {
    && b.lastSeq <= c.lastSeq
    && (forall r | r in Rows(b) :: r in Rows(c))
    && (forall r | r in Rows(c) && r.seqNo <= b.lastSeq :: r in Rows(b))
  }

  lemma AppendContinues(b: CipherBoard, us: seq<NewUpdate<Blob>>)
    requires WellFormed(b)
    ensures Continues(b, AppendTo(b, us)) && WellFormed(AppendTo(b, us))
  {
    var c := AppendTo(b, us);
    assert Rows(c) == Rows(b) + Numbered(us, b.lastSeq + 1);
    AppendKeepsWellFormed(b, us);
  }

  lemma InstallContinues(b: CipherBoard, n: nat, contents: Contents)
    requires WellFormed(b)
    ensures Continues(b, InstallTo(b, n, contents)) && WellFormed(InstallTo(b, n, contents))
    ensures Rows(InstallTo(b, n, contents)) == Rows(b)
  {
    InstallKeepsWellFormed(b, n, contents);
    assert Accepts(b, n) ==> Rows(InstallTo(b, n, contents)) == Rows(b);
  }

  lemma StoredStays(b: CipherBoard, c: CipherBoard, n: nat)
    requires Continues(b, c) && n <= b.lastSeq
    ensures Stored(c, n) == Stored(b, n)
  {
    hide Rows;
  }

  lemma ContinuingKeepsRoom(b: CipherBoard, c: CipherBoard, r: Room)
    requires Continues(b, c) && RoomInvariant(b, r)
    ensures RoomInvariant(c, r)
  {
    hide Rows, Sealed;
    StoredStays(b, c, Covered(r.log));
    if r.request.Some? {
      StoredStays(b, c, r.request.value.seqUpto);
    }
    forall e | e in r.log.entries && e.seqNo.Some?
      ensures Holds(c, e.seqNo.value, e.blob)
    {
      assert Holds(b, e.seqNo.value, e.blob);
    }
    hide Stored, Holds, Continues;
  }

  lemma ContinuingKeepsSnapshots(b: CipherBoard, c: CipherBoard)
    requires Continues(b, c) && SnapshotsCover(b) && WellFormed(b) && c.snapshots == b.snapshots
    ensures SnapshotsCover(c)
  {
    hide Rows;
    forall s | s in c.snapshots
      ensures Stored(c, s.seqUpto) <= s.state
    {
      StoredStays(b, c, s.seqUpto);
    }
  }

  // ----- the steps of a room keep its invariant -----

  lemma SealedAppend(a: seq<Entry>, b: seq<Entry>)
    ensures Sealed(a + b) == Sealed(a) + Sealed(b)
  {
  }

  lemma AddKeepsLog(b: CipherBoard, l: Log, blob: Blob, ack: Option<Ack>, seqNo: Option<nat>)
    requires LogInvariant(b, l) && (seqNo.Some? ==> Holds(b, seqNo.value, blob) && seqNo.value <= b.lastSeq)
    ensures LogInvariant(b, AddTo(l, blob, ack, seqNo))
    ensures Answers(b, AddTo(l, blob, ack, seqNo)) == Answers(b, l) + (if blob.isEnvelope then {blob} else {}) || blob in l.known
  {
    hide Stored, Holds, Raise;
    SealedAppend(l.entries, [Entry(blob, ack, seqNo)]);
    assert Sealed([Entry(blob, ack, seqNo)]) == if blob.isEnvelope then {blob} else {};
    assert Envelopes(l.known + {blob}) == Envelopes(l.known) + if blob.isEnvelope then {blob} else {};
    hide Sealed, Envelopes;
  }

  lemma ReceiveKeepsRoom(b: CipherBoard, r: Room, blob: Blob, ack: Option<Ack>, seqNo: Option<nat>)
    requires RoomInvariant(b, r) && (seqNo.Some? ==> Holds(b, seqNo.value, blob) && seqNo.value <= b.lastSeq)
    ensures RoomInvariant(b, Receive(r, blob, ack, seqNo))
    ensures blob.isEnvelope ==> blob in Answers(b, Receive(r, blob, ack, seqNo).log)
    ensures Answers(b, r.log) <= Answers(b, Receive(r, blob, ack, seqNo).log)
    ensures Covered(Receive(r, blob, ack, seqNo).log) == Covered(r.log)
  {
    hide Stored, Holds, Raise, Sealed;
    AddKeepsLog(b, r.log, blob, ack, seqNo);
    assert Covered(AddTo(r.log, blob, ack, seqNo)) == Covered(r.log);
    hide LogInvariant, Answers;
    assert blob in r.log.known && blob.isEnvelope ==> blob in Answers(b, r.log) by {
      KnownIsAnswered(b, r.log, blob);
    }
  }

  lemma KnownIsAnswered(b: CipherBoard, l: Log, blob: Blob)
    requires LogInvariant(b, l)
    ensures blob in l.known && blob.isEnvelope ==> blob in Answers(b, l)
  {
  }

  /** `rows` are stored rows. */
  ghost predicate AreStored(b: CipherBoard, rows: seq<Row<Blob>>)
  {
    forall r | r in rows :: r in Rows(b) && r.seqNo <= b.lastSeq
  }

  lemma StoredRowHolds(b: CipherBoard, row: Row<Blob>)
    requires row in Rows(b)
    ensures Holds(b, row.seqNo, row.content.update)
  {
  }

  lemma {:induction false} ReceiveRowsKeepsRoom(b: CipherBoard, r: Room, rows: seq<Row<Blob>>)
    requires RoomInvariant(b, r) && AreStored(b, rows)
    ensures var t := ReceiveRows(r, rows);
      && RoomInvariant(b, t) && Answers(b, r.log) <= Answers(b, t.log) && Covered(t.log) == Covered(r.log)
      && t.starting == r.starting && t.request == r.request
      && forall x | x in rows && x.content.update.isEnvelope :: x.content.update in Answers(b, t.log)
  {
    if rows != [] {
      var front, row := rows[..|rows| - 1], rows[|rows| - 1];
      assert forall x | x in front :: x in rows;
      assert row in rows;
      assert forall x | x in rows :: x in front || x == row;
      ReceiveRowsKeepsRoom(b, r, front);
      StoredRowHolds(b, row);
      hide RoomInvariant, Answers, Rows, Holds, WellFormed;
      ReceiveKeepsRoom(b, ReceiveRows(r, front), row.content.update, None, Some(row.seqNo));
    }
  }

  lemma {:induction false} AddRowsKeepsLog(b: CipherBoard, l: Log, rows: seq<Row<Blob>>)
    requires LogInvariant(b, l) && AreStored(b, rows)
    ensures LogInvariant(b, AddRows(l, rows))
  {
    if rows != [] {
      var front, row := rows[..|rows| - 1], rows[|rows| - 1];
      assert forall x | x in front :: x in rows;
      assert row in rows;
      AddRowsKeepsLog(b, l, front);
      StoredRowHolds(b, row);
      hide LogInvariant, Rows, Holds;
      AddKeepsLog(b, AddRows(l, front), row.content.update, None, Some(row.seqNo));
    }
  }

  lemma LoadMakesRoom(b: CipherBoard)
    requires WellFormed(b) && SnapshotsCover(b)
    ensures RoomInvariant(b, LoadRoom(b))
  {
    hide Stored, Holds;
    var l := EmptyLog().(snapshot := Latest(b));
    assert Stored(b, 0) == {} by { NothingBeforeFirst(b); }
    assert b.snapshots != [] ==> b.snapshots[|b.snapshots| - 1] in b.snapshots;
    assert Sealed(l.entries) == {};
    assert LogInvariant(b, l);
    forall r | r in b.updates
      ensures r in Rows(b) && r.seqNo <= b.lastSeq
    {
      assert r in Rows(b);
    }
    AddRowsKeepsLog(b, l, b.updates);
    LoadedLogIsCovered(b, AddRows(l, b.updates));
  }

  lemma LoadedHasNoRequest(asked: map<nat, Asked>, b: CipherBoard)
    ensures IsOnRecord(asked, LoadRoom(b))
  {
  }

  lemma LoadedLogIsCovered(b: CipherBoard, l: Log)
    requires LogInvariant(b, l)
    ensures LogInvariant(b, l.(lastCommittedSeq := b.lastSeq))
  {
    hide Stored, Holds, Sealed;
  }

  lemma NothingBeforeFirst(b: CipherBoard)
    requires WellFormed(b)
    ensures Stored(b, 0) == {}
  {
  }

  lemma {:induction false} PutMember(peers: seq<Peer>, peer: Peer, p: Peer)
    ensures p in Put(peers, peer) ==> p == peer || p in peers
  {
    if peers != [] && peers[0].id != peer.id {
      PutMember(peers[1..], peer, p);
    }
  }

  lemma WelcomeKeepsRoom(b: CipherBoard, r: Room, peer: nat, canWrite: bool)
    requires RoomInvariant(b, r)
    ensures RoomInvariant(b, WelcomePeer(r, peer, canWrite))
  {
    var t, newcomer := WelcomePeer(r, peer, canWrite), Peer(peer, canWrite, SnapshotContents(r.log) + Blobs(r.log.entries));
    assert Sealed(r.log.entries) <= Blobs(r.log.entries);
    hide Stored, Holds, Sealed, Blobs, Put;
    forall p | p in t.peers
      ensures Answers(b, r.log) <= p.sent
    {
      PutMember(r.peers, newcomer, p);
    }
  }

  lemma LeaveKeepsRoom(b: CipherBoard, r: Room, peer: nat)
    requires RoomInvariant(b, r)
    ensures RoomInvariant(b, LeaveRoom(r, peer))
  {
    hide Stored, Holds, Sealed, Filter;
    forall p | p in LeaveRoom(r, peer).peers
      ensures p in r.peers
    {
      FilterMember(IsOther(peer), r.peers, p);
    }
  }

  lemma RequestsKeepRoom(b: CipherBoard, r: Room, id: nat, closing: bool)
    requires RoomInvariant(b, r)
    ensures RoomInvariant(b, BeginRequest(r)) && RoomInvariant(b, TimedOut(r, id))
    ensures RoomInvariant(b, r.(starting := None)) && RoomInvariant(b, r.(closing := closing))
  {
    hide Stored, Holds, Sealed, FirstWriter;
  }

  lemma {:induction false} RenumberKeepsSealed(f: Entry -> Entry, entries: seq<Entry>)
    requires forall e: Entry :: f(e).blob == e.blob
    ensures Sealed(Map(f, entries)) == Sealed(entries)
  {
    if entries != [] {
      RenumberKeepsSealed(f, entries[1..]);
      SealedAppend([f(entries[0])], Map(f, entries[1..]));
      SealedAppend([entries[0]], entries[1..]);
      assert entries == [entries[0]] + entries[1..];
      assert Sealed([f(entries[0])]) == Sealed([entries[0]]);
    }
  }

  /** Each entry keeps its envelope, and gets a new seq only if that envelope is stored there. */
  ghost predicate Truthful(b: CipherBoard, f: Entry -> Entry)
  {
    forall e: Entry :: f(e).blob == e.blob && (f(e) == e || (f(e).seqNo.Some? && Holds(b, f(e).seqNo.value, e.blob)))
  }

  /** Renumbering entries truthfully changes nothing else. */
  lemma RenumberKeepsRoom(b: CipherBoard, r: Room, f: Entry -> Entry, committed: nat)
    requires RoomInvariant(b, r) && committed <= b.lastSeq && Truthful(b, f)
    ensures RoomInvariant(b, r.(log := r.log.(entries := Map(f, r.log.entries), lastCommittedSeq := committed)))
  {
    hide Stored, Holds, Sealed;
    var entries := Map(f, r.log.entries);
    RenumberKeepsSealed(f, r.log.entries);
    forall e | e in entries && e.seqNo.Some?
      ensures Holds(b, e.seqNo.value, e.blob)
    {
      var i :| 0 <= i < |entries| && entries[i] == e;
      assert r.log.entries[i] in r.log.entries;
    }
    hide Map;
  }

  lemma CommitKeepsRoom(b: CipherBoard, r: Room, batch: seq<NewUpdate<Blob>>)
    requires WellFormed(b) && RoomInvariant(b, r) && batch != []
    ensures var c := AppendTo(b, batch);
      RoomInvariant(c, r.(log := CommitIn(r.log, Map(UpdateOf(), batch), b.lastSeq + 1)))
  {
    var c, first, blobs := AppendTo(b, batch), b.lastSeq + 1, Map(UpdateOf(), batch);
    AppendContinues(b, batch);
    ContinuingKeepsRoom(b, c, r);
    hide RoomInvariant;
    assert Truthful(c, Numbering(blobs, first)) by {
      forall e: Entry
        ensures var f := Numbering(blobs, first);
          f(e).blob == e.blob && (f(e) == e || (f(e).seqNo.Some? && Holds(c, f(e).seqNo.value, e.blob)))
      {
        BatchSeqHolds(b, batch, e);
      }
    }
    hide Truthful;
    assert CommitIn(r.log, blobs, first).lastCommittedSeq <= c.lastSeq by { LogBound(c, r); }
    RenumberKeepsRoom(c, r, Numbering(blobs, first), CommitIn(r.log, blobs, first).lastCommittedSeq);
  }

  lemma LogBound(b: CipherBoard, r: Room)
    requires RoomInvariant(b, r)
    ensures r.log.lastCommittedSeq <= b.lastSeq && Covered(r.log) <= b.lastSeq
  {
  }

  lemma NumberedRowHolds(b: CipherBoard, batch: seq<NewUpdate<Blob>>, k: nat)
    requires WellFormed(b) && k < |batch|
    ensures Holds(AppendTo(b, batch), b.lastSeq + 1 + k, batch[k].update)
  {
    var c, row := AppendTo(b, batch), Row(b.lastSeq + 1 + k, batch[k]);
    assert Rows(c) == Rows(b) + Numbered(batch, b.lastSeq + 1);
    assert Rows(c)[|Rows(b)| + k] == row;
    assert row in Rows(c);
    hide Rows, AppendTo, WellFormed;
    StoredRowHolds(c, row);
  }

  lemma BatchSeqHolds(b: CipherBoard, batch: seq<NewUpdate<Blob>>, e: Entry)
    requires WellFormed(b)
    ensures var f := Numbering(Map(UpdateOf(), batch), b.lastSeq + 1);
      f(e).blob == e.blob && (f(e) == e || (f(e).seqNo.Some? && Holds(AppendTo(b, batch), f(e).seqNo.value, e.blob)))
  {
    var c, first, blobs := AppendTo(b, batch), b.lastSeq + 1, Map(UpdateOf(), batch);
    SeqInBatchIsLast(blobs, first, e.blob);
    var n := SeqInBatch(blobs, first, e.blob);
    if n.Some? {
      NumberedRowHolds(b, batch, n.value - first);
    }
    hide Holds, AppendTo, SeqInBatch;
  }

  lemma CatchUpKeepsRoom(b: CipherBoard, r: Room, rows: seq<Row<Blob>>)
    requires RoomInvariant(b, r) && forall x | x in rows :: x in Rows(b)
    ensures RoomInvariant(b, r.(log := CatchUpIn(r.log, rows)))
  {
    assert Truthful(b, Locating(rows)) by {
      forall e: Entry
        ensures var f := Locating(rows);
          f(e).blob == e.blob && (f(e) == e || (f(e).seqNo.Some? && Holds(b, f(e).seqNo.value, e.blob)))
      {
        SeqInRowsIsTrue(rows, e.blob);
      }
    }
    hide RoomInvariant, Truthful;
    LogBound(b, r);
    RenumberKeepsRoom(b, r, Locating(rows), r.log.lastCommittedSeq);
    assert CatchUpIn(r.log, rows) == r.log.(entries := Map(Locating(rows), r.log.entries), lastCommittedSeq := r.log.lastCommittedSeq);
  }

  /** What is relayed before asking: the stored rows after `covered` up to `n`. */
  ghost function Relayed(b: CipherBoard, covered: nat, n: nat, upTo: nat): seq<Row<Blob>>
    requires upTo <= |Rows(b)|
  {
    Filter(Relayable(n), Rows(b)[Cut(covered, 0, upTo)..upTo])
  }

  lemma RelayedAreStored(b: CipherBoard, covered: nat, n: nat, upTo: nat)
    requires WellFormed(b) && upTo <= b.lastSeq
    ensures AreStored(b, Relayed(b, covered, n, upTo))
  {
    var read := Rows(b)[Cut(covered, 0, upTo)..upTo];
    forall x | x in Relayed(b, covered, n, upTo)
      ensures x in Rows(b) && x.seqNo <= b.lastSeq
    {
      FilterMember(Relayable(n), read, x);
      assert x in Rows(b);
    }
  }

  /** The relayed rows are all that a snapshot up to `n` has to cover beyond `covered`. */
  lemma RelayedCover(b: CipherBoard, covered: nat, n: nat, upTo: nat, blob: Blob)
    requires WellFormed(b) && covered <= n <= upTo <= b.lastSeq && blob in Stored(b, n)
    ensures blob in Stored(b, covered) || (blob.isEnvelope && exists x :: x in Relayed(b, covered, n, upTo) && x.content.update == blob)
  {
    var read := Rows(b)[Cut(covered, 0, upTo)..upTo];
    var x :| x in Rows(b) && x.seqNo <= n && x.content.update == blob && blob.isEnvelope;
    if x.seqNo > covered {
      var i :| 0 <= i < |Rows(b)| && Rows(b)[i] == x;
      assert read[i - covered] == x;
      FilterMember(Relayable(n), read, x);
    }
  }

  lemma AskKeepsRoom(b: CipherBoard, r: Room, id: nat, upTo: nat)
    requires WellFormed(b) && RoomInvariant(b, r)
    ensures RoomInvariant(b, Ask(b, r, id, upTo))
  {
    if r.starting.Some? && r.starting.value <= upTo <= b.lastSeq {
      var n, covered := r.starting.value, Covered(r.log);
      var rows := Relayed(b, covered, n, upTo);
      RelayedAreStored(b, covered, n, upTo);
      ReceiveRowsKeepsRoom(b, r, rows);
      var sent := ReceiveRows(r, rows);
      var peer := FirstWriter(sent.peers);
      forall blob | blob in Stored(b, n)
        ensures blob in Answers(b, sent.log)
      {
        RelayedCover(b, covered, n, upTo, blob);
      }
      assert Ask(b, r, id, upTo)
          == sent.(starting := None,
                   request := if peer == None || sent.closing then sent.request else Some(Request(id, n, peer.value.id, peer.value.sent)));
      hide ReceiveRows, Stored, Rows, Holds, Sealed, Relayed, WellFormed, Ask, FirstWriter;
    }
  }

  /** Folding away what the new snapshot covers loses nothing the log answered for. */
  lemma InstallKeepsRoom(b: CipherBoard, r: Room, accepted: bool, contents: Contents)
    requires RoomInvariant(b, r) && r.request.Some? && r.request.value.delivered <= contents
    ensures RoomInvariant(b, Installed(r, accepted, contents))
  {
    if accepted {
      var n := r.request.value.seqUpto;
      var l := InstallIn(r.log, n, contents);
      InstalledAnswers(b, r.log, n, contents);
      forall e | e in l.entries
        ensures e in r.log.entries
      {
        FilterMember(After(n), r.log.entries, e);
      }
      hide Stored, Holds, Sealed, Filter;
    }
  }

  lemma InstalledAnswers(b: CipherBoard, l: Log, n: nat, contents: Contents)
    requires Covered(l) < n && Stored(b, n) <= Answers(b, l)
    requires forall e | e in l.entries && e.seqNo.Some? :: Holds(b, e.seqNo.value, e.blob)
    ensures Answers(b, InstallIn(l, n, contents)) == Answers(b, l)
  {
    var kept := Filter(After(n), l.entries);
    hide Rows;
    assert forall blob :: blob in Stored(b, Covered(l)) ==> blob in Stored(b, n);
    forall blob
      ensures blob in Sealed(l.entries) ==> blob in Stored(b, n) + Sealed(kept)
      ensures blob in Sealed(kept) ==> blob in Sealed(l.entries)
    {
      if blob in Sealed(l.entries) {
        var e :| e in l.entries && e.blob == blob;
        FilterMember(After(n), l.entries, e);
        if e.seqNo.Some? && e.seqNo.value <= n {
          assert Holds(b, e.seqNo.value, e.blob);
        }
      }
      if blob in Sealed(kept) {
        var e :| e in kept && e.blob == blob;
        FilterMember(After(n), l.entries, e);
      }
    }
    hide Stored, Sealed, Filter;
  }

  lemma InstallKeepsSnapshots(b: CipherBoard, r: Room, contents: Contents)
    requires WellFormed(b) && SnapshotsCover(b) && RoomInvariant(b, r)
    requires r.request.Some? && r.request.value.delivered <= contents
    ensures SnapshotsCover(InstallTo(b, r.request.value.seqUpto, contents))
  {
    var n := r.request.value.seqUpto;
    var c := InstallTo(b, n, contents);
    InstallContinues(b, n, contents);
    assert forall k: nat :: Stored(c, k) == Stored(b, k);
    hide Stored;
  }

  // ----- answers -----

  /** An answer that is taken has all that was delivered for the request in progress. */
  ghost predicate Suffices(r: Room, e: RoomEvent)
  {
    e.Answer? && IsAnswered(r, e.peer, e.id) ==> r.request.Some? && r.request.value.delivered <= e.contents
  }

  /** Late answers, answers of others and answers to other requests are not taken, so honest clients suffice. */
  lemma HonestSuffices(asked: map<nat, Asked>, r: Room, e: RoomEvent)
    requires IsOnRecord(asked, r) && Honest(asked, e)
    ensures Suffices(r, e)
  {
  }

  /** Without a request, or from another connection, or for another request, an answer changes nothing. */
  lemma StrayAnswerChangesNothing(b: CipherBoard, r: Room, peer: nat, id: nat, contents: Contents)
    requires WellFormed(b)
    requires r.request.None? || r.request.value.peer != peer || r.request.value.id != id
    ensures RoomStep(b, r, Answer(peer, id, contents)) == (b, r)
  {
  }

  /** Only asking makes a request, under the id it was given. */
  lemma OnlyAskingRequests(b: CipherBoard, r: Room, e: RoomEvent)
    requires WellFormed(b)
    ensures var t := RoomStep(b, r, e).1;
      t.request.Some? && t.request != r.request ==> e.AskPeer? && t.request.value.id == e.id
  {
    hide Rows, InstallTo, AppendTo;
    match e
    case ClientUpdate(p, n, blob) =>
    case ClusterUpdate(blob, ack) =>
    case AskPeer(id, upTo) =>
      if r.starting.Some? && r.starting.value <= upTo <= b.lastSeq {
        RelayingMakesNoRequest(r, Filter(Relayable(r.starting.value), Rows(b)[Cut(Covered(r.log), 0, upTo)..upTo]));
        hide ReceiveRows, Filter;
      }
    case _ =>
  }

  lemma {:induction false} RelayingMakesNoRequest(r: Room, rows: seq<Row<Blob>>)
    ensures ReceiveRows(r, rows).request == r.request && ReceiveRows(r, rows).closing == r.closing
  {
    if rows != [] {
      RelayingMakesNoRequest(r, rows[..|rows| - 1]);
    }
  }

  lemma RecordStays(asked: map<nat, Asked>, b: CipherBoard, r: Room, e: RoomEvent, other: Room)
    requires WellFormed(b) && NewId(asked, e)
    ensures var t := RoomStep(b, r, e).1; var now := Recorded(asked, r, t);
      (IsOnRecord(asked, r) ==> IsOnRecord(now, t)) && (IsOnRecord(asked, other) ==> IsOnRecord(now, other))
  {
    OnlyAskingRequests(b, r, e);
    hide RoomStep, WellFormed;
  }

  ghost predicate IsStorageEvent(e: RoomEvent)
  {
    e.AppendCommits? || e.Answer?
  }

  lemma AppendKeepsSnapshots(b: CipherBoard, batch: seq<NewUpdate<Blob>>)
    ensures AppendTo(b, batch).snapshots == b.snapshots
  {
  }

  lemma AppendStep(b: CipherBoard, r: Room, batch: seq<NewUpdate<Blob>>)
    requires WellFormed(b) && SnapshotsCover(b) && RoomInvariant(b, r) && Suffices(r, AppendCommits(batch))
    ensures var (c, t) := RoomStep(b, r, AppendCommits(batch));
      WellFormed(c) && SnapshotsCover(c) && Continues(b, c) && RoomInvariant(c, t)
  {
    if batch == [] { ContinuesItself(b); }
    hide Stored, Holds, Sealed, Rows, SnapshotsCover, RoomInvariant, Continues, WellFormed, AppendTo;
    if batch != [] {
      assert AppendTo(b, batch).snapshots == b.snapshots by { AppendKeepsSnapshots(b, batch); }
      AppendContinues(b, batch);
      ContinuingKeepsSnapshots(b, AppendTo(b, batch));
      CommitKeepsRoom(b, r, batch);
    }
  }

  lemma AnswerStep(b: CipherBoard, r: Room, peer: nat, id: nat, contents: set<Blob>)
    requires WellFormed(b) && SnapshotsCover(b) && RoomInvariant(b, r) && Suffices(r, Answer(peer, id, contents))
    ensures var (c, t) := RoomStep(b, r, Answer(peer, id, contents));
      WellFormed(c) && SnapshotsCover(c) && Continues(b, c) && RoomInvariant(c, t)
  {
    hide Stored, Holds, Sealed, Rows;
    if !IsAnswered(r, peer, id) {
      ContinuesItself(b);
    } else {
      var n := r.request.value.seqUpto;
      InstallContinues(b, n, contents);
      InstallKeepsSnapshots(b, r, contents);
      InstallKeepsRoom(b, r, Accepts(b, n), contents);
      ContinuingKeepsRoom(b, InstallTo(b, n, contents), Installed(r, Accepts(b, n), contents));
    }
  }

  lemma RoomStepKeepsInvariant(b: CipherBoard, r: Room, e: RoomEvent)
    requires WellFormed(b) && SnapshotsCover(b) && RoomInvariant(b, r) && Suffices(r, e)
    ensures var (c, t) := RoomStep(b, r, e);
      WellFormed(c) && SnapshotsCover(c) && Continues(b, c) && RoomInvariant(c, t)
  {
    if IsStorageEvent(e) {
      hide RoomStep, WellFormed, SnapshotsCover, RoomInvariant, Suffices, Continues;
      if e.Answer? { AnswerStep(b, r, e.peer, e.id, e.contents); } else { AppendStep(b, r, e.batch); }
    } else {
      MessageStep(b, r, e);
    }
  }

  lemma MessageStep(b: CipherBoard, r: Room, e: RoomEvent)
    requires WellFormed(b) && SnapshotsCover(b) && RoomInvariant(b, r) && Suffices(r, e) && !IsStorageEvent(e)
    ensures var (c, t) := RoomStep(b, r, e); c == b && Continues(b, c) && RoomInvariant(c, t)
  {
    hide Stored, Holds, Sealed, Rows;
    match e
    case Welcome(p, w) => WelcomeKeepsRoom(b, r, p, w);
    case Leave(p) => LeaveKeepsRoom(b, r, p);
    case SetClosing(c) => RequestsKeepRoom(b, r, 0, c);
    case ClientUpdate(p, n, blob) => ReceiveKeepsRoom(b, r, blob, Some(Ack(p, n)), None);
    case ClusterUpdate(blob, ack) => ReceiveKeepsRoom(b, r, blob, ack, None);
    case CatchUp =>
      RowsAreStored(b, Cut(Covered(r.log), 0, b.lastSeq));
      CatchUpKeepsRoom(b, r, Rows(b)[Cut(Covered(r.log), 0, b.lastSeq)..]);
    case StartRequest => RequestsKeepRoom(b, r, 0, false);
    case AskPeer(id, upTo) => AskKeepsRoom(b, r, id, upTo);
    case ReadFails => RequestsKeepRoom(b, r, 0, false);
    case TimeOut(id) => RequestsKeepRoom(b, r, id, false);
    case _ =>
  }

  lemma RowsAreStored(b: CipherBoard, k: nat)
    requires WellFormed(b) && k <= b.lastSeq
    ensures forall x | x in Rows(b)[k..] :: x in Rows(b)
  {
  }

  lemma StepKeepsInvariant(s: System, e: Event)
    requires Invariant(s) && Allowed(s, e)
    ensures Invariant(Step(s, e)) && Continues(s.board, Step(s, e).board)
  {
    hide RoomInvariant, Stored, Rows, WellFormed, SnapshotsCover, Honest, NewId, Suffices, IsOnRecord, Recorded;
    match e
    case Open(i) => LoadMakesRoom(s.board); LoadedHasNoRequest(s.asked, s.board); ContinuesItself(s.board);
    case Evict(i) => ContinuesItself(s.board);
    case AppendUnheard(batch) =>
      AppendContinues(s.board, batch);
      ContinuingKeepsSnapshots(s.board, AppendTo(s.board, batch));
      forall i | i in s.rooms
        ensures RoomInvariant(AppendTo(s.board, batch), s.rooms[i])
      {
        ContinuingKeepsRoom(s.board, AppendTo(s.board, batch), s.rooms[i]);
      }
    case At(i, event) =>
      if i in s.rooms {
        HonestSuffices(s.asked, s.rooms[i], event);
        RoomStepKeepsInvariant(s.board, s.rooms[i], event);
        var (c, t) := RoomStep(s.board, s.rooms[i], event);
        forall j | j in s.rooms
          ensures RoomInvariant(c, s.rooms[j])
          ensures IsOnRecord(Recorded(s.asked, s.rooms[i], t), s.rooms[j]) && IsOnRecord(Recorded(s.asked, s.rooms[i], t), t)
        {
          ContinuingKeepsRoom(s.board, c, s.rooms[j]);
          RecordStays(s.asked, s.board, s.rooms[i], event, s.rooms[j]);
        }
        hide RoomStep;
      } else {
        ContinuesItself(s.board);
      }
  }

  lemma ContinuesItself(b: CipherBoard)
    ensures Continues(b, b)
  {
  }

  // ----- every run -----

  ghost function Run(s: System, events: seq<Event>): (t: System)
    requires WellFormed(s.board)
    ensures WellFormed(t.board)
    decreases |events|
  {
    if events == [] then s else Run(Step(s, events[0]), events[1..])
  }

  ghost predicate AllowedRun(s: System, events: seq<Event>)
    requires WellFormed(s.board)
    decreases |events|
  {
    events == [] || (Allowed(s, events[0]) && AllowedRun(Step(s, events[0]), events[1..]))
  }

  lemma {:induction false} RunKeepsInvariant(s: System, events: seq<Event>)
    requires Invariant(s) && AllowedRun(s, events)
    ensures Invariant(Run(s, events)) && Continues(s.board, Run(s, events).board)
    decreases |events|
  {
    hide WellFormed, SnapshotsCover, RoomInvariant, Rows, Step, Allowed;
    if events == [] {
      ContinuesItself(s.board);
    } else {
      StepKeepsInvariant(s, events[0]);
      RunKeepsInvariant(Step(s, events[0]), events[1..]);
      ContinuesOn(s.board, Step(s, events[0]).board, Run(s, events).board);
    }
  }

  lemma ContinuesOn(a: CipherBoard, b: CipherBoard, c: CipherBoard)
    requires Continues(a, b) && Continues(b, c)
    ensures Continues(a, c)
  {
    hide Rows;
  }

  ghost function LatestContents(b: CipherBoard): Contents
  {
    if b.snapshots == [] then {} else b.snapshots[|b.snapshots| - 1].state
  }

  /** What a client that loads the board gets: the latest snapshot and the live rows. */
  ghost function Loadable(b: CipherBoard): set<Blob>
  {
    LatestContents(b) + (set r | r in b.updates :: r.content.update)
  }

  lemma CoveringBoardHoldsEverything(b: CipherBoard)
    requires WellFormed(b) && SnapshotsCover(b)
    ensures Stored(b, b.lastSeq) <= Loadable(b)
  {
    forall blob | blob in Stored(b, b.lastSeq)
      ensures blob in Loadable(b)
    {
      var r :| r in Rows(b) && r.seqNo <= b.lastSeq && r.content.update == blob;
      var i :| 0 <= i < |Rows(b)| && Rows(b)[i] == r;
      if i < LatestUpto(b) {
        assert blob in Stored(b, LatestUpto(b));
        assert b.snapshots[|b.snapshots| - 1] in b.snapshots;
      } else {
        assert b.updates[i - LatestUpto(b)] == r;
      }
    }
  }

  /** A newly opened room has everything that is stored. */
  ghost predicate LoadedRoomHolds(b: CipherBoard)
  {
    Stored(b, b.lastSeq) <= SnapshotContents(LoadRoom(b).log) + Blobs(LoadRoom(b).log.entries)
  }

  /** A loaded log covers what the latest snapshot does and has every live row as an entry. */
  lemma LoadedRoomIs(b: CipherBoard)
    ensures var l := LoadRoom(b).log;
      SnapshotContents(l) == LatestContents(b) && forall r | r in b.updates :: r.content.update in Blobs(l.entries)
  {
    var l := EmptyLog().(snapshot := Latest(b));
    assert Blobs(l.entries) == {};
    RowsAreKnown(l, b.updates);
    hide AddRows, Blobs;
  }

  lemma LoadedRoomHoldsEverything(b: CipherBoard)
    requires WellFormed(b) && SnapshotsCover(b)
    ensures LoadedRoomHolds(b)
  {
    LoadedRoomIs(b);
    CoveringBoardHoldsEverything(b);
    hide Blobs, LoadRoom, SnapshotContents, LatestContents, Stored, WellFormed, SnapshotsCover;
  }

  lemma {:induction false} RunAppend(s: System, a: seq<Event>, b: seq<Event>)
    requires WellFormed(s.board)
    ensures Run(s, a + b) == Run(Run(s, a), b)
    ensures AllowedRun(s, a + b) ==> AllowedRun(s, a) && AllowedRun(Run(s, a), b)
    decreases |a|
  {
    hide WellFormed, Step, Allowed;
    if a == [] {
      assert a + b == b;
    } else {
      assert (a + b)[1..] == a[1..] + b;
      RunAppend(Step(s, a[0]), a[1..], b);
    }
  }

  /** Nothing stored yet, no room open. */
  ghost function Start(): (s: System)
    ensures Invariant(s)
  {
    System(Fresh(), map[], map[])
  }

  /** In every reachable state each installed snapshot contains every stored envelope with a seq it claims to cover. */
  lemma InstalledSnapshotsCover(events: seq<Event>)
    requires AllowedRun(Start(), events)
    ensures forall s | s in Run(Start(), events).board.snapshots :: Stored(Run(Start(), events).board, s.seqUpto) <= s.state
  {
    RunKeepsInvariant(Start(), events);
    hide Stored, WellFormed, RoomInvariant;
  }

  /**
   * Private boards lose nothing to compaction: every envelope that had been stored by some point of a run, by any
   * instance, is at every later point in the latest snapshot or among the live rows.
   */
  lemma SnapshotAndLiveRowsHoldEverything(before: seq<Event>, after: seq<Event>)
    requires AllowedRun(Start(), before + after)
    ensures var b, c := Run(Start(), before).board, Run(Start(), before + after).board;
      Stored(b, b.lastSeq) <= Loadable(c)
  {
    RunAppend(Start(), before, after);
    RunKeepsInvariant(Start(), before);
    RunKeepsInvariant(Run(Start(), before), after);
    var b, c := Run(Start(), before).board, Run(Start(), before + after).board;
    hide AllowedRun, Run;
    CoveringBoardHoldsEverything(c);
    StoredGrows(b, c);
  }

  /**
   * In every run: a connection welcomed by a room that was just opened is sent every envelope stored by then, by any
   * instance and however often the board was compacted.
   */
  lemma OpenedRoomSendsEverything(events: seq<Event>, i: nat, p: nat, canWrite: bool)
    requires AllowedRun(Start(), events)
    ensures var s := Run(Start(), events); var t := Step(Step(s, Open(i)), At(i, Welcome(p, canWrite)));
      i in t.rooms && exists c :: c in t.rooms[i].peers && c.id == p && Stored(t.board, t.board.lastSeq) <= c.sent
  {
    RunKeepsInvariant(Start(), events);
    var s := Run(Start(), events);
    hide AllowedRun, Run, IsOnRecord, RoomInvariant, LoadedRoomHolds;
    OpenedSends(s, i, p, canWrite);
  }

  /** An envelope arrives in a room, from one of its connections or from another instance. */
  ghost predicate Brings(e: RoomEvent, blob: Blob)
  {
    (e.ClientUpdate? || e.ClusterUpdate?) && e.blob == blob
  }

  /** An envelope that arrives is known from then on, and every connection has it. */
  lemma ArrivalReachesAll(s: System, i: nat, e: RoomEvent, blob: Blob)
    requires Invariant(s) && i in s.rooms && Brings(e, blob) && blob.isEnvelope
    ensures var t := Step(s, At(i, e)).rooms[i]; blob in t.log.known && forall p | p in t.peers :: blob in p.sent
  {
    StepKeepsInvariant(s, At(i, e));
    hide Broadcast, WellFormed, SnapshotsCover, Rows, RequestInvariant, IsOnRecord, Recorded;
  }

  /** An append that commits stores the batch behind everything stored, whether or not its room hears of it. */
  lemma AppendIsStored(s: System, i: nat, batch: seq<NewUpdate<Blob>>)
    requires Invariant(s) && i in s.rooms
    ensures var t := Step(s, At(i, AppendCommits(batch)));
      Rows(t.board) == Rows(s.board) + Numbered(batch, s.board.lastSeq + 1) && t.board == Step(s, AppendUnheard(batch)).board
  {
    hide WellFormed, SnapshotsCover, RoomInvariant, Recorded;
    assert batch == [] ==> AppendTo(s.board, batch) == s.board by {
      assert s.board.updates + Numbered([], s.board.lastSeq + 1) == s.board.updates;
    }
    assert Rows(AppendTo(s.board, batch)) == Rows(s.board) + Numbered(batch, s.board.lastSeq + 1);
  }

  lemma OpenedSends(s: System, i: nat, p: nat, canWrite: bool)
    requires WellFormed(s.board) && SnapshotsCover(s.board)
    ensures var t := Step(Step(s, Open(i)), At(i, Welcome(p, canWrite)));
      i in t.rooms && exists c :: c in t.rooms[i].peers && c.id == p && Stored(t.board, t.board.lastSeq) <= c.sent
  {
    LoadedRoomHoldsEverything(s.board);
    var r := LoadRoom(s.board);
    var c := Peer(p, canWrite, SnapshotContents(r.log) + Blobs(r.log.entries));
    assert LoadedRoomHolds(s.board) && r.peers == [];
    hide LoadRoom, Stored, Blobs, SnapshotContents, SnapshotsCover, WellFormed;
    assert c in WelcomePeer(r, p, canWrite).peers;
  }

  lemma StoredGrows(b: CipherBoard, c: CipherBoard)
    requires Continues(b, c)
    ensures Stored(b, b.lastSeq) <= Stored(c, c.lastSeq)
  {
    hide Rows;
  }

  // ----- the room as the object that holds it -----

  /** The row before which the relaying loop stands is next in what it will have relayed. */
  lemma RelayedNext(r: Room, n: nat, stored: seq<Row<Blob>>, i: nat)
    requires i < |stored|
    ensures ReceiveRows(r, Filter(Relayable(n), stored[..i + 1])) ==
      var before, row := ReceiveRows(r, Filter(Relayable(n), stored[..i])), stored[i];
      if Relayable(n)(row) then Receive(before, row.content.update, None, Some(row.seqNo)) else before
  {
    FilterNext(Relayable(n), stored, i);
    ReceiveRowsNext(r, Filter(Relayable(n), stored[..i]), stored[i]);
    hide Filter, ReceiveRows, Receive;
    assert Filter(Relayable(n), stored[..i]) + [] == Filter(Relayable(n), stored[..i]);
  }

  lemma EmptyRoomIsValid(b: CipherBoard)
    requires WellFormed(b)
    ensures RoomInvariant(b, EmptyRoom())
  {
    NothingBeforeFirst(b);
  }

  /** A request is split where it waits for the database. */
  class EncryptedRoom {
    const log: CipherLog
    var peers: seq<Peer>
    var closing: bool
    var snapshotStarting: Option<nat>
    var snapshotRequest: Option<Request>
    /** The stored board, as far as this room has heard of it. */
    ghost var board: CipherBoard
    /** Every request ever put to a client, by any room. */
    ghost var asked: map<nat, Asked>

    ghost predicate Valid()
      reads this, log
    {
      WellFormed(board) && SnapshotsCover(board) && RoomInvariant(board, View()) && IsOnRecord(asked, View())
    }

    function View(): Room
      reads this, log
    {
      Room(log.View(), peers, closing, snapshotStarting, snapshotRequest)
    }

    constructor (log: CipherLog, ghost board: CipherBoard, ghost asked: map<nat, Asked>)
      requires log.View() == EmptyLog() && WellFormed(board) && SnapshotsCover(board)
      ensures Valid() && this.log == log && this.board == board && this.asked == asked && View() == EmptyRoom()
    {
      this.log, this.board, this.asked := log, board, asked;
      peers, closing, snapshotStarting, snapshotRequest := [], false, None, None;
      new;
      EmptyRoomIsValid(board);
    }

    /** Takes over the board that was loaded. */
    method ApplyLoaded(loaded: LoadedBoard<Contents, Blob>)
      requires Valid() && View() == EmptyRoom()
      requires ShowsBoard(board, loaded.snapshot, loaded.updates, loaded.maxSeq)
      modifies log
      ensures Valid() && View() == LoadRoom(board)
      ensures Stored(board, board.lastSeq) <= SnapshotContents(log.View()) + Blobs(log.entries)
      ensures log.snapshot == loaded.snapshot && log.lastCommittedSeq == loaded.maxSeq
      ensures HasTakenIn({}, [], log.known, log.entries, loaded.updates)
    {
      ShownIsLatest(board, loaded.snapshot, loaded.updates, loaded.maxSeq);
      LoadedRoomHoldsEverything(board);
      hide ShowsBoard, Stored, Blobs, SnapshotContents, LoadedRoomHolds, HasTakenIn;
      log.Load(loaded.snapshot, loaded.updates, loaded.maxSeq);
      LoadMakesRoom(board);
      LoadedHasNoRequest(asked, board);
    }

    /** Others wrote to the stored board, or put requests to their clients. */
    ghost method Hear(later: CipherBoard, others: map<nat, Asked>)
      requires Valid() && Continues(board, later) && WellFormed(later) && SnapshotsCover(later)
      requires forall id | id in asked :: id in others && others[id] == asked[id]
      modifies this`board, this`asked
      ensures Valid() && View() == old(View()) && board == later && asked == others
    {
      hide WellFormed, SnapshotsCover, RoomInvariant, Continues;
      ContinuingKeepsRoom(board, later, View());
      board, asked := later, others;
    }

    /** Sends the snapshot and every entry: from then on the connection has everything the log answers for. */
    method Welcome(peer: nat, canWrite: bool)
      requires Valid()
      modifies this`peers
      ensures Valid() && View() == WelcomePeer(old(View()), peer, canWrite)
      ensures forall p | p in peers :: Answers(board, log.View()) <= p.sent
      ensures Peer(peer, canWrite, SnapshotContents(log.View()) + Blobs(log.entries)) in peers
      ensures forall p | p in old(peers) && p.id != peer :: p in peers
      ensures IsPut(old(peers), Peer(peer, canWrite, SnapshotContents(log.View()) + Blobs(log.entries)), peers)
    {
      hide WellFormed, SnapshotsCover, RoomInvariant;
      WelcomeKeepsRoom(board, View(), peer, canWrite);
      PutIsThere(peers, Peer(peer, canWrite, SnapshotContents(log.View()) + Blobs(log.entries)));
      PutTakesPlace(peers, Peer(peer, canWrite, SnapshotContents(log.View()) + Blobs(log.entries)));
      hide IsPut, Put;
      var snapshot := if log.snapshot.Some? then log.snapshot.value.state else {};
      peers := Put(peers, Peer(peer, canWrite, snapshot + set i | 0 <= i < |log.entries| :: log.entries[i].blob));
      assert (set i | 0 <= i < |log.entries| :: log.entries[i].blob) == Blobs(log.entries);
      PeersHaveAll(board, View());
    }

    method RemoveMember(peer: nat)
      requires Valid()
      modifies this`peers, this`snapshotRequest
      ensures Valid() && View() == LeaveRoom(old(View()), peer)
      ensures forall p :: p in peers <==> p in old(peers) && p.id != peer
      ensures snapshotRequest == if old(snapshotRequest).Some? && old(snapshotRequest).value.peer == peer then None else old(snapshotRequest)
    {
      hide WellFormed, SnapshotsCover, RoomInvariant;
      LeaveKeepsRoom(board, View(), peer);
      forall p
        ensures p in Filter(IsOther(peer), peers) <==> p in peers && p.id != peer
      {
        FilterMember(IsOther(peer), peers, p);
      }
      peers := Filter(IsOther(peer), peers);
      if snapshotRequest.Some? && snapshotRequest.value.peer == peer { snapshotRequest := None; }
    }

    /**
     * Adds an envelope and relays it; says whether it was new, and so has to be stored and published. A seq is given
     * for a stored row.
     */
    method ReceiveUpdate(blob: Blob, ack: Option<Ack>, seqNo: Option<nat>) returns (isNew: bool)
      requires Valid() && (seqNo.Some? ==> Holds(board, seqNo.value, blob) && seqNo.value <= board.lastSeq)
      modifies this`peers, log
      ensures Valid() && View() == Receive(old(View()), blob, ack, seqNo)
      ensures isNew <==> blob !in old(log.known)
      ensures log.entries == if isNew then old(log.entries) + [Entry(blob, ack, seqNo)] else old(log.entries)
      ensures |peers| == |old(peers)|
      ensures forall i | 0 <= i < |peers| ::
        peers[i] == old(peers)[i].(sent := old(peers)[i].sent + if isNew then {blob} else {})
    {
      hide WellFormed, SnapshotsCover, RoomInvariant, Holds;
      ReceiveKeepsRoom(board, View(), blob, ack, seqNo);
      var added := log.Add(blob, ack, seqNo);
      if added.None? { return false; }
      peers := Broadcast(peers, blob);
      return true;
    }

    method PickSnapshotPeer() returns (peer: Option<Peer>)
      ensures peer == FirstWriter(peers)
      ensures peer.Some? ==> exists i :: IsFirstWriter(peers, i) && peers[i] == peer.value
      ensures peer.None? ==> forall p | p in peers :: !p.canWrite
    {
      for i := 0 to |peers|
        invariant FirstWriter(peers) == FirstWriter(peers[i..])
        invariant forall j | 0 <= j < i :: !peers[j].canWrite
      {
        if peers[i].canWrite {
          assert IsFirstWriter(peers, i);
          return Some(peers[i]);
        }
        assert peers[i..][1..] == peers[i + 1..];
      }
      return None;
    }

    /** Begins a request for everything committed, unless one is under way or there is nothing to compact or nobody to ask. */
    method StartSnapshot()
      requires Valid()
      modifies this`snapshotStarting
      ensures Valid() && View() == BeginRequest(old(View()))
      ensures snapshotStarting ==
        if snapshotRequest.None? && old(snapshotStarting).None? && !closing && (exists p :: p in peers && p.canWrite)
           && log.lastCommittedSeq > (if log.snapshot.Some? then log.snapshot.value.seqUpto else 0)
        then Some(log.lastCommittedSeq) else old(snapshotStarting)
    {
      hide WellFormed, SnapshotsCover, RoomInvariant, FirstWriter;
      RequestsKeepRoom(board, View(), 0, false);
      if snapshotRequest.Some? || snapshotStarting.Some? || closing { return; }
      var seqUpto := log.lastCommittedSeq;
      var covered := if log.snapshot.Some? then log.snapshot.value.seqUpto else 0;
      if seqUpto <= covered { return; }
      var peer := PickSnapshotPeer();
      if peer == None { return; }
      snapshotStarting := Some(seqUpto);
    }

    /**
     * The stored updates after the log's snapshot have been read, up to some seq the request does not pass: this
     * room's connections get the envelopes they lack, then one is asked. It has been sent every stored envelope that
     * its snapshot will claim to cover.
     */
    method AskForSnapshot(stored: seq<Row<Blob>>, ghost upTo: nat, id: nat)
      requires Valid() && snapshotStarting.Some? && snapshotStarting.value <= upTo <= board.lastSeq
      requires stored == Rows(board)[Cut(Covered(log.View()), 0, upTo)..upTo] && id !in asked
      modifies this`peers, this`snapshotStarting, this`snapshotRequest, this`asked, log
      ensures Valid() && View() == AskWith(old(View()), id, stored) && asked == Recorded(old(asked), old(View()), View())
      ensures snapshotStarting.None?
      ensures if closing || (forall p | p in peers :: !p.canWrite) then snapshotRequest.None?
              else exists i :: IsFirstWriter(peers, i)
                               && snapshotRequest == Some(Request(id, old(snapshotStarting).value, peers[i].id, peers[i].sent))
      ensures forall b :: b in log.known <==> b in old(log.known) || IsRelayable(stored, old(snapshotStarting).value, b)
      ensures snapshotRequest.Some? ==> Stored(board, snapshotRequest.value.seqUpto) <= snapshotRequest.value.delivered
    {
      StartingExcludes(board, View());
      hide WellFormed, SnapshotsCover, RoomInvariant, Rows, Stored, ReceiveRows, Filter, FirstWriter, IsRelayable, IsFirstWriter,
        Relayable;
      ghost var start := View();
      AskKeepsRoom(board, start, id, upTo);
      RelayStored(stored, snapshotStarting.value, upTo);
      PutRequest(id, snapshotStarting.value);
      RequestIsDelivered(board, View());
    }

    /** Asks the first connection that may write, if there is one and the room is not closing. */
    method PutRequest(id: nat, seqUpto: nat)
      requires snapshotRequest.None?
      modifies this`snapshotStarting, this`snapshotRequest, this`asked
      ensures snapshotStarting.None?
      ensures snapshotRequest == if FirstWriter(peers) == None || closing then None
                                 else Some(Request(id, seqUpto, FirstWriter(peers).value.id, FirstWriter(peers).value.sent))
      ensures if closing || (forall p | p in peers :: !p.canWrite) then snapshotRequest.None?
              else exists i :: IsFirstWriter(peers, i) && snapshotRequest == Some(Request(id, seqUpto, peers[i].id, peers[i].sent))
      ensures asked == if snapshotRequest.None? then old(asked)
                       else old(asked)[id := Asked(snapshotRequest.value.peer, snapshotRequest.value.delivered)]
    {
      var peer := PickSnapshotPeer();
      snapshotStarting := None;
      if peer.Some? && !closing {
        snapshotRequest := Some(Request(id, seqUpto, peer.value.id, peer.value.sent));
        asked := asked[id := Asked(peer.value.id, peer.value.sent)];
      }
    }

    method RelayStored(stored: seq<Row<Blob>>, seqUpto: nat, ghost upTo: nat)
      requires Valid() && upTo <= board.lastSeq && stored == Rows(board)[Cut(Covered(log.View()), 0, upTo)..upTo]
      modifies this`peers, log
      ensures Valid() && View() == ReceiveRows(old(View()), Filter(Relayable(seqUpto), stored))
      ensures forall b :: b in log.known <==> b in old(log.known) || IsRelayable(stored, seqUpto, b)
    {
      ghost var start := View();
      assert Filter(Relayable(seqUpto), stored[..0]) == [];
      assert forall row | row in stored :: row in Rows(board) && row.seqNo <= board.lastSeq;
      hide Filter, ReceiveRows, Receive, Holds, Rows, WellFormed, SnapshotsCover, RoomInvariant, IsRelayable;
      NothingReceived(start);
      for i := 0 to |stored|
        invariant Valid() && View() == ReceiveRows(start, Filter(Relayable(seqUpto), stored[..i]))
      {
        var row := stored[i];
        RelayedNext(start, seqUpto, stored, i);
        StoredRowHolds(board, row);
        if row.seqNo <= seqUpto && row.content.update.isEnvelope {
          var isNew := ReceiveUpdate(row.content.update, None, Some(row.seqNo));
        }
      }
      assert stored[..|stored|] == stored;
      RelayedAreKnown(start, stored, seqUpto);
    }

    /**
     * The answer to a request, and what storage makes of it. Only the connection asked can answer, and only the
     * request it was asked; if connections answer with what they had been sent, the board stays loadable from the
     * latest snapshot and the live rows.
     */
    method ReceiveSnapshot(peer: nat, id: nat, accepted: bool, contents: Contents) returns (isAnswer: bool)
      requires Valid() && Honest(asked, Answer(peer, id, contents))
      requires IsAnswered(View(), peer, id) ==> accepted == Accepts(board, snapshotRequest.value.seqUpto)
      modifies this`snapshotRequest, this`board, log
      ensures Valid() && (board, View()) == RoomStep(old(board), old(View()), Answer(peer, id, contents))
      ensures isAnswer <==>
        old(snapshotRequest).Some? && old(snapshotRequest).value.peer == peer && old(snapshotRequest).value.id == id
      ensures if isAnswer then snapshotRequest.None? else View() == old(View()) && board == old(board)
      ensures isAnswer && !accepted ==> log.View() == old(log.View()) && board == old(board)
      ensures isAnswer && accepted ==> log.snapshot == Some(Snapshot(old(snapshotRequest).value.seqUpto, contents))
      ensures Stored(old(board), old(board).lastSeq) <= Loadable(board)
    {
      HonestSuffices(asked, View(), Answer(peer, id, contents));
      hide WellFormed, SnapshotsCover, RoomInvariant, Honest, Stored, Rows, Continues, Loadable, Accepts;
      AnswerStep(board, View(), peer, id, contents);
      ghost var (later, _) := RoomStep(board, View(), Answer(peer, id, contents));
      CoveringBoardHoldsEverything(later);
      StoredGrows(board, later);
      isAnswer := snapshotRequest.Some? && snapshotRequest.value.peer == peer && snapshotRequest.value.id == id;
      if isAnswer {
        var seqUpto := snapshotRequest.value.seqUpto;
        snapshotRequest := None;
        if accepted { log.InstallSnapshot(seqUpto, contents); }
        board := later;
      }
    }
  }

  lemma {:induction false} ReceivedAreKnown(r: Room, rows: seq<Row<Blob>>)
    ensures ReceiveRows(r, rows).log.known == r.log.known + Held(rows)
  {
    if rows != [] {
      ReceivedAreKnown(r, rows[..|rows| - 1]);
      assert rows == rows[..|rows| - 1] + [rows[|rows| - 1]];
    }
  }

  lemma RelayedAreKnown(r: Room, stored: seq<Row<Blob>>, n: nat)
    ensures forall b :: b in ReceiveRows(r, Filter(Relayable(n), stored)).log.known <==> b in r.log.known || IsRelayable(stored, n, b)
  {
    ReceivedAreKnown(r, Filter(Relayable(n), stored));
    hide ReceiveRows, Filter;
    forall x
      ensures x in Filter(Relayable(n), stored) <==> x in stored && x.seqNo <= n && x.content.update.isEnvelope
    {
      FilterMember(Relayable(n), stored, x);
    }
  }

  lemma StartingExcludes(b: CipherBoard, r: Room)
    requires RoomInvariant(b, r)
    ensures r.starting.Some? ==> r.request.None?
  {
  }

  lemma {:induction false} PutIsThere(peers: seq<Peer>, peer: Peer)
    ensures peer in Put(peers, peer) && forall p | p in peers && p.id != peer.id :: p in Put(peers, peer)
  {
    if peers != [] && peers[0].id != peer.id {
      PutIsThere(peers[1..], peer);
    }
  }

  /** The first connection under an id. */
  ghost predicate IsFirstNamed(peers: seq<Peer>, i: int, id: nat)
  {
    0 <= i < |peers| && peers[i].id == id && forall j | 0 <= j < i :: peers[j].id != id
  }

  /** The connection has taken the place of the first under its id, and joined last if there was none. */
  ghost predicate IsPut(peers: seq<Peer>, peer: Peer, after: seq<Peer>)
  {
    && ((forall p | p in peers :: p.id != peer.id) ==> after == peers + [peer])
    && forall i | IsFirstNamed(peers, i, peer.id) :: after == peers[i := peer]
  }

  lemma {:induction false} PutTakesPlace(peers: seq<Peer>, peer: Peer)
    ensures IsPut(peers, peer, Put(peers, peer))
  {
    if peers == [] {
    } else if peers[0].id == peer.id {
      assert [peer] + peers[1..] == peers[0 := peer];
      assert peers[0] in peers;
    } else {
      var rest := peers[1..];
      PutTakesPlace(rest, peer);
      var after := Put(rest, peer);
      assert Put(peers, peer) == [peers[0]] + after;
      hide Put;
      FurtherPlace(peers, peer, after);
    }
  }

  lemma FurtherPlace(peers: seq<Peer>, peer: Peer, after: seq<Peer>)
    requires peers != [] && peers[0].id != peer.id && IsPut(peers[1..], peer, after)
    ensures IsPut(peers, peer, [peers[0]] + after)
  {
    var rest := peers[1..];
    if forall p | p in peers :: p.id != peer.id {
      assert forall p | p in rest :: p in peers;
      assert peers + [peer] == [peers[0]] + (rest + [peer]);
    }
    hide IsFirstNamed;
    forall i | IsFirstNamed(peers, i, peer.id)
      ensures [peers[0]] + after == peers[i := peer]
    {
      FurtherNamed(peers, i, peer.id);
      assert after == rest[i - 1 := peer];
      assert [peers[0]] + rest[i - 1 := peer] == peers[i := peer];
    }
  }

  lemma FurtherNamed(peers: seq<Peer>, i: int, id: nat)
    requires IsFirstNamed(peers, i, id) && peers[0].id != id
    ensures 0 < i < |peers| && IsFirstNamed(peers[1..], i - 1, id)
  {
  }

  lemma PeersHaveAll(b: CipherBoard, r: Room)
    requires RoomInvariant(b, r)
    ensures forall p | p in r.peers :: Answers(b, r.log) <= p.sent
  {
  }

  lemma RequestIsDelivered(b: CipherBoard, r: Room)
    requires RoomInvariant(b, r)
    ensures r.request.Some? ==> Stored(b, r.request.value.seqUpto) <= r.request.value.delivered
  {
  }
}
