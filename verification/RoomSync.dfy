/** How the rooms of one board on several instances exchange changes until they agree. */
module RoomSync {
  import opened Documents

  /** What instances publish to each other; an update or a request goes to everyone else, a reply to one instance. */
  datatype Message = UpdateMessage(from: nat, payload: Update)
                   | SyncRequest(from: nat, vector: set<Change>)
                   | SyncReply(from: nat, payload: Update, to: nat)

  /** One instance's room: its document, the messages waiting for it to load, and the updates handed to its writer. */
  datatype RoomState = RoomState(doc: set<Change>, loaded: bool, queued: seq<Message>, handed: seq<Update>)

  function NewRoom(): RoomState { RoomState({}, false, [], []) }

  /** A state vector says which insertions a document has; deletions do not show in it. */
  function Vector(doc: set<Change>): set<Change>
  {
    set c | c in doc && c.Insert?
  }

  /** Applying an update adds what the document lacks; only then is there a change to hand on. */
  function ApplyUpdate(r: RoomState, update: Update): RoomState
  {
    var added := update - r.doc;
    if added == {} then r else r.(doc := r.doc + added, handed := r.handed + [added])
  }

  /** A change by a local client is published, if it is one. */
  function EditRoom(me: nat, r: RoomState, update: Update): (RoomState, seq<Message>)
  {
    (ApplyUpdate(r, update), if update - r.doc == {} then [] else [UpdateMessage(me, update - r.doc)])
  }

  function RequestSync(me: nat, r: RoomState): Message
  {
    SyncRequest(me, Vector(r.doc))
  }

  /** Everything the asker lacks, deletions included, always; and a request of our own if it has something we lack. */
  function AnswerSyncRequest(me: nat, r: RoomState, from: nat, theirs: set<Change>): seq<Message>
  {
    [SyncReply(me, r.doc - theirs, from)] + if Vector(theirs) <= r.doc then [] else [RequestSync(me, r)]
  }

  function ApplyMessage(me: nat, r: RoomState, m: Message): (RoomState, seq<Message>)
  {
    match m
    case UpdateMessage(_, payload) => (ApplyUpdate(r, payload), [])
    case SyncReply(_, payload, _) => (ApplyUpdate(r, payload), [])
    case SyncRequest(from, vector) => (r, AnswerSyncRequest(me, r, from, vector))
  }

  function HandleCluster(me: nat, r: RoomState, m: Message): (RoomState, seq<Message>)
  {
    if !r.loaded then (r.(queued := r.queued + [m]), []) else ApplyMessage(me, r, m)
  }

  function ApplyAll(me: nat, r: RoomState, messages: seq<Message>): (RoomState, seq<Message>)
  {
    if messages == [] then (r, [])
    else
      var n := |messages| - 1;
      var (front, out) := ApplyAll(me, r, messages[..n]);
      var (last, more) := ApplyMessage(me, front, messages[n]);
      (last, out + more)
  }

  /** The document is loaded: what other instances sent meanwhile is applied, then they are asked for the rest. */
  function FinishLoading(me: nat, r: RoomState): (RoomState, seq<Message>)
  {
    var (t, out) := ApplyAll(me, r.(loaded := true, queued := []), r.queued);
    (t, out + [RequestSync(me, t)])
  }

  /** The document is what was loaded and what was handed to the writer since, so that the writer misses nothing. */
  ghost predicate IsAccounted(r: RoomState, loaded: set<Change>)
  {
    r.doc == loaded + Carried(r.handed)
  }

  lemma ApplyUpdateAccounts(r: RoomState, update: Update, loaded: set<Change>)
    requires IsAccounted(r, loaded)
    ensures IsAccounted(ApplyUpdate(r, update), loaded)
  {
    var added := update - r.doc;
    CarriedAppend(r.handed, [added]);
    assert Carried([added]) == added by { assert [added][1..] == []; }
  }

  lemma ApplyMessageAccounts(me: nat, r: RoomState, m: Message, loaded: set<Change>)
    requires IsAccounted(r, loaded)
    ensures IsAccounted(ApplyMessage(me, r, m).0, loaded)
  {
    if !m.SyncRequest? {
      ApplyUpdateAccounts(r, m.payload, loaded);
    }
    hide ApplyUpdate, AnswerSyncRequest, IsAccounted;
  }

  lemma {:induction false} ApplyAllAccounts(me: nat, r: RoomState, messages: seq<Message>, loaded: set<Change>)
    requires IsAccounted(r, loaded)
    ensures IsAccounted(ApplyAll(me, r, messages).0, loaded)
  {
    hide ApplyMessage, IsAccounted;
    if messages != [] {
      var n := |messages| - 1;
      ApplyAllAccounts(me, r, messages[..n], loaded);
      ApplyMessageAccounts(me, ApplyAll(me, r, messages[..n]).0, messages[n], loaded);
    }
  }

  /** A reply to the request with at least these changes. */
  ghost predicate IsReplyTo(me: nat, request: Message, least: set<Change>, m: Message)
  {
    m.SyncReply? && m.from == me && m.to == request.from && least <= m.payload
  }

  ghost predicate IsAnsweredIn(me: nat, request: Message, least: set<Change>, out: seq<Message>)
  {
    exists k :: 0 <= k < |out| && IsReplyTo(me, request, least, out[k])
  }

  lemma OneIsApplied(me: nat, r: RoomState, m: Message)
    ensures var (t, out) := ApplyMessage(me, r, m);
      && r.doc <= t.doc && (!m.SyncRequest? ==> m.payload <= t.doc)
      && (m.SyncRequest? ==> out != [] && IsReplyTo(me, m, r.doc - m.vector, out[0]))
  {
  }

  lemma AnswerStays(me: nat, request: Message, least: set<Change>, out: seq<Message>, more: seq<Message>)
    requires IsAnsweredIn(me, request, least, out)
    ensures IsAnsweredIn(me, request, least, out + more)
  {
    var k :| 0 <= k < |out| && IsReplyTo(me, request, least, out[k]);
    assert (out + more)[k] == out[k];
  }

  /** Every kept update is merged and every kept request answered with all that was lacking when loading began. */
  lemma {:induction false} KeptAreApplied(me: nat, r: RoomState, messages: seq<Message>)
    ensures var (t, out) := ApplyAll(me, r, messages);
      && r.doc <= t.doc && (forall m | m in messages && !m.SyncRequest? :: m.payload <= t.doc)
      && (forall m | m in messages && m.SyncRequest? :: IsAnsweredIn(me, m, r.doc - m.vector, out))
  {
    hide ApplyMessage;
    if messages != [] {
      var n := |messages| - 1;
      var (front, out) := ApplyAll(me, r, messages[..n]);
      var (last, more) := ApplyMessage(me, front, messages[n]);
      KeptAreApplied(me, r, messages[..n]);
      OneIsApplied(me, front, messages[n]);
      assert messages == messages[..n] + [messages[n]];
      hide ApplyAll;
      forall m | m in messages && m.SyncRequest?
        ensures IsAnsweredIn(me, m, r.doc - m.vector, out + more)
      {
        if m in messages[..n] {
          AnswerStays(me, m, r.doc - m.vector, out, more);
        } else {
          assert (out + more)[|out|] == more[0];
        }
      }
    }
  }

  class Room {
    const me: nat
    var doc: set<Change>
    /** Messages that arrived while loading; none once loaded. */
    var queuedCluster: seq<Message>
    var loaded: bool
    var handed: seq<Update>
    var published: seq<Message>
    ghost var fromStorage: set<Change>

    function View(): RoomState
      reads this
    {
      RoomState(doc, loaded, queuedCluster, handed)
    }

    ghost predicate Valid()
      reads this
    {
      IsAccounted(View(), fromStorage)
    }

    constructor (me: nat)
      ensures Valid() && View() == NewRoom() && this.me == me && published == [] && fromStorage == {}
    {
      this.me := me;
      doc, queuedCluster, loaded, handed, published, fromStorage := {}, [], false, [], [], {};
    }

    /** What storage holds is neither handed to the writer nor published. */
    method ApplyLoaded(content: set<Change>)
      requires Valid()
      modifies this`doc, this`fromStorage
      ensures Valid() && View() == old(View()).(doc := old(doc) + content) && fromStorage == old(fromStorage) + content
    {
      doc, fromStorage := doc + content, fromStorage + content;
    }

    /** Asks the other instances for what this one lacks. */
    method Ask()
      modifies this`published
      ensures published == old(published) + [RequestSync(me, View())]
      ensures published == old(published) + [SyncRequest(me, set c | c in doc && c.Insert?)]
    {
      published := published + [SyncRequest(me, Vector(doc))];
    }

    /** The document changed: hand the change to the writer, and publish it unless it came from elsewhere. */
    method Change(update: Update, remote: bool)
      requires Valid()
      modifies this`doc, this`handed, this`published
      ensures Valid() && View() == ApplyUpdate(old(View()), update)
      ensures published == old(published) + if remote then [] else EditRoom(me, old(View()), update).1
      ensures doc == old(doc) + update
      ensures published == old(published) +
        if !remote && update - old(doc) != {} then [UpdateMessage(me, update - old(doc))] else []
      ensures handed == old(handed) + if update - old(doc) != {} then [update - old(doc)] else []
    {
      ApplyUpdateAccounts(View(), update, fromStorage);
      hide IsAccounted;
      var added := update - doc;
      assert doc + added == doc + update;
      if added == {} { return; }
      doc := doc + added;
      handed := handed + [added];
      if !remote { published := published + [UpdateMessage(me, added)]; }
    }

    method Handle(message: Message)
      requires Valid()
      modifies this`doc, this`handed, this`published, this`queuedCluster
      ensures Valid() && View() == HandleCluster(me, old(View()), message).0
      ensures published == old(published) + HandleCluster(me, old(View()), message).1
      ensures queuedCluster == old(queuedCluster) + if loaded then [] else [message]
      ensures !loaded ==> doc == old(doc) && handed == old(handed) && published == old(published)
      ensures loaded && !message.SyncRequest? ==> doc == old(doc) + message.payload
      ensures loaded && message.SyncRequest? ==>
        |published| > |old(published)| && published[|old(published)|] == SyncReply(me, doc - message.vector, message.from)
    {
      if !loaded {
        queuedCluster := queuedCluster + [message];
        return;
      }
      Apply(message);
    }

    method Apply(message: Message)
      requires Valid()
      modifies this`doc, this`handed, this`published
      ensures Valid() && View() == ApplyMessage(me, old(View()), message).0
      ensures published == old(published) + ApplyMessage(me, old(View()), message).1
      ensures !message.SyncRequest? ==> doc == old(doc) + message.payload && published == old(published)
      ensures message.SyncRequest? ==> doc == old(doc)
      ensures message.SyncRequest? ==>
        published == old(published) + [SyncReply(me, doc - message.vector, message.from)] +
          if (exists c :: c in message.vector && c.Insert? && c !in doc) then [SyncRequest(me, set c | c in doc && c.Insert?)] else []
    {
      match message {
        case UpdateMessage(_, payload) => Change(payload, true);
        case SyncReply(_, payload, _) => Change(payload, true);
        case SyncRequest(from, vector) =>
          published := published + [SyncReply(me, doc - vector, from)];
          if !(Vector(vector) <= doc) { Ask(); }
      }
    }

    method ApplyKept(queued: seq<Message>)
      requires Valid()
      modifies this`doc, this`handed, this`published
      ensures Valid() && View() == ApplyAll(me, old(View()), queued).0
      ensures published == old(published) + ApplyAll(me, old(View()), queued).1
      ensures old(doc) <= doc && forall m | m in queued && !m.SyncRequest? :: m.payload <= doc
      ensures forall m | m in queued && m.SyncRequest? ::
        IsAnsweredIn(me, m, old(doc) - m.vector, published[|old(published)|..])
    {
      ghost var start := View();
      hide IsAccounted, ApplyMessage, IsAnsweredIn;
      for i := 0 to |queued|
        invariant Valid() && View() == ApplyAll(me, start, queued[..i]).0
        invariant published == old(published) + ApplyAll(me, start, queued[..i]).1
      {
        assert queued[..i + 1][..i] == queued[..i];
        Apply(queued[i]);
      }
      assert queued[..|queued|] == queued;
      KeptAreApplied(me, start, queued);
    }

    method Finish()
      requires Valid()
      modifies this`doc, this`handed, this`published, this`queuedCluster, this`loaded
      ensures Valid() && View() == FinishLoading(me, old(View())).0
      ensures published == old(published) + FinishLoading(me, old(View())).1
      ensures loaded && queuedCluster == []
      ensures |published| > |old(published)| && published[|published| - 1] == SyncRequest(me, set c | c in doc && c.Insert?)
      ensures old(doc) <= doc && forall m | m in old(queuedCluster) && !m.SyncRequest? :: m.payload <= doc
      ensures forall m | m in old(queuedCluster) && m.SyncRequest? ::
        IsAnsweredIn(me, m, old(doc) - m.vector, published[|old(published)|..])
    {
      var queued := queuedCluster;
      queuedCluster, loaded := [], true;
      hide IsAccounted, ApplyAll, IsAnsweredIn;
      ApplyKept(queued);
      ghost var before := published[|old(published)|..];
      Ask();
      assert published[|old(published)|..] == before + [published[|published| - 1]];
      forall m | m in queued && m.SyncRequest?
        ensures IsAnsweredIn(me, m, old(doc) - m.vector, published[|old(published)|..])
      {
        AnswerStays(me, m, old(doc) - m.vector, before, [published[|published| - 1]]);
      }
    }
  }

  // ----- the instances together -----

  /**
   * All rooms of a board, every message ever sent, and for the record what clients changed on each instance and what
   * was loaded from storage. A message may be delivered late, twice or never.
   */
  datatype System = System(rooms: map<nat, RoomState>, sent: set<Message>, edits: map<nat, set<Change>>, stored: set<Change>)

  datatype Event = Join(room: nat)
                 | Load(room: nat, content: set<Change>)
                 | Edit(room: nat, update: Update)
                 | Resync(room: nat)
                 | Deliver(room: nat, message: Message)

  ghost function All(messages: seq<Message>): set<Message>
  {
    set m | m in messages
  }

  function EditsAt(s: System, i: nat): set<Change>
  {
    if i in s.edits then s.edits[i] else {}
  }

  ghost predicate Addressed(m: Message, i: nat)
  {
    match m
    case SyncReply(_, _, to) => to == i
    case _ => m.from != i
  }

  ghost predicate Enabled(s: System, e: Event)
  {
    match e
    case Join(i) => i !in s.rooms
    case Load(i, _) => i in s.rooms && !s.rooms[i].loaded
    case Edit(i, _) => i in s.rooms && s.rooms[i].loaded
    case Resync(i) => i in s.rooms && s.rooms[i].loaded
    case Deliver(i, m) => i in s.rooms && m in s.sent && Addressed(m, i)
  }

  /** What the room concerned becomes, and what it sends. */
  ghost function RoomAfter(s: System, e: Event): (RoomState, seq<Message>)
    requires Enabled(s, e)
  {
    match e
    case Join(i) => (NewRoom(), [])
    case Load(i, content) => FinishLoading(i, s.rooms[i].(doc := s.rooms[i].doc + content))
    case Edit(i, u) => EditRoom(i, s.rooms[i], u)
    case Resync(i) => (s.rooms[i], [RequestSync(i, s.rooms[i])])
    case Deliver(i, m) => HandleCluster(i, s.rooms[i], m)
  }

  ghost function Step(s: System, e: Event): System
    requires Enabled(s, e)
  {
    var (r, out) := RoomAfter(s, e);
    System(s.rooms[e.room := r], s.sent + All(out),
           if e.Edit? then s.edits[e.room := EditsAt(s, e.room) + e.update] else s.edits,
           if e.Load? then s.stored + e.content else s.stored)
  }

  // ----- what every step keeps -----

  ghost function Everything(s: System): set<Change>
  {
    s.stored + (set i, c | i in s.edits && c in s.edits[i] :: c)
  }

  /** A sent message tells the truth about its sender, whose document can only have grown since. */
  ghost predicate Faithful(s: System, m: Message)
  {
    && m.from in s.rooms
    && match m
       case UpdateMessage(i, payload) => payload <= s.rooms[i].doc && payload <= EditsAt(s, i)
       case SyncReply(i, payload, _) => payload <= s.rooms[i].doc
       case SyncRequest(i, vector) => vector <= s.rooms[i].doc
  }

  ghost predicate Invariant(s: System)
  {
    && (forall m | m in s.sent :: Faithful(s, m))
    && (forall i, m | i in s.rooms && m in s.rooms[i].queued :: m in s.sent)
    && (forall i | i in s.rooms :: s.rooms[i].doc <= Everything(s))
  }

  /** The changes a message carries or names. */
  function Claims(m: Message): set<Change>
  {
    match m
    case SyncRequest(_, vector) => vector
    case _ => m.payload
  }

  /** The changes a message can add to a document. */
  function Brings(m: Message): set<Change>
  {
    if m.SyncRequest? then {} else m.payload
  }

  /** A document grew by no more than was brought, and what was sent claims no more than it holds; nothing is echoed. */
  ghost predicate Reacts(me: nat, r: RoomState, brought: set<Change>, t: RoomState, out: seq<Message>)
  {
    && r.doc <= t.doc <= r.doc + brought
    && forall m | m in out :: m.from == me && !m.UpdateMessage? && Claims(m) <= t.doc
  }

  lemma ApplyReacts(me: nat, r: RoomState, m: Message)
    ensures Reacts(me, r, Brings(m), ApplyMessage(me, r, m).0, ApplyMessage(me, r, m).1)
    ensures Brings(m) <= ApplyMessage(me, r, m).0.doc
    ensures ApplyMessage(me, r, m).0.queued == r.queued && ApplyMessage(me, r, m).0.loaded == r.loaded
  {
  }

  lemma {:induction false} ApplyAllReacts(me: nat, r: RoomState, messages: seq<Message>, brought: set<Change>)
    requires forall m | m in messages :: Brings(m) <= brought
    ensures Reacts(me, r, brought, ApplyAll(me, r, messages).0, ApplyAll(me, r, messages).1)
    ensures ApplyAll(me, r, messages).0.queued == r.queued && ApplyAll(me, r, messages).0.loaded == r.loaded
  {
    hide ApplyMessage, Claims, Brings;
    if messages != [] {
      var n := |messages| - 1;
      assert messages[n] in messages;
      assert forall m | m in messages[..n] :: m in messages;
      ApplyAllReacts(me, r, messages[..n], brought);
      ApplyReacts(me, ApplyAll(me, r, messages[..n]).0, messages[n]);
    }
  }

  /** What the documents of an invariant system can bring each other is already in one of them. */
  lemma SentIsKnown(s: System, m: Message)
    requires Invariant(s) && m in s.sent
    ensures m.from in s.rooms && Claims(m) <= s.rooms[m.from].doc && Brings(m) <= Claims(m) <= Everything(s)
  {
    assert Faithful(s, m);
    hide Everything;
  }

  /** One event: the room's document grows by changes from a client, from storage, or already in some document. */
  lemma RoomAfterReacts(s: System, e: Event)
    requires Invariant(s) && Enabled(s, e)
    ensures var (t, out) := RoomAfter(s, e);
      && (e.room in s.rooms ==> s.rooms[e.room].doc <= t.doc)
      && t.doc <= Everything(Step(s, e))
      && (forall m | m in out :: m.from == e.room && Claims(m) <= t.doc && (m.UpdateMessage? ==> e.Edit? && m.payload <= e.update))
      && (forall m | m in t.queued :: m in s.sent)
  {
    EverythingGrows(s, e);
    match e
    case Join(i) =>
    case Load(i, content) =>
      var r := s.rooms[i].(doc := s.rooms[i].doc + content);
      forall m | m in r.queued
        ensures Brings(m) <= Everything(s)
      {
        SentIsKnown(s, m);
      }
      ApplyAllReacts(i, r.(loaded := true, queued := []), r.queued, Everything(s));
      hide ApplyAll, Everything, Claims, Brings;
    case Edit(i, u) =>
      hide Everything;
    case Resync(i) =>
      hide Everything;
    case Deliver(i, m) =>
      SentIsKnown(s, m);
      ApplyReacts(i, s.rooms[i], m);
      hide ApplyMessage, Everything, Claims, Brings;
  }

  lemma EverythingGrows(s: System, e: Event)
    requires Enabled(s, e)
    ensures Everything(s) <= Everything(Step(s, e))
    ensures e.Edit? ==> e.update <= Everything(Step(s, e))
    ensures e.Load? ==> e.content <= Everything(Step(s, e))
  {
    var t := Step(s, e);
    assert forall i | i in s.edits :: i in t.edits && s.edits[i] <= t.edits[i];
    if e.Edit? {
      assert e.room in t.edits && e.update <= t.edits[e.room];
    }
    hide RoomAfter;
  }

  lemma StepKeepsInvariant(s: System, e: Event)
    requires Invariant(s) && Enabled(s, e)
    ensures Invariant(Step(s, e))
    ensures forall i | i in s.rooms :: i in Step(s, e).rooms && s.rooms[i].doc <= Step(s, e).rooms[i].doc
  {
    var t := Step(s, e);
    RoomAfterReacts(s, e);
    EverythingGrows(s, e);
    hide RoomAfter, Everything;
    forall m | m in t.sent
      ensures Faithful(t, m)
    {
      if m in s.sent {
        assert Faithful(s, m);
      }
    }
    hide Faithful;
  }

  // ----- every run -----

  ghost predicate EnabledRun(s: System, events: seq<Event>)
    decreases |events|
  {
    events == [] || (Enabled(s, events[0]) && EnabledRun(Step(s, events[0]), events[1..]))
  }

  ghost function Run(s: System, events: seq<Event>): System
    requires EnabledRun(s, events)
    decreases |events|
  {
    if events == [] then s else Run(Step(s, events[0]), events[1..])
  }

  /** Documents only grow, whatever happens. */
  lemma {:induction false} RunKeepsInvariant(s: System, events: seq<Event>)
    requires Invariant(s) && EnabledRun(s, events)
    ensures var t := Run(s, events);
      && Invariant(t) && s.sent <= t.sent
      && forall i | i in s.rooms :: i in t.rooms && s.rooms[i].doc <= t.rooms[i].doc
    decreases |events|
  {
    if events != [] {
      StepKeepsInvariant(s, events[0]);
      assert s.sent <= Step(s, events[0]).sent;
      hide Invariant, Enabled, Step;
      RunKeepsInvariant(Step(s, events[0]), events[1..]);
    }
  }

  const NOTHING := System(map[], {}, map[], {})

  /**
   * In every run documents hold only what came from storage or some client, and an update message carries only what
   * the clients of its sender changed: a change received from another instance is never published again.
   */
  lemma NothingInventedNothingEchoed(events: seq<Event>)
    requires EnabledRun(NOTHING, events)
    ensures var t := Run(NOTHING, events);
      && (forall i | i in t.rooms :: t.rooms[i].doc <= Everything(t))
      && (forall m | m in t.sent && m.UpdateMessage? :: m.payload <= EditsAt(t, m.from))
  {
    assert Invariant(NOTHING);
    RunKeepsInvariant(NOTHING, events);
    var t := Run(NOTHING, events);
    forall m | m in t.sent && m.UpdateMessage?
      ensures m.payload <= EditsAt(t, m.from)
    {
      assert Faithful(t, m);
    }
    hide Everything;
  }

  // ----- nothing bypasses the writer -----

  /** What storage gave a room in a run. */
  function LoadedIn(events: seq<Event>, i: nat): set<Change>
  {
    if events == [] then {}
    else (if events[0].Load? && events[0].room == i then events[0].content else {}) + LoadedIn(events[1..], i)
  }

  ghost predicate RoomAccounted(s: System, i: nat, loaded: set<Change>)
  {
    if i in s.rooms then IsAccounted(s.rooms[i], loaded) else loaded == {}
  }

  lemma StepAccounts(s: System, e: Event, i: nat, loaded: set<Change>)
    requires Enabled(s, e) && RoomAccounted(s, i, loaded)
    ensures RoomAccounted(Step(s, e), i, loaded + if e.Load? && e.room == i then e.content else {})
  {
    var rest := loaded + {};
    assert rest == loaded;
    if e.room == i {
      match e
      case Join(_) =>
      case Load(_, content) =>
        var r := s.rooms[i].(doc := s.rooms[i].doc + content);
        assert IsAccounted(r, loaded + content);
        ApplyAllAccounts(i, r.(loaded := true, queued := []), r.queued, loaded + content);
        hide ApplyAll, IsAccounted;
      case Edit(_, u) =>
        ApplyUpdateAccounts(s.rooms[i], u, loaded);
        hide ApplyUpdate, IsAccounted;
      case Resync(_) =>
      case Deliver(_, m) =>
        ApplyMessageAccounts(i, s.rooms[i], m, loaded);
        hide ApplyMessage;
    }
  }

  lemma {:induction false} RunAccounts(s: System, events: seq<Event>, i: nat, loaded: set<Change>)
    requires EnabledRun(s, events) && RoomAccounted(s, i, loaded)
    ensures RoomAccounted(Run(s, events), i, loaded + LoadedIn(events, i))
    decreases |events|
  {
    if events == [] {
      assert loaded + {} == loaded;
    } else {
      var e := events[0];
      StepAccounts(s, e, i, loaded);
      var more := if e.Load? && e.room == i then e.content else {};
      hide Enabled, Step, RoomAccounted;
      RunAccounts(Step(s, e), events[1..], i, loaded + more);
      assert loaded + more + LoadedIn(events[1..], i) == loaded + LoadedIn(events, i);
    }
  }

  /**
   * In every run a room's document is what it loaded together with what it handed to its writer, whatever arrived from
   * clients and other instances; the write-ahead queue is told of every change storage did not provide.
   */
  lemma DocumentIsLoadedOrHanded(events: seq<Event>, i: nat)
    requires EnabledRun(NOTHING, events) && i in Run(NOTHING, events).rooms
    ensures var r := Run(NOTHING, events).rooms[i]; r.doc == LoadedIn(events, i) + Carried(r.handed)
  {
    RunAccounts(NOTHING, events, i, {});
    hide Run, EnabledRun;
    assert {} + LoadedIn(events, i) == LoadedIn(events, i);
  }

  // ----- convergence -----

  /** Everyone's changes together. */
  ghost function Union(s: System): set<Change>
  {
    set i, c | i in s.rooms && c in s.rooms[i].doc :: c
  }

  /** No client edits, no room joins or loads. */
  predicate Quiet(events: seq<Event>)
  {
    forall e | e in events :: e.Resync? || e.Deliver?
  }

  ghost predicate AllLoaded(s: System)
  {
    forall i | i in s.rooms :: s.rooms[i].loaded
  }

  lemma QuietStep(s: System, e: Event)
    requires Invariant(s) && AllLoaded(s) && Enabled(s, e) && (e.Resync? || e.Deliver?)
    ensures var t := Step(s, e);
      && AllLoaded(t) && t.rooms.Keys == s.rooms.Keys && Union(t) == Union(s)
      && (e.Deliver? ==> Brings(e.message) <= t.rooms[e.room].doc)
      && (e.Deliver? && e.message.SyncRequest? ==>
            SyncReply(e.room, s.rooms[e.room].doc - e.message.vector, e.message.from) in t.sent)
  {
    var t := Step(s, e);
    if e.Deliver? {
      SentIsKnown(s, e.message);
      ApplyReacts(e.room, s.rooms[e.room], e.message);
      if e.message.SyncRequest? {
        assert RoomAfter(s, e).1[0] in RoomAfter(s, e).1;
      }
    }
    hide ApplyMessage, Everything;
    StepKeepsInvariant(s, e);
    forall c | c in Union(t)
      ensures c in Union(s)
    {
      var i :| i in t.rooms && c in t.rooms[i].doc;
      if i == e.room && c !in s.rooms[i].doc {
        assert e.Deliver? && c in s.rooms[e.message.from].doc;
      }
    }
    forall c | c in Union(s)
      ensures c in Union(t)
    {
      var i :| i in s.rooms && c in s.rooms[i].doc;
      assert c in t.rooms[i].doc;
    }
  }

  lemma {:induction false} QuietRun(s: System, events: seq<Event>)
    requires Invariant(s) && AllLoaded(s) && EnabledRun(s, events) && Quiet(events)
    ensures var t := Run(s, events);
      Invariant(t) && AllLoaded(t) && t.rooms.Keys == s.rooms.Keys && Union(t) == Union(s)
      && forall i | i in s.rooms :: s.rooms[i].doc <= t.rooms[i].doc
    decreases |events|
  {
    if events != [] {
      assert events[0] in events;
      QuietStep(s, events[0]);
      StepKeepsInvariant(s, events[0]);
      hide Invariant, AllLoaded, Enabled, Step, Union;
      QuietRun(Step(s, events[0]), events[1..]);
    }
  }

  lemma {:induction false} RunSplits(s: System, a: seq<Event>, b: seq<Event>)
    requires EnabledRun(s, a + b)
    ensures EnabledRun(s, a) && EnabledRun(Run(s, a), b) && Run(s, a + b) == Run(Run(s, a), b)
    decreases |a|
  {
    hide Enabled, Step;
    if a == [] {
      assert a + b == b;
    } else {
      assert (a + b)[1..] == a[1..] + b;
      RunSplits(Step(s, a[0]), a[1..], b);
    }
  }

  /**
   * The run delivers a sync request of `i` to `j`, and later to `i` the reply that delivery produced.
   */
  ghost predicate Answered(s: System, events: seq<Event>, i: nat, j: nat)
    requires EnabledRun(s, events)
  {
    exists first, middle, last, vector ::
      IsExchange(s, events, i, j, first, middle, last, vector)
  }

  ghost predicate IsExchange(s: System, events: seq<Event>, i: nat, j: nat,
                             first: seq<Event>, middle: seq<Event>, last: seq<Event>, vector: set<Change>)
    requires EnabledRun(s, events)
  {
    && EnabledRun(s, first) && j in Run(s, first).rooms
    && events == first + [Deliver(j, SyncRequest(i, vector))] + middle
                 + [Deliver(i, SyncReply(j, Run(s, first).rooms[j].doc - vector, i))] + last
  }

  /** A quiet run, cut at an event it contains: documents before it, and what the event itself delivers. */
  lemma QuietRunCut(s: System, before: seq<Event>, e: Event, after: seq<Event>)
    requires Invariant(s) && AllLoaded(s) && EnabledRun(s, before + [e] + after) && Quiet(before + [e] + after)
    ensures EnabledRun(s, before) && Enabled(Run(s, before), e)
    ensures var t := Run(s, before);
      && Invariant(t) && AllLoaded(t) && t.rooms.Keys == s.rooms.Keys
      && (forall i | i in s.rooms :: s.rooms[i].doc <= t.rooms[i].doc)
      && Step(t, e).rooms.Keys == s.rooms.Keys
      && (forall i | i in s.rooms :: t.rooms[i].doc <= Step(t, e).rooms[i].doc)
      && (e.Deliver? ==> Brings(e.message) <= Step(t, e).rooms[e.room].doc)
      && (forall i | i in s.rooms :: i in Run(s, before + [e] + after).rooms
                                     && Step(t, e).rooms[i].doc <= Run(s, before + [e] + after).rooms[i].doc)
  {
    hide Invariant, AllLoaded, Enabled, Step, Union, Brings;
    assert before + [e] + after == before + ([e] + after);
    assert e in before + [e] + after;
    assert forall x | x in before :: x in before + [e] + after;
    assert forall x | x in after :: x in before + [e] + after;
    RunSplits(s, before, [e] + after);
    QuietRun(s, before);
    var t := Run(s, before);
    assert ([e] + after)[0] == e && ([e] + after)[1..] == after;
    assert EnabledRun(t, [e] + after);
    QuietStep(t, e);
    StepKeepsInvariant(t, e);
    QuietRun(Step(t, e), after);
  }

  /** A room that asked still has what its request said it has. */
  lemma AskerHolds(s: System, first: seq<Event>, rest: seq<Event>, i: nat, j: nat, vector: set<Change>)
    requires Invariant(s) && AllLoaded(s) && i in s.rooms && j in s.rooms
    requires var events := first + [Deliver(j, SyncRequest(i, vector))] + rest; EnabledRun(s, events) && Quiet(events)
    ensures EnabledRun(s, first) && i in Run(s, first).rooms && j in Run(s, first).rooms
    ensures vector <= Run(s, first).rooms[i].doc && s.rooms[j].doc <= Run(s, first).rooms[j].doc
  {
    hide AllLoaded, Quiet, Step, Run, EnabledRun, Everything;
    QuietRunCut(s, first, Deliver(j, SyncRequest(i, vector)), rest);
    SentIsKnown(Run(s, first), SyncRequest(i, vector));
  }

  /** A delivered reply stays. */
  lemma ReplyStays(s: System, before: seq<Event>, last: seq<Event>, i: nat, j: nat, payload: Update)
    requires Invariant(s) && AllLoaded(s) && i in s.rooms
    requires var events := before + [Deliver(i, SyncReply(j, payload, i))] + last; EnabledRun(s, events) && Quiet(events)
    ensures var events := before + [Deliver(i, SyncReply(j, payload, i))] + last;
      && EnabledRun(s, before) && i in Run(s, before).rooms && i in Run(s, events).rooms
      && Run(s, before).rooms[i].doc + payload <= Run(s, events).rooms[i].doc
  {
    hide Invariant, AllLoaded, Quiet, Step, Run, EnabledRun;
    QuietRunCut(s, before, Deliver(i, SyncReply(j, payload, i)), last);
  }

  /** The reply's delivery finds the asker with what its request named, and adds the rest of the answering document. */
  lemma ReplyCompletes(s: System, events: seq<Event>, i: nat, j: nat, vector: set<Change>, payload: Update,
                       first: seq<Event>, rest: seq<Event>, between: seq<Event>, last: seq<Event>)
    requires Invariant(s) && AllLoaded(s) && i in s.rooms && j in s.rooms && EnabledRun(s, events) && Quiet(events)
    requires events == first + [Deliver(j, SyncRequest(i, vector))] + rest
    requires events == first + between + [Deliver(i, SyncReply(j, payload, i))] + last
    requires EnabledRun(s, first) && j in Run(s, first).rooms && Run(s, first).rooms[j].doc - vector == payload
    ensures i in Run(s, events).rooms && s.rooms[j].doc <= Run(s, events).rooms[i].doc
  {
    hide Invariant, AllLoaded, Quiet, Enabled, Step, Run, EnabledRun;
    AskerHolds(s, first, rest, i, j, vector);
    ReplyStays(s, first + between, last, i, j, payload);
    RunGrows(s, first, between);
  }

  /** One answered request carries over everything the answering room had when the run began. */
  lemma ExchangeTransfers(s: System, events: seq<Event>, i: nat, j: nat)
    requires Invariant(s) && AllLoaded(s) && EnabledRun(s, events) && Quiet(events) && Answered(s, events, i, j)
    requires i in s.rooms && j in s.rooms
    ensures i in Run(s, events).rooms && s.rooms[j].doc <= Run(s, events).rooms[i].doc
  {
    hide Invariant, AllLoaded, Quiet, Enabled, Step, Run, EnabledRun;
    var first, middle, last, vector :| IsExchange(s, events, i, j, first, middle, last, vector);
    var payload := Run(s, first).rooms[j].doc - vector;
    var ask, reply := Deliver(j, SyncRequest(i, vector)), Deliver(i, SyncReply(j, payload, i));
    assert first + [ask] + middle + [reply] + last == first + [ask] + (middle + [reply] + last);
    assert first + [ask] + middle + [reply] + last == first + ([ask] + middle) + [reply] + last;
    ReplyCompletes(s, events, i, j, vector, payload, first, middle + [reply] + last, [ask] + middle, last);
  }

  lemma RunGrows(s: System, a: seq<Event>, b: seq<Event>)
    requires Invariant(s) && EnabledRun(s, a + b)
    ensures EnabledRun(s, a)
    ensures forall i | i in Run(s, a).rooms :: i in Run(s, a + b).rooms && Run(s, a).rooms[i].doc <= Run(s, a + b).rooms[i].doc
  {
    hide Invariant, Step, Run, EnabledRun;
    RunSplits(s, a, b);
    RunKeepsInvariant(s, a);
    RunKeepsInvariant(Run(s, a), b);
  }

  ghost predicate EveryoneAnswered(s: System, events: seq<Event>)
    requires EnabledRun(s, events)
  {
    forall i, j | i in s.rooms && j in s.rooms && i != j :: Answered(s, events, i, j)
  }

  /**
   * Convergence: once every room has had an answer from every other and nobody edits, joins or loads meanwhile, all
   * hold exactly the union of what they held, however the messages were delayed, repeated or mixed with others.
   */
  lemma Converges(s: System, events: seq<Event>)
    requires Invariant(s) && AllLoaded(s) && EnabledRun(s, events) && Quiet(events)
    requires EveryoneAnswered(s, events)
    ensures var t := Run(s, events);
      t.rooms.Keys == s.rooms.Keys && forall i | i in t.rooms :: t.rooms[i].doc == Union(s)
  {
    hide Invariant, AllLoaded, Quiet, Run, EnabledRun, Answered;
    QuietRun(s, events);
    var t := Run(s, events);
    forall i, c | i in s.rooms && c in Union(s)
      ensures c in t.rooms[i].doc
    {
      var j :| j in s.rooms && c in s.rooms[j].doc;
      if i != j {
        ExchangeTransfers(s, events, i, j);
      }
    }
    forall i, c | i in t.rooms && c in t.rooms[i].doc
      ensures c in Union(s)
    {
      assert c in Union(t);
    }
  }

  // ----- such a run always exists -----

  lemma {:induction false} RunJoins(s: System, a: seq<Event>, b: seq<Event>)
    requires EnabledRun(s, a) && EnabledRun(Run(s, a), b)
    ensures EnabledRun(s, a + b) && Run(s, a + b) == Run(Run(s, a), b)
    decreases |a|
  {
    hide Enabled, Step;
    if a == [] {
      assert a + b == b;
    } else {
      assert (a + b)[1..] == a[1..] + b;
      RunJoins(Step(s, a[0]), a[1..], b);
    }
  }

  lemma RunOne(s: System, e: Event)
    requires Enabled(s, e)
    ensures EnabledRun(s, [e]) && Run(s, [e]) == Step(s, e)
  {
    assert [e][1..] == [];
    assert EnabledRun(Step(s, e), []);
    hide Enabled, Step;
  }

  /** A room asks, another answers, and the answer arrives. */
  lemma ExchangeRun(s: System, i: nat, j: nat) returns (events: seq<Event>)
    requires Invariant(s) && AllLoaded(s) && i in s.rooms && j in s.rooms && i != j
    ensures EnabledRun(s, events) && Quiet(events) && Answered(s, events, i, j)
  {
    var vector := Vector(s.rooms[i].doc);
    var asks := Resync(i);
    var t := Step(s, asks);
    assert SyncRequest(i, vector) in t.sent by { assert RoomAfter(s, asks).1[0] in RoomAfter(s, asks).1; }
    QuietStep(s, asks);
    StepKeepsInvariant(s, asks);
    var ask := Deliver(j, SyncRequest(i, vector));
    assert Enabled(t, ask);
    QuietStep(t, ask);
    var reply := Deliver(i, SyncReply(j, t.rooms[j].doc - vector, i));
    assert Enabled(Step(t, ask), reply);
    hide Invariant, AllLoaded, Enabled, Step, RoomAfter, Union;
    events := ThreeSteps(s, asks, ask, reply);
    assert events == [asks] + [ask] + [] + [reply] + [];
    assert IsExchange(s, events, i, j, [asks], [], [], vector);
  }

  lemma ThreeSteps(s: System, e: Event, f: Event, g: Event) returns (events: seq<Event>)
    requires Enabled(s, e) && Enabled(Step(s, e), f) && Enabled(Step(Step(s, e), f), g)
    ensures events == [e] + [f] + [g] && EnabledRun(s, events) && EnabledRun(s, [e]) && Run(s, [e]) == Step(s, e)
  {
    hide Enabled, Step;
    RunOne(s, e);
    RunOne(Step(s, e), f);
    RunOne(Step(Step(s, e), f), g);
    RunJoins(s, [e], [f]);
    RunJoins(s, [e] + [f], [g]);
    events := [e] + [f] + [g];
  }

  /** An answer stays an answer in a longer run. */
  lemma AnsweredInLonger(s: System, before: seq<Event>, events: seq<Event>, i: nat, j: nat)
    requires EnabledRun(s, before) && EnabledRun(Run(s, before), events)
    ensures EnabledRun(s, before + events)
    ensures Answered(Run(s, before), events, i, j) ==> Answered(s, before + events, i, j)
    ensures Answered(s, before, i, j) ==> Answered(s, before + events, i, j)
  {
    hide Enabled, Step, Run, EnabledRun;
    RunJoins(s, before, events);
    if Answered(Run(s, before), events, i, j) {
      var first, middle, last, vector :| IsExchange(Run(s, before), events, i, j, first, middle, last, vector);
      RunJoins(s, before, first);
      var ask := [Deliver(j, SyncRequest(i, vector))];
      var reply := [Deliver(i, SyncReply(j, Run(s, before + first).rooms[j].doc - vector, i))];
      Regroup(before, first, ask, middle, reply, last);
      assert IsExchange(s, before + events, i, j, before + first, middle, last, vector);
    }
    if Answered(s, before, i, j) {
      var first, middle, last, vector :| IsExchange(s, before, i, j, first, middle, last, vector);
      var ask := [Deliver(j, SyncRequest(i, vector))];
      var reply := [Deliver(i, SyncReply(j, Run(s, first).rooms[j].doc - vector, i))];
      assert first + ask + middle + reply + last + events == first + ask + middle + reply + (last + events);
      assert IsExchange(s, before + events, i, j, first, middle, last + events, vector);
    }
  }

  lemma Regroup(a: seq<Event>, b: seq<Event>, c: seq<Event>, d: seq<Event>, e: seq<Event>, f: seq<Event>)
    ensures a + (b + c + d + e + f) == (a + b) + c + d + e + f
  {
  }

  lemma {:induction false} AnswerPairs(s: System, pairs: seq<(nat, nat)>) returns (events: seq<Event>)
    requires Invariant(s) && AllLoaded(s)
    requires forall p | p in pairs :: p.0 in s.rooms && p.1 in s.rooms && p.0 != p.1
    ensures EnabledRun(s, events) && Quiet(events) && forall p | p in pairs :: Answered(s, events, p.0, p.1)
    decreases |pairs|
  {
    hide Invariant, AllLoaded, Enabled, Step, Union, Answered;
    if pairs == [] {
      events := [];
    } else {
      var n := |pairs| - 1;
      var p := pairs[n];
      assert p in pairs && pairs == pairs[..n] + [p];
      var before := AnswerPairs(s, pairs[..n]);
      QuietRun(s, before);
      hide Run, EnabledRun;
      var more := ExchangeRun(Run(s, before), p.0, p.1);
      events := before + more;
      forall q | q in pairs
        ensures EnabledRun(s, events) && Answered(s, events, q.0, q.1)
      {
        AnsweredInLonger(s, before, more, q.0, q.1);
      }
    }
  }

  lemma {:induction false} ListPairs(rooms: set<(nat, nat)>) returns (pairs: seq<(nat, nat)>)
    ensures forall p :: p in pairs <==> p in rooms
    decreases rooms
  {
    if rooms == {} {
      pairs := [];
    } else {
      var p :| p in rooms;
      var rest := ListPairs(rooms - {p});
      pairs := rest + [p];
    }
  }

  /** From every state with all rooms loaded, some quiet run brings all documents to the union. */
  lemma AgreementIsReachable(s: System) returns (events: seq<Event>)
    requires Invariant(s) && AllLoaded(s)
    ensures EnabledRun(s, events) && Quiet(events)
    ensures var t := Run(s, events); t.rooms.Keys == s.rooms.Keys && forall i | i in t.rooms :: t.rooms[i].doc == Union(s)
  {
    var rooms := s.rooms.Keys;
    var pairs := ListPairs(set i, j | i in rooms && j in rooms && i != j :: (i, j));
    events := AnswerPairs(s, pairs);
    hide Invariant, AllLoaded, Run, EnabledRun, Answered, Union;
    assert EveryoneAnswered(s, events) by {
      forall i, j | i in s.rooms && j in s.rooms && i != j
        ensures Answered(s, events, i, j)
      {
        assert (i, j) in pairs;
      }
    }
    Converges(s, events);
  }
}
