/** What clients change reaches the other instances as it is made, without anybody asking for it. */
module LiveSync {
  import opened Documents
  import opened RoomSync

  /** An edit that adds something is sent on, and what is sent is what it added. */
  lemma EditIsPublished(s: System, i: nat, u: Update)
    requires Enabled(s, Edit(i, u)) && u - s.rooms[i].doc != {}
    ensures UpdateMessage(i, u - s.rooms[i].doc) in Step(s, Edit(i, u)).sent
    ensures Step(s, Edit(i, u)).rooms[i].doc == s.rooms[i].doc + u
  {
    var (r, out) := RoomAfter(s, Edit(i, u));
    assert out[0] in out;
    assert s.rooms[i].doc + (u - s.rooms[i].doc) == s.rooms[i].doc + u;
  }

  /** A room that has loaded asks the others for what it lacks. */
  lemma LoadedRoomAsks(s: System, i: nat, content: set<Change>)
    requires Enabled(s, Load(i, content))
    ensures var t := Step(s, Load(i, content));
      t.rooms[i].loaded && SyncRequest(i, set c | c in t.rooms[i].doc && c.Insert?) in t.sent
  {
    var (r, out) := RoomAfter(s, Load(i, content));
    assert out[|out| - 1] in out;
    ApplyAllReacts(i, s.rooms[i].(doc := s.rooms[i].doc + content, loaded := true, queued := []), s.rooms[i].queued,
                   set m, c | m in s.rooms[i].queued && c in Brings(m) :: c);
    hide ApplyAll, Brings;
  }

  /** A room is answered always, and asked in return if it has an insertion the answering room lacks. */
  lemma RequestIsAnswered(s: System, j: nat, i: nat, vector: set<Change>)
    requires Enabled(s, Deliver(j, SyncRequest(i, vector))) && s.rooms[j].loaded
    ensures var t := Step(s, Deliver(j, SyncRequest(i, vector)));
      && SyncReply(j, s.rooms[j].doc - vector, i) in t.sent
      && ((exists c :: c in vector && c.Insert? && c !in s.rooms[j].doc) ==>
            SyncRequest(j, set c | c in s.rooms[j].doc && c.Insert?) in t.sent)
  {
    var (r, out) := RoomAfter(s, Deliver(j, SyncRequest(i, vector)));
    assert out[0] in out;
    if c :| c in vector && c.Insert? && c !in s.rooms[j].doc {
      assert c in Vector(vector);
      assert out[1] in out;
    }
  }

  // ----- every edit is sent -----

  /** What clients of instance `i` changed in a run that their room did not have. */
  ghost function NewIn(s: System, events: seq<Event>, i: nat): set<Change>
    requires EnabledRun(s, events)
    decreases |events|
  {
    if events == [] then {}
    else
      (if events[0].Edit? && events[0].room == i then events[0].update - s.rooms[i].doc else {})
      + NewIn(Step(s, events[0]), events[1..], i)
  }

  /** What the update messages of instance `i` carry. */
  ghost function PublishedBy(sent: set<Message>, i: nat): set<Change>
  {
    set m, c | m in sent && m.UpdateMessage? && m.from == i && c in m.payload :: c
  }

  /** In every run each change a client made that its room did not have is in some update message of its instance. */
  lemma {:induction false} EditsArePublished(s: System, events: seq<Event>, i: nat)
    requires EnabledRun(s, events)
    ensures NewIn(s, events, i) <= PublishedBy(Run(s, events).sent, i)
    ensures s.sent <= Run(s, events).sent
    decreases |events|
  {
    if events != [] {
      var e, next := events[0], Step(s, events[0]);
      if e.Edit? && e.room == i && e.update - s.rooms[i].doc != {} {
        EditIsPublished(s, i, e.update);
      }
      assert s.sent <= next.sent;
      hide Step, Enabled;
      EditsArePublished(next, events[1..], i);
    }
  }

  // ----- agreement without asking -----

  /** Clients edit and update messages are delivered; nobody asks. */
  ghost predicate Live(events: seq<Event>)
  {
    forall e | e in events :: e.Edit? || (e.Deliver? && e.message.UpdateMessage?)
  }

  /** What update messages sent since carry. */
  ghost function Since(before: set<Message>, sent: set<Message>): set<Change>
  {
    set m, c | m in sent && m !in before && m.UpdateMessage? && c in m.payload :: c
  }

  /** Every room has nothing but what all had at first, `common`, and what was sent since. */
  ghost predicate Within(s: System, common: set<Change>, before: set<Message>)
  {
    && (forall i | i in s.rooms :: common <= s.rooms[i].doc <= common + Since(before, s.sent))
    && (forall m | m in before && m.UpdateMessage? :: m.payload <= common)
  }

  /** A delivered update message adds what it carries, and nothing is sent. */
  lemma UpdateIsMerged(s: System, i: nat, m: Message)
    requires Enabled(s, Deliver(i, m)) && s.rooms[i].loaded && m.UpdateMessage?
    ensures var t := Step(s, Deliver(i, m));
      t.sent == s.sent && t.rooms == s.rooms[i := t.rooms[i]] && t.rooms[i].doc == s.rooms[i].doc + m.payload && t.rooms[i].loaded
  {
    assert s.rooms[i].doc + (m.payload - s.rooms[i].doc) == s.rooms[i].doc + m.payload;
    assert All([]) == {};
  }

  lemma EditIsMerged(s: System, i: nat, u: Update)
    requires Enabled(s, Edit(i, u))
    ensures var t := Step(s, Edit(i, u));
      s.sent <= t.sent && t.rooms == s.rooms[i := t.rooms[i]] && t.rooms[i].doc == s.rooms[i].doc + u && t.rooms[i].loaded
  {
    assert s.rooms[i].doc + (u - s.rooms[i].doc) == s.rooms[i].doc + u;
  }

  lemma SinceHas(before: set<Message>, sent: set<Message>, m: Message)
    requires m in sent && m.UpdateMessage?
    ensures m in before || m.payload <= Since(before, sent)
  {
  }

  lemma SinceGrows(before: set<Message>, a: set<Message>, b: set<Message>)
    requires a <= b
    ensures Since(before, a) <= Since(before, b)
  {
  }

  lemma LiveStep(s: System, e: Event, common: set<Change>, before: set<Message>)
    requires AllLoaded(s) && Enabled(s, e) && Within(s, common, before)
    requires e.Edit? || (e.Deliver? && e.message.UpdateMessage?)
    ensures Within(Step(s, e), common, before) && AllLoaded(Step(s, e)) && Step(s, e).rooms.Keys == s.rooms.Keys
    ensures e.Deliver? ==> e.message.payload <= Step(s, e).rooms[e.room].doc
  {
    var t := Step(s, e);
    if e.Edit? {
      var added := e.update - s.rooms[e.room].doc;
      EditIsMerged(s, e.room, e.update);
      SinceGrows(before, s.sent, t.sent);
      if added != {} {
        EditIsPublished(s, e.room, e.update);
        SinceHas(before, t.sent, UpdateMessage(e.room, added));
      }
    } else {
      UpdateIsMerged(s, e.room, e.message);
      SinceHas(before, s.sent, e.message);
    }
    hide Step, Enabled, Since;
  }

  /** The update message reaches the room in this run. */
  ghost predicate Reaches(events: seq<Event>, m: Message, i: nat)
  {
    Deliver(i, m) in events
  }

  lemma {:induction false} LiveRun(s: System, events: seq<Event>, common: set<Change>, before: set<Message>)
    requires Invariant(s) && AllLoaded(s) && Within(s, common, before) && EnabledRun(s, events) && Live(events)
    ensures var t := Run(s, events);
      && Invariant(t) && Within(t, common, before) && t.rooms.Keys == s.rooms.Keys
      && (forall i | i in s.rooms :: s.rooms[i].doc <= t.rooms[i].doc)
      && (forall i, m | Reaches(events, m, i) :: i in t.rooms && m.UpdateMessage? && m.payload <= t.rooms[i].doc)
    decreases |events|
  {
    if events != [] {
      var e, next, rest := events[0], Step(s, events[0]), events[1..];
      assert e in events && forall x | x in rest :: x in events;
      LiveStep(s, e, common, before);
      StepKeepsInvariant(s, e);
      hide Invariant, AllLoaded, Within, Step, Enabled;
      LiveRun(next, rest, common, before);
      forall i, m | Reaches(events, m, i)
        ensures i in Run(s, events).rooms && m.UpdateMessage? && m.payload <= Run(s, events).rooms[i].doc
      {
        assert Deliver(i, m) == e || Reaches(rest, m, i);
      }
    }
  }

  /** All rooms hold the same. */
  ghost predicate Agree(s: System)
  {
    forall i, j | i in s.rooms && j in s.rooms :: s.rooms[i].doc == s.rooms[j].doc
  }

  /** Every update message sent in the run reaches every other room in it. */
  ghost predicate AllDelivered(s: System, events: seq<Event>)
    requires EnabledRun(s, events)
  {
    forall m, i | m in Run(s, events).sent && m !in s.sent && m.UpdateMessage? && i in s.rooms && i != m.from :: Reaches(events, m, i)
  }

  /** In this run nobody asks, all rooms agreed before it, and every update message sent in it is delivered. */
  ghost predicate LivesOn(s: System, events: seq<Event>)
  {
    Invariant(s) && AllLoaded(s) && Agree(s) && EnabledRun(s, events) && Live(events) && AllDelivered(s, events)
  }

  lemma AgreeingIsWithin(s: System, i: nat)
    requires Invariant(s) && Agree(s) && i in s.rooms
    ensures Within(s, s.rooms[i].doc, s.sent)
  {
    forall m | m in s.sent && m.UpdateMessage?
      ensures m.payload <= s.rooms[i].doc
    {
      assert Faithful(s, m);
    }
    hide Faithful;
  }

  /** A message sent in the run is held by its sender too. */
  lemma SenderHolds(t: System, m: Message)
    requires Invariant(t) && m in t.sent && m.UpdateMessage?
    ensures m.from in t.rooms && m.payload <= t.rooms[m.from].doc
  {
    assert Faithful(t, m);
    hide Faithful;
  }

  lemma EveryRoomHasAll(s: System, events: seq<Event>, common: set<Change>, i: nat)
    requires LivesOn(s, events) && i in s.rooms && Within(s, common, s.sent)
    ensures i in Run(s, events).rooms && Run(s, events).rooms[i].doc == common + Since(s.sent, Run(s, events).sent)
  {
    var t := Run(s, events);
    LiveRun(s, events, common, s.sent);
    hide Invariant, AllLoaded, Agree, Live, Run, EnabledRun, Reaches;
    forall c | c in Since(s.sent, t.sent)
      ensures c in t.rooms[i].doc
    {
      var m :| m in t.sent && m !in s.sent && m.UpdateMessage? && c in m.payload;
      if m.from == i {
        SenderHolds(t, m);
      } else {
        assert Reaches(events, m, i);
      }
    }
  }

  /**
   * Rooms that agree, agree again once every update message sent meanwhile has reached every other room, without any
   * sync request; and then each has all that clients of any instance changed.
   */
  lemma LiveRoomsAgree(s: System, events: seq<Event>, i: nat, j: nat)
    requires LivesOn(s, events) && i in s.rooms && j in s.rooms
    ensures var t := Run(s, events);
      i in t.rooms && j in t.rooms && t.rooms[i].doc == t.rooms[j].doc && NewIn(s, events, i) <= t.rooms[j].doc
  {
    AgreeingIsWithin(s, i);
    var common, t := s.rooms[i].doc, Run(s, events);
    EveryRoomHasAll(s, events, common, i);
    EveryRoomHasAll(s, events, common, j);
    EditsArePublished(s, events, i);
    forall c | c in NewIn(s, events, i)
      ensures c in t.rooms[j].doc
    {
      var m :| m in t.sent && m.UpdateMessage? && m.from == i && c in m.payload;
      if m in s.sent {
        assert m.payload <= common;
      }
    }
  }
}
