/** When a closed room is sure to be stored. */
module Closing {
  import opened Documents
  import opened Options
  import opened WriteAhead
  import opened Draining
  import opened Leaving

  /** A closed room with every task done and nothing queued, as its eviction waits for. */
  ghost predicate Settled(s: State)
  {
    s.q.closed && !s.q.disposed && !s.purged && s.q.running == Idle && s.q.chain == [] && s.q.pending == []
  }

  /** An instance that is still the writer by then leaves nothing unstored behind. */
  lemma SettledWriterIsStored(s: State)
    requires Invariant(s) && Settled(s) && s.q.active
    ensures s.doc <= s.stored
  {
    assert Carried([]) == {};
  }

  /** If this run, in which the lease is left alone and the board exists, settles the room, all of it is stored. */
  ghost predicate KeepsAll(s: State, events: seq<Event>)
  {
    AllowedRun(s, events) && AllUndisturbed(events) && Settled(Run(s, events)) ==> Run(s, events).doc <= Run(s, events).stored
  }

  lemma StaysWriter(s: State, e: Event)
    requires s.q.active && !LeavePending(s.q) && Undisturbed(e)
    ensures Step(s, e).q.active && !LeavePending(Step(s, e).q)
  {
    hide Carried, Missing;
    if e.Start? && s.q.running.Idle? && s.q.chain != [] {
      assert s.q.chain == [s.q.chain[0]] + s.q.chain[1..];
      assert s.q.chain[0] != Flush(true);
    }
  }

  lemma {:induction false} StaysWriterInRun(s: State, events: seq<Event>)
    requires s.q.active && !LeavePending(s.q) && AllUndisturbed(events)
    ensures Run(s, events).q.active
    decreases |events|
  {
    if events != [] {
      assert events[0] in events && forall e | e in events[1..] :: e in events;
      StaysWriter(s, events[0]);
      hide Step, LeavePending, Undisturbed;
      StaysWriterInRun(Step(s, events[0]), events[1..]);
    }
  }

  lemma CloseStarts(s: State)
    requires Invariant(s) && Allowed(s, Close) && !s.q.disposed && !s.purged
    ensures var t := Step(s, Close);
      && Invariant(t) && t.q.active && t.q.closed && !t.q.disposed && !t.purged
      && (LeavePending(t.q) <==> LeavePending(s.q))
  {
    StepKeepsInvariant(s, Close);
    hide Invariant;
  }

  lemma EditOfCloser(s: State, c: Change)
    requires s.q.active && c !in s.stored
    ensures var t := Step(s, Edit({c}));
      && t.q.active && t.q.closed == s.q.closed && t.q.disposed == s.q.disposed && t.purged == s.purged
      && !(t.doc <= t.stored) && (LeavePending(t.q) <==> LeavePending(s.q))
  {
    assert c in Step(s, Edit({c})).doc;
  }

  /** A deactivation in flight drops what nothing has stored. */
  lemma LeaveLosesEdit(s: State) returns (events: seq<Event>)
    requires Invariant(s) && s.q.active && s.q.closed && !s.q.disposed && !s.purged && LeavePending(s.q)
    ensures !KeepsAll(s, events)
  {
    var c := FreshChange(s.stored);
    var edited := Step(s, Edit({c}));
    StepKeepsInvariant(s, Edit({c}));
    EditOfCloser(s, c);
    var rest := DrainAll(edited);
    events := [Edit({c})] + rest;
    assert Allowed(s, Edit({c})) && Undisturbed(Edit({c}));
    hide Step, Invariant, LeavePending, Undisturbed, Allowed;
    assert events[0] == Edit({c}) && events[1..] == rest && Run(s, events) == Run(edited, rest);
    assert AllUndisturbed(events);
  }

  /**
   * That no room is left with edits that are not stored holds, over every run that settles the room after the close,
   * exactly when no deactivation is in flight as it is closed: called, and not over.
   */
  lemma ClosedRoomIsStored(s: State)
    requires Invariant(s) && Allowed(s, Close) && !s.q.disposed && !s.purged
    ensures !LeavePending(s.q) <==> forall events :: KeepsAll(Step(s, Close), events)
  {
    var t := Step(s, Close);
    CloseStarts(s);
    hide Step, Invariant, LeavePending, Allowed, AllowedRun, AllUndisturbed;
    if LeavePending(s.q) {
      var events := LeaveLosesEdit(t);
    } else {
      forall events
        ensures KeepsAll(t, events)
      {
        if AllowedRun(t, events) && AllUndisturbed(events) && Settled(Run(t, events)) {
          RunKeepsInvariant(t, events);
          StaysWriterInRun(t, events);
          SettledWriterIsStored(Run(t, events));
        }
      }
    }
  }

  /** A failed append while a deactivation overlaps the close: the edit is lost, and nothing is pending. */
  lemma OverlappingClose(c: Change) returns (events: seq<Event>)
    ensures Initial(WRITER) && AllowedRun(WRITER, events) && Settled(Run(WRITER, events))
    ensures c in Run(WRITER, events).doc && c !in Run(WRITER, events).stored
  {
    var first, last := [Edit({c}), Deactivate, Close], [Start, AppendFails(false), Start];
    events := first + last;
    var s := Step(Step(Step(WRITER, Edit({c})), Deactivate), Close);
    assert s.q == Queue([{c}], true, true, false, [Flush(true), Flush(false)], Idle, 0, 1000);
    assert s.doc == {c} && s.q.chain[1..] == [Flush(false)] && s.q.pending[..1] == [{c}] && s.q.pending[1..] == [];
    var writing := Step(s, Start);
    assert writing.q == Queue([], true, true, false, [Flush(false)], Writing([{c}], Some({c}), true), 0, 1000);
    var failed := Step(writing, AppendFails(false));
    assert failed.q == Queue([], false, true, false, [Flush(false)], Idle, 0, 1000);
    var t := Step(failed, Start);
    assert t.q == Queue([], false, true, false, [], Idle, 0, 1000);
    AllowedThree(WRITER, Edit({c}), Deactivate, Close);
    AllowedThree(s, Start, AppendFails(false), Start);
    hide Step, Allowed;
    RunOfThree(WRITER, Edit({c}), Deactivate, Close);
    RunOfThree(s, Start, AppendFails(false), Start);
    RunAppend(WRITER, first, last);
    AllowedJoins(WRITER, first, last);
  }
}
