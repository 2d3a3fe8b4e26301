/** The cap on concurrent writes: a semaphore that hands its slots over in arrival order. */
module LimitedWrites {
  /**
   * Writes are named by arrival, 0 being the first. What the limiter keeps, and for the record how many writes came,
   * which were started in what order, and which of those settled (succeeded or threw).
   */
  datatype State = State(running: int, waiting: seq<nat>, arrived: nat, started: seq<nat>, settled: set<nat>)

  const IDLE := State(0, [], 0, [], {})

  /** The writes that hold a slot. */
  ghost function Active(s: State): set<nat>
  {
    (set w | w in s.started) - s.settled
  }

  /** A write arrives: it waits when every slot is taken, and takes one otherwise. */
  function Arrive(limit: int, s: State): State
  {
    if s.running >= limit then s.(waiting := s.waiting + [s.arrived], arrived := s.arrived + 1)
    else s.(running := s.running + 1, started := s.started + [s.arrived], arrived := s.arrived + 1)
  }

  /** A running write settles: its slot goes straight to the first waiter, or is freed. */
  function Settle(s: State, w: nat): State
  {
    var t := s.(settled := s.settled + {w});
    if t.waiting != [] then t.(started := t.started + [t.waiting[0]], waiting := t.waiting[1..])
    else t.(running := t.running - 1)
  }

  class Limiter {
    var running: int
    var waiting: seq<nat>
    const maxConcurrentWrites: int
    ghost var arrived: nat
    ghost var started: seq<nat>
    ghost var settled: set<nat>

    ghost function View(): State
      reads this
    {
      State(running, waiting, arrived, started, settled)
    }

    constructor (maxConcurrentWrites: int)
      ensures View() == IDLE && this.maxConcurrentWrites == maxConcurrentWrites
    {
      this.maxConcurrentWrites := maxConcurrentWrites;
      running, waiting, arrived, started, settled := 0, [], 0, [], {};
    }

    /** Up to the point where the write itself begins; `now` says whether that is at once. */
    method Enter(w: nat) returns (now: bool)
      requires w == arrived
      modifies this
      ensures View() == Arrive(maxConcurrentWrites, old(View()))
      ensures now <==> old(running) < maxConcurrentWrites
      ensures now ==> running == old(running) + 1 && waiting == old(waiting) && started == old(started) + [w]
      ensures !now ==> running == old(running) && waiting == old(waiting) + [w] && started == old(started)
      ensures arrived == old(arrived) + 1 && settled == old(settled)
    {
      arrived := arrived + 1;
      if running >= maxConcurrentWrites {
        waiting := waiting + [w];
        return false;
      }
      running := running + 1;
      started := started + [w];
      return true;
    }

    /** After the write, however it ended; `woken` is the waiter that may go on, if there is one. */
    method Leave(ghost w: nat) returns (woken: seq<nat>)
      modifies this
      ensures View() == Settle(old(View()), w)
      ensures old(waiting) != [] ==> woken == [old(waiting)[0]] && waiting == old(waiting)[1..] && running == old(running)
      ensures old(waiting) == [] ==> woken == [] && waiting == [] && running == old(running) - 1
      ensures started == old(started) + woken && settled == old(settled) + {w} && arrived == old(arrived)
    {
      settled := settled + {w};
      if waiting != [] {
        woken := [waiting[0]];
        started, waiting := started + woken, waiting[1..];
      } else {
        woken := [];
        running := running - 1;
      }
    }
  }

  // ----- every run -----

  datatype Event = Arrival | Settlement(write: nat)

  ghost predicate Enabled(s: State, e: Event)
  {
    e.Settlement? ==> e.write in Active(s)
  }

  function Step(limit: int, s: State, e: Event): State
  {
    match e
    case Arrival => Arrive(limit, s)
    case Settlement(w) => Settle(s, w)
  }

  ghost predicate EnabledRun(limit: int, s: State, events: seq<Event>)
    decreases |events|
  {
    events == [] || (Enabled(s, events[0]) && EnabledRun(limit, Step(limit, s, events[0]), events[1..]))
  }

  function Run(limit: int, s: State, events: seq<Event>): State
    decreases |events|
  {
    if events == [] then s else Run(limit, Step(limit, s, events[0]), events[1..])
  }

  /** Every write that came was started or waits, once, in the order of arrival. */
  ghost predicate InOrder(s: State)
  {
    && |s.started| + |s.waiting| == s.arrived
    && forall k | 0 <= k < s.arrived :: (s.started + s.waiting)[k] == k
  }

  /** No slot is lost or used twice, none is used beyond the limit, and none is free while a write waits. */
  ghost predicate Invariant(limit: int, s: State)
  {
    && InOrder(s)
    && (forall w | w in s.settled :: w in s.started)
    && s.running == |Active(s)|
    && (s.running == 0 || s.running <= limit)
    && (s.waiting != [] ==> limit <= s.running)
  }

  lemma StartedCameFirst(s: State, w: nat)
    requires InOrder(s)
    ensures w in s.started <==> w < |s.started|
  {
    if w in s.started {
      var k :| 0 <= k < |s.started| && s.started[k] == w;
      assert (s.started + s.waiting)[k] == k;
    }
    if w < |s.started| {
      assert (s.started + s.waiting)[w] == w;
    }
  }

  lemma ArrivalKeepsInvariant(limit: int, s: State)
    requires Invariant(limit, s)
    ensures Invariant(limit, Arrive(limit, s))
  {
    var t := Arrive(limit, s);
    assert t.started + t.waiting == s.started + s.waiting + [s.arrived] by {
      if s.running < limit { assert s.waiting == []; }
    }
    assert InOrder(t);
    StartedCameFirst(s, s.arrived);
    if s.running < limit {
      assert Active(t) == Active(s) + {s.arrived};
    } else {
      assert Active(t) == Active(s);
    }
    hide Active, InOrder;
  }

  lemma SettlementKeepsInvariant(limit: int, s: State, w: nat)
    requires Invariant(limit, s) && w in Active(s)
    ensures Invariant(limit, Settle(s, w))
  {
    var t := Settle(s, w);
    assert t.started + t.waiting == s.started + s.waiting;
    assert InOrder(t);
    if s.waiting != [] {
      var next := s.waiting[0];
      assert next == (s.started + s.waiting)[|s.started|];
      StartedCameFirst(s, next);
      assert Active(t) == Active(s) - {w} + {next};
    } else {
      assert Active(t) == Active(s) - {w};
    }
    hide Active, InOrder;
  }

  lemma StepKeepsInvariant(limit: int, s: State, e: Event)
    requires Invariant(limit, s) && Enabled(s, e)
    ensures Invariant(limit, Step(limit, s, e))
  {
    hide Invariant;
    if e.Arrival? {
      ArrivalKeepsInvariant(limit, s);
    } else {
      SettlementKeepsInvariant(limit, s, e.write);
    }
  }

  lemma {:induction false} RunKeepsInvariant(limit: int, s: State, events: seq<Event>)
    requires Invariant(limit, s) && EnabledRun(limit, s, events)
    ensures Invariant(limit, Run(limit, s, events))
    decreases |events|
  {
    if events != [] {
      StepKeepsInvariant(limit, s, events[0]);
      hide Invariant, Step;
      RunKeepsInvariant(limit, Step(limit, s, events[0]), events[1..]);
    }
  }

  // ----- nobody waits for ever -----

  function Settlements(events: seq<Event>): nat
  {
    if events == [] then 0 else (if events[0].Settlement? then 1 else 0) + Settlements(events[1..])
  }

  /** The `k`-th in the queue is started by the (k+1)-th write to settle from now on, not earlier and not later. */
  lemma {:induction false} TurnComes(limit: int, s: State, events: seq<Event>, k: nat)
    requires Invariant(limit, s) && EnabledRun(limit, s, events) && k < |s.waiting|
    ensures s.waiting[k] in Run(limit, s, events).started <==> Settlements(events) > k
    decreases |events|
  {
    var w := s.waiting[k];
    assert (s.started + s.waiting)[|s.started| + k] == w;
    if events == [] {
      StartedCameFirst(s, w);
      return;
    }
    var t := Step(limit, s, events[0]);
    StepKeepsInvariant(limit, s, events[0]);
    if events[0].Settlement? && k == 0 {
      assert w == t.started[|t.started| - 1];
      StartedStays(limit, t, events[1..], w);
    } else if events[0].Settlement? {
      assert t.waiting[k - 1] == w;
      TurnComes(limit, t, events[1..], k - 1);
    } else {
      TurnComes(limit, t, events[1..], k);
    }
  }

  lemma {:induction false} StartedStays(limit: int, s: State, events: seq<Event>, w: nat)
    requires w in s.started
    ensures w in Run(limit, s, events).started
    decreases |events|
  {
    if events != [] {
      StartedStays(limit, Step(limit, s, events[0]), events[1..], w);
    }
  }

  /** Once every started write has settled, every write that came has been done. */
  ghost predicate IdleMeansDone(s: State)
  {
    Active(s) == {} ==> s.waiting == [] && forall w: nat | w < s.arrived :: w in s.settled
  }

  /** This holds in every run exactly when the limit is at least one; otherwise the very first write waits for ever. */
  lemma LimitOfOneSuffices(limit: int)
    ensures (forall events | EnabledRun(limit, IDLE, events) :: IdleMeansDone(Run(limit, IDLE, events))) <==> limit >= 1
  {
    if limit >= 1 {
      assert Active(IDLE) == {};
      forall events | EnabledRun(limit, IDLE, events)
        ensures IdleMeansDone(Run(limit, IDLE, events))
      {
        RunKeepsInvariant(limit, IDLE, events);
        IdleIsDone(limit, Run(limit, IDLE, events));
      }
    } else {
      ArrivalWaits(limit);
    }
  }

  lemma ArrivalWaits(limit: int)
    requires limit < 1
    ensures EnabledRun(limit, IDLE, [Arrival]) && !IdleMeansDone(Run(limit, IDLE, [Arrival]))
  {
    var events := [Arrival];
    var t := Step(limit, IDLE, events[0]);
    assert events[1..] == [];
    assert EnabledRun(limit, t, []) && Run(limit, t, []) == t;
    assert EnabledRun(limit, IDLE, events) && Run(limit, IDLE, events) == t;
    assert t.waiting == [0] && Active(t) == {};
  }

  lemma IdleIsDone(limit: int, s: State)
    requires Invariant(limit, s) && limit >= 1
    ensures IdleMeansDone(s)
  {
    if Active(s) == {} {
      forall w: nat | w < s.arrived
        ensures w in s.settled
      {
        StartedCameFirst(s, w);
        assert w in Active(s) || w in s.settled;
      }
    }
  }
}
