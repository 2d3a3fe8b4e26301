/** The rate limit of a connection: what a token bucket admits, over any window of time. */
module TokenBuckets {

  datatype Limits = Limits(capacity: real, refillPerSecond: real)

  datatype Bucket = Bucket(tokens: real, last: real)

  function Min(a: real, b: real): real { if a < b then a else b }

  function Max(a: real, b: real): real { if a < b then b else a }

  /** What flows in over so many milliseconds. */
  function Inflow(l: Limits, elapsed: real): real
  {
    elapsed / 1000.0 * l.refillPerSecond
  }

  lemma InflowAdds(l: Limits, a: real, b: real)
    ensures Inflow(l, a + b) == Inflow(l, a) + Inflow(l, b)
    ensures a >= 0.0 && l.refillPerSecond >= 0.0 ==> Inflow(l, a) >= 0.0
  {
  }

  lemma InflowIsRate(l: Limits, elapsed: real)
    ensures Inflow(l, elapsed) == l.refillPerSecond * elapsed / 1000.0
  {
  }

  /** The refill for the time from `last` to `now` in milliseconds; none when the clock goes back. */
  function Refill(l: Limits, last: real, now: real): real
  {
    Inflow(l, Max(0.0, now - last))
  }

  function Filled(l: Limits, b: Bucket, now: real): real
  {
    Min(l.capacity, b.tokens + Refill(l, b.last, now))
  }

  function TakeFrom(l: Limits, b: Bucket, now: real, amount: real): (Bucket, bool)
  {
    var filled := Filled(l, b, now);
    if filled < amount then (Bucket(filled, now), false) else (Bucket(filled - amount, now), true)
  }

  class TokenBucket {
    var tokens: real
    var last: real
    const capacity: real
    const refillPerSecond: real

    function View(): Bucket
      reads this
    {
      Bucket(tokens, last)
    }

    constructor (capacity: real, refillPerSecond: real, now: real)
      ensures View() == Bucket(capacity, now) && this.capacity == capacity && this.refillPerSecond == refillPerSecond
    {
      this.capacity, this.refillPerSecond := capacity, refillPerSecond;
      tokens, last := capacity, now;
    }

    method Take(current: real, amount: real) returns (ok: bool)
      modifies this
      ensures (View(), ok) == TakeFrom(Limits(capacity, refillPerSecond), old(View()), current, amount)
      ensures last == current
      ensures var gained := if current < old(last) then 0.0 else refillPerSecond * (current - old(last)) / 1000.0;
        var filled := if old(tokens) + gained < capacity then old(tokens) + gained else capacity;
        ok == (amount <= filled) && tokens == if ok then filled - amount else filled
    {
      InflowIsRate(Limits(capacity, refillPerSecond), Max(0.0, current - last));
      var elapsed := Max(0.0, current - last) / 1000.0;
      assert elapsed * refillPerSecond == Refill(Limits(capacity, refillPerSecond), last, current);
      last := current;
      tokens := Min(capacity, tokens + elapsed * refillPerSecond);
      if tokens < amount { return false; }
      tokens := tokens - amount;
      return true;
    }
  }

  // ----- every run -----

  datatype Call = Call(now: real, amount: real)

  /** The bucket, made at `start`, after these calls. */
  function After(l: Limits, start: real, calls: seq<Call>): Bucket
  {
    if calls == [] then Bucket(l.capacity, start)
    else
      var n := |calls| - 1;
      TakeFrom(l, After(l, start, calls[..n]), calls[n].now, calls[n].amount).0
  }

  /** How much these calls were granted. */
  function Admitted(l: Limits, start: real, calls: seq<Call>): real
  {
    if calls == [] then 0.0
    else
      var n := |calls| - 1;
      Admitted(l, start, calls[..n])
      + if TakeFrom(l, After(l, start, calls[..n]), calls[n].now, calls[n].amount).1 then calls[n].amount else 0.0
  }

  /** The whole refill from `start` to the last of these calls. */
  function Gained(l: Limits, start: real, calls: seq<Call>): real
  {
    if calls == [] then 0.0
    else
      var n := |calls| - 1;
      Gained(l, start, calls[..n]) + Refill(l, After(l, start, calls[..n]).last, calls[n].now)
  }

  ghost predicate Sensible(l: Limits, calls: seq<Call>)
  {
    l.capacity >= 0.0 && l.refillPerSecond >= 0.0 && forall c | c in calls :: c.amount >= 0.0
  }

  /** What was granted from the `k`-th call on; 0 stands for the making of the bucket. */
  ghost function AdmittedSince(l: Limits, start: real, calls: seq<Call>, k: nat): real
    requires k <= |calls|
  {
    Admitted(l, start, calls) - Admitted(l, start, calls[..if k == 0 then 0 else k - 1])
  }

  /** The capacity and the refill between the `k`-th call and the last. */
  ghost function Allowance(l: Limits, start: real, calls: seq<Call>, k: nat): real
    requires k <= |calls|
  {
    l.capacity + Gained(l, start, calls) - Gained(l, start, calls[..k])
  }

  /** One call keeps within an allowance that grows by its refill and shrinks by its grant. */
  lemma TakeKeepsWithin(l: Limits, b: Bucket, call: Call, room: real)
    requires l.capacity >= 0.0 && l.refillPerSecond >= 0.0 && call.amount >= 0.0
    requires 0.0 <= b.tokens <= l.capacity && b.tokens <= room
    ensures var (t, ok) := TakeFrom(l, b, call.now, call.amount); var granted := if ok then call.amount else 0.0;
      && 0.0 <= t.tokens <= l.capacity - granted
      && t.tokens <= room + Refill(l, b.last, call.now) - granted
  {
    InflowAdds(l, Max(0.0, call.now - b.last), 0.0);
    hide Inflow;
  }

  /** The tokens never exceed what any window leaves of its allowance. */
  lemma {:induction false} TokensWithinWindow(l: Limits, start: real, calls: seq<Call>, k: nat)
    requires Sensible(l, calls) && k <= |calls|
    ensures 0.0 <= After(l, start, calls).tokens <= l.capacity
    ensures After(l, start, calls).tokens <= Allowance(l, start, calls, k) - AdmittedSince(l, start, calls, k)
    decreases |calls|
  {
    assert calls[..|calls|] == calls;
    if calls != [] {
      var n := |calls| - 1;
      var front, m := calls[..n], if k <= n then k else n;
      assert forall c | c in front :: c in calls;
      assert calls[n] in calls;
      TokensWithinWindow(l, start, front, m);
      var room := Allowance(l, start, front, m) - AdmittedSince(l, start, front, m);
      TakeKeepsWithin(l, After(l, start, front), calls[n], room);
      hide Sensible, Refill, TakeFrom;
      assert k <= n ==> calls[..k] == front[..k];
      assert 0 < k <= n ==> calls[..k - 1] == front[..k - 1];
    }
  }

  /** And they are exactly that for some window: the one since the bucket was last full. */
  lemma {:induction false} TokensOfSomeWindow(l: Limits, start: real, calls: seq<Call>) returns (k: nat)
    ensures k <= |calls|
    ensures After(l, start, calls).tokens == Allowance(l, start, calls, k) - AdmittedSince(l, start, calls, k)
    decreases |calls|
  {
    assert calls[..|calls|] == calls;
    if calls == [] {
      k := 0;
    } else {
      var n := |calls| - 1;
      var front := calls[..n];
      var b := After(l, start, front);
      if Filled(l, b, calls[n].now) == l.capacity {
        k := |calls|;
      } else {
        k := TokensOfSomeWindow(l, start, front);
        assert calls[..k] == front[..k];
        assert k > 0 ==> calls[..k - 1] == front[..k - 1];
        hide Refill;
      }
    }
  }

  /** Granting the call leaves the window from the `k`-th call to it within its allowance. */
  ghost predicate Fits(l: Limits, start: real, calls: seq<Call>, call: Call, k: nat)
    requires k <= |calls| + 1
  {
    Admitted(l, start, calls) - Admitted(l, start, calls[..if k == 0 then 0 else k - 1]) + call.amount
      <= Allowance(l, start, calls + [call], k)
  }

  lemma OneMoreCall(l: Limits, start: real, calls: seq<Call>, call: Call)
    ensures var all := calls + [call]; var (b, ok) := TakeFrom(l, After(l, start, calls), call.now, call.amount);
      After(l, start, all) == b && Admitted(l, start, all) == Admitted(l, start, calls) + if ok then call.amount else 0.0
  {
    var all := calls + [call];
    assert all[..|calls|] == calls && all[|calls|] == call;
    hide TakeFrom;
  }

  lemma OneMoreInWindow(l: Limits, start: real, calls: seq<Call>, call: Call, k: nat)
    requires k <= |calls| + 1
    ensures AdmittedSince(l, start, calls + [call], k)
         == Admitted(l, start, calls + [call]) - Admitted(l, start, calls[..if k == 0 then 0 else k - 1])
  {
    var m := if k == 0 then 0 else k - 1;
    assert (calls + [call])[..m] == calls[..m];
    hide Admitted;
  }

  /**
   * A call is granted exactly when no window ending with it would pass the capacity and the refill in that window,
   * whatever the clock does: the bucket grants no more than that, and refuses nothing that would stay within it.
   */
  lemma GrantsExactlyWhatFits(l: Limits, start: real, calls: seq<Call>, call: Call)
    requires Sensible(l, calls + [call])
    ensures TakeFrom(l, After(l, start, calls), call.now, call.amount).1 <==>
            forall k | 0 <= k <= |calls| + 1 :: Fits(l, start, calls, call, k)
  {
    var all := calls + [call];
    var (b, ok) := TakeFrom(l, After(l, start, calls), call.now, call.amount);
    if ok {
      forall k | 0 <= k <= |calls| + 1
        ensures Fits(l, start, calls, call, k)
      {
        TokensWithinWindow(l, start, all, k);
        OneMoreCall(l, start, calls, call);
        OneMoreInWindow(l, start, calls, call, k);
      }
    } else {
      var k := TokensOfSomeWindow(l, start, all);
      OneMoreCall(l, start, calls, call);
      OneMoreInWindow(l, start, calls, call, k);
      assert b.tokens < call.amount;
      assert !Fits(l, start, calls, call, k);
    }
  }

  // ----- in terms of the clock -----

  ghost predicate NonDecreasing(start: real, calls: seq<Call>)
  {
    && (calls != [] ==> start <= calls[0].now)
    && forall i | 0 < i < |calls| :: calls[i - 1].now <= calls[i].now
  }

  function LastTime(start: real, calls: seq<Call>): real
  {
    if calls == [] then start else calls[|calls| - 1].now
  }

  /** With a clock that never goes back the refill is the rate times the seconds elapsed. */
  lemma {:induction false} GainedIsElapsed(l: Limits, start: real, calls: seq<Call>)
    requires NonDecreasing(start, calls)
    ensures After(l, start, calls).last == LastTime(start, calls)
    ensures Gained(l, start, calls) == Inflow(l, LastTime(start, calls) - start)
  {
    if calls != [] {
      var n := |calls| - 1;
      var front := calls[..n];
      GainedIsElapsed(l, start, front);
      var before, now := LastTime(start, front), calls[n].now;
      assert before <= now;
      InflowAdds(l, before - start, now - before);
      hide Inflow, Filled;
    }
  }

  lemma WindowWithin(l: Limits, start: real, calls: seq<Call>, i: nat, j: nat)
    requires Sensible(l, calls) && NonDecreasing(start, calls) && i <= j < |calls|
    ensures Admitted(l, start, calls[..j + 1]) - Admitted(l, start, calls[..i])
            <= l.capacity + Inflow(l, calls[j].now - calls[i].now)
  {
    hide After, Admitted, Gained, Inflow;
    var upTo, from := calls[..j + 1], calls[..i + 1];
    GainedIsElapsed(l, start, upTo);
    GainedIsElapsed(l, start, from);
    hide NonDecreasing;
    assert upTo[..i + 1] == from && upTo[..i] == calls[..i];
    assert forall c | c in upTo :: c in calls;
    TokensWithinWindow(l, start, upTo, i + 1);
    hide Sensible;
    InflowAdds(l, calls[i].now - start, calls[j].now - calls[i].now);
  }

  /** Between any two calls, both included, at most the capacity and the refill rate times the elapsed seconds is granted. */
  lemma AnyWindow(l: Limits, start: real, calls: seq<Call>, i: nat, j: nat)
    requires Sensible(l, calls) && NonDecreasing(start, calls) && i <= j < |calls|
    ensures Admitted(l, start, calls[..j + 1]) - Admitted(l, start, calls[..i])
            <= l.capacity + (calls[j].now - calls[i].now) / 1000.0 * l.refillPerSecond
  {
    hide After, Admitted, Gained, Sensible, NonDecreasing;
    WindowWithin(l, start, calls, i, j);
  }
}
