/**
 * RateLimitedLoop::start (client/rate_limited_loop/rate_limited_loop.cpp):
 * a catch-up scheduler. The elapsed time is accumulated; whenever it
 * reaches the period 1/hz the callback runs once per whole period and the
 * remainder is kept. The clock readings are an input (one per iteration
 * the termination predicate allows); the callback is a function on the
 * state it changes.
 */
module RateLimitedLoop {

  /**
   * The state after `n` callback calls, each given `dt`. No call leaves the
   * state alone, and so do any number of calls from a state the callback
   * does not change.
   */
  function Iterate<S>(f: (S, real) -> S, s: S, dt: real, n: nat): (r: S)
    ensures n == 0 ==> r == s
    ensures f(s, dt) == s ==> r == s
  {
    if n == 0 then s else f(Iterate(f, s, dt, n - 1), dt)
  }

  lemma {:induction false} IterateAdd<S>(f: (S, real) -> S, s: S, dt: real, a: nat, b: nat)
    ensures Iterate(f, Iterate(f, s, dt, a), dt, b) == Iterate(f, s, dt, a + b)
    decreases b
  {
    if b > 0 {
      IterateAdd(f, s, dt, a, b - 1);
    }
  }

  ghost predicate Nondecreasing(clock: seq<real>) {
    forall i, j :: 0 <= i < j < |clock| ==> clock[i] <= clock[j]
  }

  lemma DivideLessOne(a: real, p: real)
    requires p > 0.0
    ensures (a - p) / p == a / p - 1.0
  {
    assert (a - p) / p == a / p - p / p;
  }

  lemma ScaleMonotone(x: real, y: real, p: real)
    requires x <= y && p > 0.0
    ensures x * p <= y * p
  {
    assert (y - x) * p >= 0.0;
  }

  lemma AtLeastOnePeriod(q: real, p: real)
    requires q >= 1.0 && p > 0.0
    ensures q * p >= p
  {
    ScaleMonotone(1.0, q, p);
  }

  lemma DivideBelowOne(a: real, p: real)
    requires p > 0.0 && 0.0 <= a < p
    ensures 0.0 <= a / p < 1.0
  {
    var q := a / p;
    assert q * p == a;
    if q >= 1.0 {
      AtLeastOnePeriod(q, p);
      assert false;
    }
    if q < 0.0 {
      ScaleMonotone(q, 0.0, p);
      assert false;
    }
  }

  lemma FloorStep(x: real)
    ensures (x - 1.0).Floor == x.Floor - 1
  {
  }

  /**
   * Lines 43-61: when the accumulated time reaches the period, the callback
   * runs once per whole period and the remainder is returned; otherwise
   * nothing runs and the time carries over.
   */
  method CatchUp<S>(acc: real, period: real, f: (S, real) -> S, s: S) returns (s': S, calls: nat, rest: real)
    requires period > 0.0
    ensures s' == Iterate(f, s, period, calls)
    ensures calls as real * period + rest == acc
    ensures rest < period
    ensures acc < period ==> calls == 0 && rest == acc
    ensures acc >= period ==> calls >= 1 && 0.0 <= rest
  {
    s', calls, rest := s, 0, acc;
    if acc >= period {
      var remaining := acc;
      var enough := true;
      while enough
        invariant calls as real * period + remaining == acc
        invariant s' == Iterate(f, s, period, calls)
        invariant enough ==> remaining >= period
        invariant !enough ==> 0.0 <= remaining < period && calls >= 1
        decreases (remaining / period).Floor + (if enough then 1 else 0)
      {
        s' := f(s', period);
        calls := calls + 1;
        FloorStep(remaining / period);
        DivideLessOne(remaining, period);
        remaining := remaining - period;
        enough := remaining >= period;
      }
      rest := remaining;
    }
  }

  /** With a non-negative remainder below the period, the call count is the whole number of periods. */
  lemma CallsAreWholePeriods(calls: nat, period: real, rest: real, elapsed: real)
    requires period > 0.0 && 0.0 <= rest < period
    requires calls as real * period + rest == elapsed
    ensures calls == (elapsed / period).Floor
  {
    var q := elapsed / period;
    assert q == calls as real + rest / period by {
      assert elapsed / period == (calls as real * period) / period + rest / period;
    }
    DivideBelowOne(rest, period);
  }

  /**
   * start: the first iteration only reads the clock; every later one adds
   * the time since the previous reading and catches up.
   */
  method Start<S>(hz: real, clock: seq<real>, f: (S, real) -> S, s0: S) returns (s: S, calls: nat, acc: real)
    requires hz > 0.0
    ensures s == Iterate(f, s0, 1.0 / hz, calls)
    ensures |clock| <= 1 ==> calls == 0 && acc == 0.0
    ensures |clock| > 1 ==> calls as real * (1.0 / hz) + acc == clock[|clock| - 1] - clock[0]
    ensures acc < 1.0 / hz
    ensures Nondecreasing(clock) ==> 0.0 <= acc
  {
    var period := 1.0 / hz;
    acc := 0.0;
    s, calls := s0, 0;
    var firstIteration := true;
    var previous := 0.0;
    for i := 0 to |clock|
      invariant firstIteration <==> i == 0
      invariant i > 0 ==> previous == clock[i - 1]
      invariant s == Iterate(f, s0, period, calls)
      invariant i <= 1 ==> calls == 0 && acc == 0.0
      invariant i > 1 ==> calls as real * period + acc == clock[i - 1] - clock[0]
      invariant acc < period
      invariant Nondecreasing(clock) ==> 0.0 <= acc
    {
      var now := clock[i];
      if firstIteration {
        firstIteration := false;
        previous := now;
        continue;
      }
      acc := acc + (now - previous);
      var s', n, rest := CatchUp(acc, period, f, s);
      IterateAdd(f, s0, period, calls, n);
      s, calls, acc := s', calls + n, rest;
      previous := now;
    }
  }
}
