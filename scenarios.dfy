/** The retry loops of the library's test suite, rendered as methods over
    the back-off objects: each method builds the back-off the test builds,
    drives it the way the test does, and promises what the test checks, for
    every choice of the test's constants. */
module Scenarios {
  import opened Durations
  import opened Strategy
  import opened BackOffs

  /** One turn of the caller's retry loop: ask `Continue()` and, on a yes,
      take `NextDelay()`. The delay is the first that draining the back-off
      would yield, and one attempt is used up; on a no the drain is empty and
      the back-off keeps saying no. */
  method Turn(b: BackOff) returns (more: bool, d: Duration)
    requires b.Valid() && Finite(b.state) && Safe(b.state)
    modifies b.Repr
    ensures b.Valid() && Finite(b.state) && Safe(b.state)
    ensures Guarded(old(b.state)) ==> Guarded(b.state)
    ensures more == Cont(old(b.state))
    ensures more ==>
      && Budget(b.state) < Budget(old(b.state))
      && Drain(old(b.state)).delays == [d] + Drain(b.state).delays
    ensures !more ==> Drain(old(b.state)).delays == [] && !Cont(b.state)
  {
    ghost var s := b.state;
    ProtocolTurn(s);
    SkipPreserves(s);
    if Cont(s) {
      ProtocolStep(s);
    }
    more := b.Continue();
    d := 0;
    if more {
      d := b.NextDelay();
    }
  }

  /** The caller's retry loop `for backOff.Continue() { backOff.NextDelay() }`
      on a back-off that ends: it receives exactly the delays of the model's
      drain, and leaves the back-off saying no. */
  method Drive(b: BackOff) returns (delays: seq<Duration>)
    requires b.Valid() && Finite(b.state) && Safe(b.state)
    modifies b.Repr
    ensures b.Valid()
    ensures Guarded(old(b.state)) ==> Guarded(b.state)
    ensures delays == Drain(old(b.state)).delays
    ensures !Cont(b.state)
  {
    ghost var s0 := b.state;
    delays := [];
    while true
      invariant b.Valid() && Finite(b.state) && Safe(b.state)
      invariant delays + Drain(b.state).delays == Drain(s0).delays
      invariant Guarded(s0) ==> Guarded(b.state)
      decreases Budget(b.state)
    {
      var more, d := Turn(b);
      if !more {
        return;
      }
      delays := delays + [d];
    }
  }

  /** testConstantBackOff: a constant back-off limited to `attempts` says yes
      `attempts` times, yields the configured delay each time, and then says no. */
  method TestConstantBackOff(delay: Duration, attempts: nat)
    returns (answers: seq<bool>, delays: seq<Duration>, last: bool)
    ensures |answers| == attempts && forall i :: 0 <= i < attempts ==> answers[i]
    ensures |delays| == attempts && forall i :: 0 <= i < attempts ==> delays[i] == delay
    ensures !last
  {
    var constant := new BackOff.NewConstantBackOff(delay);
    var backOff := new BackOff.WithMaxAttempts(constant, attempts);
    answers, delays := [], [];
    var i := 0;
    while i < attempts
      invariant 0 <= i <= attempts
      invariant backOff.Valid() && fresh(backOff.Repr)
      invariant backOff.state == Limited(Constant(delay), i, attempts)
      invariant |answers| == i && forall k :: 0 <= k < i ==> answers[k]
      invariant |delays| == i && forall k :: 0 <= k < i ==> delays[k] == delay
    {
      var ok := backOff.Continue();
      var d := backOff.NextDelay();
      answers, delays := answers + [ok], delays + [d];
      i := i + 1;
    }
    last := backOff.Continue();
  }

  /** testLinearBackOff: the k-th delay (k = 1..attempts) of a linear back-off
      is delay + multiplier * k. */
  method TestLinearBackOff(delay: Duration, multiplier: Duration, attempts: nat)
    returns (delays: seq<Duration>)
    ensures |delays| == attempts
    ensures forall i :: 0 <= i < attempts ==> delays[i] == delay + multiplier * (i + 1)
  {
    var backOff := new BackOff.NewLinearBackOff(delay, multiplier, attempts);
    delays := [];
    var i := 0;
    while i < attempts
      invariant 0 <= i <= attempts
      invariant backOff.Valid() && fresh(backOff.Repr)
      invariant backOff.state == Linear(delay, multiplier, i, attempts)
      invariant |delays| == i && forall k :: 0 <= k < i ==> delays[k] == delay + multiplier * (k + 1)
    {
      var d := backOff.NextDelay();
      delays := delays + [d];
      i := i + 1;
    }
  }

  /** testPowerBackOff: the k-th delay (k = 1..attempts) of a power back-off
      is delay * base^k. */
  method TestPowerBackOff(delay: Duration, base: nat, attempts: nat)
    returns (delays: seq<Duration>)
    ensures |delays| == attempts
    ensures forall i :: 0 <= i < attempts ==> delays[i] == delay * Pow(base, i + 1)
  {
    var backOff := new BackOff.NewPowerBackOff(delay, base, attempts);
    delays := [];
    var i := 0;
    while i < attempts
      invariant 0 <= i <= attempts
      invariant backOff.Valid() && fresh(backOff.Repr)
      invariant backOff.state == Power(delay, base, i, attempts)
      invariant |delays| == i && forall k :: 0 <= k < i ==> delays[k] == delay * Pow(base, k + 1)
    {
      var d := backOff.NextDelay();
      delays := delays + [d];
      i := i + 1;
    }
  }

  /** testExponentialBackOff: the k-th delay (k = 1..attempts) of an
      exponential back-off is maxDelay / e^(attempts - k), so the last one is
      exactly maxDelay. */
  method TestExponentialBackOff(maxDelay: Duration, attempts: nat)
    returns (delays: seq<Duration>)
    ensures |delays| == attempts
    ensures forall i :: 0 <= i < attempts ==>
      delays[i] == Trunc(maxDelay as real / Exp(attempts - (i + 1)))
    ensures attempts > 0 ==> delays[attempts - 1] == maxDelay
  {
    var backOff := new BackOff.NewExponentialBackOff(maxDelay, attempts);
    delays := [];
    var i := 0;
    while i < attempts
      invariant 0 <= i <= attempts
      invariant backOff.Valid() && fresh(backOff.Repr)
      invariant backOff.state == Exponential(maxDelay, i, attempts)
      invariant |delays| == i
      invariant forall k :: 0 <= k < i ==> delays[k] == Trunc(maxDelay as real / Exp(attempts - (k + 1)))
    {
      var d := backOff.NextDelay();
      delays := delays + [d];
      i := i + 1;
    }
    if attempts > 0 {
      assert maxDelay as real / Exp(0) == maxDelay as real;
    }
  }

  /** A constant back-off under an attempt limiter of p. */
  method NewLimitedConstant(constant: Duration, p: nat) returns (backOff: BackOff)
    ensures backOff.Valid() && fresh(backOff.Repr)
    ensures backOff.state == Limited(Constant(constant), 0, p)
  {
    var c := new BackOff.NewConstantBackOff(constant);
    backOff := new BackOff.WithMaxAttempts(c, p);
  }

  /** A linear back-off with a cap of its own under an attempt limiter of q. */
  method NewLimitedLinear(delay: Duration, multiplier: Duration, linearCap: nat, q: nat)
    returns (backOff: BackOff)
    ensures backOff.Valid() && fresh(backOff.Repr)
    ensures backOff.state == Limited(Linear(delay, multiplier, 0, linearCap), 0, q)
  {
    var l := new BackOff.NewLinearBackOff(delay, multiplier, linearCap);
    backOff := new BackOff.WithMaxAttempts(l, q);
  }

  /** The back-off testCombine builds: a first delay, then a constant
      back-off limited to p attempts, then a linear back-off (with a cap of its
      own) limited to q attempts. */
  method NewCombined(firstDelay: Duration, constant: Duration, p: nat,
                     delay: Duration, multiplier: Duration, linearCap: nat, q: nat)
    returns (backOff: BackOff)
    ensures backOff.Valid() && fresh(backOff.Repr)
    ensures backOff.state == Sequence(FirstDelay(firstDelay),
      [Limited(Constant(constant), 0, p), Limited(Linear(delay, multiplier, 0, linearCap), 0, q)])
  {
    var first := NewLimitedConstant(constant, p);
    var second := NewLimitedLinear(delay, multiplier, linearCap, q);
    var subs := [first, second];
    assert Footprint([]) == {};
    assert Footprint(subs[1..]) == second.Repr;
    assert Footprint(subs) == first.Repr + second.Repr;
    backOff := new BackOff.Combine(firstDelay, subs);
    assert States(subs) == [first.state, second.state];
  }

  /** testCombine, for every choice of its constants. The caller's loop
      receives the first delay (unless it is zero), p constant delays and q
      linear ones, one per yes of `Continue()`, and `Continue()` says no
      afterwards. */
  method TestCombine(firstDelay: Duration, constant: Duration, p: nat,
                     delay: Duration, multiplier: Duration, linearCap: nat, q: nat)
    returns (delays: seq<Duration>, last: bool)
    ensures delays == (if firstDelay != 0 then [firstDelay] else [])
      + Repeat(constant, p) + LinearRun(delay, multiplier, 0, q)
    ensures !last
  {
    var backOff := NewCombined(firstDelay, constant, p, delay, multiplier, linearCap, q);
    CombinedDelays(FirstDelay(firstDelay), constant, p, delay, multiplier, linearCap, q);
    delays := Drive(backOff);
    last := backOff.Continue();
  }

  /** testCombine with its own constants: 50 minutes first, then 10s twice,
      then 60s + 30s * k for k = 1..5, eight delays in all, after which
      `Continue()` says no, so the loop never reaches its failure branch. */
  method TestCombineAsInSuite() returns (delays: seq<Duration>, last: bool)
    ensures delays == [50 * Minute, 10 * Second, 10 * Second,
                       90 * Second, 120 * Second, 150 * Second, 180 * Second, 210 * Second]
    ensures !last
  {
    delays, last := TestCombine(50 * Minute, 10 * Second, 2, Minute, 30 * Second, 5, 5);
    assert Repeat(10 * Second, 2) == [10 * Second, 10 * Second];
    assert LinearRun(Minute, 30 * Second, 0, 5)
        == [90 * Second, 120 * Second, 150 * Second, 180 * Second, 210 * Second];
  }
}
