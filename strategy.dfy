/** The observable state of a back-off strategy as a value, and what the two
    operations of the back-off interface do to it:

    - `Cont(s)` is the answer of `Continue()`, and `Skip(s)` the state that
      call leaves behind (only a combined back-off moves past exhausted
      sub-strategies while answering);
    - `Next(s)` is the delay `NextDelay()` returns and the state after it.

    The lemmas describe the caller's protocol (ask `Continue()`, and while it
    says yes, take `NextDelay()`): how many delays a strategy yields, which
    ones, and that a "no" is final. */
module Strategy {
  import opened Durations

  datatype Option<T> = None | Some(value: T)

  /** One strategy with its attempt counter; a combined back-off keeps only the
      sub-strategies it has not moved past yet, in order. */
  datatype State =
    | Constant(delay: Duration)
    | Linear(delay: Duration, multiplier: Duration, attempt: nat, maxAttempts: nat)
    | Power(delay: Duration, base: nat, attempt: nat, maxAttempts: nat)
    | Exponential(maxDelay: Duration, attempt: nat, maxAttempts: nat)
    | Limited(inner: State, attempt: nat, maxAttempts: nat)
    | Sequence(first: Option<Duration>, rest: seq<State>)

  /** The result of `NextDelay()`: the delay and the state after the call. */
  datatype Step = Step(delay: Duration, next: State)

  /** The answer of `Continue()`. */
  predicate Cont(s: State)
    decreases s
  {
    match s
    case Constant(_) => true
    case Linear(_, _, a, n) => a < n
    case Power(_, _, a, n) => a < n
    case Exponential(_, a, n) => a < n
    case Limited(_, a, n) => a < n
    case Sequence(first, rest) => first.Some? || exists i :: 0 <= i < |rest| && Cont(rest[i])
  }

  /** The position of the first sub-strategy that still continues, or |rest| if none does. */
  function FirstLive(rest: seq<State>): (k: nat)
    ensures k <= |rest|
    ensures forall i :: 0 <= i < k ==> !Cont(rest[i])
    ensures k < |rest| ==> Cont(rest[k])
    decreases |rest|
  {
    if rest == [] then 0
    else if Cont(rest[0]) then 0
    else 1 + FirstLive(rest[1..])
  }

  /** The state `Continue()` leaves behind: a combined back-off whose first
      delay is used up drops the exhausted sub-strategies at its head and lets
      the first live one answer (which may in turn skip inside it). */
  function Skip(s: State): (r: State)
    decreases s
  {
    match s
    case Sequence(None, rest) =>
      var k := FirstLive(rest);
      if k < |rest| then Sequence(None, [Skip(rest[k])] + rest[k + 1..]) else Sequence(None, [])
    case _ => s
  }

  /** `NextDelay()` can be answered: a combined back-off without its first
      delay must still hold a sub-strategy to ask. */
  predicate Ready(s: State)
    decreases s
  {
    match s
    case Limited(inner, _, _) => Ready(inner)
    case Sequence(None, rest) => |rest| > 0 && Ready(rest[0])
    case _ => true
  }

  /** `NextDelay()`: uses up one attempt and returns the delay for it. */
  function Next(s: State): (r: Step)
    requires Ready(s)
    decreases s
  {
    match s
    case Constant(d) => Step(d, s)
    case Linear(d, m, a, n) => Step(d + m * (a + 1), Linear(d, m, a + 1, n))
    case Power(d, b, a, n) => Step(d * Pow(b, a + 1), Power(d, b, a + 1, n))
    case Exponential(x, a, n) =>
      Step(Trunc(x as real / Exp(n - (a + 1))), Exponential(x, a + 1, n))
    case Limited(inner, a, n) =>
      var st := Next(inner);
      Step(st.delay, Limited(st.next, a + 1, n))
    case Sequence(Some(f), rest) => Step(f, Sequence(None, rest))
    case Sequence(None, rest) =>
      var st := Next(rest[0]);
      Step(st.delay, Sequence(None, [st.next] + rest[1..]))
  }

  /** A strategy with no combined back-off anywhere inside: `NextDelay()` is always defined. */
  predicate Total(s: State)
    decreases s
  {
    match s
    case Limited(inner, _, _) => Total(inner)
    case Sequence(_, _) => false
    case _ => true
  }

  /** A strategy the caller's protocol can drive without running a combined
      back-off past its end: combined back-offs may nest in each other, but an
      attempt limiter only wraps a strategy that is always ready. */
  predicate Safe(s: State)
    decreases s
  {
    match s
    case Sequence(_, rest) => forall i :: 0 <= i < |rest| ==> Safe(rest[i])
    case _ => Total(s)
  }

  /** A strategy whose `Continue()` eventually says no. */
  predicate Finite(s: State)
    decreases s
  {
    match s
    case Constant(_) => false
    case Sequence(_, rest) => forall i :: 0 <= i < |rest| ==> Finite(rest[i])
    case _ => true
  }

  /** The attempts left before `Continue()` says no. */
  function Budget(s: State): nat
    requires Finite(s)
    decreases s
  {
    match s
    case Linear(_, _, a, n) => if a < n then n - a else 0
    case Power(_, _, a, n) => if a < n then n - a else 0
    case Exponential(_, a, n) => if a < n then n - a else 0
    case Limited(_, a, n) => if a < n then n - a else 0
    case Sequence(first, rest) => (if first.Some? then 1 else 0) + Budgets(rest)
  }

  function Budgets(rest: seq<State>): nat
    requires forall i :: 0 <= i < |rest| ==> Finite(rest[i])
    decreases rest
  {
    if rest == [] then 0 else Budget(rest[0]) + Budgets(rest[1..])
  }

  /** Every counter the protocol guards is within its cap. The strategy inside
      an attempt limiter is never asked `Continue()`, so its counter is free. */
  predicate Guarded(s: State)
    decreases s
  {
    match s
    case Constant(_) => true
    case Linear(_, _, a, n) => a <= n
    case Power(_, _, a, n) => a <= n
    case Exponential(_, a, n) => a <= n
    case Limited(_, a, n) => a <= n
    case Sequence(_, rest) => forall i :: 0 <= i < |rest| ==> Guarded(rest[i])
  }

  /** The first k delays of a strategy that is always ready, taken without asking `Continue()`. */
  function Delays(s: State, k: nat): (ds: seq<Duration>)
    requires Total(s)
    ensures |ds| == k
    decreases k
  {
    if k == 0 then []
    else
      TotalStep(s);
      var st := Next(s);
      [st.delay] + Delays(st.next, k - 1)
  }

  /** The delays a caller receives by driving a strategy to the end with
      `for s.Continue() { s.NextDelay() }`, and the state it is left in. */
  datatype Trace = Trace(delays: seq<Duration>, final: State)

  function Drain(s: State): (t: Trace)
    requires Finite(s) && Safe(s)
    ensures |t.delays| == Budget(s)
    ensures !Cont(t.final) && Finite(t.final) && Safe(t.final)
    decreases Budget(s)
  {
    if !Cont(s) then
      ContBudget(s);
      SkipCont(s);
      SkipPreserves(s);
      Trace([], Skip(s))
    else
      ProtocolStep(s);
      ProtocolBudget(s);
      var st := Next(Skip(s));
      var t := Drain(st.next);
      Trace([st.delay] + t.delays, t.final)
  }

  /** The delays of the sub-strategies, each drained to its end, one after the other. */
  function DrainEach(rest: seq<State>): seq<Duration>
    requires forall i :: 0 <= i < |rest| ==> Finite(rest[i]) && Safe(rest[i])
    decreases |rest|
  {
    if rest == [] then [] else Drain(rest[0]).delays + DrainEach(rest[1..])
  }

  /** delay + multiplier * j for j = a + 1 .. a + k. */
  function LinearRun(d: Duration, m: Duration, a: nat, k: nat): (ds: seq<Duration>)
    ensures |ds| == k && forall i :: 0 <= i < k ==> ds[i] == d + m * (a + i + 1)
    decreases k
  {
    if k == 0 then [] else [d + m * (a + 1)] + LinearRun(d, m, a + 1, k - 1)
  }

  function Repeat(d: Duration, k: nat): (ds: seq<Duration>)
    ensures |ds| == k && forall i :: 0 <= i < k ==> ds[i] == d
    decreases k
  {
    if k == 0 then [] else [d] + Repeat(d, k - 1)
  }

  // ---------------------------------------------------------------------------
  // Lemmas

  /** A strategy that is always ready stays so, and nothing in it needs skipping. */
  lemma {:induction false} TotalStep(s: State)
    requires Total(s)
    ensures Ready(s) && Total(Next(s).next) && Skip(s) == s
    decreases s
  {
    match s
    case Limited(inner, _, _) => TotalStep(inner);
    case _ =>
  }

  /** For a strategy that ends, `Continue()` says yes exactly while attempts are left. */
  lemma {:induction false} ContBudget(s: State)
    requires Finite(s)
    ensures Cont(s) <==> Budget(s) > 0
    decreases s
  {
    match s
    case Sequence(first, rest) =>
      forall i | 0 <= i < |rest| ensures Cont(rest[i]) <==> Budget(rest[i]) > 0 {
        ContBudget(rest[i]);
      }
      BudgetsPositive(rest);
    case _ =>
  }

  lemma {:induction false} BudgetsPositive(rest: seq<State>)
    requires forall i :: 0 <= i < |rest| ==> Finite(rest[i])
    ensures Budgets(rest) > 0 <==> exists i :: 0 <= i < |rest| && Budget(rest[i]) > 0
    decreases |rest|
  {
    if rest != [] {
      BudgetsPositive(rest[1..]);
      if Budget(rest[0]) == 0 && Budgets(rest) > 0 {
        var i :| 0 <= i < |rest[1..]| && Budget(rest[1..][i]) > 0;
        assert Budget(rest[i + 1]) > 0;
      }
      if exists i :: 0 <= i < |rest| && Budget(rest[i]) > 0 {
        var i :| 0 <= i < |rest| && Budget(rest[i]) > 0;
        if i > 0 { assert Budget(rest[1..][i - 1]) > 0; }
      }
    }
  }

  /** The budget of sub-strategies whose first k entries are exhausted is the
      budget of entry k and of those after it. */
  lemma {:induction false} BudgetsAtLive(rest: seq<State>, k: nat)
    requires k < |rest|
    requires forall i :: 0 <= i < |rest| ==> Finite(rest[i])
    requires forall i :: 0 <= i < k ==> !Cont(rest[i])
    ensures Budgets(rest) == Budget(rest[k]) + Budgets(rest[k + 1..])
    decreases k
  {
    if k > 0 {
      ContBudget(rest[0]);
      BudgetsAtLive(rest[1..], k - 1);
      assert rest[1..][k - 1] == rest[k];
      assert rest[1..][k..] == rest[k + 1..];
    }
  }

  lemma BudgetsCons(y: State, t: seq<State>)
    requires Finite(y) && forall i :: 0 <= i < |t| ==> Finite(t[i])
    ensures forall i :: 0 <= i < |[y] + t| ==> Finite(([y] + t)[i])
    ensures Budgets([y] + t) == Budget(y) + Budgets(t)
  {
    assert ([y] + t)[1..] == t;
  }

  /** Sub-strategies that no longer continue have no budget left. */
  lemma {:induction false} BudgetsExhausted(rest: seq<State>)
    requires forall i :: 0 <= i < |rest| ==> Finite(rest[i]) && !Cont(rest[i])
    ensures Budgets(rest) == 0
    decreases |rest|
  {
    if rest != [] {
      ContBudget(rest[0]);
      BudgetsExhausted(rest[1..]);
    }
  }

  /** `Continue()` can be asked again with the same answer, and asking again changes nothing. */
  lemma {:induction false} SkipCont(s: State)
    ensures Cont(Skip(s)) == Cont(s)
    ensures Skip(Skip(s)) == Skip(s)
    decreases s
  {
    match s
    case Sequence(None, rest) =>
      var k := FirstLive(rest);
      if k < |rest| {
        SkipCont(rest[k]);
        var r := [Skip(rest[k])] + rest[k + 1..];
        assert Cont(r[0]);
        assert r[1..] == rest[k + 1..];
      }
    case _ =>
  }

  /** `Continue()` keeps the structural properties of a strategy. */
  lemma {:induction false} SkipPreserves(s: State)
    ensures Safe(s) ==> Safe(Skip(s))
    ensures Guarded(s) ==> Guarded(Skip(s))
    ensures Finite(s) ==> Finite(Skip(s))
    decreases s
  {
    match s
    case Sequence(None, rest) =>
      var k := FirstLive(rest);
      if k < |rest| {
        SkipPreserves(rest[k]);
        var r := [Skip(rest[k])] + rest[k + 1..];
        assert forall i :: 1 <= i < |r| ==> r[i] == rest[k + i];
      }
    case _ =>
  }

  /** `Continue()` uses up no attempt. */
  lemma {:induction false} SkipBudget(s: State)
    requires Finite(s)
    ensures Finite(Skip(s)) && Budget(Skip(s)) == Budget(s)
    decreases s
  {
    SkipPreserves(s);
    match s
    case Sequence(None, rest) =>
      var k := FirstLive(rest);
      if k < |rest| {
        SkipBudget(rest[k]);
        BudgetsAtLive(rest, k);
        BudgetsCons(Skip(rest[k]), rest[k + 1..]);
      } else {
        BudgetsExhausted(rest);
      }
    case _ =>
  }

  /** One turn of the protocol on a strategy that still continues: `NextDelay()`
      can be answered after `Continue()`, and the structural properties hold
      afterwards. */
  lemma {:induction false} ProtocolStep(s: State)
    requires Safe(s) && Cont(s)
    ensures Ready(Skip(s)) && Safe(Next(Skip(s)).next)
    ensures Guarded(s) ==> Guarded(Next(Skip(s)).next)
    ensures Finite(s) ==> Finite(Next(Skip(s)).next)
    decreases s
  {
    match s
    case Sequence(None, rest) =>
      var k := FirstLive(rest);
      ProtocolStep(rest[k]);
      var r := [Skip(rest[k])] + rest[k + 1..];
      var after := [Next(Skip(rest[k])).next] + rest[k + 1..];
      assert r[1..] == rest[k + 1..];
      assert forall i :: 1 <= i < |after| ==> after[i] == rest[k + i];
    case Limited(inner, _, _) =>
      TotalStep(inner);
    case _ =>
  }

  /** One turn of the protocol uses up exactly one attempt. */
  lemma {:induction false} ProtocolBudget(s: State)
    requires Safe(s) && Finite(s) && Cont(s)
    ensures Ready(Skip(s)) && Finite(Next(Skip(s)).next)
    ensures Budget(Next(Skip(s)).next) == Budget(s) - 1
    decreases s
  {
    ProtocolStep(s);
    match s
    case Sequence(None, rest) =>
      var k := FirstLive(rest);
      ProtocolBudget(rest[k]);
      SkipBudget(rest[k]);
      BudgetsAtLive(rest, k);
      var r := [Skip(rest[k])] + rest[k + 1..];
      assert r[1..] == rest[k + 1..];
      BudgetsCons(Next(Skip(rest[k])).next, rest[k + 1..]);
    case _ =>
  }

  /** Once `Continue()` says no it says no forever: neither asking again nor
      taking a delay regardless brings it back. */
  lemma {:induction false} ExhaustedStaysExhausted(s: State)
    requires !Cont(s)
    ensures !Cont(Skip(s))
    ensures Ready(s) ==> !Cont(Next(s).next)
    decreases s
  {
    SkipCont(s);
    match s
    case Sequence(None, rest) =>
      if Ready(s) {
        ExhaustedStaysExhausted(rest[0]);
        var after := [Next(rest[0]).next] + rest[1..];
        forall i | 0 <= i < |after| ensures !Cont(after[i]) {
          if i > 0 { assert after[i] == rest[i]; }
        }
      }
    case _ =>
  }

  // ---------------------------------------------------------------------------
  // What a caller driving a strategy receives

  /** Asking `Continue()` before driving a strategy changes none of the delays it yields. */
  lemma {:induction false} DrainSkip(s: State)
    requires Finite(s) && Safe(s)
    ensures Finite(Skip(s)) && Safe(Skip(s))
    ensures Drain(Skip(s)).delays == Drain(s).delays
  {
    SkipCont(s);
    SkipPreserves(s);
  }

  /** A combined back-off yields its first delay before anything else. */
  lemma FirstDelayFirst(f: Duration, rest: seq<State>)
    requires forall i :: 0 <= i < |rest| ==> Finite(rest[i]) && Safe(rest[i])
    ensures Drain(Sequence(Some(f), rest)).delays == [f] + Drain(Sequence(None, rest)).delays
  {
    var s := Sequence(Some(f), rest);
    assert Cont(s) && Skip(s) == s;
  }

  /** Two strategies that `Continue()` answers alike and leaves in the same state yield the same delays. */
  lemma DrainAlike(s: State, t: State)
    requires Finite(s) && Safe(s) && Finite(t) && Safe(t)
    requires Cont(s) == Cont(t) && Skip(s) == Skip(t)
    ensures Drain(s).delays == Drain(t).delays
  {
  }

  /** A combined back-off whose head sub-strategy is exhausted continues
      exactly when the ones after it do. */
  lemma ContExhaustedHead(x: State, r: seq<State>)
    requires !Cont(x)
    ensures Cont(Sequence(None, [x] + r)) == Cont(Sequence(None, r))
  {
    var xs := [x] + r;
    if Cont(Sequence(None, xs)) {
      var i :| 0 <= i < |xs| && Cont(xs[i]);
      assert i > 0 && xs[i] == r[i - 1];
    }
    if Cont(Sequence(None, r)) {
      var i :| 0 <= i < |r| && Cont(r[i]);
      assert xs[i + 1] == r[i];
    }
  }

  /** A combined back-off passes over an exhausted head sub-strategy without a delay for it. */
  lemma DrainExhaustedHead(x: State, r: seq<State>)
    requires !Cont(x)
    ensures Cont(Sequence(None, [x] + r)) == Cont(Sequence(None, r))
    ensures Skip(Sequence(None, [x] + r)) == Skip(Sequence(None, r))
  {
    ContExhaustedHead(x, r);
    var xs := [x] + r;
    assert xs[1..] == r;
    var k := FirstLive(r);
    assert FirstLive(xs) == 1 + k;
    if k < |r| {
      assert xs[k + 1] == r[k];
      assert xs[k + 2..] == r[k + 1..];
    }
  }

  /** While it continues, the head sub-strategy of a combined back-off answers for it. */
  lemma LiveHead(x: State, r: seq<State>)
    requires Cont(x) && Ready(Skip(x))
    ensures Cont(Sequence(None, [x] + r))
    ensures Ready(Skip(Sequence(None, [x] + r)))
    ensures Next(Skip(Sequence(None, [x] + r)))
      == Step(Next(Skip(x)).delay, Sequence(None, [Next(Skip(x)).next] + r))
  {
    var xs := [x] + r;
    assert xs[0] == x;
    assert FirstLive(xs) == 0;
    assert xs[1..] == r;
    assert ([Skip(x)] + r)[1..] == r;
  }

  /** One turn of the protocol, seen from the delays the caller receives. */
  lemma DrainUnfold(s: State)
    requires Finite(s) && Safe(s) && Cont(s)
    ensures Ready(Skip(s)) && Finite(Next(Skip(s)).next) && Safe(Next(Skip(s)).next)
    ensures Drain(s).delays == [Next(Skip(s)).delay] + Drain(Next(Skip(s)).next).delays
  {
    ProtocolStep(s);
  }

  /** The first turn of a combined back-off whose head sub-strategy continues
      is that sub-strategy's first turn. */
  lemma DrainLiveHead(x: State, r: seq<State>)
    requires Finite(x) && Safe(x) && Cont(x)
    requires forall i :: 0 <= i < |r| ==> Finite(r[i]) && Safe(r[i])
    ensures Ready(Skip(x)) && Finite(Next(Skip(x)).next) && Safe(Next(Skip(x)).next)
    ensures Budget(Next(Skip(x)).next) < Budget(x)
    ensures Finite(Sequence(None, [x] + r)) && Safe(Sequence(None, [x] + r))
    ensures Finite(Sequence(None, [Next(Skip(x)).next] + r)) && Safe(Sequence(None, [Next(Skip(x)).next] + r))
    ensures Drain(Sequence(None, [x] + r)).delays
      == [Next(Skip(x)).delay] + Drain(Sequence(None, [Next(Skip(x)).next] + r)).delays
  {
    ProtocolStep(x);
    ProtocolBudget(x);
    var xs := [x] + r;
    assert forall i :: 1 <= i < |xs| ==> xs[i] == r[i - 1];
    var ys := [Next(Skip(x)).next] + r;
    assert forall i :: 1 <= i < |ys| ==> ys[i] == r[i - 1];
    LiveHead(x, r);
    DrainUnfold(Sequence(None, xs));
  }

  lemma SeqAssoc(a: seq<Duration>, b: seq<Duration>, c: seq<Duration>)
    ensures a + (b + c) == (a + b) + c
  {
  }

  /** One turn of the caller's loop: `Continue()` answers as the model says
      and leaves a state that yields the same delays; on a yes, `NextDelay()`
      is defined and uses up one attempt; on a no, nothing more is yielded. */
  lemma ProtocolTurn(s: State)
    requires Finite(s) && Safe(s)
    ensures Cont(Skip(s)) == Cont(s)
    ensures !Cont(s) ==> Drain(s).delays == []
    ensures Cont(s) ==>
      && Ready(Skip(s))
      && Finite(Next(Skip(s)).next) && Safe(Next(Skip(s)).next)
      && Budget(Next(Skip(s)).next) < Budget(s)
      && Drain(s).delays == [Next(Skip(s)).delay] + Drain(Next(Skip(s)).next).delays
  {
    SkipCont(s);
    if Cont(s) {
      DrainUnfold(s);
      ProtocolBudget(s);
    }
  }

  /** A combined back-off drains its head sub-strategy completely before it
      consults the ones after it. */
  lemma {:induction false} DrainHead(x: State, r: seq<State>)
    requires Finite(x) && Safe(x)
    requires forall i :: 0 <= i < |r| ==> Finite(r[i]) && Safe(r[i])
    ensures Finite(Sequence(None, [x] + r)) && Safe(Sequence(None, [x] + r))
    ensures Drain(Sequence(None, [x] + r)).delays == Drain(x).delays + Drain(Sequence(None, r)).delays
    decreases Budget(x)
  {
    var xs := [x] + r;
    if !Cont(x) {
      assert forall i :: 1 <= i < |xs| ==> xs[i] == r[i - 1];
      DrainExhaustedHead(x, r);
      DrainAlike(Sequence(None, xs), Sequence(None, r));
    } else {
      DrainLiveHead(x, r);
      DrainUnfold(x);
      var st := Next(Skip(x));
      DrainHead(st.next, r);
      SeqAssoc([st.delay], Drain(st.next).delays, Drain(Sequence(None, r)).delays);
    }
  }

  /** After its first delay, a combined back-off yields the delays of its
      sub-strategies in the order given, each drained to its end. */
  lemma {:induction false} DrainSequence(rest: seq<State>)
    requires forall i :: 0 <= i < |rest| ==> Finite(rest[i]) && Safe(rest[i])
    ensures Drain(Sequence(None, rest)).delays == DrainEach(rest)
    decreases |rest|
  {
    if rest != [] {
      assert rest == [rest[0]] + rest[1..];
      DrainHead(rest[0], rest[1..]);
      DrainSequence(rest[1..]);
    }
  }

  /** An attempt limiter around a strategy that is always ready yields exactly
      that strategy's next delays, as many as its own counter has left,
      whatever the wrapped strategy's own counter and cap say. */
  lemma {:induction false} DrainLimited(inner: State, a: nat, n: nat)
    requires Total(inner)
    ensures Drain(Limited(inner, a, n)).delays == Delays(inner, if a < n then n - a else 0)
    decreases n - a
  {
    if a < n {
      TotalStep(inner);
      DrainLimited(Next(inner).next, a + 1, n);
    }
  }

  // ---------------------------------------------------------------------------
  // The delay formulas of the primitive strategies

  /** A constant back-off returns the configured delay every time. */
  lemma {:induction false} ConstantDelays(d: Duration, k: nat)
    ensures Delays(Constant(d), k) == Repeat(d, k)
    decreases k
  {
    if k > 0 { ConstantDelays(d, k - 1); }
  }

  /** The i-th delay (0-based) of a linear back-off whose counter stands at a
      is delay + multiplier * (a + i + 1): the first call already adds one
      multiplier. */
  lemma {:induction false} LinearDelays(d: Duration, m: Duration, a: nat, n: nat, k: nat)
    ensures Delays(Linear(d, m, a, n), k) == LinearRun(d, m, a, k)
    decreases k
  {
    if k > 0 {
      LinearDelays(d, m, a + 1, n, k - 1);
    }
  }

  /** The i-th delay (0-based) of a power back-off whose counter stands at a
      is delay * base^(a + i + 1): the exponent starts at one. */
  lemma {:induction false} PowerDelays(d: Duration, b: nat, a: nat, n: nat, k: nat)
    ensures forall i :: 0 <= i < k ==> Delays(Power(d, b, a, n), k)[i] == d * Pow(b, a + i + 1)
    decreases k
  {
    if k > 0 {
      PowerDelays(d, b, a + 1, n, k - 1);
      var ds := Delays(Power(d, b, a, n), k);
      assert ds == [d * Pow(b, a + 1)] + Delays(Power(d, b, a + 1, n), k - 1);
      forall i | 0 < i < k ensures ds[i] == d * Pow(b, a + i + 1) {
        assert ds[i] == Delays(Power(d, b, a + 1, n), k - 1)[i - 1];
      }
    }
  }

  /** The i-th delay (0-based) of an exponential back-off whose counter stands
      at a is maxDelay / e^(n - (a + i + 1)), truncated toward zero. */
  lemma {:induction false} ExponentialDelays(x: Duration, a: nat, n: nat, k: nat)
    ensures forall i :: 0 <= i < k ==>
      Delays(Exponential(x, a, n), k)[i] == Trunc(x as real / Exp(n - (a + i + 1)))
    decreases k
  {
    if k > 0 {
      ExponentialDelays(x, a + 1, n, k - 1);
      var ds := Delays(Exponential(x, a, n), k);
      assert ds == [Trunc(x as real / Exp(n - (a + 1)))] + Delays(Exponential(x, a + 1, n), k - 1);
      forall i | 0 < i < k ensures ds[i] == Trunc(x as real / Exp(n - (a + i + 1))) {
        assert ds[i] == Delays(Exponential(x, a + 1, n), k - 1)[i - 1];
      }
    }
  }

  /** The last of the n delays of a fresh exponential back-off is exactly maxDelay. */
  lemma ExponentialReachesMax(x: Duration, n: nat)
    requires n > 0
    ensures Delays(Exponential(x, 0, n), n)[n - 1] == x
  {
    ExponentialDelays(x, 0, n, n);
    assert Exp(0) == 1.0;
    assert x as real / 1.0 == x as real;
  }

  /** Two sub-strategies drained one after the other. */
  lemma DrainEachPair(a: State, b: State)
    requires Finite(a) && Safe(a) && Finite(b) && Safe(b)
    ensures DrainEach([a, b]) == Drain(a).delays + Drain(b).delays
  {
    assert [a, b][1..] == [b] && [b][1..] == [];
    assert DrainEach([b]) == Drain(b).delays + DrainEach([]);
  }

  /** While attempts are left, an exponential back-off's delay never exceeds maxDelay. */
  lemma ExponentialBelowMax(x: Duration, a: nat, n: nat)
    requires x >= 0 && a < n
    ensures 0 <= Next(Exponential(x, a, n)).delay <= x
  {
    var e := Exp(n - (a + 1));
    DivAntitone(x as real, 1.0, e);
    TruncMonotone(0.0, x as real / e);
    TruncMonotone(x as real / e, x as real);
  }

  /** While attempts are left, each delay of an exponential back-off is at
      least the one before it. */
  lemma ExponentialGrows(x: Duration, a: nat, n: nat)
    requires x >= 0 && a + 1 < n
    ensures Next(Exponential(x, a, n)).delay <= Next(Exponential(x, a + 1, n)).delay
  {
    var k: nat := n - (a + 2);
    assert n - (a + 1) == k + 1;
    ExpSucc(k);
    DivAntitone(x as real, Exp(k), Exp(k + 1));
    TruncMonotone(x as real / Exp(k + 1), x as real / Exp(k));
  }

  /** A combined back-off of two sub-strategies, its first delay used up,
      yields everything the first yields and then everything the second yields. */
  lemma DrainPairRest(a: State, b: State)
    requires Finite(a) && Safe(a) && Finite(b) && Safe(b)
    ensures Finite(Sequence(None, [a, b])) && Safe(Sequence(None, [a, b]))
    ensures Drain(Sequence(None, [a, b])).delays == Drain(a).delays + Drain(b).delays
  {
    var rest := [a, b];
    assert forall i :: 0 <= i < |rest| ==> Finite(rest[i]) && Safe(rest[i]);
    DrainSequence(rest);
    DrainEachPair(a, b);
  }

  /** A combined back-off of two sub-strategies yields its first delay (if
      any), then everything the first yields, then everything the second yields. */
  lemma DrainPair(first: Option<Duration>, a: State, b: State)
    requires Finite(a) && Safe(a) && Finite(b) && Safe(b)
    ensures Finite(Sequence(first, [a, b])) && Safe(Sequence(first, [a, b]))
    ensures Drain(Sequence(first, [a, b])).delays
      == (if first.Some? then [first.value] else []) + Drain(a).delays + Drain(b).delays
  {
    DrainPairRest(a, b);
    if first.Some? {
      var f := first.value;
      assert first == Some(f);
      FirstDelayFirst(f, [a, b]);
      SeqAssoc([f], Drain(a).delays, Drain(b).delays);
    }
  }

  /** A constant back-off under an attempt limiter of p yields the constant p times. */
  lemma LimitedConstant(c: Duration, p: nat)
    ensures Finite(Limited(Constant(c), 0, p)) && Safe(Limited(Constant(c), 0, p))
    ensures Drain(Limited(Constant(c), 0, p)).delays == Repeat(c, p)
  {
    DrainLimited(Constant(c), 0, p);
    ConstantDelays(c, p);
  }

  /** A linear back-off under an attempt limiter of q yields its first q delays,
      whatever its own cap. */
  lemma LimitedLinear(d: Duration, m: Duration, cap: nat, q: nat)
    ensures Finite(Limited(Linear(d, m, 0, cap), 0, q)) && Safe(Limited(Linear(d, m, 0, cap), 0, q))
    ensures Drain(Limited(Linear(d, m, 0, cap), 0, q)).delays == LinearRun(d, m, 0, q)
  {
    DrainLimited(Linear(d, m, 0, cap), 0, q);
    LinearDelays(d, m, 0, cap, q);
  }

  /** The combined back-off of the test suite, for every choice of its
      constants: a first delay, then a constant back-off limited to p
      attempts, then a linear back-off (whatever its own cap) limited to q
      attempts. Driven to its end it yields the first delay, p constant
      delays and the first q linear ones, and nothing else. */
  lemma CombinedDelays(first: Option<Duration>, c: Duration, p: nat,
                       d: Duration, m: Duration, cap: nat, q: nat)
    ensures Finite(Sequence(first, [Limited(Constant(c), 0, p), Limited(Linear(d, m, 0, cap), 0, q)]))
    ensures Safe(Sequence(first, [Limited(Constant(c), 0, p), Limited(Linear(d, m, 0, cap), 0, q)]))
    ensures Drain(Sequence(first, [Limited(Constant(c), 0, p), Limited(Linear(d, m, 0, cap), 0, q)])).delays
      == (if first.Some? then [first.value] else []) + Repeat(c, p) + LinearRun(d, m, 0, q)
  {
    LimitedConstant(c, p);
    LimitedLinear(d, m, cap, q);
    DrainPair(first, Limited(Constant(c), 0, p), Limited(Linear(d, m, 0, cap), 0, q));
  }
}
