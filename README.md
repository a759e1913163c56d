# tinybackoff in Dafny

A model of tinybackoff, a Go library of retry-delay ("back-off") strategies, with proofs about it.
Every strategy offers the same two operations. `Continue()` says whether another attempt is allowed. `NextDelay()` uses up one attempt and returns how long to wait before it.

The variants:

- **constant**: the same delay every time, with no limit of its own;
- **linear**: `delay + multiplier * k` on the k-th call, for `maxAttempts` calls;
- **power**: `delay * base^k` on the k-th call, for `maxAttempts` calls;
- **exponential**: `maxDelay / e^(n - k)` on the k-th call of n, so the last delay is exactly `maxDelay`;
- **attempt limiter** (`WithMaxAttempts`): wraps another back-off. It keeps a counter of its own and returns the wrapped back-off's delays unchanged;
- **combined back-off** (`Combine`): an optional first delay, then the sub-back-offs in the order given. It moves past each sub-back-off once that one says no, and never goes back.

The project has four modules:

- `Durations` (`durations.dfy`): durations as integer nanoseconds, exact integer powers, e^k on reals, and truncation toward zero.
- `Strategy` (`strategy.dfy`): the state of a strategy as a value.
  - `Cont` models `Continue()`'s answer, and `Skip` the state that call leaves behind.
  - `Next` models `NextDelay()`.
  - `Drain` is the sequence of delays a caller receives by looping `for b.Continue() { b.NextDelay() }` until the answer is no.
  - The lemmas cover the delay formulas, how many delays a back-off yields, that a no is final, and the order in which a combined back-off consults its parts.
- `BackOffs` (`backoff.dfy`): one class, `BackOff`, whose objects are the back-offs.
  - Primitive variants hold an attempt counter.
  - A limiter owns the back-off it wraps and holds a counter of its own.
  - A combined back-off owns its sub-back-offs and holds an index into them and a pending-first-delay flag.
  - `Valid()` ties each object's fields to a ghost `Strategy` state. `Continue` and `NextDelay` are proved to act on that state exactly as `Cont`/`Skip` and `Next` say.
- `Scenarios` (`scenarios.dfy`): the library's test functions, for every choice of their constants. Each builds the same objects, drives them the same way, and promises what the test asserts. `TestCombineAsInSuite` uses the suite's own constants.

Only the library's test file is part of this model; the library's implementation files are not. The test fixes the delay formulas and the order of a combined back-off's delays. Where it is silent, the following are choices of this model, not facts about the library:

- the linear, power and exponential counters advance before the delay is computed (the test's formulas use the 1-based attempt);
- the limiter looks only at its own counter, so a wrapped back-off's own cap plays no part (the test only limits a linear back-off of cap 5 to 5 attempts);
- a combined back-off's `Continue()` moves past exhausted sub-back-offs, and `NextDelay()` asks the one it stopped at;
- a zero first delay means "no first delay" (the test only passes 50 minutes).

## Model

| member | source | states |
|---|---|---|
| Durations.Pow | tinybackoff_test.go:59 | base^0 = 1, and base^k >= 1 for a base of at least one (the integer value of `math.Pow` for an integer base) |
| Durations.Exp | tinybackoff_test.go:73 | e^k is positive, e^0 = 1, and e^k >= 1 for k >= 0 |
| Durations.ENearest | tinybackoff_test.go:73 | a fact about the model's constant, not about `math.Exp`: the e that `Exp` raises is within half a float64 step (2^-52) of Euler's number |
| Durations.Trunc | tinybackoff_test.go:73 | conversion to a duration truncates toward zero: the result is within one unit of x, on x's side of zero |
| Strategy.Cont | tinybackoff_test.go:89 | the answer of `Continue()` (asked at lines 31, 35 and 89): a constant back-off always says yes; a linear, power or exponential back-off and a limiter say yes while their counter is below their cap; a combined back-off says yes while its first delay is pending or some sub-back-off it has not passed says yes |
| Strategy.Skip | tinybackoff_test.go:89 | the state `Continue()` leaves: only a combined back-off whose first delay is used changes, dropping the exhausted sub-back-offs ahead of the first live one (and skipping inside that one) |
| Strategy.Ready | tinybackoff_test.go:90 | when `NextDelay()` can be answered: a combined back-off without a pending first delay must still hold a sub-back-off to ask, inside any limiter |
| Strategy.Next | tinybackoff_test.go:89-90 | `NextDelay()` for every variant (lines 32, 48, 61, 75 and 90): the constant delay; delay + multiplier * k, delay * base^k and maxDelay / e^(n - k) for the k-th attempt, the counter becoming k; a limiter's own counter advancing and the wrapped delay returned; a combined back-off's pending first delay, else its current sub-back-off's delay |
| Strategy.Safe | tinybackoff_test.go:84-87 | the shapes the protocol lemmas cover: combined back-offs of any depth, and limiters only around back-offs with no combined back-off inside, as in the test |
| Strategy.Finite | tinybackoff_test.go:108 | a back-off whose `Continue()` eventually says no: anything but an unlimited constant, and a combined back-off all of whose parts end |
| Strategy.Budget | tinybackoff_test.go:89-108 | the number of yes answers left: the attempts left below the cap, and for a combined back-off its pending first delay plus the budgets of its remaining parts |
| Strategy.Budgets | tinybackoff_test.go:84-87 | the sum of the budgets of a combined back-off's remaining parts |
| Strategy.Guarded | tinybackoff_test.go:30-35 | every counter that `Continue()` consults is at most its cap (kept by `Continue()` and by a `NextDelay()` after a yes, see `Strategy.SkipPreserves` and `Strategy.ProtocolStep`) |
| Strategy.Total | tinybackoff_test.go:85-86 | helper: a strategy with no combined back-off inside, such as the parts the test wraps in limiters; `Strategy.TotalStep` proves it can always answer `NextDelay()` |
| Strategy.FirstLive | tinybackoff_test.go:89 | the position a combined back-off reaches: every sub-strategy before it is exhausted, and the one at it (if any) continues |
| Strategy.Delays | tinybackoff_test.go:44-49 | taking k delays without asking `Continue()` yields exactly k delays |
| Strategy.Drain | tinybackoff_test.go:89-109 | the caller's loop receives exactly as many delays as the strategy has attempts left, and leaves it saying no |
| Strategy.Repeat | tinybackoff_test.go:30-33 | k copies of one delay |
| Strategy.DrainEach | tinybackoff_test.go:96-106 | helper, the reference for "in order": the delays of each part, drained to its end, concatenated in the order given; `Strategy.DrainSequence` proves a combined back-off yields exactly this |
| Strategy.LinearRun | tinybackoff_test.go:44-47 | the i-th entry is delay + multiplier * (a + i + 1) |
| Strategy.TotalStep | tinybackoff_test.go:44-49 | a strategy with no combined back-off inside can always answer `NextDelay()`, stays so, and `Continue()` leaves it as it is |
| Strategy.ContBudget | tinybackoff_test.go:35 | `Continue()` says yes exactly while attempts are left |
| Strategy.BudgetsPositive | tinybackoff_test.go:89 | sub-strategies have attempts left iff one of them has |
| Strategy.BudgetsAtLive | tinybackoff_test.go:89 | exhausted sub-strategies at the head contribute no attempts |
| Strategy.BudgetsExhausted | tinybackoff_test.go:108 | exhausted sub-strategies have no attempts left |
| Strategy.SkipCont | tinybackoff_test.go:89 | asking `Continue()` again gives the same answer, and asking twice leaves the state of asking once |
| Strategy.SkipPreserves | tinybackoff_test.go:89 | `Continue()` keeps a strategy drivable, within its caps, and finite |
| Strategy.SkipBudget | tinybackoff_test.go:89 | `Continue()` uses up no attempt |
| Strategy.ProtocolStep | tinybackoff_test.go:89-90 | after a yes, `NextDelay()` can be answered, and the result is still drivable, within its caps and finite |
| Strategy.ProtocolBudget | tinybackoff_test.go:89-90 | one yes then `NextDelay()` uses up exactly one attempt |
| Strategy.ProtocolTurn | tinybackoff_test.go:89-90 | one turn of the loop: a yes yields the first delay of the drain and leaves the rest of it, and a no means nothing more is yielded |
| Strategy.ExhaustedStaysExhausted | tinybackoff_test.go:35 | once `Continue()` says no, it says no after asking again and after a `NextDelay()` |
| Strategy.DrainSkip | tinybackoff_test.go:89 | asking `Continue()` before driving changes none of the delays received |
| Strategy.FirstDelayFirst | tinybackoff_test.go:92-95 | a combined back-off with a first delay yields it before anything else |
| Strategy.DrainAlike | tinybackoff_test.go:89 | two states that `Continue()` answers alike and leaves equal yield the same delays |
| Strategy.ContExhaustedHead | tinybackoff_test.go:89 | an exhausted head sub-strategy does not change the combined answer |
| Strategy.DrainExhaustedHead | tinybackoff_test.go:89 | an exhausted head sub-strategy is passed over without a delay for it |
| Strategy.LiveHead | tinybackoff_test.go:89-90 | while the head sub-strategy continues, it answers and supplies the delay |
| Strategy.DrainUnfold | tinybackoff_test.go:89-90 | the delays of a live strategy are its next delay followed by those of the state after it |
| Strategy.DrainLiveHead | tinybackoff_test.go:89-90 | a combined back-off's next delay comes from its live head sub-strategy |
| Strategy.DrainHead | tinybackoff_test.go:96-106 | a combined back-off drains its head sub-strategy completely before it consults the ones after it |
| Strategy.DrainSequence | tinybackoff_test.go:96-106 | after its first delay, a combined back-off yields the delays of its sub-strategies in order, each drained to its end |
| Strategy.DrainLimited | tinybackoff_test.go:28-33 | a limiter yields the wrapped strategy's next delays, exactly as many as its own counter allows, whatever the wrapped counter and cap say |
| Strategy.ConstantDelays | tinybackoff_test.go:30-33 | a constant back-off yields the configured delay every time |
| Strategy.LinearDelays | tinybackoff_test.go:44-48 | the k-th delay of a linear back-off is delay + multiplier * k (the first call adds one multiplier) |
| Strategy.PowerDelays | tinybackoff_test.go:57-61 | the k-th delay of a power back-off is delay * base^k |
| Strategy.ExponentialDelays | tinybackoff_test.go:71-75 | the k-th delay of an exponential back-off of n is maxDelay / e^(n - k), truncated toward zero |
| Strategy.ExponentialReachesMax | tinybackoff_test.go:71-75 | the last of the n delays is exactly maxDelay |
| Strategy.ExponentialBelowMax | tinybackoff_test.go:71-75 | for a non-negative maxDelay, while attempts are left, every delay lies between zero and maxDelay |
| Strategy.ExponentialGrows | tinybackoff_test.go:71-75 | for a non-negative maxDelay, while attempts are left, each delay is at least the one before it |
| Strategy.DrainEachPair | tinybackoff_test.go:84-87 | two sub-strategies drained one after the other |
| Strategy.DrainPairRest | tinybackoff_test.go:96-106 | a combined back-off of two, its first delay used, yields the first one's delays and then the second's |
| Strategy.DrainPair | tinybackoff_test.go:89-106 | a combined back-off of two yields its first delay (if any), then the first one's delays, then the second's |
| Strategy.LimitedConstant | tinybackoff_test.go:85 | a constant back-off limited to p attempts yields the constant p times |
| Strategy.LimitedLinear | tinybackoff_test.go:86 | a linear back-off limited to q attempts yields its first q delays, whatever its own cap |
| Strategy.CombinedDelays | tinybackoff_test.go:84-108 | the suite's combined back-off, for all constants, yields exactly the first delay, then p constant delays, then q linear ones, and nothing more |
| BackOffs.FirstDelay | tinybackoff_test.go:82-84 | a zero first delay means none; any other is kept |
| BackOffs.BackOff.NewConstantBackOff | tinybackoff_test.go:28 | a fresh, valid object in the state "constant delay" |
| BackOffs.BackOff.NewLinearBackOff | tinybackoff_test.go:42 | a fresh, valid object with its counter at zero |
| BackOffs.BackOff.NewPowerBackOff | tinybackoff_test.go:55 | a fresh, valid object with its counter at zero |
| BackOffs.BackOff.NewExponentialBackOff | tinybackoff_test.go:69 | a fresh, valid object with its counter at zero |
| BackOffs.BackOff.WithMaxAttempts | tinybackoff_test.go:28 | takes ownership of the wrapped object and starts a counter of its own at zero |
| BackOffs.BackOff.Combine | tinybackoff_test.go:84-87 | takes ownership of the sub-back-offs (which share no objects) and starts at its first delay, with every sub-back-off ahead of it |
| BackOffs.BackOff.Continue | tinybackoff_test.go:89 | the answer (as asked at lines 31, 35 and 89) is the model's `Cont`, and the new state is the model's `Skip` |
| BackOffs.BackOff.ContinueSequence | tinybackoff_test.go:89 | the index moves forward past exhausted sub-back-offs until one says yes or none is left |
| BackOffs.BackOff.AskCurrent | tinybackoff_test.go:89 | one sub-back-off is asked; on a no the index passes it for good |
| BackOffs.BackOff.NextDelay | tinybackoff_test.go:90 | for every variant (lines 32, 48, 61, 75 and 90), the delay and the new state are the model's `Next` |
| BackOffs.BackOff.NextFromCurrent | tinybackoff_test.go:90 | a combined back-off takes the delay from the sub-back-off at its index, and its index stays |
| Scenarios.Turn | tinybackoff_test.go:89-90 | one turn of the caller's loop on the objects: the answer, the delay and the attempts used are those of the model's drain, and no counter is pushed past its cap |
| Scenarios.Drive | tinybackoff_test.go:89-109 | the caller's loop receives exactly the model's drain, keeps every counter within its cap, and leaves the back-off saying no |
| Scenarios.TestConstantBackOff | tinybackoff_test.go:25-36 | a limited constant back-off says yes `attempts` times with the configured delay, then says no |
| Scenarios.TestLinearBackOff | tinybackoff_test.go:38-50 | the k-th delay is delay + multiplier * k, for k = 1..attempts |
| Scenarios.TestPowerBackOff | tinybackoff_test.go:52-63 | the k-th delay is delay * base^k, for k = 1..attempts |
| Scenarios.TestExponentialBackOff | tinybackoff_test.go:65-77 | the k-th delay is maxDelay / e^(attempts - k), and the last is exactly maxDelay |
| Scenarios.NewLimitedConstant | tinybackoff_test.go:85 | builds the limited constant sub-back-off |
| Scenarios.NewLimitedLinear | tinybackoff_test.go:86 | builds the limited linear sub-back-off |
| Scenarios.NewCombined | tinybackoff_test.go:84-87 | builds the combined back-off of the test |
| Scenarios.TestCombine | tinybackoff_test.go:79-110 | for all constants, the loop receives the first delay (unless zero), p constant delays and q linear ones, and `Continue()` then says no |
| Scenarios.TestCombineAsInSuite | tinybackoff_test.go:79-110 | with the suite's constants the loop receives 50m, 10s, 10s, 90s, 120s, 150s, 180s, 210s, and `Continue()` then says no, so the failure branch is never reached |

## Left out

- Floating point: the power and exponential delays are computed with exact integer and real arithmetic. Powers are integer powers, and e^k is a power, on reals, of the float64 value of e (6121026514868073 * 2^-51, exactly). The float64 rounding of `math.Pow` (once base^k exceeds 2^53), of `math.Exp`, of the division and of `float64(maxDelay)` (once maxDelay exceeds 2^53 nanoseconds) is not captured.
- Durations.Exp: an exact power of the float64 value of e, not Go's `math.Exp`, whose float64 results may differ in the last bits.
- Time: `time.Now()` in the combined test is not modelled. Its first delay, `now - (now - 50m)`, is taken to be exactly 50 minutes.
- Integer width: durations are unbounded integers. int64 overflow of `time.Duration` arithmetic is not modelled.
- Concurrency is not modelled: the tests drive each back-off from one goroutine.
- The testify assertion library is not modelled; the tests' assertions become postconditions.
- The library's implementation files are not part of this model. Where the test file is silent, the behaviour is this model's choice, as listed at the top.
- BackOffs.BackOff.NextDelay: requires the model's `Ready`. A combined back-off with no sub-back-off left to ask therefore cannot be asked for a delay; what the library does then is not known.
- BackOffs.BackOff.Combine: requires that the sub-back-offs share no objects. Passing the same back-off twice, i.e. aliasing, is not modelled.
- BackOffs.FirstDelay: a first delay of zero is treated as "no first delay". This sentinel is the model's choice and is not exercised by the test, which passes 50 minutes.
- Strategy.DrainLimited: the limiter ignores the wrapped back-off's own cap. This is the model's choice; the test only wraps a linear back-off whose cap equals the limit.
- Strategy.Safe: the protocol lemmas cover only limiters that wrap a back-off which is always ready. A limiter around a combined back-off is not covered.
- Strategy.Next: the exponential exponent is taken as the signed `n - attempt`. Calls past the last attempt divide by e to a negative power and keep growing; maxDelay is not clamped.
