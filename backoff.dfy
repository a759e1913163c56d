/** The back-off objects. Every variant is one `BackOff` object with the two
    operations of the library's interface, `Continue()` and `NextDelay()`.
    Primitive variants hold an attempt counter; an attempt limiter owns the
    back-off it wraps and keeps a counter of its own; a combined back-off owns
    its sub-strategies and an index into them. Each object's ghost `state` is
    its value in the `Strategy` model, and both operations are proved to act on
    it as `Cont`/`Skip` and `Next` say. */
module BackOffs {
  import opened Durations
  import opened Strategy

  /** The configuration of a back-off, fixed when it is built. */
  datatype Kind =
    | ConstantKind(delay: Duration)
    | LinearKind(delay: Duration, multiplier: Duration, maxAttempts: nat)
    | PowerKind(delay: Duration, base: nat, maxAttempts: nat)
    | ExponentialKind(maxDelay: Duration, maxAttempts: nat)
    | LimitedKind(backOff: BackOff, maxAttempts: nat)
    | SequenceKind(first: Option<Duration>, backOffs: seq<BackOff>)

  /** The first delay of a combined back-off: a zero duration stands for none. */
  function FirstDelay(d: Duration): (r: Option<Duration>)
    ensures r.None? <==> d == 0
    ensures r.Some? ==> r.value == d
  {
    if d == 0 then None else Some(d)
  }

  /** The model states of a sequence of back-offs. */
  ghost function States(bs: seq<BackOff>): (r: seq<State>)
    reads set b | b in bs
    ensures |r| == |bs| && forall i :: 0 <= i < |bs| ==> r[i] == bs[i].state
    decreases |bs|
  {
    if bs == [] then [] else [bs[0].state] + States(bs[1..])
  }

  /** The objects a sequence of back-offs is made of. */
  ghost function Footprint(bs: seq<BackOff>): (r: set<object>)
    ensures forall i :: 0 <= i < |bs| ==> bs[i].Repr <= r
    decreases |bs|
  {
    if bs == [] then {} else bs[0].Repr + Footprint(bs[1..])
  }

  class BackOff {
    const kind: Kind
    /** Attempts used so far (primitive variants and the attempt limiter). */
    var attempt: nat
    /** Index of the sub-strategy a combined back-off consults. */
    var current: nat
    /** Whether a combined back-off has yet to return its first delay. */
    var firstPending: bool

    ghost var state: State
    ghost const Repr: set<object>

    ghost predicate Valid()
      reads this, Repr
      ensures Valid() ==> this in Repr
      decreases Repr
    {
      this in Repr &&
      match kind
      case ConstantKind(d) => state == Constant(d)
      case LinearKind(d, m, n) => state == Linear(d, m, attempt, n)
      case PowerKind(d, b, n) => state == Power(d, b, attempt, n)
      case ExponentialKind(x, n) => state == Exponential(x, attempt, n)
      case LimitedKind(inner, n) =>
        inner in Repr && inner.Repr <= Repr && this !in inner.Repr && inner.Valid() &&
        state == Limited(inner.state, attempt, n)
      case SequenceKind(first, subs) =>
        (forall i :: 0 <= i < |subs| ==> subs[i] in Repr && subs[i].Repr <= Repr && this !in subs[i].Repr) &&
        (forall i, j :: 0 <= i < j < |subs| ==> subs[i].Repr !! subs[j].Repr) &&
        current <= |subs| && (firstPending ==> first.Some?) &&
        state.Sequence? && state.first == (if firstPending then first else None) &&
        |state.rest| == |subs| - current &&
        forall i :: current <= i < |subs| ==> subs[i].Valid() && state.rest[i - current] == subs[i].state
    }

    /** NewConstantBackOff: the same delay every time, and no limit of its own. */
    constructor NewConstantBackOff(delay: Duration)
      ensures Valid() && fresh(Repr) && Repr == {this}
      ensures state == Constant(delay)
    {
      kind := ConstantKind(delay);
      attempt, current, firstPending := 0, 0, false;
      state := Constant(delay);
      Repr := {this};
    }

    /** NewLinearBackOff: delay + multiplier * attempt, for maxAttempts attempts. */
    constructor NewLinearBackOff(delay: Duration, multiplier: Duration, maxAttempts: nat)
      ensures Valid() && fresh(Repr) && Repr == {this}
      ensures state == Linear(delay, multiplier, 0, maxAttempts)
    {
      kind := LinearKind(delay, multiplier, maxAttempts);
      attempt, current, firstPending := 0, 0, false;
      state := Linear(delay, multiplier, 0, maxAttempts);
      Repr := {this};
    }

    /** NewPowerBackOff: delay * base^attempt, for maxAttempts attempts. */
    constructor NewPowerBackOff(delay: Duration, base: nat, maxAttempts: nat)
      ensures Valid() && fresh(Repr) && Repr == {this}
      ensures state == Power(delay, base, 0, maxAttempts)
    {
      kind := PowerKind(delay, base, maxAttempts);
      attempt, current, firstPending := 0, 0, false;
      state := Power(delay, base, 0, maxAttempts);
      Repr := {this};
    }

    /** NewExponentialBackOff: maxDelay / e^(maxAttempts - attempt), for maxAttempts attempts. */
    constructor NewExponentialBackOff(maxDelay: Duration, maxAttempts: nat)
      ensures Valid() && fresh(Repr) && Repr == {this}
      ensures state == Exponential(maxDelay, 0, maxAttempts)
    {
      kind := ExponentialKind(maxDelay, maxAttempts);
      attempt, current, firstPending := 0, 0, false;
      state := Exponential(maxDelay, 0, maxAttempts);
      Repr := {this};
    }

    /** WithMaxAttempts: takes ownership of backOff and allows maxAttempts
        attempts by a counter of its own. */
    constructor WithMaxAttempts(backOff: BackOff, maxAttempts: nat)
      requires backOff.Valid()
      ensures Valid() && fresh(Repr - backOff.Repr)
      ensures Repr == {this} + backOff.Repr
      ensures state == Limited(backOff.state, 0, maxAttempts)
    {
      kind := LimitedKind(backOff, maxAttempts);
      attempt, current, firstPending := 0, 0, false;
      state := Limited(backOff.state, 0, maxAttempts);
      Repr := {this} + backOff.Repr;
    }

    /** Combine: takes ownership of the back-offs, which must not share
        objects, and yields firstDelay (unless it is zero) and then theirs in
        order. */
    constructor Combine(firstDelay: Duration, backOffs: seq<BackOff>)
      requires forall i :: 0 <= i < |backOffs| ==> backOffs[i].Valid()
      requires forall i, j :: 0 <= i < j < |backOffs| ==> backOffs[i].Repr !! backOffs[j].Repr
      ensures Valid()
      ensures Repr == {this} + Footprint(backOffs)
      ensures state == Sequence(FirstDelay(firstDelay), States(backOffs))
    {
      var first := FirstDelay(firstDelay);
      assert forall i :: 0 <= i < |backOffs| ==> backOffs[i] in backOffs[i].Repr;
      kind := SequenceKind(first, backOffs);
      attempt, current, firstPending := 0, 0, first.Some?;
      state := Sequence(first, States(backOffs));
      Repr := {this} + Footprint(backOffs);
    }

    /** Continue(): whether another attempt is allowed. A combined back-off
        whose first delay is used up moves past every sub-strategy that says no,
        and never goes back. */
    method Continue() returns (b: bool)
      requires Valid()
      modifies Repr
      ensures Valid()
      ensures b == Cont(old(state)) && state == Skip(old(state))
      decreases Repr, 2
    {
      match kind
      case ConstantKind(_) =>
        b := true;
      case LinearKind(_, _, n) =>
        b := attempt < n;
      case PowerKind(_, _, n) =>
        b := attempt < n;
      case ExponentialKind(_, n) =>
        b := attempt < n;
      case LimitedKind(_, n) =>
        b := attempt < n;
      case SequenceKind(first, subs) =>
        if firstPending {
          b := true;
        } else {
          b := ContinueSequence(subs);
        }
    }

    /** The search of a combined back-off for a sub-strategy that continues. */
    method ContinueSequence(subs: seq<BackOff>) returns (b: bool)
      requires Valid() && kind.SequenceKind? && kind.backOffs == subs && !firstPending
      modifies Repr
      ensures Valid()
      ensures b == Cont(old(state)) && state == Skip(old(state))
      decreases Repr, 1
    {
      ghost var rest0 := state.rest;
      ghost var c0 := current;
      b := false;
      while current < |subs|
        invariant Valid() && !firstPending
        invariant c0 <= current <= |subs|
        invariant state.rest == rest0[current - c0..]
        invariant forall i :: 0 <= i < current - c0 ==> !Cont(rest0[i])
        decreases |subs| - current
      {
        var more := AskCurrent();
        if more {
          assert rest0[current - c0..][1..] == rest0[current - c0 + 1..];
          b := true;
          return;
        }
      }
    }

    /** A combined back-off asks its current sub-strategy `Continue()` and,
        on a no, moves past it for good. */
    method AskCurrent() returns (more: bool)
      requires Valid() && kind.SequenceKind? && !firstPending && current < |kind.backOffs|
      modifies Repr
      ensures Valid() && !firstPending && |old(state.rest)| > 0
      ensures more == Cont(old(state.rest)[0])
      ensures current == old(current) + (if more then 0 else 1)
      ensures state == Sequence(None,
        if more then [Skip(old(state.rest)[0])] + old(state.rest)[1..] else old(state.rest)[1..])
      decreases Repr, 0
    {
      var sub := kind.backOffs[current];
      more := sub.Continue();
      if more {
        state := Sequence(None, [sub.state] + state.rest[1..]);
      } else {
        current := current + 1;
        state := Sequence(None, state.rest[1..]);
      }
    }

    /** NextDelay(): uses up one attempt and returns its delay. */
    method NextDelay() returns (d: Duration)
      requires Valid() && Ready(state)
      modifies Repr
      ensures Valid()
      ensures Step(d, state) == Next(old(state))
      decreases Repr, 1
    {
      match kind
      case ConstantKind(x) =>
        d := x;
      case LinearKind(x, m, n) =>
        attempt := attempt + 1;
        d := x + m * attempt;
        state := Linear(x, m, attempt, n);
      case PowerKind(x, base, n) =>
        attempt := attempt + 1;
        d := x * Pow(base, attempt);
        state := Power(x, base, attempt, n);
      case ExponentialKind(x, n) =>
        attempt := attempt + 1;
        d := Trunc(x as real / Exp(n - attempt));
        state := Exponential(x, attempt, n);
      case LimitedKind(inner, n) =>
        attempt := attempt + 1;
        d := inner.NextDelay();
        state := Limited(inner.state, attempt, n);
      case SequenceKind(first, _) =>
        if firstPending {
          firstPending := false;
          d := first.value;
          state := Sequence(None, state.rest);
        } else {
          d := NextFromCurrent();
        }
    }

    /** A combined back-off whose first delay is used up takes the next delay
        of its current sub-strategy. */
    method NextFromCurrent() returns (d: Duration)
      requires Valid() && kind.SequenceKind? && !firstPending
      requires |state.rest| > 0 && Ready(state.rest[0])
      modifies Repr
      ensures Valid() && current == old(current)
      ensures Step(d, state.rest[0]) == Next(old(state.rest)[0])
      ensures state == Sequence(None, [state.rest[0]] + old(state.rest)[1..])
      decreases Repr, 0
    {
      var sub := kind.backOffs[current];
      d := sub.NextDelay();
      state := Sequence(None, [sub.state] + state.rest[1..]);
    }
  }
}
