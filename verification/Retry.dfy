/** The bounded retry loop and its exponential delays, in nanoseconds. */
module Retry {
  import opened Wrappers

  const SECOND: nat := 1_000_000_000

  datatype ExponentialStrategy = ExponentialStrategy(min: nat, max: nat, maxJitter: nat)

  function Pow2(n: nat): (p: nat)
    ensures p > 0
  {
    if n == 0 then 1 else 2 * Pow2(n - 1)
  }

  /** The delay before jitter. */
  function Backoff(s: ExponentialStrategy, attempt: int): nat {
    if attempt < 0 then s.min
    else if s.min + Pow2(attempt) * SECOND > s.max then s.max
    else s.min + Pow2(attempt) * SECOND
  }

  /** A random draw reduced to `[0, maxJitter)`. */
  function Jitter(s: ExponentialStrategy, draw: nat): (j: nat)
    ensures j <= s.maxJitter && (s.maxJitter > 0 ==> j < s.maxJitter)
    ensures draw < s.maxJitter ==> j == draw
  {
    if s.maxJitter > 0 then draw % s.maxJitter else 0
  }

  method Duration(s: ExponentialStrategy, attempt: int, draw: nat) returns (dur: nat)
    ensures dur == Backoff(s, attempt) + Jitter(s, draw)
  {
    var jitter := 0;
    if s.maxJitter > 0 {
      jitter := draw % s.maxJitter;
    }
    if attempt < 0 {
      return s.min + jitter;
    }
    dur := s.min;
    dur := dur + Pow2(attempt) * SECOND;
    if dur > s.max {
      dur := s.max;
    }
    dur := dur + jitter;
  }

  lemma {:induction false} Pow2Monotone(i: nat, j: nat)
    requires i <= j
    ensures Pow2(i) <= Pow2(j)
    ensures i < j ==> Pow2(i) < Pow2(j)
    decreases j
  {
    if j <= i {
    } else {
      Pow2Monotone(i, j - 1);
    }
  }

  /** Delays never shrink, strictly grow until they reach the maximum, and stay there. */
  lemma BackoffGrows(s: ExponentialStrategy, i: nat, j: nat)
    requires i < j
    ensures Backoff(s, i) <= Backoff(s, j) <= s.max
    ensures Backoff(s, i) < Backoff(s, j) <==> Backoff(s, i) < s.max
  {
    Pow2Monotone(i, j);
    assert Pow2(i) * SECOND < Pow2(j) * SECOND;
  }

  /** What is added to the minimum starts at one second and doubles with every attempt, up to the maximum. */
  lemma BackoffDoubles(s: ExponentialStrategy, i: nat)
    ensures s.min + 1_000_000_000 <= s.max ==> Backoff(s, 0) == s.min + 1_000_000_000
    ensures Backoff(s, i + 1) < s.max ==> Backoff(s, i + 1) - s.min == 2 * (Backoff(s, i) - s.min)
    ensures Backoff(s, i) < s.max ==> s.min + 2 * (Backoff(s, i) - s.min) > s.max ==> Backoff(s, i + 1) == s.max
  {
    Pow2Monotone(i, i + 1);
    assert Pow2(i) * SECOND < Pow2(i + 1) * SECOND;
  }

  /** With a maximum of at most a second every delay is the maximum, whatever the attempt. */
  lemma ShortMaximumIsConstant(s: ExponentialStrategy, attempt: nat)
    requires s.max <= SECOND
    ensures Backoff(s, attempt) == s.max
  {
    Pow2Monotone(0, attempt);
    assert Pow2(attempt) * SECOND >= SECOND;
  }

  /** The strategy of the persisting loops. */
  const PERSIST_STRATEGY := ExponentialStrategy(1000, 20_000, 250)

  datatype Outcome<T> = Returned(value: T) | NeedAttempt | ContextDone | FailedPermanently(attempts: int)

  function Total(delays: seq<nat>): nat {
    if delays == [] then 0 else Total(delays[..|delays| - 1]) + delays[|delays| - 1]
  }

  lemma MulMonotone(a: nat, b: nat, c: nat)
    requires a <= b
    ensures a * c <= b * c
    ensures (a + 1) * c == a * c + c
  {
    assert b * c - a * c == (b - a) * c;
  }

  lemma {:induction false} TotalBound(delays: seq<nat>, bound: nat)
    requires forall k :: 0 <= k < |delays| ==> delays[k] <= bound
    ensures Total(delays) <= |delays| * bound
  {
    if delays == [] {
    } else {
      var n := |delays| - 1;
      TotalBound(delays[..n], bound);
      MulMonotone(n, n + 1, bound);
    }
  }

  /** The runs before the i-th all failed, with the context alive before each. */
  ghost predicate FailedUpTo<T>(op: nat -> Result<T>, done: nat -> bool, i: nat) {
    forall k :: 0 <= k < i ==> op(k).Failure? && !done(k)
  }

  ghost predicate DelaysOk(s: ExponentialStrategy, draw: nat -> nat, sleeps: seq<nat>) {
    forall k :: 0 <= k < |sleeps| ==> sleeps[k] == Backoff(s, k) + Jitter(s, draw(k))
  }

  /**
    `op(i)` is what the i-th run of the operation returns and `done(i)` whether the context has
    ended before it.
   */
  method Do<T>(maxAttempts: int, s: ExponentialStrategy, op: nat -> Result<T>, done: nat -> bool, draw: nat -> nat)
    returns (outcome: Outcome<T>, runs: nat, sleeps: seq<nat>)
    ensures outcome.NeedAttempt? <==> maxAttempts < 1
    ensures runs <= if maxAttempts < 1 then 0 else maxAttempts
    ensures match outcome
            case Returned(value) =>
              runs > 0 && FailedUpTo(op, done, runs - 1) && op(runs - 1) == Success(value) && !done(runs - 1)
            case NeedAttempt => true
            case ContextDone => runs < maxAttempts && FailedUpTo(op, done, runs) && done(runs)
            case FailedPermanently(attempts) => runs == attempts == maxAttempts && FailedUpTo(op, done, runs)
    ensures |sleeps| == if outcome.NeedAttempt? then 0 else if outcome.ContextDone? then runs else runs - 1
    ensures DelaysOk(s, draw, sleeps)
  {
    sleeps := [];
    runs := 0;
    if maxAttempts < 1 {
      return NeedAttempt, runs, sleeps;
    }
    for i := 0 to maxAttempts
      invariant runs == i && FailedUpTo(op, done, i)
      invariant |sleeps| == if i == maxAttempts then i - 1 else i
      invariant DelaysOk(s, draw, sleeps)
    {
      if done(i) {
        return ContextDone, runs, sleeps;
      }
      var ret := op(i);
      runs := runs + 1;
      if ret.Success? {
        return Returned(ret.value), runs, sleeps;
      }
      if i != maxAttempts - 1 {
        var dur := Duration(s, i, draw(i));
        sleeps := sleeps + [dur];
      }
    }
    return FailedPermanently(maxAttempts), runs, sleeps;
  }

  /** The outcome and the number of runs are determined: the first success or ended context decides. */
  lemma FirstStopDecides<T>(op: nat -> Result<T>, done: nat -> bool, i: nat, j: nat)
    requires FailedUpTo(op, done, i) && (op(i).Success? || done(i))
    requires FailedUpTo(op, done, j) && (op(j).Success? || done(j))
    ensures i == j
  {
  }

  /** Sleeping is bounded by the attempts that remain after the first. */
  lemma TotalSleepBound(s: ExponentialStrategy, draw: nat -> nat, sleeps: seq<nat>, maxAttempts: int)
    requires DelaysOk(s, draw, sleeps) && |sleeps| <= maxAttempts - 1
    ensures Total(sleeps) <= (maxAttempts - 1) * (s.max + s.maxJitter)
  {
    var bound := s.max + s.maxJitter;
    forall k | 0 <= k < |sleeps|
      ensures sleeps[k] <= bound
    {
      assert Backoff(s, k) <= s.max;
    }
    hide Backoff, Jitter, DelaysOk;
    TotalBound(sleeps, bound);
    MulMonotone(|sleeps|, maxAttempts - 1, bound);
  }

  /** The persisting loops sleep at most nine times twenty microseconds and a quarter. */
  lemma PersistSleeps(draw: nat -> nat, sleeps: seq<nat>)
    requires DelaysOk(PERSIST_STRATEGY, draw, sleeps) && |sleeps| <= 9
    ensures forall k :: 0 <= k < |sleeps| ==> 20_000 <= sleeps[k] < 20_250
    ensures Total(sleeps) <= 9 * 20_250
  {
    forall k | 0 <= k < |sleeps|
      ensures 20_000 <= sleeps[k] < 20_250
    {
      ShortMaximumIsConstant(PERSIST_STRATEGY, k);
    }
    TotalSleepBound(PERSIST_STRATEGY, draw, sleeps, 10);
  }
}
