/** The waiting times between attempts to connect, in the program's 32-bit arithmetic. */
module Backoff {

  const WORD: int := 0x1_0000_0000
  const HALF: int := 0x8000_0000

  newtype uint32 = x: int | 0 <= x < 0x1_0000_0000

  /** Unsigned doubling: it wraps around. */
  function Doubled(x: uint32): (r: uint32)
    ensures r as int == if x as int < HALF then 2 * x as int else 2 * x as int - WORD
  {
    (x as int * 2 % 0x1_0000_0000) as uint32
  }

  /** The wait after `k` earlier failures, as the program computes it. */
  function Interval(initial: uint32, maximum: uint32, k: nat): uint32 {
    if k == 0 then initial
    else
      var doubled := Doubled(Interval(initial, maximum, k - 1));
      if doubled < maximum then doubled else maximum
  }

  function Pow2(k: nat): (p: nat)
    ensures p >= 1
  {
    if k == 0 then 1 else 2 * Pow2(k - 1)
  }

  function Min(a: int, b: int): int {
    if a < b then a else b
  }

  /** The wait that capped exponential backoff promises. */
  function Promised(initial: uint32, maximum: uint32, k: nat): int {
    if k == 0 then initial as int else Min(initial as int * Pow2(k), maximum as int)
  }

  /** Each wait is the one that follows from the number of failures before it. */
  predicate Waited(initial: uint32, maximum: uint32, sleeps: seq<uint32>) {
    forall k | 0 <= k < |sleeps| :: sleeps[k] == Interval(initial, maximum, k)
  }

  /** The loop: one wait for each of the failures before the connection succeeds. */
  method Connect(failures: nat, initial: uint32, maximum: uint32) returns (sleeps: seq<uint32>)
    ensures |sleeps| == failures
    ensures Waited(initial, maximum, sleeps)
  {
    hide Doubled, Interval, Waited;
    IntervalSteps(initial, maximum, 0);
    NotWaited(initial, maximum);
    sleeps := [];
    var interval := initial;
    var trials: nat := 0;
    while trials < failures
      invariant trials == |sleeps| <= failures
      invariant interval == Interval(initial, maximum, trials)
      invariant Waited(initial, maximum, sleeps)
    {
      WaitedLonger(initial, maximum, sleeps);
      IntervalSteps(initial, maximum, trials);
      sleeps := sleeps + [interval];
      interval := Doubled(interval);
      interval := if interval < maximum then interval else maximum;
      trials := trials + 1;
    }
  }

  lemma NotWaited(initial: uint32, maximum: uint32)
    ensures Waited(initial, maximum, [])
  {
  }

  lemma WaitedLonger(initial: uint32, maximum: uint32, sleeps: seq<uint32>)
    requires Waited(initial, maximum, sleeps)
    ensures Waited(initial, maximum, sleeps + [Interval(initial, maximum, |sleeps|)])
  {
    hide Interval;
  }

  lemma IntervalSteps(initial: uint32, maximum: uint32, k: nat)
    ensures Interval(initial, maximum, 0) == initial
    ensures Interval(initial, maximum, k + 1)
         == var doubled := Doubled(Interval(initial, maximum, k));
            if doubled < maximum then doubled else maximum
  {
    hide Doubled;
  }

  /** The configurations for which the doubling never wraps, or wraps unnoticed. */
  predicate Safe(initial: uint32, maximum: uint32) {
    || initial == 0
    || (maximum as int < HALF && (initial as int < HALF || 2 * initial as int - WORD >= maximum as int))
  }

  predicate Kept(initial: uint32, maximum: uint32, k: nat) {
    Interval(initial, maximum, k) as int == Promised(initial, maximum, k)
  }

  /** The uncapped wait, one doubling at a time. */
  function Power(initial: uint32, k: nat): (p: int)
    ensures p >= 0
  {
    if k == 0 then initial as int else 2 * Power(initial, k - 1)
  }

  lemma Twice(i: int, p: int)
    ensures i * (2 * p) == 2 * (i * p)
  {
  }

  lemma {:induction false} PowerIsProduct(initial: uint32, k: nat)
    ensures Power(initial, k) == initial as int * Pow2(k)
  {
    if k > 0 {
      PowerIsProduct(initial, k - 1);
      Twice(initial as int, Pow2(k - 1));
    }
  }

  lemma {:induction false} SafeIsKept(initial: uint32, maximum: uint32, k: nat)
    requires Safe(initial, maximum)
    ensures Kept(initial, maximum, k)
    ensures initial == 0 ==> Power(initial, k) == 0
  {
    hide Pow2;
    PromisedPower(initial, maximum, k);
    if k > 0 {
      PromisedPower(initial, maximum, k - 1);
      SafeIsKept(initial, maximum, k - 1);
    }
  }

  lemma PromisedPower(initial: uint32, maximum: uint32, k: nat)
    ensures Promised(initial, maximum, k)
         == if k == 0 then Power(initial, 0) else Min(Power(initial, k), maximum as int)
  {
    PowerIsProduct(initial, k);
  }

  /** Climbing from a promised wait below the cap, the first doubling that wraps is found. */
  lemma {:induction false} Climb(initial: uint32, maximum: uint32, k: nat) returns (n: nat)
    requires maximum as int >= HALF
    requires Kept(initial, maximum, k)
    requires 0 < Interval(initial, maximum, k) <= maximum
    requires Power(initial, k) >= Interval(initial, maximum, k) as int
    ensures !Kept(initial, maximum, n)
    decreases HALF - Interval(initial, maximum, k) as int
  {
    hide Pow2;
    PromisedPower(initial, maximum, k);
    PromisedPower(initial, maximum, k + 1);
    if Interval(initial, maximum, k) as int >= HALF {
      n := k + 1;
    } else {
      n := Climb(initial, maximum, k + 1);
    }
  }

  lemma UnsafeIsBroken(initial: uint32, maximum: uint32) returns (n: nat)
    requires !Safe(initial, maximum)
    ensures !Kept(initial, maximum, n)
  {
    hide Pow2;
    PromisedPower(initial, maximum, 0);
    PromisedPower(initial, maximum, 1);
    if initial as int < HALF {
      n := Climb(initial, maximum, 0);
    } else if 2 * initial as int - WORD < maximum as int {
      n := 1;
    } else {
      n := Climb(initial, maximum, 1);
    }
  }

  /** Every wait is the promised one if and only if the configuration is safe. */
  lemma BackoffIff(initial: uint32, maximum: uint32)
    ensures (forall k :: Kept(initial, maximum, k)) <==> Safe(initial, maximum)
  {
    if Safe(initial, maximum) {
      forall k ensures Kept(initial, maximum, k) {
        SafeIsKept(initial, maximum, k);
      }
    } else {
      var n := UnsafeIsBroken(initial, maximum);
    }
  }

  /** In a safe configuration that starts below the cap the waits never fall and stay at the cap. */
  lemma WaitsGrow(initial: uint32, maximum: uint32, k: nat)
    requires Safe(initial, maximum) && initial <= maximum
    ensures Interval(initial, maximum, k) <= Interval(initial, maximum, k + 1) <= maximum
  {
    hide Pow2;
    SafeIsKept(initial, maximum, k);
    SafeIsKept(initial, maximum, k + 1);
    PromisedPower(initial, maximum, k);
    PromisedPower(initial, maximum, k + 1);
  }
}
