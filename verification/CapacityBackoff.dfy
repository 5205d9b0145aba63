/** The wait of a periodic worker after refusals for lack of capacity: a delay that doubles in
    64-bit nanoseconds, and a counter that stops counting at the bound. */
module CapacityBackoff {

  const TWO_63: int := 0x8000_0000_0000_0000
  const TWO_62: int := 0x4000_0000_0000_0000
  const SECOND: int := 1_000_000_000
  const ZERO_TIME: int := 0

  predicate IsDuration(x: int) { -TWO_63 <= x < TWO_63 }

  /** Two's-complement doubling of a 64-bit duration. */
  function Twice(delay: int): int {
    var m := (2 * delay) % (2 * TWO_63);
    if m >= TWO_63 then m - 2 * TWO_63 else m
  }

  function Pow2(n: nat): nat { if n == 0 then 1 else 2 * Pow2(n - 1) }

  /** `base` doubled `n` times, without a width. */
  function Doubled(base: int, n: nat): int { if n == 0 then base else 2 * Doubled(base, n - 1) }

  function Min(a: int, b: int): int { if a < b then a else b }

  /** The doubling loop: at most `refusals` doublings, none once the bound is reached. */
  function Grow(delay: int, max: int, refusals: nat): int
    decreases refusals
  {
    if refusals == 0 || delay >= max then delay else Grow(Twice(delay), max, refusals - 1)
  }

  /** The refusal counter after `n` refusals in a row. */
  function Count(base: int, max: int, n: nat): nat {
    if n == 0 then 0
    else
      var c := Count(base, max, n - 1);
      if Min(Grow(base, max, c), max) < max then c + 1 else c
  }

  /** The delay the n-th refusal in a row returns, n >= 1. */
  function NthDelay(base: int, max: int, n: nat): int
    requires n >= 1
  {
    Min(Grow(base, max, Count(base, max, n - 1)), max)
  }

  predicate Bounds(base: int, max: int) { 1 <= base <= max < TWO_63 }

  /** The delay base * 2^i is below the bound and its doubling leaves 64 bits. */
  predicate OverflowsAt(base: int, max: int, i: nat) {
    TWO_62 <= base * Pow2(i) < max
  }

  ghost predicate NeverOverflows(base: int, max: int) {
    forall i: nat :: !OverflowsAt(base, max, i)
  }

  /** The n-th refusal in a row waits as long as it should. */
  predicate ExactAt(base: int, max: int, n: nat) {
    n >= 1 ==> NthDelay(base, max, n) == Min(max, base * Pow2(n - 1))
  }

  class Backoff {
    const base: int
    const max: int
    var refusals: nat
    var notBefore: int
    /** Refusals in a row since the last success. */
    ghost var streak: nat

    ghost predicate Valid()
      reads this
    {
      Bounds(base, max) && refusals == Count(base, max, streak)
    }

    constructor (base: int, max: int)
      requires IsDuration(base) && IsDuration(max)
      ensures Valid() && streak == 0 && notBefore == ZERO_TIME
      ensures this.base == if base <= 0 then 1_000_000_000 else base
      ensures this.max == if max < this.base then this.base else max
    {
      var b := if base <= 0 then SECOND else base;
      this.base := b;
      this.max := if max < b then b else max;
      refusals, notBefore := 0, ZERO_TIME;
      streak := 0;
    }

    method Refused(now: int) returns (delay: int)
      requires Valid()
      modifies this
      ensures Valid() && streak == old(streak) + 1
      ensures delay == NthDelay(base, max, streak) && notBefore == now + delay
      ensures NeverOverflows(base, max) ==> delay == Min(max, base * Pow2(streak - 1))
    {
      delay := base;
      var i := 0;
      while i < refusals && delay < max
        invariant 0 <= i <= refusals
        invariant Grow(delay, max, refusals - i) == Grow(base, max, refusals)
      {
        delay := Twice(delay);
        i := i + 1;
      }
      if delay > max { delay := max; }
      if delay < max { refusals := refusals + 1; }
      notBefore := now + delay;
      streak := streak + 1;
      if NeverOverflows(base, max) { ExactWhenSafe(base, max, streak); }
    }

    method Succeeded()
      requires Valid()
      modifies this
      ensures Valid() && streak == 0 && notBefore == ZERO_TIME
    {
      refusals := 0;
      notBefore := ZERO_TIME;
      streak := 0;
    }

    method Waiting(now: int) returns (wait: bool)
      ensures wait <==> now < notBefore
    {
      wait := now < notBefore;
    }
  }

  // ---- the counter that stops refines one that never stops ----

  lemma {:induction false} GrowStays(delay: int, max: int, m: nat, n: nat)
    requires m <= n && Grow(delay, max, m) >= max
    ensures Grow(delay, max, n) == Grow(delay, max, m)
    decreases m
  {
    if m > 0 && delay < max { GrowStays(Twice(delay), max, m - 1, n - 1); }
  }

  /** Stopping the counter at the bound changes no delay. */
  lemma {:induction false} StoppingChangesNothing(base: int, max: int, n: nat)
    requires n >= 1
    ensures NthDelay(base, max, n) == Min(Grow(base, max, n - 1), max)
    ensures Count(base, max, n - 1) <= n - 1
    ensures Count(base, max, n - 1) < n - 1 ==> NthDelay(base, max, n) == max
  {
    if n > 1 {
      StoppingChangesNothing(base, max, n - 1);
      var c := Count(base, max, n - 2);
      if Min(Grow(base, max, c), max) >= max { GrowStays(base, max, c, n - 1); }
    }
  }

  // ---- exactness ----

  lemma TwiceIs(delay: int)
    requires 0 <= delay < TWO_63
    ensures Twice(delay) == if delay < TWO_62 then 2 * delay else 2 * delay - 2 * TWO_63
  {
  }

  /** Doubling n times multiplies by 2^n. */
  lemma {:induction false} DoubledIsPower(base: int, n: nat)
    ensures Doubled(base, n) == base * Pow2(n)
  {
    if n > 0 {
      DoubledIsPower(base, n - 1);
      assert base * (2 * Pow2(n - 1)) == 2 * (base * Pow2(n - 1));
    }
  }

  lemma {:induction false} DoubledGrows(base: int, i: nat, j: nat)
    requires base >= 1 && i <= j
    ensures base <= Doubled(base, i) && Doubled(base, i) + (j - i) <= Doubled(base, j)
    decreases j
  {
    if i < j { DoubledGrows(base, i, j - 1); }
    else if i > 0 { DoubledGrows(base, i - 1, i - 1); }
  }

  /** The loop computes the exact value while no doubling below the bound overflows. */
  lemma {:induction false} GrowExact(base: int, max: int, i: nat, r: nat)
    requires Bounds(base, max) && NeverOverflows(base, max) && Doubled(base, i) < TWO_63
    ensures Min(Grow(Doubled(base, i), max, r), max) == Min(max, Doubled(base, i + r))
    decreases r
  {
    var delay := Doubled(base, i);
    DoubledGrows(base, i, i + r);
    TwiceIs(delay);
    DoubledIsPower(base, i);
    assert !OverflowsAt(base, max, i);
    hide Twice, Pow2, OverflowsAt;
    if r > 0 && delay < max {
      assert delay < TWO_62 && Twice(delay) == Doubled(base, i + 1);
      GrowExact(base, max, i + 1, r - 1);
    }
  }

  lemma ExactWhenSafe(base: int, max: int, n: nat)
    requires Bounds(base, max) && NeverOverflows(base, max) && n >= 1
    ensures NthDelay(base, max, n) == Min(max, base * Pow2(n - 1))
  {
    StoppingChangesNothing(base, max, n);
    GrowExact(base, max, 0, n - 1);
    DoubledIsPower(base, n - 1);
  }

  lemma {:induction false} GrowPrefix(base: int, max: int, i: nat, r: nat)
    requires 1 <= base && Doubled(base, i + r) < max < TWO_63
    ensures Grow(Doubled(base, i), max, r) == Doubled(base, i + r)
    decreases r
  {
    if r > 0 {
      DoubledGrows(base, i, i + r);
      DoubledGrows(base, i + 1, i + r);
      TwiceIs(Doubled(base, i));
      hide Twice;
      GrowPrefix(base, max, i + 1, r - 1);
    }
  }

  lemma {:induction false} GrowOne(delay: int, max: int, r: nat)
    requires Grow(delay, max, r) < max
    ensures Grow(delay, max, r + 1) == Twice(Grow(delay, max, r))
    decreases r
  {
    hide Twice;
    if r > 0 { GrowOne(Twice(delay), max, r - 1); }
  }

  /** A doubling of a delay in [2^62, max) overflows: that refusal returns a negative delay
      where the bound was due. */
  lemma OverflowShows(base: int, max: int, i: nat)
    requires Bounds(base, max) && TWO_62 <= Doubled(base, i) < max
    ensures NthDelay(base, max, i + 2) == Doubled(base, i + 1) - 2 * TWO_63 < 0
    ensures Min(max, Doubled(base, i + 1)) == max
  {
    GrowPrefix(base, max, 0, i);
    GrowOne(base, max, i);
    TwiceIs(Doubled(base, i));
    StoppingChangesNothing(base, max, i + 2);
    hide Twice, NthDelay, Grow;
  }

  /** Every n-th refusal in a row waits exactly min(max, base * 2^(n-1)) if and only if no such
      power lies in [2^62, max). */
  lemma BackoffIsExact(base: int, max: int)
    requires Bounds(base, max)
    ensures NeverOverflows(base, max) <==> forall n: nat :: ExactAt(base, max, n)
  {
    if NeverOverflows(base, max) {
      forall n: nat ensures ExactAt(base, max, n) {
        if n >= 1 { ExactWhenSafe(base, max, n); }
      }
    } else {
      var i: nat :| OverflowsAt(base, max, i);
      DoubledIsPower(base, i);
      DoubledIsPower(base, i + 1);
      OverflowShows(base, max, i);
      assert !ExactAt(base, max, i + 2);
    }
  }

  /** A bound of at most 2^62 is enough, whatever the base. */
  lemma SmallBoundIsExact(base: int, max: int, n: nat)
    requires Bounds(base, max) && max <= TWO_62
    ensures ExactAt(base, max, n)
  {
    if n >= 1 { ExactWhenSafe(base, max, n); }
  }

  /** Without overflow the delays rise from base to max, and max is reached and kept. */
  lemma DelaysRise(base: int, max: int, m: nat, n: nat)
    requires Bounds(base, max) && NeverOverflows(base, max) && 1 <= m <= n
    ensures base <= NthDelay(base, max, m) <= NthDelay(base, max, n) <= max
    ensures n >= max ==> NthDelay(base, max, n) == max
  {
    ExactWhenSafe(base, max, m);
    ExactWhenSafe(base, max, n);
    DoubledIsPower(base, m - 1);
    DoubledIsPower(base, n - 1);
    DoubledGrows(base, 0, n - 1);
    DoubledGrows(base, m - 1, n - 1);
    hide NthDelay, Pow2;
  }

  /** With a bound above 2^62 the property can fail: the second refusal waits -2^63. */
  lemma OverflowExample()
    ensures Bounds(TWO_62, TWO_63 - 1) && NthDelay(TWO_62, TWO_63 - 1, 2) == -TWO_63
    ensures Min(TWO_63 - 1, TWO_62 * Pow2(1)) == TWO_63 - 1
  {
    OverflowShows(TWO_62, TWO_63 - 1, 0);
    assert Pow2(1) == 2;
  }
}
