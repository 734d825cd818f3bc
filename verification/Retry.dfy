/** Retry delays of a watcher (gateway/internal/resources/manager.go). Durations are 64-bit nanosecond counts, and
    doubling one can wrap around. */
module Retry {
  import opened Text

  const TWO_62: int := 0x4000_0000_0000_0000
  const TWO_63: int := 0x8000_0000_0000_0000

  function Wrap(x: int): int {
    (x + TWO_63) % (2 * TWO_63) - TWO_63
  }

  /** Division by two, which truncates toward zero. */
  function Half(d: int): int {
    if d >= 0 then d / 2 else -(-d / 2)
  }

  function Min(a: int, b: int): int {
    if a <= b then a else b
  }

  datatype Options = Options(reconcile: int, request: int, watch: int, initial: int, max: int, stable: int)

  function OrElse(d: int, default: int): int {
    if d <= 0 then default else d
  }

  const SECOND: int := 1_000_000_000

  /** withDefaults: whatever was asked for, every duration is positive and the cap is no less than the first delay. */
  function WithDefaults(o: Options): (r: Options)
    ensures 0 < r.initial <= r.max && r.stable > 0 && r.reconcile > 0 && r.request > 0 && r.watch > 0
    ensures 0 < o.initial <= o.max && o.stable > 0 && o.reconcile > 0 && o.request > 0 && o.watch > 0 ==> r == o
    ensures o.initial > 0 ==> r.initial == o.initial
    ensures o.initial <= o.max && o.max > 0 && o.initial > 0 ==> r.max == o.max
    ensures o.initial < TWO_63 && o.max < TWO_63 ==> r.max < TWO_63
  {
    var initial := OrElse(o.initial, SECOND);
    var max := OrElse(o.max, 30 * SECOND);
    Options(OrElse(o.reconcile, 300 * SECOND), OrElse(o.request, 30 * SECOND), OrElse(o.watch, 300 * SECOND),
            initial, if max >= initial then max else initial, OrElse(o.stable, 60 * SECOND))
  }

  /** What is left out, or not positive, is five minutes between reconciliations, 30 seconds for a request, five minutes
      for a watch, one second for the first delay, 30 seconds for the longest, and a minute for a stable watch; the
      longest delay is raised to the first one if that is longer. */
  lemma DefaultsAre(o: Options)
    ensures var r := WithDefaults(o);
      && r.reconcile == (if o.reconcile > 0 then o.reconcile else 300_000_000_000)
      && r.request == (if o.request > 0 then o.request else 30_000_000_000)
      && r.watch == (if o.watch > 0 then o.watch else 300_000_000_000)
      && r.initial == (if o.initial > 0 then o.initial else 1_000_000_000)
      && (o.max >= r.initial ==> r.max == o.max)
      && (0 < o.max < r.initial ==> r.max == r.initial)
      && (o.max <= 0 ==> r.max == if r.initial <= 30_000_000_000 then 30_000_000_000 else r.initial)
      && r.stable == (if o.stable > 0 then o.stable else 60_000_000_000)
  {
  }

  /** The base after one more failure. */
  function Advance(initial: int, max: int, current: int): int {
    if current == 0 then initial else Min(Wrap(2 * current), max)
  }

  /** The delay drawn around a base; drawing from an empty range panics. */
  function Delay(current: int, draw: nat): Option<int> {
    var half := Half(current);
    match RandN(Wrap(Wrap(current - half) + 1), draw)
    case None => None
    case Some(x) => Some(Wrap(half + x))
  }

  /** rand.N: any value from 0 up to `n`; an empty range panics. */
  function RandN(n: int, draw: nat): Option<int> {
    if n <= 0 then None else Some(draw % n)
  }

  class Backoff {
    const initial: int
    const max: int
    var current: int

    constructor (initial: int, max: int)
      ensures this.initial == initial && this.max == max && current == 0
    {
      this.initial, this.max, this.current := initial, max, 0;
    }

    method Next(draw: nat) returns (delay: Option<int>)
      modifies this`current
      ensures current == Advance(initial, max, old(current)) && delay == Delay(current, draw)
    {
      if current == 0 {
        current := initial;
      } else {
        var doubled := Wrap(2 * current);
        current := if doubled <= max then doubled else max;
      }
      var half := Half(current);
      var drawn := RandN(Wrap(Wrap(current - half) + 1), draw);
      if drawn.None? {
        return None;
      }
      return Some(Wrap(half + drawn.value));
    }

    method Reset()
      modifies this`current
      ensures current == 0
    {
      current := 0;
    }
  }

  // ---- The law of the bases ----

  /** The base after `k` failures in a row. */
  function Base(initial: int, max: int, k: nat): int {
    if k == 0 then 0 else Advance(initial, max, Base(initial, max, k - 1))
  }

  function Pow2(n: nat): (r: nat)
    ensures r > n
  {
    if n == 0 then 1 else 2 * Pow2(n - 1)
  }

  /** What the bases are meant to be. */
  function Capped(initial: int, max: int, k: nat): int
    requires k > 0
  {
    Min(initial * Pow2(k - 1), max)
  }

  lemma {:induction false} BaseIsCapped(initial: int, max: int, k: nat)
    requires 0 < initial <= max < TWO_62 && k > 0
    ensures Base(initial, max, k) == Capped(initial, max, k)
  {
    if k == 1 {
      assert Base(initial, max, 0) == 0 && Pow2(0) == 1;
    } else {
      BaseIsCapped(initial, max, k - 1);
      DoubleProduct(initial, Pow2(k - 2));
      DoubledMin(initial * Pow2(k - 2), max);
    }
  }

  lemma DoubleProduct(a: int, p: nat)
    requires a > 0 && p > 0
    ensures a * (2 * p) == 2 * (a * p) && a * p >= 1
  {
  }

  lemma DoubledMin(x: int, max: int)
    requires 0 < x && 0 < max < TWO_62
    ensures forall initial :: Advance(initial, max, Min(x, max)) == Min(2 * x, max)
  {
  }

  lemma BaseIsPositive(initial: int, max: int, k: nat)
    requires 0 < initial <= max < TWO_62 && k > 0
    ensures 0 < Base(initial, max, k) < TWO_63
  {
    BaseIsCapped(initial, max, k);
    DoubleProduct(initial, Pow2(k - 1));
  }

  /** With a cap of 2^62 or more the doubling wraps around, to a negative base. */
  lemma LargeCapWraps(initial: int, max: int) returns (k: nat)
    requires 0 < initial <= max < TWO_63 && TWO_62 <= max
    ensures k > 0 && Base(initial, max, k) < 0 && Base(initial, max, k) != Capped(initial, max, k)
    ensures Base(initial, max, k) <= -2
  {
    k := FirstLarge(initial, max, 1);
    assert Capped(initial, max, k) > 0 by { assert initial * Pow2(k - 1) > 0; }
  }

  /** From a base below the cap the doubling goes on until it passes 2^62. */
  lemma {:induction false} FirstLarge(initial: int, max: int, from: nat) returns (k: nat)
    requires 0 < initial <= max < TWO_63 && TWO_62 <= max
    requires from > 0 && 0 < Base(initial, max, from) <= max
    ensures k > from && Base(initial, max, k) <= -2
    decreases max - Base(initial, max, from)
  {
    var b := Base(initial, max, from);
    assert Base(initial, max, from + 1) == Min(Wrap(2 * b), max);
    if b >= TWO_62 {
      assert Wrap(2 * b) == 2 * b - 2 * TWO_63;
      k := from + 1;
    } else {
      assert Wrap(2 * b) == 2 * b;
      k := FirstLarge(initial, max, from + 1);
    }
  }

  /** The base after k failures is min(initial * 2^(k-1), max) for every k exactly when the cap is below 2^62. */
  lemma BackoffLaw(initial: int, max: int)
    requires 0 < initial <= max < TWO_63
    ensures (forall k: nat :: k > 0 ==> Base(initial, max, k) == Capped(initial, max, k)) <==> max < TWO_62
  {
    if max < TWO_62 {
      forall k: nat | k > 0 ensures Base(initial, max, k) == Capped(initial, max, k) {
        BaseIsCapped(initial, max, k);
      }
    } else {
      var k := LargeCapWraps(initial, max);
    }
  }

  lemma SmallRemainder(x: nat, n: nat)
    requires x < n
    ensures x % n == x
  {
  }

  lemma Fits(x: int)
    requires 0 <= x < TWO_63
    ensures Wrap(x) == x
  {
  }

  lemma DrawnDelay(base: int, draw: nat)
    requires 0 <= base < TWO_63
    ensures Delay(base, draw) == Some(base / 2 + draw % (base - base / 2 + 1))
  {
    var half := base / 2;
    var n := base - half + 1;
    assert Wrap(Wrap(base - Half(base)) + 1) == n;
    var x := draw % n;
    Fits(half + x);
  }

  lemma NegativePanics(base: int, draw: nat)
    requires -TWO_63 <= base <= -2
    ensures Delay(base, draw).None?
  {
  }

  /** A delay is any duration from half the base to the base, both included. */
  lemma DelayRange(base: int, d: int)
    requires 0 <= base < TWO_63
    ensures (exists draw: nat :: Delay(base, draw) == Some(d)) <==> base / 2 <= d <= base
    ensures forall draw: nat :: Delay(base, draw).Some? && base / 2 <= Delay(base, draw).value <= base
  {
    var n := base - base / 2 + 1;
    forall draw: nat ensures Delay(base, draw) == Some(base / 2 + draw % n) {
      DrawnDelay(base, draw);
    }
    if base / 2 <= d <= base {
      SmallRemainder(d - base / 2, n);
      assert Delay(base, d - base / 2) == Some(d);
    }
  }

  /** A retry can panic exactly when the cap is 2^62 or more. */
  lemma DelayPanicsIff(initial: int, max: int)
    requires 0 < initial <= max < TWO_63
    ensures (exists k: nat, draw: nat :: k > 0 && Delay(Base(initial, max, k), draw).None?) <==> max >= TWO_62
  {
    if max >= TWO_62 {
      var k := LargeCapWraps(initial, max);
      var b := Base(initial, max, k);
      BaseIsDuration(initial, max, k);
      NegativePanics(b, 0);
    } else {
      forall k: nat, draw: nat | k > 0 ensures Delay(Base(initial, max, k), draw).Some? {
        BaseIsCapped(initial, max, k);
        assert initial * Pow2(k - 1) > 0;
        DelayRange(Base(initial, max, k), 0);
      }
    }
  }

  lemma {:induction false} BaseIsDuration(initial: int, max: int, k: nat)
    requires 0 < initial <= max < TWO_63
    ensures -TWO_63 <= Base(initial, max, k) < TWO_63
  {
  }

  /** Whatever the cap, a delay that is drawn is at least half the first one. */
  lemma DelayIsNotShort(initial: int, max: int, current: int, draw: nat)
    requires 0 < initial <= max < TWO_63 && (current == 0 || initial <= current <= max)
    ensures var next := Advance(initial, max, current);
      Delay(next, draw).Some? ==> initial <= next <= max && Delay(next, draw).value >= initial / 2
  {
    var next := Advance(initial, max, current);
    if current >= TWO_62 {
      assert next == 2 * current - 2 * TWO_63;
      NegativePanics(next, draw);
    } else {
      assert initial <= next <= max;
      DrawnDelay(next, draw);
    }
  }

  // ---- The rate of retries ----

  ghost predicate Spaced(times: seq<int>, gap: int) {
    forall i :: 0 < i < |times| ==> Apart(times, i, gap)
  }

  predicate Apart(times: seq<int>, i: nat, gap: int)
    requires 0 < i < |times|
  {
    times[i] - times[i - 1] >= gap
  }

  lemma SpacedGrows(times: seq<int>, gap: int, t: int)
    requires Spaced(times, gap) && (times != [] ==> t - times[|times| - 1] >= gap)
    ensures Spaced(times + [t], gap)
  {
    var times' := times + [t];
    forall i | 0 < i < |times'| ensures Apart(times', i, gap) {
      if i < |times| { assert Apart(times, i, gap); }
    }
  }

  /** So n attempts take at least (n - 1) gaps. */
  lemma {:induction false} SpacedTakes(times: seq<int>, gap: int, n: nat)
    requires Spaced(times, gap) && 0 < n <= |times|
    ensures times[n - 1] - times[0] >= (n - 1) * gap
  {
    if n > 1 {
      SpacedTakes(times, gap, n - 1);
      assert Apart(times, n - 1, gap);
    }
  }
}
