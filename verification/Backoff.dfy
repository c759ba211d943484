/** Retry delays: doubling, capped, with symmetric jitter. Arithmetic is over the reals. */
module Backoff {

  datatype Config = Config(initial: real, maximum: real, jitter: real)

  /** What the constructor accepts. */
  ghost predicate ValidConfig(c: Config) {
    0.0 < c.initial <= c.maximum && 0.0 <= c.jitter <= 1.0
  }

  function Min(a: real, b: real): real {
    if a <= b then a else b
  }

  function PowerOfTwo(k: nat): real {
    if k == 0 then 1.0 else 2.0 * PowerOfTwo(k - 1)
  }

  /** `initial` doubled k times; kept apart from the power for the sake of linear arithmetic. */
  function Scaled(initial: real, k: nat): real {
    if k == 0 then initial else 2.0 * Scaled(initial, k - 1)
  }

  lemma {:induction false} ScaledByPower(initial: real, k: nat)
    ensures Scaled(initial, k) == initial * PowerOfTwo(k)
  {
    if k > 0 {
      ScaledByPower(initial, k - 1);
      Twice(initial, PowerOfTwo(k - 1));
    }
  }

  lemma Twice(initial: real, power: real)
    ensures initial * (2.0 * power) == 2.0 * (initial * power)
  {
  }

  function Base(c: Config, failure: int): real {
    Min(c.maximum, Scaled(c.initial, if failure <= 1 then 0 else failure - 1))
  }

  lemma BaseFormula(c: Config, failure: int, power: real)
    requires power == PowerOfTwo(if failure <= 1 then 0 else failure - 1)
    ensures Base(c, failure) == Min(c.maximum, c.initial * power)
  {
    ScaledByPower(c.initial, if failure <= 1 then 0 else failure - 1);
  }

  function Share(share: real, base: real): real {
    share * base
  }

  function Clamp(maximum: real, x: real): real {
    Min(maximum, if x < 0.0 then 0.0 else x)
  }

  /** `draw` is the random number the delay is computed with. */
  function Delay(c: Config, failure: int, draw: real): real {
    Clamp(c.maximum, Jittered(Base(c, failure), Share(c.jitter, Base(c, failure)), draw))
  }

  function Jittered(base: real, spread: real, draw: real): real {
    base - spread + 2.0 * spread * draw
  }

  lemma ProductIsMonotone(a: real, b: real, factor: real)
    requires a <= b && 0.0 <= factor
    ensures a * factor <= b * factor
  {
  }

  lemma {:induction false} Uncapped(c: Config, k: nat)
    requires ValidConfig(c)
    ensures c.initial <= Scaled(c.initial, k)
  {
    if k > 0 { Uncapped(c, k - 1); }
  }

  /** The first failure waits about `initial`; every later one doubles the wait until the cap. */
  lemma BaseDoubles(c: Config, failure: int)
    requires ValidConfig(c)
    ensures failure <= 1 ==> Base(c, failure) == c.initial
    ensures 1 <= failure ==> Base(c, failure + 1) == Min(c.maximum, 2.0 * Base(c, failure))
    ensures c.initial <= Base(c, failure) <= c.maximum
  {
    var k := if failure <= 1 then 0 else failure - 1;
    Uncapped(c, k);
  }

  lemma {:induction false} BaseIsMonotone(c: Config, m: int, n: int)
    requires ValidConfig(c) && m <= n
    ensures Base(c, m) <= Base(c, n)
    decreases n - m
  {
    if m < n {
      BaseIsMonotone(c, m, n - 1);
      BaseDoubles(c, n - 1);
      BaseDoubles(c, n);
    }
  }

  /** The base grows at least linearly, so it reaches the maximum and then stays there. */
  lemma {:induction false} GrowsLinearly(c: Config, n: nat)
    requires ValidConfig(c) && 1 <= n
    ensures Min(c.maximum, n as real * c.initial) <= Base(c, n)
  {
    BaseDoubles(c, n);
    if n > 1 {
      GrowsLinearly(c, n - 1);
      BaseDoubles(c, n - 1);
      assert n as real == (n - 1) as real + 1.0;
      assert n as real * c.initial == (n - 1) as real * c.initial + c.initial;
    }
  }

  lemma ReachesAndKeepsMaximum(c: Config, n: nat, later: int)
    requires ValidConfig(c) && 1 <= n <= later && c.maximum <= n as real * c.initial
    ensures Base(c, later) == c.maximum
  {
    GrowsLinearly(c, n);
    BaseIsMonotone(c, n, later);
  }

  /** The shortest and longest wait after one failure. */
  function Least(c: Config, failure: int): real {
    Share(1.0 - c.jitter, Base(c, failure))
  }

  function Most(c: Config, failure: int): real {
    Share(1.0 + c.jitter, Base(c, failure))
  }

  lemma JitterWindow(base: real, spread: real, draw: real)
    requires 0.0 <= spread && 0.0 <= draw <= 1.0
    ensures base - spread <= Jittered(base, spread, draw) <= base + spread
    ensures draw == 0.0 ==> Jittered(base, spread, draw) == base - spread
    ensures draw == 1.0 ==> Jittered(base, spread, draw) == base + spread
  {
    ShiftIsBounded(2.0 * spread, draw);
  }

  lemma SharesOfBase(jitter: real, base: real)
    requires 0.0 <= base && 0.0 <= jitter <= 1.0
    ensures 0.0 <= Share(jitter, base) <= base
    ensures Share(1.0 - jitter, base) == base - Share(jitter, base)
    ensures Share(1.0 + jitter, base) == base + Share(jitter, base)
  {
    ProductIsMonotone(0.0, jitter, base);
    ProductIsMonotone(jitter, 1.0, base);
  }

  lemma ShiftIsBounded(width: real, draw: real)
    requires 0.0 <= width && 0.0 <= draw <= 1.0
    ensures 0.0 <= width * draw <= width
  {
    ProductIsMonotone(0.0, draw, width);
    ProductIsMonotone(draw, 1.0, width);
  }

  /**
   Every draw gives a delay inside the jitter window and under the cap, and never
   a negative one; both ends of the window are reached.
   */
  lemma DelayWithinWindow(c: Config, failure: int, draw: real)
    requires ValidConfig(c) && 0.0 <= draw <= 1.0
    ensures 0.0 <= Least(c, failure) <= Delay(c, failure, draw) <= Min(c.maximum, Most(c, failure))
    ensures draw == 0.0 ==> Delay(c, failure, draw) == Least(c, failure)
    ensures draw == 1.0 ==> Delay(c, failure, draw) == Min(c.maximum, Most(c, failure))
  {
    BaseDoubles(c, failure);
    SharesOfBase(c.jitter, Base(c, failure));
    JitterWindow(Base(c, failure), Share(c.jitter, Base(c, failure)), draw);
  }

  lemma JitterIsLinear(base: real, spread: real, draw: real)
    ensures Jittered(base, spread, draw) == (1.0 - draw) * (base - spread) + draw * (base + spread)
  {
  }

  /** Between its ends the delay is in proportion to the draw, up to the cap. */
  lemma DelayIsLinear(c: Config, failure: int, draw: real)
    requires ValidConfig(c) && 0.0 <= draw <= 1.0
    ensures Delay(c, failure, draw)
         == Min(c.maximum, (1.0 - draw) * Least(c, failure) + draw * Most(c, failure))
  {
    BaseDoubles(c, failure);
    SharesOfBase(c.jitter, Base(c, failure));
    JitterWindow(Base(c, failure), Share(c.jitter, Base(c, failure)), draw);
    JitterIsLinear(Base(c, failure), Share(c.jitter, Base(c, failure)), draw);
  }

  /** The waits after failures 1, 2, ..., one draw each. */
  function TotalWait(c: Config, draws: seq<real>): real {
    if draws == [] then
      0.0
    else
      TotalWait(c, draws[..|draws| - 1]) + Delay(c, |draws|, draws[|draws| - 1])
  }

  function TotalBase(c: Config, n: nat): real {
    if n == 0 then 0.0 else TotalBase(c, n - 1) + Base(c, n)
  }

  /** The sum of a fixed share of each base. */
  function TotalShare(c: Config, share: real, n: nat): real {
    if n == 0 then 0.0 else TotalShare(c, share, n - 1) + Share(share, Base(c, n))
  }

  lemma {:induction false} ShareOfTotal(c: Config, share: real, n: nat)
    ensures TotalShare(c, share, n) == share * TotalBase(c, n)
  {
    if n > 0 {
      ShareOfTotal(c, share, n - 1);
      Distributes(share, TotalBase(c, n - 1), Base(c, n));
    }
  }

  lemma Distributes(factor: real, a: real, b: real)
    ensures factor * (a + b) == factor * a + factor * b
  {
  }

  lemma {:induction false} WaitsAtLeast(c: Config, draws: seq<real>)
    requires ValidConfig(c) && forall k :: 0 <= k < |draws| ==> 0.0 <= draws[k] <= 1.0
    ensures TotalShare(c, 1.0 - c.jitter, |draws|) <= TotalWait(c, draws)
  {
    if draws == [] {
    } else {
      var n := |draws|;
      WaitsAtLeast(c, draws[..n - 1]);
      DelayWithinWindow(c, n, draws[n - 1]);
    }
  }

  /** However the draws fall, n failures in a row wait at least this long. */
  lemma TotalWaitAtLeast(c: Config, draws: seq<real>)
    requires ValidConfig(c) && forall k :: 0 <= k < |draws| ==> 0.0 <= draws[k] <= 1.0
    ensures (1.0 - c.jitter) * TotalBase(c, |draws|) <= TotalWait(c, draws)
  {
    WaitsAtLeast(c, draws);
    ShareOfTotal(c, 1.0 - c.jitter, |draws|);
  }
}
