/**
 How many decimals the calculation service asks for: six, more when a small multiplier would be floored to zero or
 when the LP's multiplier loses over a percent to its floor, at most eight.
 */
module OptimalDecimals {
  import opened Wrappers
  import JsNumbers
  import opened DistributionMath

  const MIN_DECIMALS := 6
  const MAX_DECIMALS := 8

  lemma TenfoldIsCloser(m: real)
    requires 0.0 < m < 1.0
    ensures 10.0 * m < 1.0 ==> Floor(1.0 / (10.0 * m)) < Floor(1.0 / m)
  {
    var x := 1.0 / m;
    assert x * m == 1.0;
    assert x > 1.0;
    if 10.0 * m < 1.0 {
      var y := 1.0 / (10.0 * m);
      assert y * (10.0 * m) == 1.0;
      assert y * 10.0 == x;
      assert y > 1.0;
    }
  }

  /** The source's ceil(-log10(m)): the least number of digits that lift m to one. */
  function DigitsUntilOne(m: real): (n: nat)
    requires m > 0.0
    ensures m >= 1.0 ==> n == 0
    decreases if m >= 1.0 then 0 else Floor(1.0 / m) + 1
  {
    if m >= 1.0 then 0
    else
      TenfoldIsCloser(m);
      1 + DigitsUntilOne(10.0 * m)
  }

  /** A multiplier with that many digits more. */
  function Lifted(m: real, n: nat): real {
    m * (JsNumbers.Pow10(n) as real)
  }

  lemma LiftedNext(m: real, n: nat)
    ensures Lifted(10.0 * m, n) == Lifted(m, n + 1)
  {
    var t := JsNumbers.Pow10(n) as real;
    assert JsNumbers.Pow10(n + 1) as real == 10.0 * t;
    Associate(m, 10.0, t);
  }

  lemma {:induction false} DigitsAreLeast(m: real)
    requires m > 0.0
    ensures Lifted(m, DigitsUntilOne(m)) >= 1.0
    ensures forall k: nat :: k < DigitsUntilOne(m) ==> Lifted(m, k) < 1.0
    decreases if m >= 1.0 then 0 else Floor(1.0 / m) + 1
  {
    if m < 1.0 {
      TenfoldIsCloser(m);
      DigitsAreLeast(10.0 * m);
      var n := DigitsUntilOne(10.0 * m);
      LiftedNext(m, n);
      forall k: nat | 0 < k < n + 1 ensures Lifted(m, k) < 1.0 {
        LiftedNext(m, k - 1);
      }
    }
  }

  function ExtraForUnderflow(minMultiplier: Option<real>): nat {
    if minMultiplier.Some? && 0.0 < minMultiplier.value < 1.0 then DigitsUntilOne(minMultiplier.value) else 0
  }

  function ExtraForLp(lpRatio: Option<real>): nat {
    if lpRatio.Some? && lpRatio.value > 0.0
       && (lpRatio.value - Floor(lpRatio.value) as real) / lpRatio.value > 0.01 then 2
    else 0
  }

  /** Two digits more for the LP exactly when flooring its ratio loses more than one percent of it. */
  lemma LpLosesAPercentIff(r: real)
    ensures ExtraForLp(Some(r)) == if r > 0.0 && 100.0 * (r - Floor(r) as real) > r then 2 else 0
    ensures ExtraForLp(None) == 0
  {
    if r > 0.0 {
      PercentLost(r - Floor(r) as real, r);
    }
  }

  lemma PercentLost(lost: real, r: real)
    requires r > 0.0
    ensures lost / r > 0.01 <==> 100.0 * lost > r
  {
    var x := lost / r;
    assert x * r == lost;
    PercentOf(x, r);
  }

  lemma PercentOf(x: real, r: real)
    requires r > 0.0
    ensures x > 0.01 <==> 100.0 * (x * r) > r
  {
    if x > 0.01 {
      Grows(0.01, x, r);
    } else {
      Scale(x, 0.01, r);
    }
  }

  lemma Grows(x: real, y: real, r: real)
    requires x < y && r > 0.0
    ensures x * r < y * r
  {
  }

  function CalculateOptimalDecimals(minMultiplier: Option<real>, lpRatio: Option<real>): nat {
    var u, l := ExtraForUnderflow(minMultiplier), ExtraForLp(lpRatio);
    var extra := if u > l then u else l;
    if MIN_DECIMALS + extra > MAX_DECIMALS then MAX_DECIMALS else MIN_DECIMALS + extra
  }

  lemma {:induction false} LiftedGrows(m: real, j: nat, k: nat)
    requires m > 0.0 && j <= k
    ensures 0.0 < Lifted(m, j) <= Lifted(m, k)
    decreases k
  {
    if j < k {
      LiftedGrows(m, j, k - 1);
      LiftedTenfold(m, k - 1);
    } else if j > 0 {
      LiftedGrows(m, j - 1, j - 1);
      LiftedTenfold(m, j - 1);
    }
  }

  lemma LiftedTenfold(m: real, n: nat)
    ensures Lifted(m, n + 1) == 10.0 * Lifted(m, n)
  {
    assert JsNumbers.Pow10(n + 1) as real == 10.0 * JsNumbers.Pow10(n) as real;
  }

  lemma Hundredfold(m: real)
    ensures Lifted(m, 2) == 100.0 * m
  {
    LiftedTenfold(m, 0);
    LiftedTenfold(m, 1);
  }

  /** Its promise: with the digits it asks for, a multiplier that was positive at six decimals is at least one, unless
      it was below a hundredth. */
  lemma MultiplierIsLifted(m: real, lpRatio: Option<real>)
    requires m > 0.0
    ensures Lifted(m, CalculateOptimalDecimals(Some(m), lpRatio) - MIN_DECIMALS) >= 1.0 <==> m >= 0.01
  {
    var n, d := DigitsUntilOne(m), CalculateOptimalDecimals(Some(m), lpRatio) - MIN_DECIMALS;
    DigitsAreLeast(m);
    Hundredfold(m);
    LiftedGrows(m, d, 2);
    if m >= 0.01 {
      assert n <= d;
      LiftedGrows(m, n, d);
    }
  }

  /** Handed a multiplier that is floored already it never asks for a digit on that account: what it answers is up to
      the LP, six or eight. */
  lemma FlooredMultiplierIsIgnored(x: real, lpRatio: Option<real>)
    ensures CalculateOptimalDecimals(Some(Floor(x) as real), lpRatio) == CalculateOptimalDecimals(None, lpRatio)
    ensures CalculateOptimalDecimals(None, lpRatio) == if ExtraForLp(lpRatio) > 0 then MAX_DECIMALS else MIN_DECIMALS
  {
  }
}
