/**
 The token formulas of the distribution calculation service, over exact reals. Its round25 is left out: on doubles above
 1e-9 it is the identity.
 */
module DistributionMath {
  const LOVELACE := 1000000.0

  function Floor(x: real): int {
    x.Floor
  }

  /** Math.round: half up. */
  function Round(x: real): int {
    (x + 0.5).Floor
  }

  /** Fully diluted valuation: what the acquirers paid scaled up to the whole supply, in cents; the contributed value if
      nothing is offered. */
  function Fdv(totalAcquired: real, totalContributed: real, offered: real): real {
    if offered == 0.0 then totalContributed else Round(totalAcquired / offered * 100.0) as real / 100.0
  }

  /** The ADA of a pool that is to hold half of `share`, in whole lovelace. */
  function LpAdaOf(share: real): real {
    Round(share / 2.0 * LOVELACE) as real / LOVELACE
  }

  datatype LpTokens = LpTokens(lpAda: real, lpVt: real, adjustedVt: real, adaPairMultiplier: int)

  /** `offered` and `lpPercent` are fractions. */
  function CalculateLpTokens(vtSupply: real, totalAcquired: real, totalContributed: real, offered: real,
                             lpPercent: real)
    : LpTokens
  {
    var fdv := Fdv(totalAcquired, totalContributed, offered);
    if lpPercent == 0.0 || (offered == 0.0 && fdv == 0.0) then LpTokens(0.0, 0.0, 0.0, 0)
    else
      var lpAda := LpAdaOf(lpPercent * fdv);
      var lpVt := lpPercent * vtSupply / 2.0;
      var ratio := if totalAcquired > 0.0 then lpVt / (totalAcquired * LOVELACE) else 0.0;
      LpTokens(lpAda, lpVt, Floor(ratio) as real * totalAcquired * LOVELACE, Floor(ratio))
  }

  function AcquirerMultiplier(adaSent: real, vtSupply: real, offered: real, totalAcquired: real, lpVt: real): int
    requires adaSent > 0.0 && totalAcquired != 0.0
  {
    Floor(adaSent / totalAcquired * offered * (vtSupply - lpVt) / adaSent / LOVELACE)
  }

  datatype ContributorTokens = ContributorTokens(vt: int, lovelace: int)

  /** The fraction of `whole` that `part` is, or nothing of nothing. */
  function Fraction(part: real, whole: real): real {
    if whole > 0.0 then part / whole else 0.0
  }

  /** A contribution's VT before it is floored. */
  function ContributorVt(txValue: real, userTotal: real, tvl: real, lpVt: real, vtSupply: real, offered: real): real {
    if offered >= 1.0 then 0.0
    else (vtSupply - lpVt) * (1.0 - offered) * Fraction(userTotal, tvl) * Fraction(txValue, userTotal)
  }

  /** Its lovelace before they are floored. */
  function ContributorLovelace(txValue: real, userTotal: real, tvl: real, totalAcquired: real, lpAda: real): real {
    Fraction(userTotal, tvl) * (totalAcquired - lpAda) * Fraction(txValue, userTotal) * LOVELACE
  }

  function CalculateContributorTokens(txValue: real, userTotal: real, tvl: real, lpVt: real, totalAcquired: real,
                                      lpAda: real, vtSupply: real, offered: real): ContributorTokens
  {
    ContributorTokens(Floor(ContributorVt(txValue, userTotal, tvl, lpVt, vtSupply, offered)),
                      Floor(ContributorLovelace(txValue, userTotal, tvl, totalAcquired, lpAda)))
  }

  // ----- Flooring a quotient -----

  lemma Distribute(q: real, x: real, y: real)
    ensures q * (x + y) == q * x + q * y
  {
  }

  lemma FractionOfUnit(d: real, q: real)
    requires 0.0 <= d < 1.0 && q > 0.0
    ensures 0.0 <= q * d < q
  {
  }

  lemma Remainder(y: real, q: real, paid: real, left: real)
    requires y == paid + left && 0.0 <= left < q
    ensures y - q < paid <= y
  {
  }

  lemma Between(f: real, t: real, q: real, y: real)
    requires f <= t < f + 1.0 && q > 0.0 && q * t == y
    ensures y - q < q * f <= y
  {
    var d := t - f;
    assert t == f + d;
    Distribute(q, f, d);
    FractionOfUnit(d, q);
    Remainder(y, q, q * f, q * d);
  }

  /** The exact, unfloored portion of an amount. */
  function Portion(amount: real, part: real, whole: real): real
    requires whole != 0.0
  {
    amount * part / whole
  }

  /** The whole amount each of `q` units gets out of `y`. */
  function PerUnit(y: real, q: real): int
    requires q != 0.0
  {
    Floor(y / q)
  }

  /** Handing out `y` over `q` units at a whole amount per unit loses less than one per unit. */
  lemma PerUnitFloor(y: real, q: real)
    requires q > 0.0
    ensures y - q < q * (PerUnit(y, q) as real) <= y
  {
    Between(Floor(y / q) as real, y / q, q, y);
  }

  lemma Scale(x: real, y: real, q: real)
    requires x <= y && q >= 0.0
    ensures q * x <= q * y
  {
  }

  lemma FractionBounds(x: real, p: real)
    requires x >= 0.0 && 0.0 <= p <= 1.0
    ensures 0.0 <= p * x <= x
  {
    Scale(0.0, p, x);
    Scale(p, 1.0, x);
    assert p * x == x * p;
  }

  lemma QuotientSign(y: real, q: real)
    requires y >= 0.0 && q > 0.0
    ensures y / q >= 0.0
  {
  }

  lemma FlooredShare(y: real, total: real)
    requires y >= 0.0 && total > 0.0
    ensures var paid := Floor(y / (total * LOVELACE)) as real * total * LOVELACE;
            0.0 <= paid <= y && y - total * LOVELACE < paid
  {
    var q := total * LOVELACE;
    var f := Floor(y / q) as real;
    PerUnitFloor(y, q);
    QuotientSign(y, q);
    Associate(f, total, LOVELACE);
    assert q * f == f * q;
    Scale(0.0, f, q);
  }

  /** The LP's on-chain amount never exceeds its exact share, and misses it by less than one unit per lovelace. */
  lemma LpAdjustedBounds(vtSupply: real, totalAcquired: real, totalContributed: real, offered: real, lpPercent: real)
    requires vtSupply >= 0.0 && totalAcquired >= 0.0 && 0.0 <= lpPercent <= 1.0
    ensures var lp := CalculateLpTokens(vtSupply, totalAcquired, totalContributed, offered, lpPercent);
            && 0.0 <= lp.lpVt <= vtSupply
            && 0.0 <= lp.adjustedVt <= lp.lpVt
            && (totalAcquired > 0.0 ==> lp.lpVt - totalAcquired * LOVELACE < lp.adjustedVt)
  {
    FractionBounds(vtSupply, lpPercent);
    var y := lpPercent * vtSupply / 2.0;
    if totalAcquired > 0.0 {
      FlooredShare(y, totalAcquired);
      assert totalAcquired * LOVELACE > 0.0;
    }
  }

  lemma RoundBounds(x: real)
    ensures -0.5 < Round(x) as real - x <= 0.5
  {
  }

  /** Rounding at a given scale misses by at most half a unit of it. */
  lemma RoundAtScale(x: real, scale: real)
    requires scale > 0.0
    ensures -0.5 < (Round(x * scale) as real / scale - x) * scale <= 0.5
  {
    RoundBounds(x * scale);
    var r := Round(x * scale) as real;
    assert (r / scale - x) * scale == r - x * scale;
  }

  /** Rounding at a given scale misses by at most half a unit of it. */
  lemma LpAdaBounds(share: real)
    ensures -0.5 < (LpAdaOf(share) - share / 2.0) * LOVELACE <= 0.5
  {
    RoundAtScale(share / 2.0, LOVELACE);
  }

  /** The rounded share, also where the source returns zeros right away. */
  lemma LpAdaIs(vtSupply: real, totalAcquired: real, totalContributed: real, offered: real, lpPercent: real)
    ensures CalculateLpTokens(vtSupply, totalAcquired, totalContributed, offered, lpPercent).lpAda ==
            LpAdaOf(lpPercent * Fdv(totalAcquired, totalContributed, offered))
  {
    assert Round(0.0) == 0;
  }

  lemma FdvBounds(totalAcquired: real, totalContributed: real, offered: real)
    requires offered != 0.0
    ensures -0.5 < (Fdv(totalAcquired, totalContributed, offered) - totalAcquired / offered) * 100.0 <= 0.5
  {
    RoundAtScale(totalAcquired / offered, 100.0);
  }

  /** The LP's ADA is its share of half the valuation to within half a lovelace, and the valuation is the scaled-up
      total to within half a cent. */
  lemma LpAdaIsItsShare(vtSupply: real, totalAcquired: real, totalContributed: real, offered: real, lpPercent: real)
    ensures var lp, fdv := CalculateLpTokens(vtSupply, totalAcquired, totalContributed, offered, lpPercent),
                           Fdv(totalAcquired, totalContributed, offered);
            && -0.5 < (lp.lpAda - lpPercent * fdv / 2.0) * LOVELACE <= 0.5
            && (offered != 0.0 ==> -0.5 < (fdv - totalAcquired / offered) * 100.0 <= 0.5)
  {
    LpAdaIs(vtSupply, totalAcquired, totalContributed, offered, lpPercent);
    LpAdaBounds(lpPercent * Fdv(totalAcquired, totalContributed, offered));
    if offered != 0.0 {
      FdvBounds(totalAcquired, totalContributed, offered);
    }
  }

  /** Of the VT it is half the percentage exactly; per lovelace acquired as much as fits, and nothing per lovelace when
      nothing was acquired. Without acquirers the valuation is what was contributed. */
  lemma LpTokensExactly(vtSupply: real, totalAcquired: real, totalContributed: real, offered: real, lpPercent: real)
    ensures var lp := CalculateLpTokens(vtSupply, totalAcquired, totalContributed, offered, lpPercent);
            if lpPercent == 0.0 || (offered == 0.0 && totalContributed == 0.0) then lp == LpTokens(0.0, 0.0, 0.0, 0)
            else
              && 2.0 * lp.lpVt == lpPercent * vtSupply
              && (offered == 0.0 ==> -0.5 < (lp.lpAda - lpPercent * totalContributed / 2.0) * LOVELACE <= 0.5)
              && lp.adjustedVt == lp.adaPairMultiplier as real * totalAcquired * LOVELACE
              && (totalAcquired <= 0.0 ==> lp.adaPairMultiplier == 0)
              && (totalAcquired > 0.0 ==> IsQuotient(lp.adaPairMultiplier, lp.lpVt, totalAcquired * LOVELACE))
  {
    LpAdaBounds(lpPercent * Fdv(totalAcquired, totalContributed, offered));
    var lp := CalculateLpTokens(vtSupply, totalAcquired, totalContributed, offered, lpPercent);
    if totalAcquired > 0.0 {
      ScaledUp(totalAcquired);
      FlooredQuotient(lp.lpVt, totalAcquired * LOVELACE);
    }
  }

  /** As many whole times as `q` fits into `y`. */
  ghost predicate IsQuotient(n: int, y: real, q: real) {
    q * n as real <= y < q * (n + 1) as real
  }

  lemma ScaledUp(total: real)
    requires total > 0.0
    ensures total * LOVELACE > 0.0
  {
  }

  lemma FlooredQuotient(y: real, q: real)
    requires q > 0.0
    ensures IsQuotient(Floor(y / q), y, q)
  {
    var f := Floor(y / q);
    PerUnitFloor(y, q);
    Distribute(q, f as real, 1.0);
    assert (f + 1) as real == f as real + 1.0;
  }

  // ----- Is the pool covered by what was acquired? -----

  /** The pool's lovelace before rounding, against the whole lovelace acquired. */
  predicate PoolIsCovered(totalAcquired: real, totalContributed: real, offered: real, lpPercent: real) {
    lpPercent * Fdv(totalAcquired, totalContributed, offered) / 2.0 * LOVELACE
    < Floor(totalAcquired * LOVELACE) as real + 0.5
  }

  lemma WholeAtMost(r: int, y: real)
    ensures r as real <= y <==> r <= Floor(y)
  {
  }

  lemma RoundBelow(x: real, f: int)
    ensures Round(x) <= f <==> x < f as real + 0.5
  {
  }

  lemma RoundAtMost(x: real, y: real)
    ensures Round(x) as real <= y <==> x < Floor(y) as real + 0.5
  {
    WholeAtMost(Round(x), y);
    RoundBelow(x, Floor(y));
  }

  lemma AtScale(r: real, y: real)
    ensures r / LOVELACE <= y <==> r <= y * LOVELACE
  {
  }

  lemma LpAdaAtMost(share: real, totalAcquired: real)
    ensures LpAdaOf(share) <= totalAcquired <==> share / 2.0 * LOVELACE < Floor(totalAcquired * LOVELACE) as real + 0.5
  {
    RoundAtMost(share / 2.0 * LOVELACE, totalAcquired * LOVELACE);
    AtScale(Round(share / 2.0 * LOVELACE) as real, totalAcquired);
  }

  lemma CoveredIffAtMost(totalAcquired: real, totalContributed: real, offered: real, lpPercent: real)
    ensures PoolIsCovered(totalAcquired, totalContributed, offered, lpPercent) <==>
              LpAdaOf(lpPercent * Fdv(totalAcquired, totalContributed, offered)) <= totalAcquired
  {
    LpAdaAtMost(lpPercent * Fdv(totalAcquired, totalContributed, offered), totalAcquired);
  }

  /** The LP asks for no more ADA than was acquired in exactly this case. */
  lemma CoveredExactly(vtSupply: real, totalAcquired: real, totalContributed: real, offered: real, lpPercent: real)
    ensures CalculateLpTokens(vtSupply, totalAcquired, totalContributed, offered, lpPercent).lpAda <= totalAcquired <==>
              PoolIsCovered(totalAcquired, totalContributed, offered, lpPercent)
  {
    LpAdaIs(vtSupply, totalAcquired, totalContributed, offered, lpPercent);
    CoveredIffAtMost(totalAcquired, totalContributed, offered, lpPercent);
  }

  /** What is left of the acquired total after an LP of that percentage, unrounded: nothing or less from twice the
      offered percentage on. */
  function Margin(totalAcquired: real, offered: real, lpPercent: real): real
    requires offered > 0.0
  {
    totalAcquired * (2.0 * offered - lpPercent) / (2.0 * offered)
  }

  /** Half a cent of the valuation and half a lovelace of the pool. */
  function RoundingSlack(lpPercent: real): real {
    lpPercent / 400.0 + 0.5 / LOVELACE
  }

  lemma MarginIs(totalAcquired: real, offered: real, lpPercent: real)
    requires offered > 0.0
    ensures Margin(totalAcquired, offered, lpPercent) == totalAcquired - lpPercent * (totalAcquired / offered) / 2.0
  {
    var q := totalAcquired / offered;
    assert totalAcquired == q * offered;
    assert totalAcquired * (2.0 * offered - lpPercent) == (totalAcquired - lpPercent * q / 2.0) * (2.0 * offered);
  }

  /** The rounding of both steps, with the products named. */
  lemma RoundingAddsUp(totalAcquired: real, lpPercent: real, share: real, rounded: real, lpAda: real)
    requires share - lpPercent / 200.0 <= rounded <= share + lpPercent / 200.0
    requires -0.5 < (lpAda - rounded / 2.0) * LOVELACE <= 0.5
    ensures totalAcquired - share / 2.0 >= RoundingSlack(lpPercent) ==> lpAda <= totalAcquired
    ensures totalAcquired - share / 2.0 <= -RoundingSlack(lpPercent) ==> lpAda > totalAcquired
  {
  }

  /** A product that the solver leaves alone. */
  function Product(x: real, y: real): real {
    x * y
  }

  lemma SmallProduct(x: real, d: real)
    requires x >= 0.0 && -0.5 < d * 100.0 <= 0.5
    ensures -x / 200.0 <= Product(x, d) <= x / 200.0
  {
    Scale(-1.0 / 200.0, d, x);
    Scale(d, 1.0 / 200.0, x);
  }

  lemma ProductSplits(x: real, y: real, d: real)
    ensures Product(x, y + d) == Product(x, y) + Product(x, d)
  {
  }

  lemma FdvTimes(lpPercent: real, fdv: real, q: real)
    requires lpPercent >= 0.0 && -0.5 < (fdv - q) * 100.0 <= 0.5
    ensures Product(lpPercent, q) - lpPercent / 200.0 <= Product(lpPercent, fdv)
         <= Product(lpPercent, q) + lpPercent / 200.0
  {
    ProductSplits(lpPercent, q, fdv - q);
    SmallProduct(lpPercent, fdv - q);
    assert q + (fdv - q) == fdv;
  }

  /** In percentages: an LP of less than twice the offered percentage is covered, one of more is not, up to the
      rounding of the valuation to a cent and of the pool to a lovelace. */
  lemma CoveredByPercentages(totalAcquired: real, totalContributed: real, offered: real, lpPercent: real)
    requires offered > 0.0 && lpPercent >= 0.0
    ensures var margin := Margin(totalAcquired, offered, lpPercent);
            && (margin >= RoundingSlack(lpPercent) ==>
                PoolIsCovered(totalAcquired, totalContributed, offered, lpPercent))
            && (margin <= -RoundingSlack(lpPercent) ==>
                !PoolIsCovered(totalAcquired, totalContributed, offered, lpPercent))
  {
    var fdv, q := Fdv(totalAcquired, totalContributed, offered), totalAcquired / offered;
    FdvBounds(totalAcquired, totalContributed, offered);
    MarginIs(totalAcquired, offered, lpPercent);
    CoveredUpToRounding(totalAcquired, lpPercent, fdv, q);
  }

  lemma CoveredUpToRounding(totalAcquired: real, lpPercent: real, fdv: real, q: real)
    requires lpPercent >= 0.0 && -0.5 < (fdv - q) * 100.0 <= 0.5
    ensures var covered := Product(lpPercent, fdv) / 2.0 * LOVELACE < Floor(totalAcquired * LOVELACE) as real + 0.5;
            && (totalAcquired - Product(lpPercent, q) / 2.0 >= RoundingSlack(lpPercent) ==> covered)
            && (totalAcquired - Product(lpPercent, q) / 2.0 <= -RoundingSlack(lpPercent) ==> !covered)
  {
    FdvTimes(lpPercent, fdv, q);
    CoveredUpToSlack(totalAcquired, lpPercent, Product(lpPercent, q), Product(lpPercent, fdv));
  }

  lemma CoveredUpToSlack(totalAcquired: real, lpPercent: real, share: real, rounded: real)
    requires share - lpPercent / 200.0 <= rounded <= share + lpPercent / 200.0
    ensures var covered := rounded / 2.0 * LOVELACE < Floor(totalAcquired * LOVELACE) as real + 0.5;
            && (totalAcquired - share / 2.0 >= RoundingSlack(lpPercent) ==> covered)
            && (totalAcquired - share / 2.0 <= -RoundingSlack(lpPercent) ==> !covered)
  {
    LpAdaBounds(rounded);
    LpAdaAtMost(rounded, totalAcquired);
    RoundingAddsUp(totalAcquired, lpPercent, share, rounded, LpAdaOf(rounded));
  }

  /** With few tokens offered, the pool's half of the valuation outgrows everything that was paid in: 10 percent for 100
      ADA values the vault at 1000, and a pool of 50 percent asks for 250. */
  lemma PoolCanOutgrowAcquired(vtSupply: real, totalContributed: real)
    ensures CalculateLpTokens(vtSupply, 100.0, totalContributed, 0.1, 0.5).lpAda == 250.0
  {
    assert 100.0 / 0.1 * 100.0 == 100000.0;
    assert Round(100000.0) == 100000;
    assert Round(250000000.0) == 250000000;
  }

  /** In exact arithmetic every acquirer gets the same multiplier, whatever they sent. */
  lemma AcquirerMultiplierIsCommon(adaSent: real, vtSupply: real, offered: real, totalAcquired: real, lpVt: real)
    requires adaSent > 0.0 && totalAcquired > 0.0
    ensures AcquirerMultiplier(adaSent, vtSupply, offered, totalAcquired, lpVt)
         == Floor(offered * (vtSupply - lpVt) / (totalAcquired * LOVELACE))
  {
    var b := offered * (vtSupply - lpVt);
    var received := adaSent / totalAcquired * offered * (vtSupply - lpVt);
    Associate(adaSent / totalAcquired, offered, vtSupply - lpVt);
    CancelSent(adaSent, totalAcquired, b);
    Regroup(b, totalAcquired);
    assert received / adaSent / LOVELACE == b / (totalAcquired * LOVELACE);
  }

  lemma Associate(x: real, y: real, z: real)
    ensures x * y * z == x * (y * z)
  {
  }

  lemma CancelSent(a: real, t: real, b: real)
    requires a > 0.0 && t > 0.0
    ensures a / t * b / a == b / t
  {
    assert a / t * b == a * (b / t) by {
      assert a / t * b * t == a * b;
      assert a * (b / t) * t == a * b;
    }
    assert a * (b / t) / a == b / t;
  }

  lemma Regroup(b: real, t: real)
    requires t > 0.0
    ensures b / t / LOVELACE == b / (t * LOVELACE)
  {
    var x := b / t / LOVELACE;
    assert x * LOVELACE == b / t;
    assert x * (t * LOVELACE) == b;
  }
}
