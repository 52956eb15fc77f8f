/**
 Contributions that share a transaction id, after recalculation: every one of them rescales the first claim with the
 id by its own value against the one the value map kept. When the final claims keep the pot, exactly before flooring,
 and by how much they overspend it after flooring.
 */
module RecalculatedRepeats {
  import opened Wrappers
  import opened JsMaps
  import opened Sequences
  import opened DistributionMath
  import opened AcquireTransition
  import opened TransitionConservation
  import opened RepeatedIds
  import JsNumbers

  // ----- First and last occurrences -----

  ghost predicate IsFirst(txs: seq<ContributorTx>, j: nat)
    requires j < |txs|
  {
    forall i :: 0 <= i < j ==> txs[i].id != txs[j].id
  }

  ghost predicate IsLast(txs: seq<ContributorTx>, j: nat)
    requires j < |txs|
  {
    forall i :: j < i < |txs| ==> txs[i].id != txs[j].id
  }

  /** A last occurrence is what the value map holds. */
  lemma {:induction false} LastSetsValue(txs: seq<ContributorTx>, j: nat)
    requires j < |txs| && IsLast(txs, j)
    ensures GetOrZero(ValuesOf(txs), txs[j].id) == TxValue(txs[j].assets)
  {
    var init := Init(txs);
    if j < |init| {
      assert forall i :: 0 <= i < |init| ==> init[i] == txs[i];
      LastSetsValue(init, j);
      assert txs[|init|].id != txs[j].id;
    }
  }

  lemma LastValueIsHeld(txs: seq<ContributorTx>, tx: ContributorTx, k: string)
    ensures GetOrZero(ValuesOf(txs + [tx]), k) == if tx.id == k then TxValue(tx.assets) else GetOrZero(ValuesOf(txs), k)
  {
    assert Init(txs + [tx]) == txs;
  }

  /** Contributions without a claim leave the claimed ids' values alone. */
  lemma {:induction false} ClaimedKeepValues(txs: seq<ContributorTx>, values: JsMap<string, real>, k: string)
    requires GetOrZero(values, k) > 0.0
    ensures GetOrZero(ValuesOf(Claimed(txs, values)), k) == GetOrZero(ValuesOf(txs), k)
  {
    if txs != [] {
      var before, tx := Claimed(Init(txs), values), Last(txs);
      ClaimedKeepValues(Init(txs), values, k);
      assert Init(txs) + [tx] == txs;
      LastValueIsHeld(Init(txs), tx, k);
      LastValueIsHeld(before, tx, k);
      assert before + [] == before;
    }
  }

  /** What is needed of the claimed contributions: the last one with an id is worth what the map says, which is
      positive. */
  ghost predicate ClaimedOf(cs: seq<ContributorTx>, p: Pool) {
    && NonNegative(cs)
    && (forall j :: 0 <= j < |cs| ==>
          && GetOrZero(p.values, cs[j].id) > 0.0
          && (IsLast(cs, j) ==> TxValue(cs[j].assets) == GetOrZero(p.values, cs[j].id))
          && GetOrZero(p.users, cs[j].userId) >= TxValue(cs[j].assets))
  }

  lemma ClaimedAreClaimed(txs: seq<ContributorTx>, p: Pool)
    requires PoolFor(p, txs) && NonNegative(txs)
    ensures ClaimedOf(Claimed(txs, p.values), p)
  {
    var cs := Claimed(txs, p.values);
    ClaimedAreTxs(txs, p.values);
    forall j | 0 <= j < |cs|
      ensures TxValue(cs[j].assets) >= 0.0 && GetOrZero(p.values, cs[j].id) > 0.0
      ensures IsLast(cs, j) ==> TxValue(cs[j].assets) == GetOrZero(p.values, cs[j].id)
      ensures GetOrZero(p.users, cs[j].userId) >= TxValue(cs[j].assets)
    {
      assert cs[j] in txs;
      var i :| 0 <= i < |txs| && txs[i] == cs[j];
      UserTotalCoversTx(txs, i);
      ClaimedKeepValues(txs, p.values, cs[j].id);
      if IsLast(cs, j) {
        LastSetsValue(cs, j);
      }
    }
  }

  // ----- The total value is that of the last occurrences -----

  ghost function LastValues(cs: seq<ContributorTx>, p: Pool): seq<real> {
    seq(|cs|, j requires 0 <= j < |cs| => if IsLast(cs, j) then GetOrZero(p.values, cs[j].id) else 0.0)
  }

  /** The ids of the last occurrences among the first n. */
  ghost function LastIds(cs: seq<ContributorTx>, n: nat): seq<string>
    requires n <= |cs|
  {
    if n == 0 then [] else LastIds(cs, n - 1) + if IsLast(cs, n - 1) then [cs[n - 1].id] else []
  }

  lemma {:induction false} LastIdsAre(cs: seq<ContributorTx>, n: nat)
    requires n <= |cs|
    ensures forall k :: k in LastIds(cs, n) <==> exists j :: 0 <= j < n && IsLast(cs, j) && cs[j].id == k
    ensures Distinct(LastIds(cs, n))
  {
    if n > 0 {
      LastIdsAre(cs, n - 1);
      if IsLast(cs, n - 1) {
        DistinctNext(LastIds(cs, n - 1), cs[n - 1].id);
      }
    }
  }

  lemma SumNext(xs: seq<real>, n: nat)
    requires 0 < n <= |xs|
    ensures Sum(xs[..n]) == Sum(xs[..n - 1]) + xs[n - 1]
  {
    assert Init(xs[..n]) == xs[..n - 1];
  }

  /** One more key, or none. */
  lemma SumOverMaybe(keys: seq<string>, k: string, taken: bool, m: JsMap<string, real>)
    ensures SumOver(keys + if taken then [k] else [], m) == SumOver(keys, m) + if taken then GetOrZero(m, k) else 0.0
  {
    if taken {
      SumOverNext(keys, k, m);
    } else {
      assert keys + [] == keys;
    }
  }

  lemma {:induction false} LastIdsSum(cs: seq<ContributorTx>, n: nat, p: Pool)
    requires n <= |cs|
    ensures SumOver(LastIds(cs, n), p.values) == Sum(LastValues(cs, p)[..n])
  {
    if n > 0 {
      LastIdsSum(cs, n - 1, p);
      SumOverMaybe(LastIds(cs, n - 1), cs[n - 1].id, IsLast(cs, n - 1), p.values);
      SumNext(LastValues(cs, p), n);
    }
  }

  lemma {:induction false} HasLast(cs: seq<ContributorTx>, i: nat) returns (j: nat)
    requires i < |cs|
    ensures i <= j < |cs| && cs[j].id == cs[i].id && IsLast(cs, j)
    decreases |cs| - i
  {
    if IsLast(cs, i) {
      j := i;
    } else {
      var k :| i < k < |cs| && cs[k].id == cs[i].id;
      j := HasLast(cs, k);
    }
  }

  lemma LastsCarryTheValue(txs: seq<ContributorTx>, p: Pool)
    requires PoolFor(p, txs) && NonNegative(txs)
    ensures Sum(LastValues(Claimed(txs, p.values), p)) == p.tvl
  {
    var cs := Claimed(txs, p.values);
    var ids := LastIds(cs, |cs|);
    ValuesAreKeyedByIds(txs);
    ClaimedAreTxs(txs, p.values);
    LastIdsAre(cs, |cs|);
    LastIdsSum(cs, |cs|, p);
    forall k | GetOrZero(p.values, k) != 0.0 ensures k in ids <==> k in p.values.keys {
      var i := OwnerOf(txs, k);
      assert TxValue(txs[i].assets) >= 0.0;
      ClaimedKeepValues(txs, p.values, k);
      var o := OwnerOf(cs, k);
      var j := HasLast(cs, o);
      assert cs[j].id == k;
    }
    SameWorth(ids, p.values.keys, p.values);
    assert LastValues(cs, p)[..|cs|] == LastValues(cs, p);
  }

  // ----- Recalculation before flooring -----

  /** The recalculation of an amount per claim without its floors: every contribution rescales the first claim with its
      id. */
  ghost function Rescaled(xs: seq<real>, claims: seq<ContributorClaim>, txs: seq<ContributorTx>,
                          values: JsMap<string, real>): (r: seq<real>)
    requires |xs| == |claims|
    ensures |r| == |xs|
  {
    if txs == [] then xs
    else
      var ys, tx := Rescaled(xs, claims, Init(txs), values), Last(txs);
      var found, txValue := FindClaim(claims, tx.id), GetOrZero(values, tx.id);
      if found.None? || txValue <= 0.0 then ys
      else ys[found.value := Portion(ys[found.value], TxValue(tx.assets), txValue)]
  }

  /** The product of what the contributions with an id are worth against the value kept for it. */
  ghost function Shrinkage(txs: seq<ContributorTx>, id: string, value: real): real
    requires value > 0.0
  {
    if txs == [] then 1.0
    else if Last(txs).id != id then Shrinkage(Init(txs), id, value)
    else Product(Shrinkage(Init(txs), id, value), TxValue(Last(txs).assets) / value)
  }

  lemma PortionScales(amount: real, f: real, part: real, whole: real)
    requires whole != 0.0
    ensures Portion(Product(amount, f), part, whole) == Product(amount, Product(f, part / whole))
  {
    var x, r := amount * f, part / whole;
    Associate(amount, f, r);
    assert x * part / whole == x * r;
  }

  ghost predicate FirstClaim(claims: seq<ContributorClaim>, j: nat)
    requires j < |claims|
  {
    forall i :: 0 <= i < j ==> claims[i].txId != claims[j].txId
  }

  /** What the recalculation does to a claim before flooring: the first with its id shrinks or grows by the product, the
      others stay. */
  lemma {:induction false} RescaledClaim(xs: seq<real>, claims: seq<ContributorClaim>, txs: seq<ContributorTx>,
                                         values: JsMap<string, real>, j: nat)
    requires |xs| == |claims| && j < |claims| && GetOrZero(values, claims[j].txId) > 0.0
    ensures var id := claims[j].txId;
            Rescaled(xs, claims, txs, values)[j] ==
            if FirstClaim(claims, j) then Product(xs[j], Shrinkage(txs, id, GetOrZero(values, id))) else xs[j]
  {
    if txs != [] {
      var tx, id := Last(txs), claims[j].txId;
      RescaledClaim(xs, claims, Init(txs), values, j);
      if tx.id == id && FirstClaim(claims, j) {
        assert FindClaim(claims, id) == Some(j);
        PortionScales(xs[j], Shrinkage(Init(txs), id, GetOrZero(values, id)), TxValue(tx.assets),
                      GetOrZero(values, id));
      }
    }
  }

  // ----- Recalculation with its floors -----

  /** The slack of the first claim with an id: one for its own floor; then every contribution with the id rescales it
      and adds one per unit. */
  ghost function Slack(txs: seq<ContributorTx>, id: string, value: real): real
    requires value > 0.0
  {
    if txs == [] then 1.0
    else if Last(txs).id != id then Slack(Init(txs), id, value)
    else Product(Slack(Init(txs), id, value), TxValue(Last(txs).assets) / value) + Units(Last(txs).assets)
  }

  ghost predicate SaneAssets(txs: seq<ContributorTx>) {
    NonNegative(txs) && forall i :: 0 <= i < |txs| ==> Positive(txs[i].assets) && Countable(txs[i].assets)
  }

  lemma ScaledBounds(exact: real, slack: real, amount: real, r: real)
    requires exact - slack <= amount <= exact && r >= 0.0
    ensures Product(exact, r) - Product(slack, r) <= Product(amount, r) <= Product(exact, r)
  {
    Scale(exact - slack, amount, r);
    Scale(amount, exact, r);
    Distribute(r, exact, -slack);
  }

  lemma PortionIsProduct(amount: real, part: real, whole: real)
    requires whole != 0.0
    ensures Portion(amount, part, whole) == Product(amount, part / whole)
  {
  }

  lemma RecalculatedStep(exact: real, slack: real, amount: real, assets: seq<Asset>, value: real)
    requires Positive(assets) && Countable(assets) && TxValue(assets) >= 0.0 && value > 0.0
    requires exact - slack <= amount <= exact
    ensures var r := TxValue(assets) / value;
            Product(exact, r) - (Product(slack, r) + Units(assets)) <= Recalculated(amount, value, assets)
         <= Product(exact, r)
  {
    QuotientSign(TxValue(assets), value);
    RecalculatedBounds(amount, value, assets);
    ScaledBounds(exact, slack, amount, TxValue(assets) / value);
    PortionIsProduct(amount, TxValue(assets), value);
  }

  /** An amount against what it would be without any floor. */
  ghost predicate Short(amount: real, exact: real, slack: real) {
    exact - slack <= amount <= exact
  }

  ghost function FactorOf(claims: seq<ContributorClaim>, j: nat, txs: seq<ContributorTx>, value: real): real
    requires j < |claims| && value > 0.0
  {
    if FirstClaim(claims, j) then Shrinkage(txs, claims[j].txId, value) else 1.0
  }

  ghost function SlackOf(claims: seq<ContributorClaim>, j: nat, txs: seq<ContributorTx>, value: real): real
    requires j < |claims| && value > 0.0
  {
    if FirstClaim(claims, j) then Slack(txs, claims[j].txId, value) else 1.0
  }

  /** The first claim with an id falls short of its rescaled amount by at most the slack, the others are left alone. */
  lemma {:induction false} RecalculatedClaim(claims: seq<ContributorClaim>, txs: seq<ContributorTx>,
                                             values: JsMap<string, real>, j: nat, vt: real, lovelace: real)
    requires SaneAssets(txs) && AllCountable(txs, values) && j < |claims| && GetOrZero(values, claims[j].txId) > 0.0
    requires Floored(claims[j].vt, vt) && Floored(claims[j].lovelace, lovelace)
    ensures |RecalculateAll(claims, txs, values).claims| == |claims|
    ensures var value, c := GetOrZero(values, claims[j].txId), RecalculateAll(claims, txs, values).claims[j];
            var f, d := FactorOf(claims, j, txs, value), SlackOf(claims, j, txs, value);
            Short(c.vt, Product(vt, f), d) && Short(c.lovelace, Product(lovelace, f), d)
  {
    RecalculationKeepsIds(claims, txs, values);
    if txs != [] {
      var init, tx := Init(txs), Last(txs);
      assert forall i :: 0 <= i < |init| ==> init[i] == txs[i];
      assert tx == txs[|init|];
      RecalculatedClaim(claims, init, values, j, vt, lovelace);
      RecalculationKeepsIds(claims, init, values);
      var before := RecalculateAll(claims, init, values);
      if tx.id == claims[j].txId && FirstClaim(claims, j) {
        var c, value := before.claims[j], GetOrZero(values, tx.id);
        var f, d := FactorOf(claims, j, init, value), SlackOf(claims, j, init, value);
        HitsClaim(before, tx, values, j);
        HitsAmount(c.vt, vt, f, d, tx.assets, value);
        HitsAmount(c.lovelace, lovelace, f, d, tx.assets, value);
      } else {
        KeepsClaim(claims, before.claims, tx, j);
      }
    }
  }

  lemma ProductAssociates(x: real, f: real, r: real)
    ensures Product(Product(x, f), r) == Product(x, Product(f, r))
  {
    Associate(x, f, r);
  }

  lemma HitsAmount(amount: real, exact: real, f: real, d: real, assets: seq<Asset>, value: real)
    requires Positive(assets) && Countable(assets) && TxValue(assets) >= 0.0 && value > 0.0
    requires Short(amount, Product(exact, f), d)
    ensures var r := TxValue(assets) / value;
            Short(Recalculated(amount, value, assets), Product(exact, Product(f, r)), Product(d, r) + Units(assets))
  {
    RecalculatedStep(Product(exact, f), d, amount, assets, value);
    ProductAssociates(exact, f, TxValue(assets) / value);
  }

  lemma HitsClaim(st: Recalculation, tx: ContributorTx, values: JsMap<string, real>, j: nat)
    requires j < |st.claims| && FirstClaim(st.claims, j) && st.claims[j].txId == tx.id && GetOrZero(values, tx.id) > 0.0
    requires Countable(tx.assets)
    ensures var c, value := st.claims[j], GetOrZero(values, tx.id);
            RecalculateTx(st, tx, values).claims[j] == Recalculate1(c, value, tx.assets)
  {
    assert FindClaim(st.claims, tx.id) == Some(j);
  }

  lemma KeepsClaim(claims: seq<ContributorClaim>, before: seq<ContributorClaim>, tx: ContributorTx, j: nat)
    requires |before| == |claims| && forall i :: 0 <= i < |claims| ==> before[i].txId == claims[i].txId
    requires j < |claims| && (tx.id != claims[j].txId || !FirstClaim(claims, j))
    ensures FindClaim(before, tx.id) != Some(j)
  {
  }

  /** Contributions without a claim take no part in it. */
  lemma {:induction false} OnlyClaimedMatter(claims: seq<ContributorClaim>, txs: seq<ContributorTx>,
                                             values: JsMap<string, real>)
    requires AllCountable(txs, values)
    ensures AllCountable(Claimed(txs, values), values)
    ensures RecalculateAll(claims, Claimed(txs, values), values) == RecalculateAll(claims, txs, values)
  {
    if txs != [] {
      var init, tx, before := Init(txs), Last(txs), Claimed(Init(txs), values);
      assert forall i :: 0 <= i < |init| ==> init[i] == txs[i];
      OnlyClaimedMatter(claims, init, values);
      if GetOrZero(values, tx.id) > 0.0 {
        assert txs[|init|] == tx && Claimed(txs, values) == before + [tx];
        assert Init(before + [tx]) == before && Last(before + [tx]) == tx;
      } else {
        assert Claimed(txs, values) == before;
      }
    }
  }

  // ----- What the claims come to -----

  /** What a claim comes to without floors, in contributed value: its id's value if the contribution is paid; for the
      first with the id times the product of what all of them are worth against that value. */
  ghost function FinalValue(cs: seq<ContributorTx>, p: Pool, j: nat): real
    requires j < |cs| && GetOrZero(p.values, cs[j].id) > 0.0
  {
    Product(PaidValue(cs[j], p), if IsFirst(cs, j) then Shrinkage(cs, cs[j].id, GetOrZero(p.values, cs[j].id)) else 1.0)
  }

  /** The part of it that comes on top of the pot: all of it unless the contribution is the last with its id. */
  ghost function Surplus(cs: seq<ContributorTx>, p: Pool, j: nat): real
    requires j < |cs| && GetOrZero(p.values, cs[j].id) > 0.0
  {
    if IsLast(cs, j) then 0.0 else FinalValue(cs, p, j)
  }

  ghost function FinalValues(cs: seq<ContributorTx>, p: Pool): seq<real>
    requires ClaimedOf(cs, p)
  {
    seq(|cs|, j requires 0 <= j < |cs| => FinalValue(cs, p, j))
  }

  ghost function Surpluses(cs: seq<ContributorTx>, p: Pool): seq<real>
    requires ClaimedOf(cs, p)
  {
    seq(|cs|, j requires 0 <= j < |cs| => Surplus(cs, p, j))
  }

  lemma {:induction false} OtherIdsDoNotShrink(txs: seq<ContributorTx>, id: string, value: real)
    requires value > 0.0 && !HasId(txs, id)
    ensures Shrinkage(txs, id, value) == 1.0
  {
    if txs != [] {
      assert forall i :: 0 <= i < |Init(txs)| ==> Init(txs)[i] == txs[i];
      assert txs[|txs| - 1].id != id;
      OtherIdsDoNotShrink(Init(txs), id, value);
    }
  }

  /** An id that occurs once keeps its value. */
  lemma {:induction false} OnceDoesNotShrink(txs: seq<ContributorTx>, j: nat, value: real)
    requires j < |txs| && IsFirst(txs, j) && IsLast(txs, j) && value == TxValue(txs[j].assets) > 0.0
    ensures Shrinkage(txs, txs[j].id, value) == 1.0
  {
    var init := Init(txs);
    assert forall i :: 0 <= i < |init| ==> init[i] == txs[i];
    if j == |init| {
      OtherIdsDoNotShrink(init, txs[j].id, value);
      assert value / value == 1.0;
    } else {
      OnceDoesNotShrink(init, j, value);
      assert txs[|init|].id != txs[j].id;
    }
  }

  lemma LastIsWhole(cs: seq<ContributorTx>, p: Pool, j: nat)
    requires ClaimedOf(cs, p) && j < |cs| && IsLast(cs, j)
    ensures FinalValue(cs, p, j) == GetOrZero(p.values, cs[j].id)
  {
    if IsFirst(cs, j) {
      OnceDoesNotShrink(cs, j, GetOrZero(p.values, cs[j].id));
    }
    assert IsPaid(cs[j], p);
  }

  lemma LastsAndSurpluses(cs: seq<ContributorTx>, p: Pool)
    requires ClaimedOf(cs, p)
    ensures FinalValues(cs, p) == Added(LastValues(cs, p), Surpluses(cs, p))
  {
    forall j | 0 <= j < |cs| && IsLast(cs, j) ensures FinalValue(cs, p, j) == LastValues(cs, p)[j] {
      LastIsWhole(cs, p, j);
    }
  }

  /** Together they come to the total value and the surpluses. */
  lemma FinalValuesAddUp(txs: seq<ContributorTx>, p: Pool)
    requires PoolFor(p, txs) && NonNegative(txs)
    ensures ClaimedOf(Claimed(txs, p.values), p)
    ensures Sum(FinalValues(Claimed(txs, p.values), p)) == p.tvl + Sum(Surpluses(Claimed(txs, p.values), p))
  {
    var cs := Claimed(txs, p.values);
    ClaimedAreClaimed(txs, p);
    LastsCarryTheValue(txs, p);
    LastsAndSurpluses(cs, p);
    SumOfSums(LastValues(cs, p), Surpluses(cs, p));
  }

  // ----- Before flooring -----

  ghost function FinalVts(txs: seq<ContributorTx>, p: Pool): seq<real> {
    var cs := Claimed(txs, p.values);
    Rescaled(ExactVts(cs, p), ClaimsFor(cs, p), txs, p.values)
  }

  ghost function FinalLovelaces(txs: seq<ContributorTx>, p: Pool): seq<real> {
    var cs := Claimed(txs, p.values);
    Rescaled(ExactLovelaces(cs, p), ClaimsFor(cs, p), txs, p.values)
  }

  lemma {:induction false} OnlyClaimedRescale(xs: seq<real>, claims: seq<ContributorClaim>, txs: seq<ContributorTx>,
                                              values: JsMap<string, real>)
    requires |xs| == |claims|
    ensures Rescaled(xs, claims, Claimed(txs, values), values) == Rescaled(xs, claims, txs, values)
  {
    if txs != [] {
      var tx, before := Last(txs), Claimed(Init(txs), values);
      OnlyClaimedRescale(xs, claims, Init(txs), values);
      if GetOrZero(values, tx.id) > 0.0 {
        assert Claimed(txs, values) == before + [tx];
        assert Init(before + [tx]) == before && Last(before + [tx]) == tx;
      } else {
        assert Claimed(txs, values) == before;
      }
    }
  }

  lemma PortionOfProduct(amount: real, part: real, whole: real, f: real)
    requires whole != 0.0
    ensures Product(Portion(amount, part, whole), f) == Portion(amount, Product(part, f), whole)
  {
    assert Portion(amount, part, whole) == amount * (part / whole);
    Associate(amount, part / whole, f);
    assert part / whole * f == part * f / whole;
    assert Portion(amount, part * f, whole) == amount * (part * f / whole);
  }

  lemma FirstOfClaims(cs: seq<ContributorTx>, p: Pool, j: nat)
    requires j < |cs|
    ensures FirstClaim(ClaimsFor(cs, p), j) <==> IsFirst(cs, j)
  {
    var claims := ClaimsFor(cs, p);
    assert forall i :: 0 <= i < |cs| ==> claims[i].txId == cs[i].id;
  }

  /** Before flooring each final claim is its portion of the pot, by its final value. */
  lemma FinalClaimIsPortion(txs: seq<ContributorTx>, p: Pool, j: nat)
    requires PoolFor(p, txs) && NonNegative(txs) && p.tvl > 0.0 && j < |Claimed(txs, p.values)|
    ensures ClaimedOf(Claimed(txs, p.values), p)
    ensures |FinalVts(txs, p)| == |FinalLovelaces(txs, p)| == |Claimed(txs, p.values)|
    ensures var value := FinalValue(Claimed(txs, p.values), p, j);
            && FinalVts(txs, p)[j] == Portion(VtPot(p), value, p.tvl)
            && FinalLovelaces(txs, p)[j] == Portion(LovelacePot(p), value, p.tvl)
  {
    var cs := Claimed(txs, p.values);
    var claims, value := ClaimsFor(cs, p), GetOrZero(p.values, cs[j].id);
    ClaimedAreClaimed(txs, p);
    OnlyClaimedRescale(ExactVts(cs, p), claims, txs, p.values);
    OnlyClaimedRescale(ExactLovelaces(cs, p), claims, txs, p.values);
    RescaledClaim(ExactVts(cs, p), claims, cs, p.values, j);
    RescaledClaim(ExactLovelaces(cs, p), claims, cs, p.values, j);
    ExactIsPortion(cs[j], p);
    FirstOfClaims(cs, p, j);
    var f := if IsFirst(cs, j) then Shrinkage(cs, cs[j].id, value) else 1.0;
    PortionOfProduct(VtPot(p), PaidValue(cs[j], p), p.tvl, f);
    PortionOfProduct(LovelacePot(p), PaidValue(cs[j], p), p.tvl, f);
  }

  ghost function PortionsOf(amount: real, values: seq<real>, whole: real): seq<real>
    requires whole != 0.0
  {
    seq(|values|, i requires 0 <= i < |values| => Portion(amount, values[i], whole))
  }

  lemma PotAndSurplus(amount: real, values: seq<real>, tvl: real, surplus: real)
    requires tvl > 0.0 && Sum(values) == tvl + surplus
    ensures Sum(PortionsOf(amount, values, tvl)) == amount + Portion(amount, surplus, tvl)
  {
    SumPortions(PortionsOf(amount, values, tvl), values, amount, tvl);
    SplitPortion(amount, tvl, tvl, surplus);
    WholePortion(amount, tvl);
  }

  lemma FinalClaimsArePortions(txs: seq<ContributorTx>, p: Pool)
    requires PoolFor(p, txs) && NonNegative(txs) && p.tvl > 0.0
    ensures ClaimedOf(Claimed(txs, p.values), p)
    ensures FinalVts(txs, p) == PortionsOf(VtPot(p), FinalValues(Claimed(txs, p.values), p), p.tvl)
    ensures FinalLovelaces(txs, p) == PortionsOf(LovelacePot(p), FinalValues(Claimed(txs, p.values), p), p.tvl)
  {
    var cs := Claimed(txs, p.values);
    ClaimedAreClaimed(txs, p);
    forall j | 0 <= j < |cs|
      ensures FinalVts(txs, p)[j] == Portion(VtPot(p), FinalValue(cs, p, j), p.tvl)
      ensures FinalLovelaces(txs, p)[j] == Portion(LovelacePot(p), FinalValue(cs, p, j), p.tvl)
    {
      FinalClaimIsPortion(txs, p, j);
    }
  }

  /** Before flooring all final claims together are the pot plus the portion of the surpluses. */
  lemma FinalClaimsAddUp(txs: seq<ContributorTx>, p: Pool)
    requires PoolFor(p, txs) && NonNegative(txs) && p.tvl > 0.0
    ensures ClaimedOf(Claimed(txs, p.values), p)
    ensures var surplus := Sum(Surpluses(Claimed(txs, p.values), p));
            && Sum(FinalVts(txs, p)) == VtPot(p) + Portion(VtPot(p), surplus, p.tvl)
            && Sum(FinalLovelaces(txs, p)) == LovelacePot(p) + Portion(LovelacePot(p), surplus, p.tvl)
  {
    var cs := Claimed(txs, p.values);
    FinalValuesAddUp(txs, p);
    FinalClaimsArePortions(txs, p);
    PotAndSurplus(VtPot(p), FinalValues(cs, p), p.tvl, Sum(Surpluses(cs, p)));
    PotAndSurplus(LovelacePot(p), FinalValues(cs, p), p.tvl, Sum(Surpluses(cs, p)));
  }

  // ----- When the pot is kept -----

  ghost predicate SomeWorthless(cs: seq<ContributorTx>, id: string) {
    exists i :: 0 <= i < |cs| && cs[i].id == id && TxValue(cs[i].assets) == 0.0
  }

  lemma ProductSign(x: real, y: real)
    requires x >= 0.0 && y >= 0.0
    ensures Product(x, y) >= 0.0 && (Product(x, y) == 0.0 <==> x == 0.0 || y == 0.0)
  {
    if x != 0.0 {
      NonZeroProduct(x, y);
    }
  }

  lemma QuotientZero(x: real, y: real)
    requires x >= 0.0 && y > 0.0
    ensures x / y >= 0.0 && (x / y == 0.0 <==> x == 0.0)
  {
    assert x / y * y == x;
  }

  lemma {:induction false} ShrinkageSign(cs: seq<ContributorTx>, id: string, value: real)
    requires NonNegative(cs) && value > 0.0
    ensures Shrinkage(cs, id, value) >= 0.0
    ensures Shrinkage(cs, id, value) == 0.0 <==> SomeWorthless(cs, id)
  {
    if cs != [] {
      var init, tx := Init(cs), Last(cs);
      assert cs[|init|] == tx && forall i :: 0 <= i < |init| ==> init[i] == cs[i];
      ShrinkageSign(init, id, value);
      assert SomeWorthless(cs, id) <==> SomeWorthless(init, id) || (tx.id == id && TxValue(tx.assets) == 0.0) by {
        WorthlessNext(cs, id);
      }
      if tx.id == id {
        QuotientZero(TxValue(tx.assets), value);
        ProductSign(Shrinkage(init, id, value), TxValue(tx.assets) / value);
      }
    }
  }

  lemma WorthlessNext(cs: seq<ContributorTx>, id: string)
    requires cs != []
    ensures SomeWorthless(cs, id) <==>
            SomeWorthless(Init(cs), id) || (Last(cs).id == id && TxValue(Last(cs).assets) == 0.0)
  {
    var init := Init(cs);
    assert cs[|init|] == Last(cs);
    if SomeWorthless(init, id) {
      var i :| 0 <= i < |init| && init[i].id == id && TxValue(init[i].assets) == 0.0;
      assert cs[i] == init[i];
    }
    if SomeWorthless(cs, id) {
      var i :| 0 <= i < |cs| && cs[i].id == id && TxValue(cs[i].assets) == 0.0;
      if i < |init| {
        assert init[i] == cs[i];
      }
    }
  }

  /** Whoever is not the last with an id ends with nothing: unpaid, or the first and shrunk to nothing. */
  ghost predicate EndsWithNothing(cs: seq<ContributorTx>, p: Pool, j: nat)
    requires j < |cs|
  {
    !IsPaid(cs[j], p) || (IsFirst(cs, j) && SomeWorthless(cs, cs[j].id))
  }

  ghost predicate PaidOnce(cs: seq<ContributorTx>, p: Pool) {
    forall j :: 0 <= j < |cs| && !IsLast(cs, j) ==> EndsWithNothing(cs, p, j)
  }

  lemma SurplusIsZeroIff(cs: seq<ContributorTx>, p: Pool, j: nat)
    requires ClaimedOf(cs, p) && j < |cs|
    ensures Surplus(cs, p, j) >= 0.0
    ensures Surplus(cs, p, j) == 0.0 <==> IsLast(cs, j) || EndsWithNothing(cs, p, j)
  {
    var value := GetOrZero(p.values, cs[j].id);
    var f := if IsFirst(cs, j) then Shrinkage(cs, cs[j].id, value) else 1.0;
    ShrinkageSign(cs, cs[j].id, value);
    ProductSign(PaidValue(cs[j], p), f);
  }

  lemma {:induction false} ZeroSum(xs: seq<real>)
    requires forall i :: 0 <= i < |xs| ==> xs[i] >= 0.0
    ensures Sum(xs) >= 0.0
    ensures Sum(xs) == 0.0 <==> forall i :: 0 <= i < |xs| ==> xs[i] == 0.0
  {
    if xs != [] {
      assert forall i :: 0 <= i < |Init(xs)| ==> Init(xs)[i] == xs[i];
      ZeroSum(Init(xs));
      assert xs[|xs| - 1] == Last(xs);
    }
  }

  lemma SurplusesAreZeroIff(cs: seq<ContributorTx>, p: Pool)
    requires ClaimedOf(cs, p)
    ensures Sum(Surpluses(cs, p)) >= 0.0
    ensures Sum(Surpluses(cs, p)) == 0.0 <==> PaidOnce(cs, p)
  {
    forall j | 0 <= j < |cs|
      ensures Surpluses(cs, p)[j] >= 0.0
      ensures Surpluses(cs, p)[j] == 0.0 <==> IsLast(cs, j) || EndsWithNothing(cs, p, j)
    {
      SurplusIsZeroIff(cs, p, j);
    }
    ZeroSum(Surpluses(cs, p));
  }

  /** Conservation of the final claims before flooring, exactly: a pot that is not empty is kept if and only if every
      contribution that is not the last with its id ends with nothing. */
  lemma FinalPotIsKeptIffPaidOnce(txs: seq<ContributorTx>, p: Pool)
    requires PoolFor(p, txs) && NonNegative(txs) && p.tvl > 0.0
    ensures VtPot(p) != 0.0 ==> (Sum(FinalVts(txs, p)) == VtPot(p) <==> PaidOnce(Claimed(txs, p.values), p))
    ensures LovelacePot(p) != 0.0 ==>
              (Sum(FinalLovelaces(txs, p)) == LovelacePot(p) <==> PaidOnce(Claimed(txs, p.values), p))
  {
    var cs := Claimed(txs, p.values);
    FinalClaimsAddUp(txs, p);
    SurplusesAreZeroIff(cs, p);
    if VtPot(p) != 0.0 {
      PortionIsZeroIff(VtPot(p), Sum(Surpluses(cs, p)), p.tvl);
    }
    if LovelacePot(p) != 0.0 {
      PortionIsZeroIff(LovelacePot(p), Sum(Surpluses(cs, p)), p.tvl);
    }
  }

  /** An id handed in again is handed in just twice, worth nothing the first time. */
  ghost predicate HarmlessRepeats(cs: seq<ContributorTx>) {
    forall i, j :: 0 <= i < j < |cs| && cs[i].id == cs[j].id ==>
      TxValue(cs[i].assets) == 0.0 && OnlyAt(cs, i, j)
  }

  ghost predicate OnlyAt(cs: seq<ContributorTx>, i: int, j: int)
    requires 0 <= i < |cs|
  {
    forall k :: 0 <= k < |cs| && cs[k].id == cs[i].id ==> k == i || k == j
  }

  lemma PaidOnceIffHarmless(cs: seq<ContributorTx>, p: Pool)
    requires ClaimedOf(cs, p) && forall j :: 0 <= j < |cs| ==> GetOrZero(p.users, cs[j].userId) > 0.0
    ensures PaidOnce(cs, p) <==> HarmlessRepeats(cs)
  {
    assert forall j :: 0 <= j < |cs| ==> IsPaid(cs[j], p);
    if HarmlessRepeats(cs) {
      forall j | 0 <= j < |cs| && !IsLast(cs, j) ensures EndsWithNothing(cs, p, j) {
        var k :| j < k < |cs| && cs[k].id == cs[j].id;
        assert OnlyAt(cs, j, k);
      }
    }
    if PaidOnce(cs, p) {
      forall i, j | 0 <= i < j < |cs| && cs[i].id == cs[j].id
        ensures TxValue(cs[i].assets) == 0.0 && OnlyAt(cs, i, j)
      {
        TwoOfAnId(cs, p, i, j);
      }
    }
  }

  /** Between two occurrences of an id there is none, nor before or after them, if each is the first or the last. */
  lemma NoThird(cs: seq<ContributorTx>, i: nat, j: nat, k: nat)
    requires i < j < |cs| && k < |cs| && cs[i].id == cs[j].id == cs[k].id
    requires (IsFirst(cs, i) || IsLast(cs, i)) && (IsFirst(cs, j) || IsLast(cs, j)) && (IsFirst(cs, k) || IsLast(cs, k))
    ensures k == i || k == j
  {
  }

  lemma TwoOfAnId(cs: seq<ContributorTx>, p: Pool, i: nat, j: nat)
    requires ClaimedOf(cs, p) && PaidOnce(cs, p) && forall k :: 0 <= k < |cs| ==> IsPaid(cs[k], p)
    requires i < j < |cs| && cs[i].id == cs[j].id
    ensures TxValue(cs[i].assets) == 0.0 && OnlyAt(cs, i, j)
  {
    forall k | 0 <= k < |cs| && cs[k].id == cs[i].id ensures k == i || k == j {
      NoThird(cs, i, j, k);
    }
    WorthlessIsFirst(cs, p, i, j);
  }

  lemma WorthlessIsFirst(cs: seq<ContributorTx>, p: Pool, i: nat, j: nat)
    requires i < j < |cs| && cs[i].id == cs[j].id && OnlyAt(cs, i, j)
    requires ClaimedOf(cs, p) && PaidOnce(cs, p) && IsPaid(cs[i], p)
    ensures TxValue(cs[i].assets) == 0.0
  {
    assert !IsLast(cs, i) && EndsWithNothing(cs, p, i);
    var w :| 0 <= w < |cs| && cs[w].id == cs[i].id && TxValue(cs[w].assets) == 0.0;
    assert w == i || w == j;
    assert IsLast(cs, j);
  }

  /** In the contributions alone, when every claim's user contributed something: the pot is kept if and only if no id of
      positive value is handed in more than twice, and one that is handed in twice is worth nothing the first time. */
  lemma FinalPotIsKeptIffHarmless(txs: seq<ContributorTx>, p: Pool)
    requires PoolFor(p, txs) && NonNegative(txs) && p.tvl > 0.0
    requires forall i :: 0 <= i < |txs| && GetOrZero(p.values, txs[i].id) > 0.0 ==>
               GetOrZero(p.users, txs[i].userId) > 0.0
    ensures VtPot(p) != 0.0 ==> (Sum(FinalVts(txs, p)) == VtPot(p) <==> HarmlessRepeats(Claimed(txs, p.values)))
    ensures LovelacePot(p) != 0.0 ==>
              (Sum(FinalLovelaces(txs, p)) == LovelacePot(p) <==> HarmlessRepeats(Claimed(txs, p.values)))
  {
    var cs := Claimed(txs, p.values);
    FinalPotIsKeptIffPaidOnce(txs, p);
    ClaimedAreClaimed(txs, p);
    ClaimedAreTxs(txs, p.values);
    forall j | 0 <= j < |cs| ensures GetOrZero(p.users, cs[j].userId) > 0.0 {
      assert cs[j] in txs;
    }
    PaidOnceIffHarmless(cs, p);
  }

  // ----- After flooring -----

  ghost function Slacks(cs: seq<ContributorTx>, p: Pool): seq<real>
    requires ClaimedOf(cs, p)
  {
    seq(|cs|, j requires 0 <= j < |cs| =>
      if IsFirst(cs, j) then Slack(cs, cs[j].id, GetOrZero(p.values, cs[j].id)) else 1.0)
  }

  /** What the floors can cost in all. */
  ghost function RepeatDust(cs: seq<ContributorTx>, p: Pool): real
    requires ClaimedOf(cs, p)
  {
    Sum(Slacks(cs, p))
  }

  lemma ClaimedAreSane(txs: seq<ContributorTx>, values: JsMap<string, real>)
    requires SaneAssets(txs)
    ensures SaneAssets(Claimed(txs, values)) && AllCountable(Claimed(txs, values), values)
  {
    var cs := Claimed(txs, values);
    ClaimedAreTxs(txs, values);
    forall j | 0 <= j < |cs|
      ensures TxValue(cs[j].assets) >= 0.0 && Positive(cs[j].assets) && Countable(cs[j].assets)
    {
      assert cs[j] in txs;
    }
  }

  lemma FinalClaimBounds(txs: seq<ContributorTx>, p: Pool, j: nat)
    requires SaneAssets(txs) && PoolFor(p, txs) && p.tvl > 0.0 && j < |Claimed(txs, p.values)|
    ensures ClaimedOf(Claimed(txs, p.values), p)
    ensures |RecalculationOf(txs, p).claims| == |Claimed(txs, p.values)|
    ensures var c, value := RecalculationOf(txs, p).claims[j], FinalValue(Claimed(txs, p.values), p, j);
            var slack := Slacks(Claimed(txs, p.values), p)[j];
            && Short(c.vt, Portion(VtPot(p), value, p.tvl), slack)
            && Short(c.lovelace, Portion(LovelacePot(p), value, p.tvl), slack)
  {
    var cs := Claimed(txs, p.values);
    var claims, value := ClaimsFor(cs, p), GetOrZero(p.values, cs[j].id);
    ClaimedAreClaimed(txs, p);
    ClaimedAreSane(txs, p.values);
    OnlyClaimedMatter(claims, txs, p.values);
    ClaimFloorsExact(cs[j], p);
    RecalculatedClaim(claims, cs, p.values, j, ExactVt(cs[j], p), ExactLovelace(cs[j], p));
    ExactIsPortion(cs[j], p);
    FirstOfClaims(cs, p, j);
    PortionOfProduct(VtPot(p), PaidValue(cs[j], p), p.tvl, FactorOf(claims, j, cs, value));
    PortionOfProduct(LovelacePot(p), PaidValue(cs[j], p), p.tvl, FactorOf(claims, j, cs, value));
  }

  /** The final claims, VT and lovelace alike, come to the pot plus the portion of the surpluses, short by at most the
      dust. */
  lemma RepeatsOverspendThePot(txs: seq<ContributorTx>, p: Pool)
    requires SaneAssets(txs) && PoolFor(p, txs) && p.tvl > 0.0
    ensures ClaimedOf(Claimed(txs, p.values), p)
    ensures var cs, claims := Claimed(txs, p.values), RecalculationOf(txs, p).claims;
            var surplus, dust := Sum(Surpluses(cs, p)), RepeatDust(cs, p);
            && Short(Sum(Vts(claims)), VtPot(p) + Portion(VtPot(p), surplus, p.tvl), dust)
            && Short(Sum(Lovelaces(claims)), LovelacePot(p) + Portion(LovelacePot(p), surplus, p.tvl), dust)
  {
    var cs := Claimed(txs, p.values);
    FinalValuesAddUp(txs, p);
    FinalSumsAreShort(txs, p);
    PotAndSurplus(VtPot(p), FinalValues(cs, p), p.tvl, Sum(Surpluses(cs, p)));
    PotAndSurplus(LovelacePot(p), FinalValues(cs, p), p.tvl, Sum(Surpluses(cs, p)));
  }

  lemma FinalSumsAreShort(txs: seq<ContributorTx>, p: Pool)
    requires SaneAssets(txs) && PoolFor(p, txs) && p.tvl > 0.0 && ClaimedOf(Claimed(txs, p.values), p)
    ensures var cs, claims := Claimed(txs, p.values), RecalculationOf(txs, p).claims;
            && Short(Sum(Vts(claims)), Sum(PortionsOf(VtPot(p), FinalValues(cs, p), p.tvl)), RepeatDust(cs, p))
            && Short(Sum(Lovelaces(claims)), Sum(PortionsOf(LovelacePot(p), FinalValues(cs, p), p.tvl)),
                     RepeatDust(cs, p))
  {
    var cs, claims := Claimed(txs, p.values), RecalculationOf(txs, p).claims;
    RecalculationKeepsIds(ClaimsFor(cs, p), txs, p.values);
    var vts := PortionsOf(VtPot(p), FinalValues(cs, p), p.tvl);
    var lovelaces := PortionsOf(LovelacePot(p), FinalValues(cs, p), p.tvl);
    forall j | 0 <= j < |cs|
      ensures Short(Vts(claims)[j], vts[j], Slacks(cs, p)[j])
      ensures Short(Lovelaces(claims)[j], lovelaces[j], Slacks(cs, p)[j])
    {
      FinalClaimBounds(txs, p, j);
    }
    SumBounds(Vts(claims), vts, Slacks(cs, p));
    SumBounds(Lovelaces(claims), lovelaces, Slacks(cs, p));
  }

  /** The grand total: what the surpluses are worth comes on top of the supply, up to the dust. */
  lemma RepeatsOverspendTheSupply(v: VaultConfig, acquisitions: seq<AcquirerTx>, contributions: seq<ContributorTx>,
                                  optimal: nat)
    requires SaneVault(v, acquisitions) && SaneAssets(contributions)
    requires TotalValue(ValuesOf(contributions)) > 0.0
    ensures var p := PoolOf(v, acquisitions, contributions, optimal);
            var lp, cs := LpFor(v, FinalDecimals(v, optimal), p.acquired, p.tvl), Claimed(contributions, p.values);
            && Shareable(acquisitions, p.acquired) && ClaimedOf(cs, p)
            && var excess := Portion(VtPot(p), Sum(Surpluses(cs, p)), p.tvl);
               var total := GrandTotal(AcquirersOf(acquisitions, p), RecalculationOf(contributions, p).claims, lp);
               && total <= p.supply + excess
               && (p.acquired > 0.0 ==>
                     p.supply + excess - (2.0 * (p.acquired * LOVELACE) + RepeatDust(cs, p)) < total)
  {
    var p := PoolOf(v, acquisitions, contributions, optimal);
    PoolSharesAreSane(v, acquisitions, contributions, optimal);
    TotalAcquiredNonNegative(acquisitions);
    AcquirersTotal(acquisitions, p);
    RepeatsOverspendThePot(contributions, p);
    SplitSupply(p);
  }

  // ----- A vault that hands out twice its supply -----

  lemma Twice<T>(x: T)
    ensures Init([x]) == [] && Last([x]) == x && Init([x, x]) == [x] && Last([x, x]) == x
  {
  }

  const ONE_ASSET := Asset("p", Some("n"), 1.0, 1.0)
  const CONTRIBUTION := ContributorTx("t", "u", [ONE_ASSET])

  const TWICE := [CONTRIBUTION, CONTRIBUTION]

  lemma OneUnitOfOne()
    ensures TxValue(CONTRIBUTION.assets) == 1.0 && Units(CONTRIBUTION.assets) == 1.0
  {
    Twice(ONE_ASSET);
    assert TxValue([]) == 0.0 && Units([]) == 0.0;
    assert TxValue([ONE_ASSET]) == TxValue([]) + AssetValue(ONE_ASSET);
    assert Units([ONE_ASSET]) == Units([]) + 1.0;
  }

  lemma ValuesOfTwice()
    ensures ValuesOf(TWICE) == JsMap(["t"], map["t" := 1.0])
    ensures UsersOf(TWICE) == JsMap(["u"], map["u" := 2.0])
  {
    OneUnitOfOne();
    Twice(CONTRIBUTION);
    assert ValuesOf([CONTRIBUTION]) == JsMap(["t"], map["t" := 1.0]);
    assert UsersOf([CONTRIBUTION]) == JsMap(["u"], map["u" := 1.0]);
  }

  lemma PaidTwice(p: Pool)
    requires PoolFor(p, TWICE)
    ensures p.tvl == 1.0 && Claimed(TWICE, p.values) == TWICE
  {
    ValuesOfTwice();
    SumOverNext([], "t", p.values);
    assert [] + ["t"] == ["t"];
    Twice(CONTRIBUTION);
    ClaimedStep([CONTRIBUTION], p);
    ClaimedStep(TWICE, p);
    assert Claimed([], p.values) == [];
  }

  lemma ShrunkByOne(txs: seq<ContributorTx>)
    ensures Shrinkage(txs + [CONTRIBUTION], "t", 1.0) == Shrinkage(txs, "t", 1.0)
    ensures Slack(txs + [CONTRIBUTION], "t", 1.0) == Slack(txs, "t", 1.0) + 1.0
  {
    OneUnitOfOne();
    assert Init(txs + [CONTRIBUTION]) == txs && Last(txs + [CONTRIBUTION]) == CONTRIBUTION;
  }

  lemma ShrunkTwice()
    ensures Shrinkage(TWICE, "t", 1.0) == 1.0 && Slack(TWICE, "t", 1.0) == 3.0
  {
    ShrunkByOne([]);
    ShrunkByOne([CONTRIBUTION]);
    assert [] + [CONTRIBUTION] == [CONTRIBUTION] && [CONTRIBUTION] + [CONTRIBUTION] == TWICE;
  }

  lemma SumOfTwo(xs: seq<real>)
    requires |xs| == 2
    ensures Sum(xs) == xs[0] + xs[1]
  {
    assert Sum(Init(xs)) == Sum(Init(Init(xs))) + xs[0];
  }

  lemma TwiceIsClaimed(p: Pool)
    requires PoolFor(p, TWICE)
    ensures ClaimedOf(TWICE, p) && IsPaid(CONTRIBUTION, p) && PaidValue(CONTRIBUTION, p) == 1.0
  {
    PaidTwice(p);
    ValuesOfTwice();
    TwiceIsSane();
    ClaimedAreClaimed(TWICE, p);
  }

  lemma FirstAndLast()
    ensures IsFirst(TWICE, 0) && !IsLast(TWICE, 0) && IsLast(TWICE, 1) && !IsFirst(TWICE, 1)
  {
    assert TWICE[0] == TWICE[1] == CONTRIBUTION;
  }

  lemma TwoOfAKind(p: Pool)
    requires PoolFor(p, TWICE) && ClaimedOf(TWICE, p)
    ensures Sum(Surpluses(TWICE, p)) == 1.0
  {
    TwiceIsClaimed(p);
    FirstAndLast();
    ShrunkTwice();
    ValuesOfTwice();
    assert Surplus(TWICE, p, 0) == Product(1.0, 1.0);
    SumOfTwo(Surpluses(TWICE, p));
  }

  lemma DustOfTwo(p: Pool)
    requires PoolFor(p, TWICE) && ClaimedOf(TWICE, p)
    ensures RepeatDust(TWICE, p) == 4.0
  {
    FirstAndLast();
    ShrunkTwice();
    ValuesOfTwice();
    SumOfTwo(Slacks(TWICE, p));
  }

  lemma TwiceOverspends(p: Pool)
    requires PoolFor(p, TWICE)
    ensures 2.0 * VtPot(p) - 4.0 <= Sum(Vts(RecalculationOf(TWICE, p).claims))
  {
    TwiceIsSane();
    TwiceIsClaimed(p);
    PaidTwice(p);
    TwoOfAKind(p);
    DustOfTwo(p);
    RepeatsOverspendThePot(TWICE, p);
    WholePortion(VtPot(p), 1.0);
  }

  lemma TwiceIsSane()
    ensures SaneAssets(TWICE)
  {
    OneUnitOfOne();
  }

  lemma PowerGrows(supply: real, decimals: nat)
    requires supply > 0.0
    ensures supply * (JsNumbers.Pow10(decimals) as real) >= supply
  {
    Pow10Positive(decimals);
    Scale(1.0, JsNumbers.Pow10(decimals) as real, supply);
  }

  /** One contribution handed in twice under one id: a vault without acquirers and pool hands out almost twice its
      supply, after flooring and recalculation. */
  lemma DuplicateIdsOverspend(v: VaultConfig, optimal: nat)
    requires v.supply > 4.0 && v.tokensForAcquires == 0.0 && v.liquidityPool == 0.0
    ensures var p := PoolOf(v, [], TWICE, optimal);
            var lp := LpFor(v, FinalDecimals(v, optimal), p.acquired, p.tvl);
            var total := GrandTotal(AcquirersOf([], p), RecalculationOf(TWICE, p).claims, lp);
            p.supply < 2.0 * p.supply - 4.0 <= total
  {
    var p := PoolOf(v, [], TWICE, optimal);
    TwiceOverspendsVault(v, p, optimal);
    NoPoolNoAcquirers(v, p, optimal);
    PowerGrows(v.supply, FinalDecimals(v, optimal));
  }

  lemma TwiceOverspendsVault(v: VaultConfig, p: Pool, optimal: nat)
    requires v.supply > 0.0 && v.tokensForAcquires == 0.0 && v.liquidityPool == 0.0
    requires p == PoolOf(v, [], TWICE, optimal)
    ensures 2.0 * VtPot(p) - 4.0 <= Sum(Vts(RecalculationOf(TWICE, p).claims))
  {
    PoolSharesAreSane(v, [], TWICE, optimal);
    TwiceOverspends(p);
  }

  lemma NoPoolNoAcquirers(v: VaultConfig, p: Pool, optimal: nat)
    requires v.tokensForAcquires == 0.0 && v.liquidityPool == 0.0 && p == PoolOf(v, [], TWICE, optimal)
    ensures VtPot(p) == p.supply && Sum(AcquirerVts(AcquirersOf([], p))) == 0.0
    ensures LpFor(v, FinalDecimals(v, optimal), p.acquired, p.tvl).adjustedVt == 0.0
  {
    assert AcquirersOf([], p) == [];
    assert AcquirerVts([]) == [];
  }
}
