/**
 Rounding in the acquire-to-governance transition: what recalculation costs a contributor, what normalisation costs the
 acquirers, and that the claims together never exceed the token supply.
 */
module TransitionConservation {
  import opened Wrappers
  import JsNumbers
  import opened JsMaps
  import opened Sequences
  import opened DistributionMath
  import opened OptimalDecimals
  import opened AcquireTransition

  // ----- One contribution -----

  ghost function Units(assets: seq<Asset>): real {
    if assets == [] then 0.0 else Units(Init(assets)) + Last(assets).quantity
  }

  ghost predicate Positive(assets: seq<Asset>) {
    forall i :: 0 <= i < |assets| ==> assets[i].quantity > 0.0
  }

  lemma SplitPortion(amount: real, whole: real, a: real, b: real)
    requires whole != 0.0
    ensures Portion(amount, a + b, whole) == Portion(amount, a, whole) + Portion(amount, b, whole)
  {
    Distribute(amount, a, b);
  }

  lemma NoPortion(amount: real, whole: real)
    requires whole != 0.0
    ensures Portion(amount, 0.0, whole) == 0.0
  {
  }

  lemma AssetShareBounds(amount: real, txValue: real, a: Asset)
    requires txValue > 0.0 && a.quantity > 0.0
    ensures var exact := Portion(amount, AssetValue(a), txValue);
            exact - a.quantity < Paid(a, SharePerUnit(amount, txValue, a)) <= exact
  {
    PerUnitFloor(Portion(amount, AssetValue(a), txValue), a.quantity);
  }

  lemma AddBounds(exact: real, units: real, paid: real, exact1: real, q: real, paid1: real)
    requires exact - units <= paid <= exact && exact1 - q < paid1 <= exact1
    ensures exact + exact1 - (units + q) < paid + paid1 <= exact + exact1
  {
  }

  /** Against any reference value, each asset's floored share costs less than its quantity. */
  lemma {:induction false} RecalculatedBounds(amount: real, txValue: real, assets: seq<Asset>)
    requires txValue > 0.0 && Positive(assets) && Countable(assets)
    ensures var exact := Portion(amount, TxValue(assets), txValue);
            && exact - Units(assets) <= Recalculated(amount, txValue, assets) <= exact
            && (assets != [] ==> exact - Units(assets) < Recalculated(amount, txValue, assets))
  {
    if assets == [] {
      NoPortion(amount, txValue);
    } else {
      var init, a := Init(assets), Last(assets);
      RecalculatedBounds(amount, txValue, init);
      SplitPortion(amount, txValue, TxValue(init), AssetValue(a));
      AssetShareBounds(amount, txValue, a);
      AddBounds(Portion(amount, TxValue(init), txValue), Units(init), Recalculated(amount, txValue, init),
                Portion(amount, AssetValue(a), txValue), a.quantity, Paid(a, SharePerUnit(amount, txValue, a)));
    }
  }

  lemma WholePortion(amount: real, whole: real)
    requires whole != 0.0
    ensures Portion(amount, whole, whole) == amount
  {
  }

  /** The recalculated claim never exceeds the original one and falls short by less than one per unit contributed; this
      holds of the VT amount and of the lovelace amount alike, whatever the claim was. */
  lemma RecalculationLosesLessThanUnits(amount: real, assets: seq<Asset>)
    requires Positive(assets) && Countable(assets) && TxValue(assets) > 0.0
    ensures amount - Units(assets) < Recalculated(amount, TxValue(assets), assets) <= amount
  {
    RecalculatedBounds(amount, TxValue(assets), assets);
    WholePortion(amount, TxValue(assets));
  }

  // ----- Totals with distinct transaction ids -----

  ghost predicate DistinctIds(txs: seq<ContributorTx>) {
    forall i, j :: 0 <= i < j < |txs| ==> txs[i].id != txs[j].id
  }

  ghost function SumOfValues(txs: seq<ContributorTx>): real {
    if txs == [] then 0.0 else SumOfValues(Init(txs)) + TxValue(Last(txs).assets)
  }

  lemma {:induction false} SumOverFrame(keys: seq<string>, m: JsMap<string, real>, k: string, v: real)
    requires k !in keys
    ensures SumOver(keys, Set(m, k, v)) == SumOver(keys, m)
  {
    if keys != [] {
      assert forall x :: x in Init(keys) ==> x in keys;
      SumOverFrame(Init(keys), m, k, v);
      assert Last(keys) in keys;
    }
  }

  ghost predicate HasId(txs: seq<ContributorTx>, id: string) {
    exists i :: 0 <= i < |txs| && txs[i].id == id
  }

  lemma {:induction false} ValuesAreKeyedByIds(txs: seq<ContributorTx>)
    ensures Ordered(ValuesOf(txs))
    ensures forall k :: k in ValuesOf(txs).items ==> HasId(txs, k)
  {
    if txs != [] {
      var init, tx := Init(txs), Last(txs);
      ValuesAreKeyedByIds(init);
      SetKeepsOrdered(ValuesOf(init), tx.id, TxValue(tx.assets));
      assert txs[|init|].id == tx.id;
      forall k | k in ValuesOf(txs).items ensures HasId(txs, k) {
        if HasId(init, k) {
          var i :| 0 <= i < |init| && init[i].id == k;
          assert txs[i].id == k;
        }
      }
    }
  }

  lemma LastIdIsNew(txs: seq<ContributorTx>)
    requires txs != [] && DistinctIds(txs)
    ensures DistinctIds(Init(txs)) && !HasId(Init(txs), Last(txs).id) && Last(txs).id !in ValuesOf(Init(txs)).items
  {
    ValuesAreKeyedByIds(Init(txs));
    assert forall i :: 0 <= i < |Init(txs)| ==> Init(txs)[i] == txs[i] && txs[i].id != txs[|txs| - 1].id;
  }

  /** With distinct ids the value map holds every contribution's own value. */
  lemma {:induction false} ValueOfEachTx(txs: seq<ContributorTx>, i: nat)
    requires DistinctIds(txs) && i < |txs|
    ensures GetOrZero(ValuesOf(txs), txs[i].id) == TxValue(txs[i].assets)
  {
    LastIdIsNew(txs);
    if i < |txs| - 1 {
      ValueOfEachTx(Init(txs), i);
      assert txs[i].id != txs[|txs| - 1].id;
    }
  }

  /** ... and its total is the sum of all contributions. */
  lemma {:induction false} TotalWithDistinctIds(txs: seq<ContributorTx>)
    requires DistinctIds(txs)
    ensures TotalValue(ValuesOf(txs)) == SumOfValues(txs)
  {
    if txs != [] {
      var before, tx := ValuesOf(Init(txs)), Last(txs);
      LastIdIsNew(txs);
      TotalWithDistinctIds(Init(txs));
      ValuesAreKeyedByIds(Init(txs));
      SumOverFrame(before.keys, before, tx.id, TxValue(tx.assets));
      assert Init(ValuesOf(txs).keys) == before.keys;
    }
  }

  ghost predicate NonNegative(txs: seq<ContributorTx>) {
    forall i :: 0 <= i < |txs| ==> TxValue(txs[i].assets) >= 0.0
  }

  /** A user's accumulated value is at least that of each of their contributions. */
  lemma {:induction false} UserTotalCoversTx(txs: seq<ContributorTx>, i: nat)
    requires NonNegative(txs) && i < |txs|
    ensures GetOrZero(UsersOf(txs), txs[i].userId) >= TxValue(txs[i].assets)
  {
    UserTotalsNonNegative(Init(txs), Last(txs).userId);
    if i < |txs| - 1 {
      assert NonNegative(Init(txs)) by {
        assert forall k :: 0 <= k < |Init(txs)| ==> Init(txs)[k] == txs[k];
      }
      UserTotalCoversTx(Init(txs), i);
    }
  }

  lemma {:induction false} UserTotalsNonNegative(txs: seq<ContributorTx>, user: string)
    requires NonNegative(txs)
    ensures GetOrZero(UsersOf(txs), user) >= 0.0
  {
    if txs != [] {
      assert forall k :: 0 <= k < |Init(txs)| ==> Init(txs)[k] == txs[k];
      UserTotalsNonNegative(Init(txs), user);
      UserTotalsNonNegative(Init(txs), Last(txs).userId);
    }
  }

  /** What a user's contributions are worth together. */
  ghost function WorthOfUser(txs: seq<ContributorTx>, user: string): real {
    if txs == [] then 0.0
    else WorthOfUser(Init(txs), user) + if Last(txs).userId == user then TxValue(Last(txs).assets) else 0.0
  }

  /** The user map holds the sum of a user's contributions. */
  lemma {:induction false} UserTotalsAreSums(txs: seq<ContributorTx>, user: string)
    ensures GetOrZero(UsersOf(txs), user) == WorthOfUser(txs, user)
  {
    if txs != [] {
      UserTotalsAreSums(Init(txs), user);
      UserTotalsAreSums(Init(txs), Last(txs).userId);
    }
  }

  // ----- Sums -----

  ghost function Sum(xs: seq<real>): real {
    if xs == [] then 0.0 else Sum(Init(xs)) + Last(xs)
  }

  ghost function Amounts(txs: seq<AcquirerTx>): seq<real> {
    seq(|txs|, i requires 0 <= i < |txs| => txs[i].amount)
  }

  ghost function Worths(assets: seq<Asset>): seq<real> {
    seq(|assets|, i requires 0 <= i < |assets| => assets[i].quantity * assets[i].floorPrice)
  }

  /** The total of the acquisitions is the sum of their amounts. */
  lemma {:induction false} AcquiredIsSum(txs: seq<AcquirerTx>)
    ensures TotalAcquired(txs) == Sum(Amounts(txs))
  {
    if txs != [] {
      AcquiredIsSum(Init(txs));
      assert Init(Amounts(txs)) == Amounts(Init(txs));
    }
  }

  lemma InitOfWorths(assets: seq<Asset>)
    requires assets != []
    ensures Init(Worths(assets)) == Worths(Init(assets)) && Last(Worths(assets)) == AssetValue(Last(assets))
  {
    var init := Init(assets);
    assert forall i :: 0 <= i < |init| ==> init[i] == assets[i];
    assert forall i :: 0 <= i < |init| ==> Worths(init)[i] == Worths(assets)[i];
  }

  /** The value of assets is the sum of quantity times floor price. */
  lemma {:induction false} ValueIsSum(assets: seq<Asset>)
    ensures TxValue(assets) == Sum(Worths(assets))
  {
    if assets != [] {
      ValueIsSum(Init(assets));
      InitOfWorths(assets);
    }
  }

  lemma {:induction false} SumBounds(xs: seq<real>, exact: seq<real>, slack: seq<real>)
    requires |xs| == |exact| == |slack|
    requires forall i :: 0 <= i < |xs| ==> exact[i] - slack[i] <= xs[i] <= exact[i]
    ensures Sum(exact) - Sum(slack) <= Sum(xs) <= Sum(exact)
  {
    if xs != [] {
      SumBounds(Init(xs), Init(exact), Init(slack));
    }
  }

  ghost function Vts(claims: seq<ContributorClaim>): seq<real> {
    seq(|claims|, i requires 0 <= i < |claims| => claims[i].vt)
  }

  ghost function Lovelaces(claims: seq<ContributorClaim>): seq<real> {
    seq(|claims|, i requires 0 <= i < |claims| => claims[i].lovelace)
  }

  ghost function UnitsOfEach(txs: seq<ContributorTx>): seq<real> {
    seq(|txs|, i requires 0 <= i < |txs| => Units(txs[i].assets))
  }

  ghost function Ones(n: nat): seq<real> {
    seq(n, _ => 1.0)
  }

  lemma {:induction false} SumOfOnes(n: nat)
    ensures Sum(Ones(n)) == n as real
  {
    if n > 0 {
      SumOfOnes(n - 1);
      assert Init(Ones(n)) == Ones(n - 1);
    }
  }

  ghost function Portions(amount: real, txs: seq<ContributorTx>, whole: real): seq<real>
    requires whole != 0.0
  {
    seq(|txs|, i requires 0 <= i < |txs| => Portion(amount, TxValue(txs[i].assets), whole))
  }

  lemma {:induction false} SumOfPortions(amount: real, txs: seq<ContributorTx>, whole: real)
    requires whole != 0.0
    ensures Sum(Portions(amount, txs, whole)) == Portion(amount, SumOfValues(txs), whole)
  {
    if txs == [] {
      NoPortion(amount, whole);
    } else {
      SumOfPortions(amount, Init(txs), whole);
      assert Init(Portions(amount, txs, whole)) == Portions(amount, Init(txs), whole);
      SplitPortion(amount, whole, SumOfValues(Init(txs)), TxValue(Last(txs).assets));
    }
  }

  // ----- Contributor claims before recalculation -----

  lemma CancelUser(amount: real, user: real, value: real, tvl: real)
    requires user > 0.0 && tvl > 0.0
    ensures amount * (user / tvl) * (value / user) == Portion(amount, value, tvl)
  {
    var x, y := user / tvl, value / user;
    Associate(amount, x, y);
    assert x * y == value / tvl by {
      assert x * tvl == user && y * user == value;
      assert x * y * tvl == y * (x * tvl);
    }
    assert amount * (value / tvl) == amount * value / tvl;
  }

  /** The VT and the lovelace that are divided among the contributors. */
  ghost function VtPot(p: Pool): real {
    (p.supply - p.lpVt) * (1.0 - p.offered)
  }

  ghost function LovelacePot(p: Pool): real {
    (p.acquired - p.lpAda) * LOVELACE
  }

  ghost predicate Floored(whole: real, exact: real) {
    exact - 1.0 < whole <= exact
  }

  /** Each claim is the floor of its transaction's exact portion of the pot, whoever's it is. */
  lemma ClaimIsFlooredPortion(tx: ContributorTx, p: Pool)
    requires p.offered <= 1.0 && p.tvl > 0.0
    requires GetOrZero(p.values, tx.id) == TxValue(tx.assets) > 0.0
    requires GetOrZero(p.users, tx.userId) >= TxValue(tx.assets)
    ensures Floored(ClaimFor(tx, p).vt, Portion(VtPot(p), TxValue(tx.assets), p.tvl))
    ensures Floored(ClaimFor(tx, p).lovelace, Portion(LovelacePot(p), TxValue(tx.assets), p.tvl))
  {
    var value, user := TxValue(tx.assets), GetOrZero(p.users, tx.userId);
    CancelUser(VtPot(p), user, value, p.tvl);
    CancelUser(LovelacePot(p), user, value, p.tvl);
    var share, ofUser := user / p.tvl, value / user;
    Reorder(share, p.acquired - p.lpAda, ofUser);
    if p.offered >= 1.0 {
      assert VtPot(p) == 0.0;
      assert Portion(VtPot(p), value, p.tvl) == 0.0;
    }
  }

  lemma PortionSign(amount: real, part: real, whole: real)
    requires part > 0.0 && whole > 0.0
    ensures Portion(amount, part, whole) >= 0.0 <==> amount >= 0.0
  {
    var q := part / whole;
    assert amount * part / whole == amount * q;
    assert q > 0.0;
  }

  /** A contributor gets a lovelace claim that is not negative if and only if the pool takes no more ADA than was
      acquired; the source does not look at that before it creates the claims. */
  lemma ClaimIsPayableIffPoolIsCovered(tx: ContributorTx, p: Pool)
    requires p.offered <= 1.0 && p.tvl > 0.0
    requires GetOrZero(p.values, tx.id) == TxValue(tx.assets) > 0.0
    requires GetOrZero(p.users, tx.userId) >= TxValue(tx.assets)
    ensures ClaimFor(tx, p).lovelace >= 0.0 <==> p.lpAda <= p.acquired
  {
    ClaimIsFlooredPortion(tx, p);
    PortionSign(LovelacePot(p), TxValue(tx.assets), p.tvl);
    assert LovelacePot(p) >= 0.0 <==> p.lpAda <= p.acquired;
  }

  lemma Reorder(share: real, ada: real, ofUser: real)
    ensures share * ada * ofUser * LOVELACE == ada * LOVELACE * share * ofUser
  {
  }

  // ----- Recalculation of all claims -----

  ghost predicate DistinctClaims(claims: seq<ContributorClaim>) {
    forall i, j :: 0 <= i < j < |claims| ==> claims[i].txId != claims[j].txId
  }

  lemma FindsIt(claims: seq<ContributorClaim>, j: nat)
    requires DistinctClaims(claims) && j < |claims|
    ensures FindClaim(claims, claims[j].txId) == Some(j)
  {
    var r := FindClaim(claims, claims[j].txId);
    assert r.Some?;
  }

  lemma {:induction false} RecalculationKeepsIds(claims: seq<ContributorClaim>, txs: seq<ContributorTx>,
                                                 values: JsMap<string, real>)
    requires AllCountable(txs, values)
    ensures var re := RecalculateAll(claims, txs, values).claims;
            |re| == |claims| && forall j :: 0 <= j < |claims| ==> re[j].txId == claims[j].txId
  {
    if txs != [] {
      assert forall k :: 0 <= k < |Init(txs)| ==> Init(txs)[k] == txs[k];
      RecalculationKeepsIds(claims, Init(txs), values);
    }
  }

  /** A claim without a transaction in the list is left alone. */
  lemma {:induction false} RecalculationSkipsOthers(claims: seq<ContributorClaim>, txs: seq<ContributorTx>,
                                                    values: JsMap<string, real>, j: nat)
    requires AllCountable(txs, values) && j < |claims| && !HasId(txs, claims[j].txId)
    ensures |RecalculateAll(claims, txs, values).claims| == |claims|
    ensures RecalculateAll(claims, txs, values).claims[j] == claims[j]
  {
    RecalculationKeepsIds(claims, txs, values);
    if txs != [] {
      var init := Init(txs);
      assert forall k :: 0 <= k < |init| ==> init[k] == txs[k];
      RecalculationKeepsIds(claims, init, values);
      RecalculationSkipsOthers(claims, init, values, j);
      assert txs[|init|].id != claims[j].txId;
    }
  }

  /** With distinct ids every claim is recalculated exactly once, from its original amounts and its own assets. */
  lemma {:induction false} EachClaimRecalculatedOnce(claims: seq<ContributorClaim>, txs: seq<ContributorTx>,
                                                     values: JsMap<string, real>, j: nat, k: nat)
    requires AllCountable(txs, values) && DistinctIds(txs) && DistinctClaims(claims)
    requires j < |claims| && k < |txs| && txs[k].id == claims[j].txId && GetOrZero(values, txs[k].id) > 0.0
    ensures |RecalculateAll(claims, txs, values).claims| == |claims|
    ensures RecalculateAll(claims, txs, values).claims[j]
         == Recalculate1(claims[j], GetOrZero(values, txs[k].id), txs[k].assets)
  {
    var init := Init(txs);
    assert forall i :: 0 <= i < |init| ==> init[i] == txs[i];
    RecalculationKeepsIds(claims, init, values);
    var before := RecalculateAll(claims, init, values).claims;
    assert DistinctClaims(before);
    FindsIt(before, j);
    if k == |init| {
      LastIdIsNew(txs);
      RecalculationSkipsOthers(claims, init, values, j);
    } else {
      EachClaimRecalculatedOnce(claims, init, values, j, k);
      assert txs[k].id != txs[|init|].id;
    }
    RecalculationKeepsIds(claims, txs, values);
  }

  // ----- The claimed contributions -----

  lemma {:induction false} ClaimedAreTxs(txs: seq<ContributorTx>, values: JsMap<string, real>)
    ensures forall i :: 0 <= i < |Claimed(txs, values)| ==>
              Claimed(txs, values)[i] in txs && GetOrZero(values, Claimed(txs, values)[i].id) > 0.0
  {
    if txs != [] {
      ClaimedAreTxs(Init(txs), values);
      assert txs == Init(txs) + [Last(txs)];
    }
  }

  lemma {:induction false} ClaimedAreDistinct(txs: seq<ContributorTx>, values: JsMap<string, real>)
    requires DistinctIds(txs)
    ensures DistinctIds(Claimed(txs, values))
  {
    if txs != [] {
      LastIdIsNew(txs);
      ClaimedAreDistinct(Init(txs), values);
      ClaimedAreTxs(Init(txs), values);
      var before := Claimed(Init(txs), values);
      forall i | 0 <= i < |before| ensures before[i].id != Last(txs).id {
        assert before[i] in Init(txs);
      }
    }
  }

  lemma SumOfValuesNext(txs: seq<ContributorTx>, tx: ContributorTx)
    ensures SumOfValues(txs + [tx]) == SumOfValues(txs) + TxValue(tx.assets)
  {
    assert Init(txs + [tx]) == txs;
  }

  /** Contributions without a claim are worth nothing, so the claimed ones carry the whole value. */
  lemma {:induction false} ClaimedCarryAllValue(txs: seq<ContributorTx>, values: JsMap<string, real>)
    requires NonNegative(txs)
    requires forall i :: 0 <= i < |txs| ==> GetOrZero(values, txs[i].id) == TxValue(txs[i].assets)
    ensures SumOfValues(Claimed(txs, values)) == SumOfValues(txs)
  {
    if txs != [] {
      var init, tx := Init(txs), txs[|txs| - 1];
      assert forall i :: 0 <= i < |init| ==> init[i] == txs[i];
      ClaimedCarryAllValue(init, values);
      SumOfValuesNext(Claimed(init, values), tx);
      assert Claimed(init, values) + [] == Claimed(init, values);
      assert TxValue(tx.assets) >= 0.0 && GetOrZero(values, tx.id) == TxValue(tx.assets);
    }
  }

  lemma {:induction false} SumOfValuesNonNegative(txs: seq<ContributorTx>)
    requires NonNegative(txs)
    ensures SumOfValues(txs) >= 0.0
    ensures forall i :: 0 <= i < |txs| ==> SumOfValues(txs) >= TxValue(txs[i].assets)
  {
    if txs != [] {
      assert forall i :: 0 <= i < |Init(txs)| ==> Init(txs)[i] == txs[i];
      SumOfValuesNonNegative(Init(txs));
    }
  }

  // ----- What the contributors get in all -----

  ghost predicate SaneContributions(txs: seq<ContributorTx>) {
    && DistinctIds(txs) && NonNegative(txs)
    && forall i :: 0 <= i < |txs| ==> Positive(txs[i].assets) && Countable(txs[i].assets)
  }

  ghost predicate PoolFor(p: Pool, txs: seq<ContributorTx>) {
    && p.values == ValuesOf(txs) && p.users == UsersOf(txs) && p.tvl == TotalValue(p.values)
    && p.offered <= 1.0
  }

  /** The bounds of one recalculated claim: below its exact portion by less than one, plus one per unit. */
  lemma RecalculatedClaimBounds(txs: seq<ContributorTx>, p: Pool, j: nat)
    requires SaneContributions(txs) && PoolFor(p, txs) && j < |Claimed(txs, p.values)|
    ensures |RecalculationOf(txs, p).claims| == |Claimed(txs, p.values)| && p.tvl > 0.0
    ensures var tx, c := Claimed(txs, p.values)[j], RecalculationOf(txs, p).claims[j];
            var slack := 1.0 + Units(tx.assets);
            var vt, ll := Portion(VtPot(p), TxValue(tx.assets), p.tvl),
                          Portion(LovelacePot(p), TxValue(tx.assets), p.tvl);
            vt - slack <= c.vt <= vt && ll - slack <= c.lovelace <= ll
  {
    var claimed := Claimed(txs, p.values);
    var claims := ClaimsFor(claimed, p);
    ClaimedAreTxs(txs, p.values);
    ClaimedAreDistinct(txs, p.values);
    assert DistinctClaims(claims);
    var tx := claimed[j];
    assert tx in txs;
    var k :| 0 <= k < |txs| && txs[k] == tx;
    ValueOfEachTx(txs, k);
    TotalWithDistinctIds(txs);
    SumOfValuesNonNegative(txs);
    UserTotalCoversTx(txs, k);
    ClaimIsFlooredPortion(tx, p);
    EachClaimRecalculatedOnce(claims, txs, p.values, j, k);
    RecalculationLosesLessThanUnits(claims[j].vt, tx.assets);
    RecalculationLosesLessThanUnits(claims[j].lovelace, tx.assets);
  }

  /** Slack of all claims: one for each claim's own floor and one per unit contributed. */
  ghost function Dust(claimed: seq<ContributorTx>): real {
    Sum(UnitsOfEach(claimed)) + |claimed| as real
  }

  ghost function Added(xs: seq<real>, ys: seq<real>): seq<real>
    requires |xs| == |ys|
  {
    seq(|xs|, i requires 0 <= i < |xs| => xs[i] + ys[i])
  }

  lemma {:induction false} SumOfSums(xs: seq<real>, ys: seq<real>)
    requires |xs| == |ys|
    ensures Sum(Added(xs, ys)) == Sum(xs) + Sum(ys)
  {
    if xs != [] {
      SumOfSums(Init(xs), Init(ys));
      assert Init(Added(xs, ys)) == Added(Init(xs), Init(ys));
    }
  }

  /** Together the contributors' recalculated claims never exceed the VT pot nor the lovelace pot, and leave less than
      one per claim and per unit undistributed. */
  lemma ContributorsShareThePot(txs: seq<ContributorTx>, p: Pool)
    requires SaneContributions(txs) && PoolFor(p, txs) && p.tvl > 0.0
    ensures var claims, dust := RecalculationOf(txs, p).claims, Dust(Claimed(txs, p.values));
            && VtPot(p) - dust <= Sum(Vts(claims)) <= VtPot(p)
            && LovelacePot(p) - dust <= Sum(Lovelaces(claims)) <= LovelacePot(p)
  {
    var claimed := Claimed(txs, p.values);
    var claims := RecalculationOf(txs, p).claims;
    RecalculationKeepsIds(ClaimsFor(claimed, p), txs, p.values);
    var units, ones := UnitsOfEach(claimed), Ones(|claimed|);
    var slack := Added(units, ones);
    forall j | 0 <= j < |claimed|
      ensures Portions(VtPot(p), claimed, p.tvl)[j] - slack[j] <= Vts(claims)[j]
           <= Portions(VtPot(p), claimed, p.tvl)[j]
      ensures Portions(LovelacePot(p), claimed, p.tvl)[j] - slack[j] <= Lovelaces(claims)[j]
           <= Portions(LovelacePot(p), claimed, p.tvl)[j]
    {
      RecalculatedClaimBounds(txs, p, j);
    }
    SumBounds(Vts(claims), Portions(VtPot(p), claimed, p.tvl), slack);
    SumBounds(Lovelaces(claims), Portions(LovelacePot(p), claimed, p.tvl), slack);
    SumOfSums(units, ones);
    SumOfOnes(|claimed|);
    SumOfPortions(VtPot(p), claimed, p.tvl);
    SumOfPortions(LovelacePot(p), claimed, p.tvl);
    forall i | 0 <= i < |txs| ensures GetOrZero(p.values, txs[i].id) == TxValue(txs[i].assets) {
      ValueOfEachTx(txs, i);
    }
    ClaimedCarryAllValue(txs, p.values);
    TotalWithDistinctIds(txs);
    WholePortion(VtPot(p), p.tvl);
    WholePortion(LovelacePot(p), p.tvl);
  }

  // ----- Lovelace that can be paid -----

  /** What a claim can be paid: a negative one nothing. */
  ghost function PayableLovelace(claims: seq<ContributorClaim>): seq<real> {
    seq(|claims|, i requires 0 <= i < |claims| => if claims[i].lovelace > 0.0 then claims[i].lovelace else 0.0)
  }

  lemma {:induction false} SumBelow(xs: seq<real>, ys: seq<real>)
    requires |xs| == |ys| && forall i :: 0 <= i < |xs| ==> xs[i] <= ys[i]
    ensures Sum(xs) <= Sum(ys)
  {
    if xs != [] {
      SumBelow(Init(xs), Init(ys));
    }
  }

  lemma {:induction false} SumOfZeros(xs: seq<real>)
    requires forall i :: 0 <= i < |xs| ==> xs[i] == 0.0
    ensures Sum(xs) == 0.0
  {
    if xs != [] {
      SumOfZeros(Init(xs));
    }
  }

  /** The pool leaves the contributors something, or nothing but debts. */
  lemma PayableFromPot(txs: seq<ContributorTx>, p: Pool)
    requires SaneContributions(txs) && PoolFor(p, txs) && p.tvl > 0.0
    ensures var payable := Sum(PayableLovelace(RecalculationOf(txs, p).claims));
            if p.lpAda <= p.acquired then payable <= LovelacePot(p) else payable == 0.0
  {
    var claimed, claims := Claimed(txs, p.values), RecalculationOf(txs, p).claims;
    RecalculationKeepsIds(ClaimsFor(claimed, p), txs, p.values);
    ClaimedAreTxs(txs, p.values);
    var exact, payable := Portions(LovelacePot(p), claimed, p.tvl), PayableLovelace(claims);
    forall j | 0 <= j < |claimed|
      ensures if p.lpAda <= p.acquired then payable[j] <= exact[j] else payable[j] == 0.0
    {
      RecalculatedClaimBounds(txs, p, j);
      ClaimedValueIsPositive(txs, p, j);
      PortionSign(LovelacePot(p), TxValue(claimed[j].assets), p.tvl);
    }
    if p.lpAda <= p.acquired {
      SumBelow(payable, exact);
      ClaimedPortions(LovelacePot(p), txs, p);
    } else {
      SumOfZeros(payable);
    }
  }

  lemma ClaimedValueIsPositive(txs: seq<ContributorTx>, p: Pool, j: nat)
    requires SaneContributions(txs) && PoolFor(p, txs) && j < |Claimed(txs, p.values)|
    ensures TxValue(Claimed(txs, p.values)[j].assets) > 0.0
  {
    ClaimedAreTxs(txs, p.values);
    var tx := Claimed(txs, p.values)[j];
    var k :| 0 <= k < |txs| && txs[k] == tx;
    ValueOfEachTx(txs, k);
  }

  /** The exact portions of the claimed contributions are the whole amount. */
  lemma ClaimedPortions(amount: real, txs: seq<ContributorTx>, p: Pool)
    requires SaneContributions(txs) && PoolFor(p, txs) && p.tvl > 0.0
    ensures Sum(Portions(amount, Claimed(txs, p.values), p.tvl)) == amount
  {
    SumOfPortions(amount, Claimed(txs, p.values), p.tvl);
    forall i | 0 <= i < |txs| ensures GetOrZero(p.values, txs[i].id) == TxValue(txs[i].assets) {
      ValueOfEachTx(txs, i);
    }
    ClaimedCarryAllValue(txs, p.values);
    TotalWithDistinctIds(txs);
    WholePortion(amount, p.tvl);
  }

  /** What the pool takes and what the contributors can be paid stay within what was acquired if and only if the pool is
      covered; if it is not, the contributors are owed nothing and the pool alone exceeds it. */
  lemma LovelaceIsConserved(txs: seq<ContributorTx>, p: Pool)
    requires SaneContributions(txs) && PoolFor(p, txs) && p.tvl > 0.0
    ensures var payable := Sum(PayableLovelace(RecalculationOf(txs, p).claims));
            && (payable + p.lpAda * LOVELACE <= p.acquired * LOVELACE <==> p.lpAda <= p.acquired)
            && (p.lpAda > p.acquired ==> payable == 0.0)
            && (p.lpAda <= p.acquired ==>
                  p.acquired * LOVELACE - Dust(Claimed(txs, p.values)) <= payable + p.lpAda * LOVELACE)
  {
    PayableFromPot(txs, p);
    ContributorsShareThePot(txs, p);
    var claims := RecalculationOf(txs, p).claims;
    SumBelow(Lovelaces(claims), PayableLovelace(claims));
  }

  /** The same for a vault, in what its caller knows: the pool is covered if and only if its share of half the
      valuation, in lovelace, is less than half a lovelace above the whole lovelace acquired. */
  lemma VaultLovelaceIsConserved(v: VaultConfig, acquisitions: seq<AcquirerTx>, contributions: seq<ContributorTx>,
                                 optimal: nat)
    requires SaneContributions(contributions) && Offered(v) <= 1.0
    requires SumOfValues(contributions) > 0.0
    ensures var p := PoolOf(v, acquisitions, contributions, optimal);
            var payable := Sum(PayableLovelace(RecalculationOf(contributions, p).claims));
            payable + p.lpAda * LOVELACE <= p.acquired * LOVELACE <==>
            PoolIsCovered(TotalAcquired(acquisitions), SumOfValues(contributions), Offered(v), LpFraction(v))
  {
    var p := PoolOf(v, acquisitions, contributions, optimal);
    TotalWithDistinctIds(contributions);
    LovelaceIsConserved(contributions, p);
    CoveredExactly(Supply(v, v.decimals), p.acquired, p.tvl, Offered(v), LpFraction(v));
  }

  // ----- What the acquirers get -----

  ghost function AcquirerVts(claims: seq<AcquirerClaim>): seq<real> {
    seq(|claims|, i requires 0 <= i < |claims| => claims[i].vt)
  }

  lemma {:induction false} MinIsLeast(claims: seq<AcquirerClaim>)
    requires claims != []
    ensures forall i :: 0 <= i < |claims| ==> MinMultiplier(claims) <= claims[i].multiplier
    ensures exists i :: 0 <= i < |claims| && MinMultiplier(claims) == claims[i].multiplier
  {
    if |claims| == 1 {
      assert MinMultiplier(claims) == claims[0].multiplier;
    } else {
      var init := Init(claims);
      MinIsLeast(init);
      var i :| 0 <= i < |init| && MinMultiplier(init) == init[i].multiplier;
      assert claims[i] == init[i] && claims[|init|] == Last(claims);
    }
  }

  lemma VtForMonotone(m: int, n: int, ada: real)
    requires m <= n && ada >= 0.0
    ensures VtFor(m, ada) <= VtFor(n, ada)
  {
    Scale(m as real, n as real, ada);
  }

  /** Whatever multipliers the formula produced, normalising to the smallest takes from everyone and gives to no one. */
  lemma NormalizationOnlyTakes(claims: seq<AcquirerClaim>, i: nat)
    requires i < |claims| && claims[i].adaSent >= 0.0 && claims[i].vt == VtFor(claims[i].multiplier, claims[i].adaSent)
    ensures Normalized(claims)[i].vt <= claims[i].vt
    ensures Normalized(claims)[i].multiplier == MinMultiplier(claims)
  {
    MinIsLeast(claims);
    VtForMonotone(MinMultiplier(claims), claims[i].multiplier, claims[i].adaSent);
  }

  ghost function CommonMultiplier(total: real, lpVt: real, supply: real, offered: real): int
    requires total != 0.0
  {
    Floor(offered * (supply - lpVt) / (total * LOVELACE))
  }

  lemma VtForAdds(m: int, a: real, b: real)
    ensures VtFor(m, a + b) == VtFor(m, a) + VtFor(m, b)
    ensures VtFor(m, 0.0) == 0.0
  {
    Distribute(m as real, a, b);
  }

  /** In exact arithmetic all multipliers agree and every acquirer claim is the common multiplier times what was sent.
      */
  lemma {:induction false} RawClaimsShareMultiplier(txs: seq<AcquirerTx>, total: real, lpVt: real, supply: real,
                                                    offered: real)
    requires total > 0.0 && forall i :: 0 <= i < |txs| ==> txs[i].amount >= 0.0
    ensures var raw := RawAcquirers(txs, total, lpVt, supply, offered);
            var m := CommonMultiplier(total, lpVt, supply, offered);
            && (forall i :: 0 <= i < |raw| ==> raw[i].multiplier == m && raw[i].vt == VtFor(m, raw[i].adaSent))
            && Sum(AcquirerVts(raw)) == VtFor(m, TotalAcquired(txs))
  {
    var m := CommonMultiplier(total, lpVt, supply, offered);
    if txs == [] {
      VtForAdds(m, 0.0, 0.0);
    } else {
      var init, tx := Init(txs), Last(txs);
      assert forall i :: 0 <= i < |init| ==> init[i] == txs[i];
      RawClaimsShareMultiplier(init, total, lpVt, supply, offered);
      VtForAdds(m, TotalAcquired(init), tx.amount);
      var before := RawAcquirers(init, total, lpVt, supply, offered);
      assert tx == txs[|init|];
      if tx.amount > 0.0 {
        var last := RawAcquirer(tx, total, lpVt, supply, offered);
        AcquirerMultiplierIsCommon(tx.amount, supply, offered, total, lpVt);
        assert Init(AcquirerVts(before + [last])) == AcquirerVts(before);
      } else {
        assert RawAcquirers(txs, total, lpVt, supply, offered) == before;
      }
    }
  }

  lemma NormalizedByCommon(raw: seq<AcquirerClaim>, m: int)
    requires forall i :: 0 <= i < |raw| ==> raw[i].multiplier == m && raw[i].vt == VtFor(m, raw[i].adaSent)
    ensures Normalized(raw) == raw
  {
    if raw != [] {
      MinIsLeast(raw);
    }
  }

  /** So normalisation changes nothing, and the acquirers together get their share of the supply, short by less than one
      unit per lovelace sent. */
  lemma AcquirersShareTheirPart(txs: seq<AcquirerTx>, total: real, lpVt: real, supply: real, offered: real)
    requires total == TotalAcquired(txs) > 0.0 && forall i :: 0 <= i < |txs| ==> txs[i].amount >= 0.0
    requires 0.0 <= offered && lpVt <= supply
    ensures var raw, part := RawAcquirers(txs, total, lpVt, supply, offered), offered * (supply - lpVt);
            && Normalized(raw) == raw
            && part - total * LOVELACE < Sum(AcquirerVts(raw)) <= part
  {
    RawClaimsShareMultiplier(txs, total, lpVt, supply, offered);
    NormalizedByCommon(RawAcquirers(txs, total, lpVt, supply, offered), CommonMultiplier(total, lpVt, supply, offered));
    CommonGets(total, lpVt, supply, offered);
  }

  lemma CommonGets(total: real, lpVt: real, supply: real, offered: real)
    requires total > 0.0 && 0.0 <= offered && lpVt <= supply
    ensures var part := offered * (supply - lpVt);
            part - total * LOVELACE < VtFor(CommonMultiplier(total, lpVt, supply, offered), total) <= part
  {
    PartNonNegative(offered, supply - lpVt);
    FlooredShare(offered * (supply - lpVt), total);
  }

  lemma PartNonNegative(x: real, y: real)
    requires x >= 0.0 && y >= 0.0
    ensures x * y >= 0.0
  {
  }

  // ----- The grand total -----

  ghost predicate SaneVault(v: VaultConfig, acquisitions: seq<AcquirerTx>) {
    && v.supply >= 0.0 && 0.0 <= v.tokensForAcquires <= 100.0 && 0.0 <= v.liquidityPool <= 100.0
    && forall i :: 0 <= i < |acquisitions| ==> acquisitions[i].amount >= 0.0
  }

  ghost predicate SaneInput(v: VaultConfig, acquisitions: seq<AcquirerTx>, contributions: seq<ContributorTx>) {
    SaneVault(v, acquisitions) && SaneContributions(contributions)
  }

  lemma {:induction false} TotalAcquiredNonNegative(txs: seq<AcquirerTx>)
    requires forall i :: 0 <= i < |txs| ==> txs[i].amount >= 0.0
    ensures TotalAcquired(txs) >= 0.0 && Shareable(txs, TotalAcquired(txs))
  {
    if txs != [] {
      assert forall i :: 0 <= i < |Init(txs)| ==> Init(txs)[i] == txs[i];
      TotalAcquiredNonNegative(Init(txs));
      assert Last(txs) == txs[|txs| - 1];
      assert forall i :: 0 <= i < |txs| - 1 ==> txs[i] == Init(txs)[i];
    }
  }

  lemma {:induction false} NothingSentNothingClaimed(txs: seq<AcquirerTx>, lpVt: real, supply: real, offered: real)
    requires forall i :: 0 <= i < |txs| ==> txs[i].amount >= 0.0
    requires TotalAcquired(txs) == 0.0 && Shareable(txs, 0.0)
    ensures RawAcquirers(txs, 0.0, lpVt, supply, offered) == []
  {
    if txs != [] {
      assert forall i :: 0 <= i < |Init(txs)| ==> Init(txs)[i] == txs[i];
      TotalAcquiredNonNegative(Init(txs));
      assert Last(txs) == txs[|txs| - 1];
      NothingSentNothingClaimed(Init(txs), lpVt, supply, offered);
    }
  }

  lemma NothingWorthNothingClaimed(txs: seq<ContributorTx>, p: Pool)
    requires SaneContributions(txs) && PoolFor(p, txs) && p.tvl == 0.0
    ensures RecalculationOf(txs, p).claims == []
  {
    ClaimedAreTxs(txs, p.values);
    if Claimed(txs, p.values) != [] {
      RecalculatedClaimBounds(txs, p, 0);
    }
    RecalculationKeepsIds(ClaimsFor(Claimed(txs, p.values), p), txs, p.values);
  }

  lemma {:induction false} Pow10Positive(n: nat)
    ensures JsNumbers.Pow10(n) > 0
  {
    if n > 0 {
      Pow10Positive(n - 1);
    }
  }

  /** VT handed out by a successful transition: acquirers, contributors and the LP. */
  ghost function GrandTotal(acquirers: seq<AcquirerClaim>, contributors: seq<ContributorClaim>, lp: LpTokens): real {
    Sum(AcquirerVts(acquirers)) + Sum(Vts(contributors)) + lp.adjustedVt
  }

  /** The acquirers' part of the supply. */
  ghost function AcquirerPart(p: Pool): real {
    p.offered * (p.supply - p.lpVt)
  }

  lemma SplitSupply(p: Pool)
    ensures AcquirerPart(p) + VtPot(p) + p.lpVt == p.supply
  {
  }

  /** What holds of the pool whatever the contributions are. */
  lemma PoolSharesAreSane(v: VaultConfig, acquisitions: seq<AcquirerTx>, contributions: seq<ContributorTx>,
                          optimal: nat)
    requires SaneVault(v, acquisitions)
    ensures var p := PoolOf(v, acquisitions, contributions, optimal);
            var lp := LpFor(v, FinalDecimals(v, optimal), p.acquired, p.tvl);
            && PoolFor(p, contributions) && 0.0 <= p.offered && p.acquired >= 0.0 && p.supply >= 0.0
            && p.lpVt == lp.lpVt && 0.0 <= lp.adjustedVt <= lp.lpVt <= p.supply
            && (p.acquired > 0.0 ==> lp.lpVt - p.acquired * LOVELACE < lp.adjustedVt)
  {
    TotalAcquiredNonNegative(acquisitions);
    var decimals := FinalDecimals(v, optimal);
    Pow10Positive(decimals);
    PartNonNegative(v.supply, JsNumbers.Pow10(decimals) as real);
    LpAdjustedBounds(Supply(v, decimals), TotalAcquired(acquisitions), TotalValue(ValuesOf(contributions)), Offered(v),
                     LpFraction(v));
  }

  lemma PoolIsSane(v: VaultConfig, acquisitions: seq<AcquirerTx>, contributions: seq<ContributorTx>, optimal: nat)
    requires SaneInput(v, acquisitions, contributions)
    ensures PoolOf(v, acquisitions, contributions, optimal).tvl >= 0.0
  {
    TotalWithDistinctIds(contributions);
    SumOfValuesNonNegative(contributions);
  }

  /** Conservation: the transition never hands out more VT than the final supply; and when something was acquired and
      contributed, what it leaves is only dust: less than one unit per contributor claim and contributed unit, plus two
      per lovelace acquired. */
  lemma SupplyIsConserved(v: VaultConfig, acquisitions: seq<AcquirerTx>, contributions: seq<ContributorTx>,
                          optimal: nat)
    requires SaneInput(v, acquisitions, contributions)
    ensures var p := PoolOf(v, acquisitions, contributions, optimal);
            var lp := LpFor(v, FinalDecimals(v, optimal), p.acquired, p.tvl);
            && Shareable(acquisitions, p.acquired)
            && var total := GrandTotal(AcquirersOf(acquisitions, p), RecalculationOf(contributions, p).claims, lp);
               && total <= p.supply
               && (p.acquired > 0.0 && p.tvl > 0.0 ==>
                     p.supply - (2.0 * (p.acquired * LOVELACE) + Dust(Claimed(contributions, p.values))) < total)
  {
    var p := PoolOf(v, acquisitions, contributions, optimal);
    PoolSharesAreSane(v, acquisitions, contributions, optimal);
    PoolIsSane(v, acquisitions, contributions, optimal);
    TotalAcquiredNonNegative(acquisitions);
    AcquirersTotal(acquisitions, p);
    ContributorsTotal(contributions, p);
    SplitSupply(p);
  }

  lemma AcquirersTotal(txs: seq<AcquirerTx>, p: Pool)
    requires forall i :: 0 <= i < |txs| ==> txs[i].amount >= 0.0
    requires p.acquired == TotalAcquired(txs) && 0.0 <= p.offered && p.lpVt <= p.supply
    ensures Shareable(txs, p.acquired)
    ensures var total := Sum(AcquirerVts(AcquirersOf(txs, p)));
            && total <= AcquirerPart(p)
            && (p.acquired > 0.0 ==> AcquirerPart(p) - p.acquired * LOVELACE < total)
  {
    TotalAcquiredNonNegative(txs);
    if p.acquired > 0.0 {
      AcquirersShareTheirPart(txs, p.acquired, p.lpVt, p.supply, p.offered);
    } else {
      NoAcquirers(txs, p);
    }
  }

  lemma NoAcquirers(txs: seq<AcquirerTx>, p: Pool)
    requires forall i :: 0 <= i < |txs| ==> txs[i].amount >= 0.0
    requires p.acquired == TotalAcquired(txs) == 0.0 && 0.0 <= p.offered && p.lpVt <= p.supply
    requires Shareable(txs, p.acquired)
    ensures Sum(AcquirerVts(AcquirersOf(txs, p))) == 0.0 <= AcquirerPart(p)
  {
    NothingSentNothingClaimed(txs, p.lpVt, p.supply, p.offered);
    PartNonNegative(p.offered, p.supply - p.lpVt);
  }

  lemma ContributorsTotal(txs: seq<ContributorTx>, p: Pool)
    requires SaneContributions(txs) && PoolFor(p, txs) && p.tvl >= 0.0 && p.lpVt <= p.supply
    ensures var total := Sum(Vts(RecalculationOf(txs, p).claims));
            total <= VtPot(p) && (p.tvl > 0.0 ==> VtPot(p) - Dust(Claimed(txs, p.values)) <= total)
  {
    if p.tvl > 0.0 {
      ContributorsShareThePot(txs, p);
    } else {
      NothingWorthNothingClaimed(txs, p);
      PartNonNegative(p.supply - p.lpVt, 1.0 - p.offered);
    }
  }

  // ----- Acquirers who get nothing -----

  /** The decimal check is meant to keep small multipliers from being floored to zero, but it is handed one that is
      floored already: whatever the vault and the transactions, the acquirers have no say in its answer. */
  lemma DecimalsIgnoreAcquirers(v: VaultConfig, acquired: real, tvl: real)
    ensures OptimalFor(v, acquired, tvl) ==
            if ExtraForLp(LpRatio(v, acquired, tvl)) > 0 then MAX_DECIMALS else MIN_DECIMALS
  {
    var supply := Supply(v, v.decimals);
    if supply > 0.0 && acquired > 0.0 {
      FlooredMultiplierIsIgnored((supply - LpFor(v, v.decimals, acquired, tvl).lpVt) * Offered(v) / acquired / LOVELACE,
                                 LpRatio(v, acquired, tvl));
    }
    FlooredMultiplierIsIgnored(0.0, LpRatio(v, acquired, tvl));
  }

  /** The ratio the check looks at is the one the pool's multiplier is floored from. */
  lemma LpRatioIsUnfloored(v: VaultConfig, acquired: real, tvl: real)
    ensures var r, lp := LpRatio(v, acquired, tvl), LpFor(v, v.decimals, acquired, tvl);
            && (r.None? <==> v.liquidityPool == 0.0 || (v.tokensForAcquires == 0.0 && tvl == 0.0))
            && (r.Some? ==> Floor(r.value) == lp.adaPairMultiplier)
            && (r.Some? && acquired > 0.0 ==> r.value * (acquired * LOVELACE) == lp.lpVt)
  {
    var r := LpRatio(v, acquired, tvl);
    if r.Some? && acquired > 0.0 {
      ScaledUp(acquired);
      QuotientTimes(LpFor(v, v.decimals, acquired, tvl).lpVt, acquired * LOVELACE);
    }
  }

  lemma QuotientTimes(y: real, q: real)
    requires q > 0.0
    ensures y / q * q == y
  {
  }

  lemma FloorIsZeroIff(part: real, whole: real)
    requires part >= 0.0 && whole > 0.0
    ensures Floor(part / whole) == 0 <==> part < whole
  {
    var q := part / whole;
    QuotientSign(part, whole);
    assert whole * q == part;
    if q < 1.0 {
      FractionOfUnit(q, whole);
    } else {
      Scale(1.0, q, whole);
    }
  }

  ghost predicate GetsNothing(c: AcquirerClaim) {
    c.multiplier == 0 && c.vt == 0.0
  }

  lemma CommonIsZeroIff(total: real, lpVt: real, supply: real, offered: real)
    requires total > 0.0 && 0.0 <= offered && lpVt <= supply
    ensures CommonMultiplier(total, lpVt, supply, offered) == 0 <==> offered * (supply - lpVt) < total * LOVELACE
  {
    PartNonNegative(offered, supply - lpVt);
    ScaledUp(total);
    FloorIsZeroIff(offered * (supply - lpVt), total * LOVELACE);
  }

  lemma {:induction false} AcquirersShareMultiplier(txs: seq<AcquirerTx>, p: Pool, i: nat)
    requires (forall k :: 0 <= k < |txs| ==> txs[k].amount >= 0.0) && i < |txs| && txs[i].amount > 0.0
    requires p.acquired == TotalAcquired(txs) > 0.0
    ensures Shareable(txs, p.acquired) && AcquirersOf(txs, p) != []
    ensures var m, claims := CommonMultiplier(p.acquired, p.lpVt, p.supply, p.offered), AcquirersOf(txs, p);
            forall k :: 0 <= k < |claims| ==> claims[k].multiplier == m && claims[k].vt == VtFor(m, claims[k].adaSent)
  {
    var raw := RawAcquirers(txs, p.acquired, p.lpVt, p.supply, p.offered);
    RawClaimsShareMultiplier(txs, p.acquired, p.lpVt, p.supply, p.offered);
    NormalizedByCommon(raw, CommonMultiplier(p.acquired, p.lpVt, p.supply, p.offered));
    SenderHasClaim(txs, p, i);
  }

  lemma AllOrNone(raw: seq<AcquirerClaim>, m: int)
    requires raw != []
    requires forall i :: 0 <= i < |raw| ==> raw[i].multiplier == m && raw[i].vt == VtFor(m, raw[i].adaSent)
    ensures m == 0 <==> forall c :: c in raw ==> GetsNothing(c)
  {
    assert raw[0] in raw;
  }

  lemma {:induction false} NothingIff(txs: seq<AcquirerTx>, p: Pool, i: nat)
    requires (forall k :: 0 <= k < |txs| ==> txs[k].amount >= 0.0) && i < |txs| && txs[i].amount > 0.0
    requires p.acquired == TotalAcquired(txs) && 0.0 <= p.offered && p.lpVt <= p.supply
    ensures p.acquired > 0.0 && Shareable(txs, p.acquired)
    ensures AcquirerPart(p) < p.acquired * LOVELACE <==> forall c :: c in AcquirersOf(txs, p) ==> GetsNothing(c)
  {
    SomeoneSent(txs, i);
    CommonIsZeroIff(p.acquired, p.lpVt, p.supply, p.offered);
    AcquirersShareMultiplier(txs, p, i);
    AllOrNone(AcquirersOf(txs, p), CommonMultiplier(p.acquired, p.lpVt, p.supply, p.offered));
  }

  /** So every acquirer ends with multiplier zero, and nothing, exactly when their part of the final supply is less
      than one unit per lovelace. */
  lemma {:induction false} AcquirersGetNothingIff(v: VaultConfig, acquisitions: seq<AcquirerTx>,
                                                  contributions: seq<ContributorTx>, i: nat)
    requires SaneVault(v, acquisitions) && i < |acquisitions| && acquisitions[i].amount > 0.0
    ensures var acquired := TotalAcquired(acquisitions);
            var p := PoolOf(v, acquisitions, contributions,
                            OptimalFor(v, acquired, TotalValue(ValuesOf(contributions))));
            && p.acquired > 0.0 && Shareable(acquisitions, p.acquired)
            && (AcquirerPart(p) < p.acquired * LOVELACE <==>
                  forall c :: c in AcquirersOf(acquisitions, p) ==> GetsNothing(c))
  {
    var optimal := OptimalFor(v, TotalAcquired(acquisitions), TotalValue(ValuesOf(contributions)));
    var p := PoolOf(v, acquisitions, contributions, optimal);
    PoolSharesAreSane(v, acquisitions, contributions, optimal);
    NothingIff(acquisitions, p, i);
  }

  lemma {:induction false} SomeoneSent(txs: seq<AcquirerTx>, i: nat)
    requires (forall k :: 0 <= k < |txs| ==> txs[k].amount >= 0.0) && i < |txs|
    ensures TotalAcquired(txs) >= txs[i].amount
  {
    var init := Init(txs);
    assert forall k :: 0 <= k < |init| ==> init[k] == txs[k];
    TotalAcquiredNonNegative(init);
    if i < |init| {
      SomeoneSent(init, i);
    }
  }

  lemma {:induction false} SenderHasClaim(txs: seq<AcquirerTx>, p: Pool, i: nat)
    requires Shareable(txs, p.acquired) && i < |txs| && txs[i].amount > 0.0
    ensures RawAcquirers(txs, p.acquired, p.lpVt, p.supply, p.offered) != []
  {
    var init := Init(txs);
    assert forall k :: 0 <= k < |init| ==> init[k] == txs[k];
    if i < |init| {
      SenderHasClaim(init, p, i);
    }
  }

  const SENDER := AcquirerTx("a", "u", 1.0)

  const TENTH := VaultConfig(1.0, 6, 10.0, 0.0)

  lemma TenthOfAUnit(tvl: real)
    ensures OptimalFor(TENTH, 1.0, tvl) == 6 && Supply(TENTH, 6) == 1000000.0
    ensures LpFor(TENTH, 6, 1.0, tvl).lpVt == 0.0
  {
    DecimalsIgnoreAcquirers(TENTH, 1.0, tvl);
    assert JsNumbers.Pow10(6) == 10 * (10 * (10 * (10 * (10 * (10 * JsNumbers.Pow10(0))))));
  }

  /** It happens: of a million units a tenth is offered for one ADA, a tenth of a unit per lovelace. One more decimal
      would do, and the check would ask for it if it saw the tenth. */
  lemma NothingForOneAda(contributions: seq<ContributorTx>)
    ensures var p := PoolOf(TENTH, [SENDER], contributions,
                            OptimalFor(TENTH, 1.0, TotalValue(ValuesOf(contributions))));
            AcquirerPart(p) == 100000.0 < p.acquired * LOVELACE
    ensures CalculateOptimalDecimals(Some(0.1), None) == 7
  {
    TenthOfAUnit(TotalValue(ValuesOf(contributions)));
    assert TotalAcquired([SENDER]) == TotalAcquired([]) + 1.0;
    assert DigitsUntilOne(0.1) == 1 + DigitsUntilOne(1.0);
  }
}
