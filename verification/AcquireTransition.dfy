/**
 The acquire-to-governance transition: value totals, LP, acquirer and contributor claims, the recalculation of
 contributor claims as quantity times floored per-unit share, and the exported multiplier table.

 The methods follow the source's loops and overwrite claims in place; the functions say what the loops compute, over
 prefixes of the transactions. Amounts are exact reals.
 */
module AcquireTransition {
  import opened Wrappers
  import JsNumbers
  import opened JsMaps
  import opened Sequences
  import opened DistributionMath
  import opened OptimalDecimals

  datatype AcquirerTx = AcquirerTx(id: string, userId: string, amount: real)

  datatype Asset = Asset(policyId: string, assetName: Option<string>, quantity: real, floorPrice: real)

  datatype ContributorTx = ContributorTx(id: string, userId: string, assets: seq<Asset>)

  datatype VaultConfig = VaultConfig(supply: real, decimals: nat, tokensForAcquires: real, liquidityPool: real)

  datatype AcquirerClaim = AcquirerClaim(txId: string, userId: string, adaSent: real, vt: real, multiplier: int)

  datatype ContributorClaim = ContributorClaim(txId: string, userId: string, value: real, vt: real, lovelace: real)

  // ----- Steps 1 and 2: totals -----

  function TotalAcquired(txs: seq<AcquirerTx>): real {
    if txs == [] then 0.0 else TotalAcquired(Init(txs)) + Last(txs).amount
  }

  function AssetValue(a: Asset): real {
    a.quantity * a.floorPrice
  }

  function TxValue(assets: seq<Asset>): real {
    if assets == [] then 0.0 else TxValue(Init(assets)) + AssetValue(Last(assets))
  }

  /** contributionValueByTransaction: by transaction id, a later one with the same id overwriting. */
  function ValuesOf(txs: seq<ContributorTx>): JsMap<string, real> {
    if txs == [] then Empty() else Set(ValuesOf(Init(txs)), Last(txs).id, TxValue(Last(txs).assets))
  }

  function GetOrZero(m: JsMap<string, real>, k: string): real {
    Get(m, k, 0.0)
  }

  /** userContributedValueMap: by user, accumulating. */
  function UsersOf(txs: seq<ContributorTx>): JsMap<string, real> {
    if txs == [] then Empty() else AddToUser(UsersOf(Init(txs)), Last(txs))
  }

  function SumOver(keys: seq<string>, values: JsMap<string, real>): real {
    if keys == [] then 0.0 else SumOver(Init(keys), values) + GetOrZero(values, Last(keys))
  }

  /** Total value locked: the sum of the values of contributionValueByTransaction. */
  function TotalValue(values: JsMap<string, real>): real {
    SumOver(values.keys, values)
  }

  method SumAmounts(txs: seq<AcquirerTx>) returns (sum: real)
    ensures sum == TotalAcquired(txs)
  {
    sum := 0.0;
    for i := 0 to |txs|
      invariant sum == TotalAcquired(txs[..i])
    {
      assert Init(txs[..i + 1]) == txs[..i];
      sum := sum + txs[i].amount;
    }
    assert txs[..|txs|] == txs;
  }

  method SumAssets(assets: seq<Asset>) returns (sum: real)
    ensures sum == TxValue(assets)
  {
    sum := 0.0;
    for i := 0 to |assets|
      invariant sum == TxValue(assets[..i])
    {
      assert Init(assets[..i + 1]) == assets[..i];
      sum := sum + AssetValue(assets[i]);
    }
    assert assets[..|assets|] == assets;
  }

  lemma ValuesNext(txs: seq<ContributorTx>, i: nat)
    requires i < |txs|
    ensures ValuesOf(txs[..i + 1]) == Set(ValuesOf(txs[..i]), txs[i].id, TxValue(txs[i].assets))
  {
    assert Init(txs[..i + 1]) == txs[..i];
  }

  function AddToUser(users: JsMap<string, real>, tx: ContributorTx): JsMap<string, real> {
    Set(users, tx.userId, GetOrZero(users, tx.userId) + TxValue(tx.assets))
  }

  lemma UsersNext(txs: seq<ContributorTx>, i: nat)
    requires i < |txs|
    ensures UsersOf(txs[..i + 1]) == AddToUser(UsersOf(txs[..i]), txs[i])
  {
    assert Init(txs[..i + 1]) == txs[..i];
  }

  method ValueTotals(txs: seq<ContributorTx>)
    returns (values: JsMap<string, real>, users: JsMap<string, real>, total: real)
    ensures values == ValuesOf(txs) && users == UsersOf(txs) && total == TotalValue(values)
  {
    values, users := Empty(), Empty();
    for i := 0 to |txs|
      invariant values == ValuesOf(txs[..i]) && users == UsersOf(txs[..i])
    {
      ValuesNext(txs, i);
      UsersNext(txs, i);
      var txValue := SumAssets(txs[i].assets);
      values := Set(values, txs[i].id, txValue);
      users := Set(users, txs[i].userId, GetOrZero(users, txs[i].userId) + txValue);
    }
    assert txs[..|txs|] == txs;
    total := TotalValue(values);
  }

  // ----- Step 5: acquirer claims, normalised to the smallest multiplier -----

  /** Whoever sends something needs a total to be measured against. */
  predicate Shareable(txs: seq<AcquirerTx>, total: real) {
    forall i :: 0 <= i < |txs| && txs[i].amount > 0.0 ==> total != 0.0
  }

  /** The multiplier with JavaScript's division. */
  ghost function JsMultiplier(adaSent: real, supply: real, offered: real, total: real, lpVt: real): JsNumbers.Num
    requires adaSent > 0.0
  {
    var received := JsNumbers.Times(supply - lpVt, JsNumbers.Times(offered, JsNumbers.Div(adaSent, total)));
    JsNumbers.Floored(JsNumbers.Times(1.0 / LOVELACE, JsNumbers.Times(1.0 / adaSent, received)))
  }

  /** Who sends something against a total of zero gets a multiplier that is no finite number, and nobody else does. */
  lemma MultiplierIsFiniteIff(adaSent: real, supply: real, offered: real, total: real, lpVt: real)
    requires adaSent > 0.0
    ensures JsMultiplier(adaSent, supply, offered, total, lpVt).Fin? <==> total != 0.0
  {
    if total == 0.0 {
      assert !JsNumbers.Times(offered, JsNumbers.Div(adaSent, total)).Fin?;
    }
  }

  /** What a multiplier gives for an amount of ADA: multiplier times lovelace. */
  function VtFor(multiplier: int, ada: real): real {
    multiplier as real * ada * LOVELACE
  }

  function RawAcquirer(tx: AcquirerTx, total: real, lpVt: real, supply: real, offered: real): AcquirerClaim
    requires tx.amount > 0.0 && total != 0.0
  {
    var m := AcquirerMultiplier(tx.amount, supply, offered, total, lpVt);
    AcquirerClaim(tx.id, tx.userId, tx.amount, VtFor(m, tx.amount), m)
  }

  function RawAcquirers(txs: seq<AcquirerTx>, total: real, lpVt: real, supply: real, offered: real): seq<AcquirerClaim>
    requires Shareable(txs, total)
  {
    if txs == [] then []
    else
      RawAcquirers(Init(txs), total, lpVt, supply, offered)
      + if Last(txs).amount <= 0.0 then [] else [RawAcquirer(Last(txs), total, lpVt, supply, offered)]
  }

  function MinMultiplier(claims: seq<AcquirerClaim>): int
    requires claims != []
  {
    if |claims| == 1 then claims[0].multiplier
    else if MinMultiplier(Init(claims)) <= Last(claims).multiplier then MinMultiplier(Init(claims))
    else Last(claims).multiplier
  }

  function WithMultiplier(c: AcquirerClaim, m: int): AcquirerClaim {
    c.(vt := VtFor(m, c.adaSent), multiplier := m)
  }

  function Normalized(claims: seq<AcquirerClaim>): seq<AcquirerClaim> {
    if claims == [] then []
    else seq(|claims|, i requires 0 <= i < |claims| => WithMultiplier(claims[i], MinMultiplier(claims)))
  }

  method NormalizeInPlace(raw: seq<AcquirerClaim>) returns (claims: seq<AcquirerClaim>)
    ensures claims == Normalized(raw)
  {
    claims := raw;
    if |claims| > 0 {
      var min := claims[0].multiplier;
      assert raw[..1] == [raw[0]];
      for i := 1 to |raw|
        invariant min == MinMultiplier(raw[..i])
      {
        assert Init(raw[..i + 1]) == raw[..i];
        min := if min <= raw[i].multiplier then min else raw[i].multiplier;
      }
      assert raw[..|raw|] == raw;
      for i := 0 to |raw|
        invariant |claims| == |raw|
        invariant forall k :: 0 <= k < i ==> claims[k] == WithMultiplier(raw[k], min)
        invariant forall k :: i <= k < |raw| ==> claims[k] == raw[k]
      {
        claims := claims[i := WithMultiplier(claims[i], min)];
      }
    }
  }

  method AcquirerClaims(txs: seq<AcquirerTx>, total: real, lpVt: real, supply: real, offered: real)
    returns (claims: seq<AcquirerClaim>)
    requires Shareable(txs, total)
    ensures claims == Normalized(RawAcquirers(txs, total, lpVt, supply, offered))
  {
    claims := [];
    for i := 0 to |txs|
      invariant claims == RawAcquirers(txs[..i], total, lpVt, supply, offered)
    {
      assert Init(txs[..i + 1]) == txs[..i] && Last(txs[..i + 1]) == txs[i];
      if txs[i].amount > 0.0 {
        claims := claims + [RawAcquirer(txs[i], total, lpVt, supply, offered)];
      }
    }
    assert txs[..|txs|] == txs;
    claims := NormalizeInPlace(claims);
  }

  // ----- Step 6: contributor claims -----

  /** Everything the contributor formula needs besides the transaction. */
  datatype Pool = Pool(values: JsMap<string, real>, users: JsMap<string, real>, tvl: real, acquired: real,
                       lpAda: real, lpVt: real, supply: real, offered: real)

  function ClaimFor(tx: ContributorTx, p: Pool): ContributorClaim {
    var value := GetOrZero(p.values, tx.id);
    var t := CalculateContributorTokens(value, GetOrZero(p.users, tx.userId), p.tvl, p.lpVt, p.acquired, p.lpAda,
                                        p.supply, p.offered);
    ContributorClaim(tx.id, tx.userId, value, t.vt as real, t.lovelace as real)
  }

  /** The contributions that get a claim. */
  function Claimed(txs: seq<ContributorTx>, values: JsMap<string, real>): seq<ContributorTx> {
    if txs == [] then []
    else Claimed(Init(txs), values) + if GetOrZero(values, Last(txs).id) > 0.0 then [Last(txs)] else []
  }

  function ClaimsFor(txs: seq<ContributorTx>, p: Pool): seq<ContributorClaim> {
    seq(|txs|, i requires 0 <= i < |txs| => ClaimFor(txs[i], p))
  }

  method ContributorClaims(txs: seq<ContributorTx>, p: Pool) returns (claims: seq<ContributorClaim>)
    ensures claims == ClaimsFor(Claimed(txs, p.values), p)
  {
    claims := [];
    for i := 0 to |txs|
      invariant claims == ClaimsFor(Claimed(txs[..i], p.values), p)
    {
      assert Init(txs[..i + 1]) == txs[..i];
      if GetOrZero(p.values, txs[i].id) > 0.0 {
        claims := claims + [ClaimFor(txs[i], p)];
      }
    }
    assert txs[..|txs|] == txs;
  }

  // ----- Step 7: per-unit shares, recalculated claims, multiplier table -----

  function SharePerUnit(amount: real, txValue: real, a: Asset): int
    requires txValue != 0.0 && a.quantity != 0.0
  {
    PerUnit(Portion(amount, AssetValue(a), txValue), a.quantity)
  }

  predicate Countable(assets: seq<Asset>) {
    forall i :: 0 <= i < |assets| ==> assets[i].quantity != 0.0
  }

  function Paid(a: Asset, share: int): real {
    a.quantity * share as real
  }

  /** Sum of quantity times per-unit share. */
  function Recalculated(amount: real, txValue: real, assets: seq<Asset>): real
    requires txValue != 0.0 && Countable(assets)
  {
    if assets == [] then 0.0
    else
      Recalculated(amount, txValue, Init(assets))
      + Paid(Last(assets), SharePerUnit(amount, txValue, Last(assets)))
  }

  /** The same with JavaScript's division: a quantity of zero makes the share NaN. */
  ghost function JsRecalculated(amount: real, txValue: real, assets: seq<Asset>): JsNumbers.Num
    requires txValue != 0.0
  {
    if assets == [] then JsNumbers.Fin(0.0)
    else
      var a := Last(assets);
      var share := JsNumbers.Floored(JsNumbers.Div(Portion(amount, AssetValue(a), txValue), a.quantity));
      JsNumbers.Plus(JsRecalculated(amount, txValue, Init(assets)), JsNumbers.Times(a.quantity, share))
  }

  lemma JsShare(amount: real, txValue: real, a: Asset)
    requires txValue != 0.0
    ensures var share := JsNumbers.Floored(JsNumbers.Div(Portion(amount, AssetValue(a), txValue), a.quantity));
            JsNumbers.Times(a.quantity, share) ==
            if a.quantity == 0.0 then JsNumbers.NaN else JsNumbers.Fin(Paid(a, SharePerUnit(amount, txValue, a)))
  {
    if a.quantity == 0.0 {
      assert AssetValue(a) == 0.0;
      assert Portion(amount, 0.0, txValue) == 0.0;
    }
  }

  /** A recalculated amount is a number, and the one computed here, if and only if no quantity is zero; else it is
      NaN. */
  lemma {:induction false} NaNIffZeroQuantity(amount: real, txValue: real, assets: seq<Asset>)
    requires txValue != 0.0
    ensures JsRecalculated(amount, txValue, assets) ==
            if Countable(assets) then JsNumbers.Fin(Recalculated(amount, txValue, assets)) else JsNumbers.NaN
  {
    if assets != [] {
      NaNIffZeroQuantity(amount, txValue, Init(assets));
      JsShare(amount, txValue, Last(assets));
      CountableNext(assets);
    }
  }

  lemma CountableNext(assets: seq<Asset>)
    requires assets != []
    ensures Countable(assets) <==> Countable(Init(assets)) && Last(assets).quantity != 0.0
  {
    assert forall i :: 0 <= i < |Init(assets)| ==> Init(assets)[i] == assets[i];
    assert Last(assets) == assets[|assets| - 1];
  }

  datatype Key = Key(policyId: string, name: string)

  datatype Line = Line(key: Key, vt: int, ada: int)

  /** The table key of an asset: no name and the empty name are the same. */
  function KeyOf(a: Asset): Key {
    Key(a.policyId, if a.assetName.Some? then a.assetName.value else "")
  }

  function LineOf(c: ContributorClaim, txValue: real, a: Asset): Line
    requires txValue != 0.0 && a.quantity != 0.0
  {
    Line(KeyOf(a), SharePerUnit(c.vt, txValue, a), SharePerUnit(c.lovelace, txValue, a))
  }

  function LinesOf(c: ContributorClaim, txValue: real, assets: seq<Asset>): seq<Line>
    requires txValue != 0.0 && Countable(assets)
  {
    seq(|assets|, i requires 0 <= i < |assets| => LineOf(c, txValue, assets[i]))
  }

  datatype Entry = Entry(vt: int, ada: int, count: nat)

  type Table = JsMap<string, JsMap<string, Entry>>

  function AddToPolicy(policy: JsMap<string, Entry>, l: Line): JsMap<string, Entry> {
    var e := Get(policy, l.key.name, Entry(l.vt, l.ada, 0));
    Set(policy, l.key.name, e.(count := e.count + 1))
  }

  function AddLine(t: Table, l: Line): Table {
    Set(t, l.key.policyId, AddToPolicy(Get(t, l.key.policyId, Empty()), l))
  }

  function TableOf(lines: seq<Line>): Table {
    if lines == [] then Empty() else AddLine(TableOf(Init(lines)), Last(lines))
  }

  function FindClaim(claims: seq<ContributorClaim>, txId: string): (r: Option<nat>)
    ensures r.Some? ==> r.value < |claims| && claims[r.value].txId == txId
    ensures r.Some? ==> forall i :: 0 <= i < r.value ==> claims[i].txId != txId
    ensures r.None? ==> forall i :: 0 <= i < |claims| ==> claims[i].txId != txId
  {
    if claims == [] then None
    else if claims[0].txId == txId then Some(0)
    else
      var r := FindClaim(claims[1..], txId);
      if r.Some? then Some(r.value + 1) else None
  }

  function Recalculate1(c: ContributorClaim, txValue: real, assets: seq<Asset>): ContributorClaim
    requires txValue != 0.0 && Countable(assets)
  {
    c.(vt := Recalculated(c.vt, txValue, assets), lovelace := Recalculated(c.lovelace, txValue, assets))
  }

  datatype Recalculation = Recalculation(claims: seq<ContributorClaim>, lines: seq<Line>)

  /** No contribution that gets a claim holds a quantity of zero. */
  predicate AllCountable(txs: seq<ContributorTx>, values: JsMap<string, real>) {
    forall i :: 0 <= i < |txs| && GetOrZero(values, txs[i].id) > 0.0 ==> Countable(txs[i].assets)
  }

  /** One turn of the recalculation loop. */
  function RecalculateTx(st: Recalculation, tx: ContributorTx, values: JsMap<string, real>): Recalculation
    requires GetOrZero(values, tx.id) > 0.0 ==> Countable(tx.assets)
  {
    var found := FindClaim(st.claims, tx.id);
    var txValue := GetOrZero(values, tx.id);
    if found.None? || txValue <= 0.0 then st
    else
      var c := st.claims[found.value];
      Recalculation(st.claims[found.value := Recalculate1(c, txValue, tx.assets)],
                    st.lines + LinesOf(c, txValue, tx.assets))
  }

  function RecalculateAll(claims: seq<ContributorClaim>, txs: seq<ContributorTx>, values: JsMap<string, real>)
    : Recalculation
    requires AllCountable(txs, values)
  {
    if txs == [] then Recalculation(claims, [])
    else RecalculateTx(RecalculateAll(claims, Init(txs), values), Last(txs), values)
  }

  lemma TallyNext(c: ContributorClaim, txValue: real, assets: seq<Asset>, i: nat, before: seq<Line>)
    requires txValue != 0.0 && Countable(assets) && i < |assets|
    ensures TallyOf(c, txValue, assets[..i + 1], before) ==
            Tallied(TallyOf(c, txValue, assets[..i], before), assets[i], LineOf(c, txValue, assets[i]))
  {
    assert Init(assets[..i + 1]) == assets[..i] && Last(assets[..i + 1]) == assets[i];
  }

  /** The inner loop: both sums and the table, asset by asset. */
  method RecalculateAssets(c: ContributorClaim, txValue: real, assets: seq<Asset>, ghost before: seq<Line>,
                           table: Table)
    returns (vt: real, lovelace: real, next: Table)
    requires txValue != 0.0 && Countable(assets) && table == TableOf(before)
    ensures vt == Recalculated(c.vt, txValue, assets) && lovelace == Recalculated(c.lovelace, txValue, assets)
    ensures next == TableOf(before + LinesOf(c, txValue, assets))
  {
    vt, lovelace, next := 0.0, 0.0, table;
    ghost var tally := Tally(0.0, 0.0, before);
    for i := 0 to |assets|
      invariant tally == TallyOf(c, txValue, assets[..i], before)
      invariant vt == tally.vt && lovelace == tally.lovelace && next == TableOf(tally.lines)
    {
      TallyNext(c, txValue, assets, i, before);
      var line := LineOf(c, txValue, assets[i]);
      vt := vt + Paid(assets[i], line.vt);
      lovelace := lovelace + Paid(assets[i], line.ada);
      AddLineNext(tally.lines, line);
      next := AddLine(next, line);
      tally := Tallied(tally, assets[i], line);
    }
    assert assets[..|assets|] == assets;
  }

  datatype Tally = Tally(vt: real, lovelace: real, lines: seq<Line>)

  ghost function Tallied(t: Tally, a: Asset, line: Line): Tally {
    Tally(t.vt + Paid(a, line.vt), t.lovelace + Paid(a, line.ada), t.lines + [line])
  }

  ghost function TallyOf(c: ContributorClaim, txValue: real, assets: seq<Asset>, before: seq<Line>): Tally
    requires txValue != 0.0 && Countable(assets)
  {
    Tally(Recalculated(c.vt, txValue, assets), Recalculated(c.lovelace, txValue, assets),
          before + LinesOf(c, txValue, assets))
  }

  lemma AddLineNext(lines: seq<Line>, line: Line)
    ensures TableOf(lines + [line]) == AddLine(TableOf(lines), line)
  {
    assert Init(lines + [line]) == lines;
  }

  method RecalculateClaims(start: seq<ContributorClaim>, txs: seq<ContributorTx>, values: JsMap<string, real>)
    returns (claims: seq<ContributorClaim>, table: Table)
    requires AllCountable(txs, values)
    ensures claims == RecalculateAll(start, txs, values).claims
    ensures table == TableOf(RecalculateAll(start, txs, values).lines)
  {
    claims, table := start, Empty();
    ghost var lines: seq<Line> := [];
    for i := 0 to |txs|
      invariant Recalculation(claims, lines) == RecalculateAll(start, txs[..i], values)
      invariant table == TableOf(lines)
    {
      assert Init(txs[..i + 1]) == txs[..i] && Last(txs[..i + 1]) == txs[i];
      var found := FindClaim(claims, txs[i].id);
      var txValue := GetOrZero(values, txs[i].id);
      if found.Some? && txValue > 0.0 {
        var c := claims[found.value];
        var vt, lovelace, next := RecalculateAssets(c, txValue, txs[i].assets, lines, table);
        table := next;
        lines := lines + LinesOf(c, txValue, txs[i].assets);
        claims := claims[found.value := c.(vt := vt, lovelace := lovelace)];
      }
    }
    assert txs[..|txs|] == txs;
  }

  // ----- The exported table -----

  datatype Row = Row(policyId: string, assetName: Option<string>, multiplier: int)

  function RowName(name: string): Option<string> {
    if name == "" then None else Some(name)
  }

  /** One exported row before it is split into the VT and the ADA list. */
  datatype Share = Share(key: Key, vt: int, ada: int)

  function PolicyShares(policyId: string, policy: JsMap<string, Entry>): seq<Share> {
    seq(|policy.keys|, i requires 0 <= i < |policy.keys| =>
      var e := Get(policy, policy.keys[i], Entry(0, 0, 0));
      Share(Key(policyId, policy.keys[i]), e.vt, e.ada))
  }

  function Shares(policies: seq<string>, t: Table): seq<Share> {
    if policies == [] then []
    else Shares(Init(policies), t) + PolicyShares(Last(policies), Get(t, Last(policies), Empty()))
  }

  function VtRow(s: Share): Row { Row(s.key.policyId, RowName(s.key.name), s.vt) }

  function AdaRow(s: Share): Row { Row(s.key.policyId, RowName(s.key.name), s.ada) }

  method ExportTable(table: Table) returns (vt: seq<Row>, ada: seq<Row>)
    ensures vt == VtRows(SharesOf(table), []) && ada == AdaRows(SharesOf(table))
  {
    vt, ada := [], [];
    ghost var shares: seq<Share> := [];
    for i := 0 to |table.keys|
      invariant shares == Shares(table.keys[..i], table)
      invariant |vt| == |ada| == |shares|
      invariant forall k :: 0 <= k < |shares| ==> vt[k] == VtRow(shares[k]) && ada[k] == AdaRow(shares[k])
    {
      assert Init(table.keys[..i + 1]) == table.keys[..i];
      var policyId := table.keys[i];
      var policy := Get(table, policyId, Empty());
      ghost var done := shares;
      ghost var added := PolicyShares(policyId, policy);
      for j := 0 to |policy.keys|
        invariant shares == done + added[..j]
        invariant |vt| == |ada| == |shares|
        invariant forall k :: 0 <= k < |shares| ==> vt[k] == VtRow(shares[k]) && ada[k] == AdaRow(shares[k])
      {
        var name := policy.keys[j];
        var data := Get(policy, name, Entry(0, 0, 0));
        vt := vt + [Row(policyId, RowName(name), data.vt)];
        ada := ada + [Row(policyId, RowName(name), data.ada)];
        assert added[..j + 1] == added[..j] + [added[j]];
        shares := shares + [added[j]];
      }
      assert added[..|policy.keys|] == added;
    }
    assert table.keys[..|table.keys|] == table.keys;
  }

  // ----- The whole transition -----

  datatype Transition =
    | InsufficientLiquidity(lpLovelace: int)
    | NotFinite  // an answer in which some amount is NaN or infinite
    | Success(decimals: nat, supply: real, lp: LpTokens, acquirers: seq<AcquirerClaim>,
              contributors: seq<ContributorClaim>, acquireMultiplier: seq<Row>, adaDistribution: seq<Row>)

  /** The decimals used: raised to the optimum, never lowered. */
  function FinalDecimals(v: VaultConfig, optimal: nat): nat {
    if optimal > v.decimals then optimal else v.decimals
  }

  function Supply(v: VaultConfig, decimals: nat): real {
    v.supply * (JsNumbers.Pow10(decimals) as real)
  }

  function Offered(v: VaultConfig): real { v.tokensForAcquires / 100.0 }

  function LpFraction(v: VaultConfig): real { v.liquidityPool / 100.0 }

  function LpFor(v: VaultConfig, decimals: nat, acquired: real, tvl: real): LpTokens {
    CalculateLpTokens(Supply(v, decimals), acquired, tvl, Offered(v), LpFraction(v))
  }

  /** The ratio the LP's multiplier is floored from; there is none without a pool. */
  function LpRatio(v: VaultConfig, acquired: real, tvl: real): Option<real> {
    if LpFraction(v) == 0.0 || (Offered(v) == 0.0 && Fdv(acquired, tvl, Offered(v)) == 0.0) then None
    else
      Some(if acquired > 0.0 then LpFor(v, v.decimals, acquired, tvl).lpVt / (acquired * LOVELACE) else 0.0)
  }

  /** The acquirers' multiplier at the vault's own decimals, floored before anyone looks at it. */
  function MinAcquirerMultiplier(v: VaultConfig, acquired: real, tvl: real): Option<real> {
    var supply := Supply(v, v.decimals);
    if supply > 0.0 && acquired > 0.0 then
      Some(Floor((supply - LpFor(v, v.decimals, acquired, tvl).lpVt) * Offered(v) / acquired / LOVELACE) as real)
    else None
  }

  /** The answer of the decimal check before any claim is created. */
  function OptimalFor(v: VaultConfig, acquired: real, tvl: real): nat {
    CalculateOptimalDecimals(MinAcquirerMultiplier(v, acquired, tvl), LpRatio(v, acquired, tvl))
  }

  /** What the LP step decides: too little liquidity, or the pool the claims are cut from. */
  function PoolOf(v: VaultConfig, acquisitions: seq<AcquirerTx>, contributions: seq<ContributorTx>,
                  optimal: nat): Pool {
    var acquired, values := TotalAcquired(acquisitions), ValuesOf(contributions);
    var decimals := FinalDecimals(v, optimal);
    Pool(values, UsersOf(contributions), TotalValue(values), acquired,
         LpFor(v, v.decimals, acquired, TotalValue(values)).lpAda,
         LpFor(v, decimals, acquired, TotalValue(values)).lpVt, Supply(v, decimals), Offered(v))
  }

  function AcquirersOf(txs: seq<AcquirerTx>, p: Pool): seq<AcquirerClaim>
    requires Shareable(txs, p.acquired)
  {
    Normalized(RawAcquirers(txs, p.acquired, p.lpVt, p.supply, p.offered))
  }

  function RecalculationOf(txs: seq<ContributorTx>, p: Pool): Recalculation
    requires AllCountable(txs, p.values)
  {
    RecalculateAll(ClaimsFor(Claimed(txs, p.values), p), txs, p.values)
  }

  function SharesOf(t: Table): seq<Share> {
    Shares(t.keys, t)
  }

  function VtRows(shares: seq<Share>, acquirers: seq<AcquirerClaim>): seq<Row> {
    seq(|shares|, i requires 0 <= i < |shares| => VtRow(shares[i]))
    + if acquirers == [] then [] else [Row("", Some(""), acquirers[0].multiplier)]
  }

  function AdaRows(shares: seq<Share>): seq<Row> {
    seq(|shares|, i requires 0 <= i < |shares| => AdaRow(shares[i]))
  }
}
