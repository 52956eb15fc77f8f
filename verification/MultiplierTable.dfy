/**
 The exported multiplier table: one row per distinct asset key, holding the first occurrence's shares, and when quantity
 times table entry reproduces every claim.
 */
module MultiplierTable {
  import opened Wrappers
  import opened JsMaps
  import opened Sequences
  import opened DistributionMath
  import opened AcquireTransition
  import opened TransitionConservation

  // ----- Looking a key up -----

  ghost function Lookup(t: Table, k: Key): Option<Entry> {
    if k.policyId in t.items && k.name in t.items[k.policyId].items
    then Some(t.items[k.policyId].items[k.name]) else None
  }

  ghost predicate WellKept(t: Table) {
    Ordered(t) && forall p :: p in t.items ==> Ordered(t.items[p])
  }

  lemma AddLineKeeps(t: Table, l: Line)
    requires WellKept(t)
    ensures WellKept(AddLine(t, l))
  {
    var policy := Get(t, l.key.policyId, Empty());
    SetKeepsOrdered(policy, l.key.name, AddToPolicy(policy, l).items[l.key.name]);
    SetKeepsOrdered(t, l.key.policyId, AddToPolicy(policy, l));
  }

  lemma AddLineLookup(t: Table, l: Line, k: Key)
    ensures Lookup(AddLine(t, l), k) ==
            if k != l.key then Lookup(t, k)
            else
              var e := if Lookup(t, k).Some? then Lookup(t, k).value else Entry(l.vt, l.ada, 0);
              Some(e.(count := e.count + 1))
  {
  }

  /** The first line with a key. */
  ghost function First(lines: seq<Line>, k: Key): Option<Line> {
    if lines == [] then None
    else if First(Init(lines), k).Some? then First(Init(lines), k)
    else if Last(lines).key == k then Some(Last(lines))
    else None
  }

  ghost function Occurrences(lines: seq<Line>, k: Key): nat {
    if lines == [] then 0 else Occurrences(Init(lines), k) + if Last(lines).key == k then 1 else 0
  }

  lemma {:induction false} FirstIsFirst(lines: seq<Line>, k: Key)
    ensures First(lines, k).Some? ==>
              exists i :: 0 <= i < |lines| && lines[i] == First(lines, k).value && lines[i].key == k
                          && forall j :: 0 <= j < i ==> lines[j].key != k
    ensures First(lines, k).None? ==> forall i :: 0 <= i < |lines| ==> lines[i].key != k
  {
    if lines != [] {
      var init := Init(lines);
      FirstIsFirst(init, k);
      assert forall j :: 0 <= j < |init| ==> init[j] == lines[j];
      if First(init, k).Some? {
        var i :| 0 <= i < |init| && init[i] == First(init, k).value && init[i].key == k
                 && forall j :: 0 <= j < i ==> init[j].key != k;
        assert lines[i] == First(lines, k).value;
      } else if Last(lines).key == k {
        assert lines[|init|] == First(lines, k).value;
      }
    }
  }

  lemma {:induction false} TableIsWellKept(lines: seq<Line>)
    ensures WellKept(TableOf(lines))
  {
    if lines != [] {
      TableIsWellKept(Init(lines));
      AddLineKeeps(TableOf(Init(lines)), Last(lines));
    }
  }

  /** The table maps a key to the shares of its first line, counting its lines, and to nothing if it has none. */
  ghost function FromFirst(lines: seq<Line>, k: Key): Option<Entry> {
    var f := First(lines, k);
    if f.Some? then Some(Entry(f.value.vt, f.value.ada, Occurrences(lines, k))) else None
  }

  lemma {:induction false} TableLookup(lines: seq<Line>, k: Key)
    ensures Lookup(TableOf(lines), k) == FromFirst(lines, k)
  {
    if lines != [] {
      var init, last := Init(lines), Last(lines);
      TableLookup(init, k);
      AddLineLookup(TableOf(init), last, k);
      NoFirstNoOccurrence(init, k);
      FromFirstNext(init, last, k);
      assert lines == init + [last];
    }
  }

  lemma FromFirstNext(init: seq<Line>, last: Line, k: Key)
    requires First(init, k).None? ==> Occurrences(init, k) == 0
    ensures FromFirst(init + [last], k) ==
            if k != last.key then FromFirst(init, k)
            else
              var e := if FromFirst(init, k).Some? then FromFirst(init, k).value else Entry(last.vt, last.ada, 0);
              Some(e.(count := e.count + 1))
  {
    assert Init(init + [last]) == init && Last(init + [last]) == last;
  }

  lemma {:induction false} NoFirstNoOccurrence(lines: seq<Line>, k: Key)
    ensures First(lines, k).None? ==> Occurrences(lines, k) == 0
  {
    if lines != [] {
      NoFirstNoOccurrence(Init(lines), k);
    }
  }

  // ----- The rows -----

  ghost predicate RowFor(shares: seq<Share>, i: nat, t: Table, policyId: string)
    requires i < |shares|
  {
    var e := Lookup(t, shares[i].key);
    && shares[i].key.policyId == policyId && e.Some?
    && shares[i].vt == e.value.vt && shares[i].ada == e.value.ada
  }

  lemma PolicyRows(t: Table, policyId: string)
    requires WellKept(t) && policyId in t.items
    ensures var rows := PolicyShares(policyId, t.items[policyId]);
            && (forall i :: 0 <= i < |rows| ==> RowFor(rows, i, t, policyId))
            && (forall i, j :: 0 <= i < j < |rows| ==> rows[i].key != rows[j].key)
            && (forall n :: n in t.items[policyId].items ==>
                  exists i :: 0 <= i < |rows| && rows[i].key == Key(policyId, n))
  {
    var policy, rows := t.items[policyId], PolicyShares(policyId, t.items[policyId]);
    forall n | n in policy.items ensures exists i :: 0 <= i < |rows| && rows[i].key == Key(policyId, n) {
      assert n in policy.keys;
      var i :| 0 <= i < |policy.keys| && policy.keys[i] == n;
      assert rows[i].key == Key(policyId, n);
    }
    forall i | 0 <= i < |rows| ensures RowFor(rows, i, t, policyId) {
      assert policy.keys[i] in policy.keys;
    }
  }

  ghost predicate Listed(shares: seq<Share>, k: Key) {
    exists i :: 0 <= i < |shares| && shares[i].key == k
  }

  /** Rows of the first policies: each key once, with the table's shares, and no key of these policies missing. */
  ghost predicate Lists(shares: seq<Share>, t: Table, policies: seq<string>) {
    && (forall i, j :: 0 <= i < j < |shares| ==> shares[i].key != shares[j].key)
    && (forall i :: 0 <= i < |shares| ==>
          && shares[i].key.policyId in policies
          && Lookup(t, shares[i].key).Some?
          && shares[i].vt == Lookup(t, shares[i].key).value.vt && shares[i].ada == Lookup(t, shares[i].key).value.ada)
    && (forall k: Key :: k.policyId in policies && Lookup(t, k).Some? ==> Listed(shares, k))
  }

  lemma {:induction false} SharesListTable(policies: seq<string>, t: Table)
    requires WellKept(t) && Distinct(policies) && forall p :: p in policies ==> p in t.items
    ensures Lists(Shares(policies, t), t, policies)
  {
    if policies != [] {
      var init, p := Init(policies), Last(policies);
      assert forall i :: 0 <= i < |init| ==> init[i] == policies[i] && policies[i] != policies[|init|];
      SharesListTable(init, t);
      PolicyRows(t, p);
      AppendPolicy(Shares(init, t), PolicyShares(p, t.items[p]), t, init, p);
      assert policies == init + [p];
    }
  }

  lemma AppendPolicy(before: seq<Share>, rows: seq<Share>, t: Table, init: seq<string>, p: string)
    requires Lists(before, t, init) && p !in init
    requires forall i :: 0 <= i < |rows| ==> RowFor(rows, i, t, p)
    requires forall i, j :: 0 <= i < j < |rows| ==> rows[i].key != rows[j].key
    requires p in t.items
    requires forall n :: n in t.items[p].items ==> exists i :: 0 <= i < |rows| && rows[i].key == Key(p, n)
    ensures Lists(before + rows, t, init + [p])
  {
    var all := before + rows;
    forall k: Key | k.policyId in init + [p] && Lookup(t, k).Some? ensures Listed(all, k) {
      if k.policyId == p {
        var i :| 0 <= i < |rows| && rows[i].key == Key(p, k.name);
        assert all[|before| + i].key == k;
      } else {
        assert Listed(before, k);
        var i :| 0 <= i < |before| && before[i].key == k;
        assert all[i].key == k;
      }
    }
    forall i | 0 <= i < |rows| ensures RowFor(rows, i, t, p) && all[|before| + i] == rows[i] {
    }
    forall i, j | 0 <= i < j < |all| ensures all[i].key != all[j].key {
      if i < |before| && j >= |before| {
        assert RowFor(rows, j - |before|, t, p);
        assert before[i].key.policyId in init;
      }
    }
  }

  /** The exported table has exactly one row per distinct key among the lines of the claimed contributions, and the row
      holds the shares of the key's first line. */
  lemma OneRowPerKey(lines: seq<Line>)
    ensures var shares := SharesOf(TableOf(lines));
            && (forall i, j :: 0 <= i < j < |shares| ==> shares[i].key != shares[j].key)
            && (forall k: Key :: Listed(shares, k) <==> exists i :: 0 <= i < |lines| && lines[i].key == k)
            && (forall i :: 0 <= i < |shares| ==>
                  First(lines, shares[i].key) == Some(Line(shares[i].key, shares[i].vt, shares[i].ada)))
  {
    var t := TableOf(lines);
    var shares := SharesOf(t);
    TableIsWellKept(lines);
    SharesListTable(t.keys, t);
    forall k: Key ensures Listed(shares, k) <==> exists i :: 0 <= i < |lines| && lines[i].key == k {
      KeyIsListed(lines, k);
    }
    forall i | 0 <= i < |shares|
      ensures First(lines, shares[i].key) == Some(Line(shares[i].key, shares[i].vt, shares[i].ada))
    {
      TableLookup(lines, shares[i].key);
      FirstIsFirst(lines, shares[i].key);
    }
  }

  lemma KeyIsListed(lines: seq<Line>, k: Key)
    requires Lists(SharesOf(TableOf(lines)), TableOf(lines), TableOf(lines).keys) && WellKept(TableOf(lines))
    ensures Listed(SharesOf(TableOf(lines)), k) <==> exists i :: 0 <= i < |lines| && lines[i].key == k
  {
    TableLookup(lines, k);
    FirstIsFirst(lines, k);
  }

  // ----- Does the chain compute the claims? -----

  ghost predicate OneSharePerKey(lines: seq<Line>) {
    forall i, j :: 0 <= i < j < |lines| && lines[i].key == lines[j].key ==> lines[i] == lines[j]
  }

  ghost predicate TableMatches(lines: seq<Line>, i: nat)
    requires i < |lines|
  {
    var e := Lookup(TableOf(lines), lines[i].key);
    e.Some? && e.value.vt == lines[i].vt && e.value.ada == lines[i].ada
  }

  /** The table entry is every line's own share if and only if no key occurs with two different shares. */
  lemma TableMatchesIffOneShare(lines: seq<Line>)
    ensures (forall i :: 0 <= i < |lines| ==> TableMatches(lines, i)) <==> OneSharePerKey(lines)
  {
    forall i | 0 <= i < |lines|
      ensures Lookup(TableOf(lines), lines[i].key).Some?
      ensures OneSharePerKey(lines) ==> TableMatches(lines, i)
    {
      LineAgainstTable(lines, i);
    }
    if forall i :: 0 <= i < |lines| ==> TableMatches(lines, i) {
      forall i, j | 0 <= i < j < |lines| && lines[i].key == lines[j].key ensures lines[i] == lines[j] {
        assert TableMatches(lines, i) && TableMatches(lines, j);
      }
    }
  }

  lemma FirstOfLine(lines: seq<Line>, i: nat)
    requires i < |lines|
    ensures First(lines, lines[i].key).Some?
    ensures OneSharePerKey(lines) ==> First(lines, lines[i].key) == Some(lines[i])
  {
    var k := lines[i].key;
    FirstIsFirst(lines, k);
    if OneSharePerKey(lines) {
      var f :| 0 <= f < |lines| && lines[f] == First(lines, k).value && lines[f].key == k
               && forall j :: 0 <= j < f ==> lines[j].key != k;
      if f < i {
        assert lines[f] == lines[i];
      }
    }
  }

  lemma LineAgainstTable(lines: seq<Line>, i: nat)
    requires i < |lines|
    ensures Lookup(TableOf(lines), lines[i].key).Some?
    ensures OneSharePerKey(lines) ==> TableMatches(lines, i)
  {
    FirstOfLine(lines, i);
    TableLookup(lines, lines[i].key);
  }

  /** What the chain pays for a contribution: quantity times table entry, asset by asset. */
  ghost function OnChainVt(t: Table, assets: seq<Asset>): real {
    if assets == [] then 0.0
    else
      var e := Lookup(t, KeyOf(Last(assets)));
      OnChainVt(t, Init(assets)) + Paid(Last(assets), if e.Some? then e.value.vt else 0)
  }

  ghost function OnChainLovelace(t: Table, assets: seq<Asset>): real {
    if assets == [] then 0.0
    else
      var e := Lookup(t, KeyOf(Last(assets)));
      OnChainLovelace(t, Init(assets)) + Paid(Last(assets), if e.Some? then e.value.ada else 0)
  }

  /** The lines of a contribution, standing together from position `from` on. */
  ghost predicate StandAt(c: ContributorClaim, txValue: real, assets: seq<Asset>, lines: seq<Line>, from: nat)
    requires txValue != 0.0 && Countable(assets)
  {
    from + |assets| <= |lines| && forall i :: 0 <= i < |assets| ==> lines[from + i] == LineOf(c, txValue, assets[i])
  }

  /** The table holds a contribution's own shares for each of its assets. */
  ghost predicate HoldsShares(t: Table, c: ContributorClaim, txValue: real, assets: seq<Asset>)
    requires txValue != 0.0 && Countable(assets)
  {
    forall i :: 0 <= i < |assets| ==>
      var e, line := Lookup(t, KeyOf(assets[i])), LineOf(c, txValue, assets[i]);
      e.Some? && e.value.vt == line.vt && e.value.ada == line.ada
  }

  lemma {:induction false} ChainPaysVt(t: Table, c: ContributorClaim, txValue: real, assets: seq<Asset>)
    requires txValue != 0.0 && Countable(assets) && HoldsShares(t, c, txValue, assets)
    ensures OnChainVt(t, assets) == Recalculated(c.vt, txValue, assets)
  {
    if assets != [] {
      assert forall i :: 0 <= i < |Init(assets)| ==> Init(assets)[i] == assets[i];
      ChainPaysVt(t, c, txValue, Init(assets));
      assert Last(assets) == assets[|assets| - 1];
    }
  }

  lemma {:induction false} ChainPaysLovelace(t: Table, c: ContributorClaim, txValue: real, assets: seq<Asset>)
    requires txValue != 0.0 && Countable(assets) && HoldsShares(t, c, txValue, assets)
    ensures OnChainLovelace(t, assets) == Recalculated(c.lovelace, txValue, assets)
  {
    if assets != [] {
      assert forall i :: 0 <= i < |Init(assets)| ==> Init(assets)[i] == assets[i];
      ChainPaysLovelace(t, c, txValue, Init(assets));
      assert Last(assets) == assets[|assets| - 1];
    }
  }

  /** When no key has two shares, the table holds the shares of every contribution whose lines went into it. */
  lemma TableHoldsShares(c: ContributorClaim, txValue: real, assets: seq<Asset>, lines: seq<Line>, from: nat)
    requires txValue != 0.0 && Countable(assets) && StandAt(c, txValue, assets, lines, from)
    requires OneSharePerKey(lines)
    ensures HoldsShares(TableOf(lines), c, txValue, assets)
  {
    forall i | 0 <= i < |assets|
      ensures var e, line := Lookup(TableOf(lines), KeyOf(assets[i])), LineOf(c, txValue, assets[i]);
              e.Some? && e.value.vt == line.vt && e.value.ada == line.ada
    {
      assert lines[from + i] == LineOf(c, txValue, assets[i]);
      LineAgainstTable(lines, from + i);
    }
  }

  /** With distinct ids, every claimed contribution's lines stand together in the recalculation's list. */
  lemma {:induction false} LinesStandTogether(claims: seq<ContributorClaim>, txs: seq<ContributorTx>,
                                              values: JsMap<string, real>, j: nat, k: nat) returns (from: nat)
    requires AllCountable(txs, values) && DistinctIds(txs) && DistinctClaims(claims)
    requires j < |claims| && k < |txs| && txs[k].id == claims[j].txId && GetOrZero(values, txs[k].id) > 0.0
    ensures StandAt(claims[j], GetOrZero(values, txs[k].id), txs[k].assets,
                    RecalculateAll(claims, txs, values).lines, from)
  {
    var init := Init(txs);
    assert forall i :: 0 <= i < |init| ==> init[i] == txs[i];
    var before := RecalculateAll(claims, init, values);
    if k == |init| {
      LastIdIsNew(txs);
      RecalculationKeepsIds(claims, init, values);
      RecalculationSkipsOthers(claims, init, values, j);
      assert DistinctClaims(before.claims);
      FindsIt(before.claims, j);
      from := |before.lines|;
    } else {
      from := LinesStandTogether(claims, init, values, j, k);
      LinesOnlyGrow(before, Last(txs), values);
    }
  }

  lemma LinesOnlyGrow(st: Recalculation, tx: ContributorTx, values: JsMap<string, real>)
    requires GetOrZero(values, tx.id) > 0.0 ==> Countable(tx.assets)
    ensures st.lines <= RecalculateTx(st, tx, values).lines
  {
  }

  /** When no key has two different shares, the exported table reproduces every contributor claim, VT and lovelace. */
  lemma TableReproducesClaims(txs: seq<ContributorTx>, p: Pool, j: nat)
    requires AllCountable(txs, p.values) && DistinctIds(txs) && j < |Claimed(txs, p.values)|
    requires OneSharePerKey(RecalculationOf(txs, p).lines)
    ensures |RecalculationOf(txs, p).claims| == |Claimed(txs, p.values)|
    ensures var re, assets := RecalculationOf(txs, p), Claimed(txs, p.values)[j].assets;
            && re.claims[j].vt == OnChainVt(TableOf(re.lines), assets)
            && re.claims[j].lovelace == OnChainLovelace(TableOf(re.lines), assets)
  {
    var claimed := Claimed(txs, p.values);
    var claims := ClaimsFor(claimed, p);
    ClaimedAreTxs(txs, p.values);
    ClaimedAreDistinct(txs, p.values);
    assert DistinctClaims(claims);
    assert claimed[j] in txs;
    var k :| 0 <= k < |txs| && txs[k] == claimed[j];
    EachClaimRecalculatedOnce(claims, txs, p.values, j, k);
    var from := LinesStandTogether(claims, txs, p.values, j, k);
    var lines, txValue := RecalculationOf(txs, p).lines, GetOrZero(p.values, txs[k].id);
    TableHoldsShares(claims[j], txValue, txs[k].assets, lines, from);
    ChainPaysVt(TableOf(lines), claims[j], txValue, txs[k].assets);
    ChainPaysLovelace(TableOf(lines), claims[j], txValue, txs[k].assets);
  }

  // ----- How far off can the table be? -----

  /** Quantities of at least one, prices that are not negative, and one price per key. */
  ghost predicate PricedBy(assets: seq<Asset>, prices: Key -> real) {
    forall i :: 0 <= i < |assets| ==>
      assets[i].quantity >= 1.0 && assets[i].floorPrice == prices(KeyOf(assets[i])) >= 0.0
  }

  ghost predicate AllPricedBy(txs: seq<ContributorTx>, prices: Key -> real) {
    forall i :: 0 <= i < |txs| ==> PricedBy(txs[i].assets, prices)
  }

  /** A share is the price's portion of the pot, rounded down, or one less. */
  ghost predicate Near(share: int, pot: real, price: real, tvl: real)
    requires tvl > 0.0
  {
    Floor(Portion(pot, price, tvl)) - 1 <= share <= Floor(Portion(pot, price, tvl))
  }

  ghost predicate NearLine(l: Line, p: Pool, prices: Key -> real)
    requires p.tvl > 0.0
  {
    Near(l.vt, VtPot(p), prices(l.key), p.tvl) && Near(l.ada, LovelacePot(p), prices(l.key), p.tvl)
  }

  lemma {:induction false} AssetWithinTx(assets: seq<Asset>, prices: Key -> real)
    requires PricedBy(assets, prices)
    ensures TxValue(assets) >= 0.0
    ensures forall i :: 0 <= i < |assets| ==> assets[i].floorPrice <= TxValue(assets)
  {
    if assets != [] {
      var init, a := Init(assets), Last(assets);
      assert a == assets[|init|] && forall i :: 0 <= i < |init| ==> init[i] == assets[i];
      AssetWithinTx(init, prices);
      Scale(1.0, a.quantity, a.floorPrice);
      assert AssetValue(a) >= a.floorPrice;
      forall i | 0 <= i < |assets| ensures assets[i].floorPrice <= TxValue(assets) {
        assert i < |init| ==> init[i].floorPrice <= TxValue(init);
      }
    }
  }

  lemma UnitShare(amount: real, txValue: real, a: Asset)
    requires txValue > 0.0 && a.quantity > 0.0
    ensures SharePerUnit(amount, txValue, a) == Floor(Product(amount, a.floorPrice / txValue))
  {
    PortionIsTimes(amount, a.floorPrice, a.quantity, txValue);
    CancelUnits(Portion(amount, AssetValue(a), txValue), Product(amount, a.floorPrice / txValue), a.quantity);
  }

  lemma CancelUnits(y: real, x: real, q: real)
    requires q > 0.0 && y == q * x
    ensures y / q == x
  {
  }

  lemma PortionIsTimes(amount: real, price: real, q: real, txValue: real)
    requires txValue > 0.0
    ensures Portion(amount, q * price, txValue) == q * Product(amount, price / txValue)
  {
    var r := price / txValue;
    assert amount * (q * price) == q * (amount * price);
    assert amount * price / txValue == amount * r;
    assert q * (amount * price) / txValue == q * (amount * price / txValue);
  }

  lemma PortionOfPortion(pot: real, txValue: real, price: real, tvl: real)
    requires txValue > 0.0 && tvl > 0.0
    ensures Product(Portion(pot, txValue, tvl), price / txValue) == Portion(pot, price, tvl)
  {
    var r, t := price / txValue, pot / tvl;
    assert Portion(pot, txValue, tvl) == t * txValue;
    Associate(t, txValue, r);
    assert txValue * r == price;
    assert Portion(pot, price, tvl) == t * price;
  }

  lemma FloorsNear(amount: real, exact: real, r: real)
    requires Floored(amount, exact) && 0.0 <= r <= 1.0
    ensures Floor(Product(exact, r)) - 1 <= Floor(Product(amount, r)) <= Floor(Product(exact, r))
  {
    var d := exact - amount;
    Distribute(r, amount, d);
    Scale(0.0, d, r);
    if r > 0.0 {
      FractionOfUnit(d, r);
    }
    assert Product(exact, r) - 1.0 < Product(amount, r) <= Product(exact, r);
  }

  lemma ShareIsNear(amount: real, pot: real, txValue: real, tvl: real, a: Asset)
    requires txValue > 0.0 && tvl > 0.0 && a.quantity > 0.0 && 0.0 <= a.floorPrice <= txValue
    requires Floored(amount, Portion(pot, txValue, tvl))
    ensures Near(SharePerUnit(amount, txValue, a), pot, a.floorPrice, tvl)
  {
    UnitShare(amount, txValue, a);
    PortionOfPortion(pot, txValue, a.floorPrice, tvl);
    UnitFraction(a.floorPrice, txValue);
    FloorsNear(amount, Portion(pot, txValue, tvl), a.floorPrice / txValue);
  }

  lemma UnitFraction(x: real, y: real)
    requires 0.0 <= x <= y && y > 0.0
    ensures 0.0 <= x / y <= 1.0
  {
    assert x / y * y == x;
  }

  /** A claim as it was created: the floor of its contribution's portion. */
  ghost predicate FlooredPortion(c: ContributorClaim, value: real, p: Pool)
    requires p.tvl > 0.0
  {
    Floored(c.vt, Portion(VtPot(p), value, p.tvl)) && Floored(c.lovelace, Portion(LovelacePot(p), value, p.tvl))
  }

  lemma LinesAreNear(c: ContributorClaim, assets: seq<Asset>, p: Pool, prices: Key -> real)
    requires p.tvl > 0.0 && PricedBy(assets, prices) && Countable(assets) && TxValue(assets) > 0.0
    requires FlooredPortion(c, TxValue(assets), p)
    ensures forall i :: 0 <= i < |assets| ==> NearLine(LineOf(c, TxValue(assets), assets[i]), p, prices)
  {
    AssetWithinTx(assets, prices);
    forall i | 0 <= i < |assets| ensures NearLine(LineOf(c, TxValue(assets), assets[i]), p, prices) {
      ShareIsNear(c.vt, VtPot(p), TxValue(assets), p.tvl, assets[i]);
      ShareIsNear(c.lovelace, LovelacePot(p), TxValue(assets), p.tvl, assets[i]);
    }
  }

  lemma {:induction false} AllLinesAreNear(claims: seq<ContributorClaim>, txs: seq<ContributorTx>, p: Pool,
                                           prices: Key -> real)
    requires p.tvl > 0.0 && AllCountable(txs, p.values) && DistinctIds(txs) && DistinctClaims(claims)
    requires AllPricedBy(txs, prices)
    requires forall k :: 0 <= k < |txs| ==> GetOrZero(p.values, txs[k].id) == TxValue(txs[k].assets)
    requires forall j :: 0 <= j < |claims| ==> FlooredPortion(claims[j], GetOrZero(p.values, claims[j].txId), p)
    ensures forall l :: l in RecalculateAll(claims, txs, p.values).lines ==> NearLine(l, p, prices)
  {
    if txs != [] {
      var init, tx := Init(txs), Last(txs);
      assert tx == txs[|init|] && forall i :: 0 <= i < |init| ==> init[i] == txs[i];
      AllLinesAreNear(claims, init, p, prices);
      RecalculationKeepsIds(claims, init, p.values);
      var before := RecalculateAll(claims, init, p.values);
      var found := FindClaim(before.claims, tx.id);
      if found.Some? && GetOrZero(p.values, tx.id) > 0.0 {
        LastIdIsNew(txs);
        RecalculationSkipsOthers(claims, init, p.values, found.value);
        LinesAreNear(claims[found.value], tx.assets, p, prices);
      }
    }
  }

  /** Two shares near the same portion differ by at most one, so quantity times either differs by at most the
      quantity. */
  lemma PaidNearly(a: Asset, share: int, other: int)
    requires a.quantity >= 1.0 && -1 <= share - other <= 1
    ensures -a.quantity <= Paid(a, share) - Paid(a, other) <= a.quantity
  {
    var d := share as real - other as real;
    Distribute(a.quantity, other as real, d);
    Scale(-1.0, d, a.quantity);
    Scale(d, 1.0, a.quantity);
  }

  ghost predicate NearTable(t: Table, assets: seq<Asset>, p: Pool, prices: Key -> real)
    requires p.tvl > 0.0
  {
    forall i :: 0 <= i < |assets| ==>
      var e := Lookup(t, KeyOf(assets[i]));
      e.Some? && NearLine(Line(KeyOf(assets[i]), e.value.vt, e.value.ada), p, prices)
  }

  lemma {:induction false} ChainPaysNearly(t: Table, c: ContributorClaim, txValue: real, assets: seq<Asset>, p: Pool,
                                           prices: Key -> real)
    requires p.tvl > 0.0 && txValue > 0.0 && Countable(assets) && PricedBy(assets, prices)
    requires NearTable(t, assets, p, prices)
    requires forall i :: 0 <= i < |assets| ==> NearLine(LineOf(c, txValue, assets[i]), p, prices)
    ensures -Units(assets) <= OnChainVt(t, assets) - Recalculated(c.vt, txValue, assets) <= Units(assets)
    ensures -Units(assets) <= OnChainLovelace(t, assets) - Recalculated(c.lovelace, txValue, assets) <= Units(assets)
  {
    if assets != [] {
      var init, a := Init(assets), Last(assets);
      assert a == assets[|init|] && forall i :: 0 <= i < |init| ==> init[i] == assets[i];
      ChainPaysNearly(t, c, txValue, init, p, prices);
      var e, l := Lookup(t, KeyOf(a)).value, LineOf(c, txValue, a);
      PaidNearly(a, e.vt, l.vt);
      PaidNearly(a, e.ada, l.ada);
    }
  }

  /** The table's entries are shares of some line, and all lines are near. */
  lemma TableIsNear(lines: seq<Line>, assets: seq<Asset>, p: Pool, prices: Key -> real)
    requires p.tvl > 0.0 && forall l :: l in lines ==> NearLine(l, p, prices)
    requires forall i :: 0 <= i < |assets| ==> exists l :: l in lines && l.key == KeyOf(assets[i])
    ensures NearTable(TableOf(lines), assets, p, prices)
  {
    forall i | 0 <= i < |assets|
      ensures var e := Lookup(TableOf(lines), KeyOf(assets[i]));
              e.Some? && NearLine(Line(KeyOf(assets[i]), e.value.vt, e.value.ada), p, prices)
    {
      TableLookup(lines, KeyOf(assets[i]));
      FirstIsFirst(lines, KeyOf(assets[i]));
    }
  }

  lemma SaneWhenPriced(txs: seq<ContributorTx>, prices: Key -> real)
    requires DistinctIds(txs) && AllPricedBy(txs, prices)
    ensures SaneContributions(txs)
  {
    forall i | 0 <= i < |txs|
      ensures TxValue(txs[i].assets) >= 0.0 && Positive(txs[i].assets) && Countable(txs[i].assets)
    {
      AssetWithinTx(txs[i].assets, prices);
    }
  }

  lemma ClaimsAreFlooredPortions(txs: seq<ContributorTx>, p: Pool)
    requires SaneContributions(txs) && PoolFor(p, txs) && p.tvl > 0.0
    ensures var claims := ClaimsFor(Claimed(txs, p.values), p);
            && DistinctClaims(claims)
            && forall j :: 0 <= j < |claims| ==> FlooredPortion(claims[j], GetOrZero(p.values, claims[j].txId), p)
  {
    var cs := Claimed(txs, p.values);
    ClaimedAreTxs(txs, p.values);
    ClaimedAreDistinct(txs, p.values);
    forall j | 0 <= j < |cs| ensures FlooredPortion(ClaimFor(cs[j], p), GetOrZero(p.values, cs[j].id), p) {
      assert cs[j] in txs;
      var k :| 0 <= k < |txs| && txs[k] == cs[j];
      ValueOfEachTx(txs, k);
      UserTotalCoversTx(txs, k);
      ClaimIsFlooredPortion(cs[j], p);
    }
  }

  /** What a caller can see beforehand: with distinct ids, quantities of at least one and one price per key, two
      shares of a key differ by at most one, and quantity times table entry misses each claim by at most one per unit.
      */
  lemma TableWithinUnits(txs: seq<ContributorTx>, p: Pool, prices: Key -> real, j: nat)
    requires DistinctIds(txs) && AllPricedBy(txs, prices) && PoolFor(p, txs) && p.tvl > 0.0
    requires j < |Claimed(txs, p.values)|
    ensures AllCountable(txs, p.values) && |RecalculationOf(txs, p).claims| == |Claimed(txs, p.values)|
    ensures var re, assets := RecalculationOf(txs, p), Claimed(txs, p.values)[j].assets;
            && (forall l, m :: l in re.lines && m in re.lines && l.key == m.key ==>
                  -1 <= l.vt - m.vt <= 1 && -1 <= l.ada - m.ada <= 1)
            && -Units(assets) <= OnChainVt(TableOf(re.lines), assets) - re.claims[j].vt <= Units(assets)
            && -Units(assets) <= OnChainLovelace(TableOf(re.lines), assets) - re.claims[j].lovelace <= Units(assets)
  {
    var cs := Claimed(txs, p.values);
    var claims := ClaimsFor(cs, p);
    SaneWhenPriced(txs, prices);
    ClaimsAreFlooredPortions(txs, p);
    forall k | 0 <= k < |txs| ensures GetOrZero(p.values, txs[k].id) == TxValue(txs[k].assets) {
      ValueOfEachTx(txs, k);
    }
    AllLinesAreNear(claims, txs, p, prices);
    ClaimedAreTxs(txs, p.values);
    assert cs[j] in txs;
    var k :| 0 <= k < |txs| && txs[k] == cs[j];
    EachClaimRecalculatedOnce(claims, txs, p.values, j, k);
    var from := LinesStandTogether(claims, txs, p.values, j, k);
    ClaimWithinUnits(claims[j], txs[k].assets, RecalculationOf(txs, p).lines, from, p, prices);
  }

  lemma ClaimWithinUnits(c: ContributorClaim, assets: seq<Asset>, lines: seq<Line>, from: nat, p: Pool,
                         prices: Key -> real)
    requires p.tvl > 0.0 && PricedBy(assets, prices) && Countable(assets) && TxValue(assets) > 0.0
    requires FlooredPortion(c, TxValue(assets), p) && StandAt(c, TxValue(assets), assets, lines, from)
    requires forall l :: l in lines ==> NearLine(l, p, prices)
    ensures -Units(assets) <= OnChainVt(TableOf(lines), assets) - Recalculated(c.vt, TxValue(assets), assets)
         <= Units(assets)
    ensures -Units(assets) <=
            OnChainLovelace(TableOf(lines), assets) - Recalculated(c.lovelace, TxValue(assets), assets)
         <= Units(assets)
  {
    LinesAreNear(c, assets, p, prices);
    forall i | 0 <= i < |assets| ensures exists l :: l in lines && l.key == KeyOf(assets[i]) {
      assert lines[from + i].key == KeyOf(assets[i]);
      assert lines[from + i] in lines;
    }
    TableIsNear(lines, assets, p, prices);
    ChainPaysNearly(TableOf(lines), c, TxValue(assets), assets, p, prices);
  }
}
