/**
 The simulator's whole answer, in its fields: when it refuses, the decimals, supply and pool, whose claims are listed,
 and the two exported lists.
 */
module SimulatedTransition {
  import opened Wrappers
  import opened JsMaps
  import opened Sequences
  import opened DistributionMath
  import opened OptimalDecimals
  import opened AcquireTransition
  import opened TransitionConservation
  import opened MultiplierTable
  import opened ExportedLists
  import opened RecalculatedRepeats
  import JsNumbers

  // ----- Whose claims they are -----

  ghost predicate Ascends(at: seq<nat>) {
    forall j, k :: 0 <= j < k < |at| ==> at[j] < at[k]
  }

  /** The acquisition's claim: its multiplier pays that many units for each lovelace. */
  ghost predicate IsFor(c: AcquirerClaim, tx: AcquirerTx) {
    && c.txId == tx.id && c.userId == tx.userId && c.adaSent == tx.amount
    && c.vt == c.multiplier as real * tx.amount * 1000000.0
  }

  lemma RawIsFor(tx: AcquirerTx, total: real, lpVt: real, supply: real, offered: real)
    requires tx.amount > 0.0 && total != 0.0
    ensures IsFor(RawAcquirer(tx, total, lpVt, supply, offered), tx)
  {
  }

  /** One claim for each acquisition of a positive amount, in order. */
  ghost predicate AcquirersAt(claims: seq<AcquirerClaim>, txs: seq<AcquirerTx>, at: seq<nat>) {
    && |at| == |claims| && Ascends(at)
    && (forall i :: 0 <= i < |txs| ==> (i in at <==> txs[i].amount > 0.0))
    && (forall k :: 0 <= k < |at| ==> at[k] < |txs| && IsFor(claims[k], txs[at[k]]))
  }

  /** One claim for each contribution whose id has a positive value, in order. */
  ghost predicate ContributorsAt(claims: seq<ContributorClaim>, txs: seq<ContributorTx>, values: JsMap<string, real>,
                                 at: seq<nat>)
  {
    && |at| == |claims| && Ascends(at)
    && (forall i :: 0 <= i < |txs| ==> (i in at <==> GetOrZero(values, txs[i].id) > 0.0))
    && (forall k :: 0 <= k < |at| ==>
          && at[k] < |txs|
          && claims[k].txId == txs[at[k]].id && claims[k].userId == txs[at[k]].userId
          && claims[k].value == GetOrZero(values, txs[at[k]].id))
  }

  ghost predicate ListsAcquirers(claims: seq<AcquirerClaim>, txs: seq<AcquirerTx>) {
    exists at :: AcquirersAt(claims, txs, at)
  }

  ghost predicate ListsContributors(claims: seq<ContributorClaim>, txs: seq<ContributorTx>,
                                    values: JsMap<string, real>)
  {
    exists at :: ContributorsAt(claims, txs, values, at)
  }

  lemma AcquirersAtNext(claims: seq<AcquirerClaim>, init: seq<AcquirerTx>, at: seq<nat>, c: AcquirerClaim,
                        tx: AcquirerTx)
    requires AcquirersAt(claims, init, at)
    ensures tx.amount <= 0.0 ==> AcquirersAt(claims, init + [tx], at)
    ensures tx.amount > 0.0 && IsFor(c, tx) ==> AcquirersAt(claims + [c], init + [tx], at + [|init|])
  {
  }

  lemma {:induction false} RawAcquirersAt(txs: seq<AcquirerTx>, total: real, lpVt: real, supply: real, offered: real)
    returns (at: seq<nat>)
    requires Shareable(txs, total)
    ensures AcquirersAt(RawAcquirers(txs, total, lpVt, supply, offered), txs, at)
  {
    at := [];
    if txs != [] {
      var init, tx := Init(txs), Last(txs);
      assert init + [tx] == txs && forall i :: 0 <= i < |init| ==> init[i] == txs[i];
      var before := RawAcquirers(init, total, lpVt, supply, offered);
      at := RawAcquirersAt(init, total, lpVt, supply, offered);
      if tx.amount > 0.0 {
        RawIsFor(tx, total, lpVt, supply, offered);
        AcquirersAtNext(before, init, at, RawAcquirer(tx, total, lpVt, supply, offered), tx);
        at := at + [|init|];
      } else {
        AcquirersAtNext(before, init, at, AcquirerClaim("", "", 0.0, 0.0, 0), tx);
        assert before + [] == before;
      }
    }
  }

  lemma NormalizedIsFor(raw: seq<AcquirerClaim>, k: nat, tx: AcquirerTx)
    requires k < |raw| && IsFor(raw[k], tx)
    ensures IsFor(Normalized(raw)[k], tx)
  {
  }

  lemma NormalizedAt(raw: seq<AcquirerClaim>, txs: seq<AcquirerTx>, at: seq<nat>)
    requires AcquirersAt(raw, txs, at)
    ensures AcquirersAt(Normalized(raw), txs, at)
  {
    var claims := Normalized(raw);
    forall k | 0 <= k < |at| ensures IsFor(claims[k], txs[at[k]]) {
      NormalizedIsFor(raw, k, txs[at[k]]);
    }
  }

  /** The contributions whose id has a positive value, at the positions `at`. */
  ghost predicate PositiveAt(kept: seq<ContributorTx>, txs: seq<ContributorTx>, values: JsMap<string, real>,
                             at: seq<nat>)
  {
    Picks(kept, txs, at) && forall i :: 0 <= i < |txs| ==> (i in at <==> GetOrZero(values, txs[i].id) > 0.0)
  }

  lemma PositiveAtNext(kept: seq<ContributorTx>, init: seq<ContributorTx>, values: JsMap<string, real>, at: seq<nat>,
                       tx: ContributorTx)
    requires PositiveAt(kept, init, values, at)
    ensures GetOrZero(values, tx.id) > 0.0 ==> PositiveAt(kept + [tx], init + [tx], values, at + [|init|])
    ensures GetOrZero(values, tx.id) <= 0.0 ==> PositiveAt(kept, init + [tx], values, at)
  {
    PicksNext(kept, init, at, tx);
  }

  lemma {:induction false} ClaimedAt(txs: seq<ContributorTx>, values: JsMap<string, real>) returns (at: seq<nat>)
    ensures PositiveAt(Claimed(txs, values), txs, values, at)
  {
    at := [];
    if txs != [] {
      var init, tx := Init(txs), Last(txs);
      assert init + [tx] == txs;
      at := ClaimedAt(init, values);
      PositiveAtNext(Claimed(init, values), init, values, at, tx);
      at := if GetOrZero(values, tx.id) > 0.0 then at + [|init|] else at;
      assert Claimed(init, values) + [] == Claimed(init, values);
    }
  }

  /** The recalculation touches amounts only. */
  lemma {:induction false} RecalculationKeepsNames(claims: seq<ContributorClaim>, txs: seq<ContributorTx>,
                                                   values: JsMap<string, real>)
    requires AllCountable(txs, values)
    ensures var re := RecalculateAll(claims, txs, values).claims;
            |re| == |claims| && forall j :: 0 <= j < |claims| ==>
              re[j].txId == claims[j].txId && re[j].userId == claims[j].userId && re[j].value == claims[j].value
  {
    if txs != [] {
      assert forall k :: 0 <= k < |Init(txs)| ==> Init(txs)[k] == txs[k];
      RecalculationKeepsNames(claims, Init(txs), values);
    }
  }

  lemma ContributorClaimsAt(txs: seq<ContributorTx>, p: Pool) returns (at: seq<nat>)
    requires AllCountable(txs, p.values)
    ensures ContributorsAt(RecalculationOf(txs, p).claims, txs, p.values, at)
  {
    at := ClaimedAt(txs, p.values);
    RecalculationKeepsNames(ClaimsFor(Claimed(txs, p.values), p), txs, p.values);
  }

  // ----- The answer -----

  /** Raised to what the decimal check asks for, never lowered; the supply in units of the final decimals. */
  ghost predicate RaisedDecimals(v: VaultConfig, optimal: nat, decimals: nat, supply: real) {
    && v.decimals <= decimals && optimal <= decimals && (decimals == v.decimals || decimals == optimal)
    && supply == v.supply * JsNumbers.Pow10(decimals) as real
  }

  lemma DecimalsAreRaised(v: VaultConfig, optimal: nat)
    ensures RaisedDecimals(v, optimal, FinalDecimals(v, optimal), Supply(v, FinalDecimals(v, optimal)))
  {
  }

  /** The pool of a vault: nothing without a percentage or anything to value; else half its percentage of the supply, in
      whole units per lovelace acquired. */
  ghost predicate PoolTokens(v: VaultConfig, lp: LpTokens, supply: real, acquired: real, tvl: real) {
    if v.liquidityPool == 0.0 || (v.tokensForAcquires == 0.0 && tvl == 0.0) then lp == LpTokens(0.0, 0.0, 0.0, 0)
    else
      && 200.0 * lp.lpVt == v.liquidityPool * supply
      && lp.adjustedVt == lp.adaPairMultiplier as real * acquired * LOVELACE
      && (acquired <= 0.0 ==> lp.adaPairMultiplier == 0)
      && (acquired > 0.0 ==> IsQuotient(lp.adaPairMultiplier, lp.lpVt, acquired * LOVELACE))
  }

  lemma LpForVault(v: VaultConfig, decimals: nat, acquired: real, tvl: real)
    ensures PoolTokens(v, LpFor(v, decimals, acquired, tvl), Supply(v, decimals), acquired, tvl)
  {
    var lp, supply := LpFor(v, decimals, acquired, tvl), Supply(v, decimals);
    LpTokensExactly(supply, acquired, tvl, Offered(v), LpFraction(v));
    Hundredth(v.liquidityPool, supply);
  }

  lemma Hundredth(percent: real, x: real)
    ensures percent / 100.0 * x * 100.0 == percent * x
  {
  }

  /** What the claims are cut from: the sum of the acquisitions; for each id the worth of the last contribution with it;
      for each user the worth of all of theirs; the offered percentage, and the pool of the final decimals. */
  lemma PoolHolds(v: VaultConfig, acquisitions: seq<AcquirerTx>, contributions: seq<ContributorTx>, optimal: nat)
    ensures var p := PoolOf(v, acquisitions, contributions, optimal);
            var lp := LpFor(v, FinalDecimals(v, optimal), p.acquired, p.tvl);
            && p.acquired == Sum(Amounts(acquisitions))
            && (forall j :: 0 <= j < |contributions| && IsLast(contributions, j) ==>
                  GetOrZero(p.values, contributions[j].id) == Sum(Worths(contributions[j].assets)))
            && (forall u :: GetOrZero(p.users, u) == WorthOfUser(contributions, u))
            && 100.0 * p.offered == v.tokensForAcquires
            && p.lpAda == lp.lpAda && p.lpVt == lp.lpVt && PoolTokens(v, lp, p.supply, p.acquired, p.tvl)
  {
    var p := PoolOf(v, acquisitions, contributions, optimal);
    AcquiredIsSum(acquisitions);
    forall j | 0 <= j < |contributions| && IsLast(contributions, j)
      ensures GetOrZero(p.values, contributions[j].id) == Sum(Worths(contributions[j].assets))
    {
      LastSetsValue(contributions, j);
      ValueIsSum(contributions[j].assets);
    }
    forall u: string ensures GetOrZero(p.users, u) == WorthOfUser(contributions, u) {
      UserTotalsAreSums(contributions, u);
    }
    LpForVault(v, FinalDecimals(v, optimal), p.acquired, p.tvl);
  }

  /** The exported lists belong to the claims. */
  ghost predicate Exports(vt: seq<Row>, ada: seq<Row>, txs: seq<ContributorTx>, p: Pool, raw: seq<AcquirerClaim>)
    requires AllCountable(txs, p.values)
  {
    && |ada| <= |vt|
    && ListsFirstLines(vt[..|ada|], ada, RecalculationOf(txs, p).lines)
    && ListsAssets(ada, txs, p.values)
    && EndsWithAcquirers(vt, |ada|, raw)
  }

  lemma ListsBelongToClaims(txs: seq<ContributorTx>, p: Pool, raw: seq<AcquirerClaim>)
    requires AllCountable(txs, p.values)
    ensures var shares := SharesOf(TableOf(RecalculationOf(txs, p).lines));
            Exports(VtRows(shares, Normalized(raw)), AdaRows(shares), txs, p, raw)
  {
    var lines := RecalculationOf(txs, p).lines;
    var shares := SharesOf(TableOf(lines));
    var vt, ada := VtRows(shares, Normalized(raw)), AdaRows(shares);
    ListsAreExported(lines, raw);
    RowsListAssets(txs, p, vt[..|ada|], ada);
    SameNamesListed(vt[..|ada|], ada, lines, txs, p.values);
  }

  lemma SameNamesListed(vt: seq<Row>, ada: seq<Row>, lines: seq<Line>, txs: seq<ContributorTx>,
                        values: JsMap<string, real>)
    requires ListsFirstLines(vt, ada, lines) && ListsAssets(vt, txs, values)
    ensures ListsAssets(ada, txs, values)
  {
    forall k | 0 <= k < |vt| ensures SameName(vt[k], ada[k]) {
      assert StandsForFirstLine(vt, ada, k, lines);
    }
    forall i, a | 0 <= i < |txs| && GetOrZero(values, txs[i].id) > 0.0 && a in txs[i].assets ensures HasRowFor(ada, a) {
      assert HasRowFor(vt, a);
      var k :| 0 <= k < |vt| && NamesAsset(vt[k], a);
      assert NamesAsset(ada[k], a);
    }
    forall k | 0 <= k < |ada| ensures HasAsset(txs, values, ada[k]) {
      assert HasAsset(txs, values, vt[k]);
      var i, a :| 0 <= i < |txs| && GetOrZero(values, txs[i].id) > 0.0 && a in txs[i].assets && NamesAsset(vt[k], a);
      assert NamesAsset(ada[k], a);
    }
  }

  lemma ClaimsAreListed(acquisitions: seq<AcquirerTx>, contributions: seq<ContributorTx>, p: Pool)
    requires Shareable(acquisitions, p.acquired) && AllCountable(contributions, p.values)
    ensures ListsAcquirers(AcquirersOf(acquisitions, p), acquisitions)
    ensures ListsContributors(RecalculationOf(contributions, p).claims, contributions, p.values)
  {
    var acquirers := RawAcquirersAt(acquisitions, p.acquired, p.lpVt, p.supply, p.offered);
    NormalizedAt(RawAcquirers(acquisitions, p.acquired, p.lpVt, p.supply, p.offered), acquisitions, acquirers);
    assert AcquirersAt(AcquirersOf(acquisitions, p), acquisitions, acquirers);
    var contributors := ContributorClaimsAt(contributions, p);
  }

  /** A successful answer in its fields. */
  ghost predicate Describes(r: Transition, v: VaultConfig, acquisitions: seq<AcquirerTx>,
                            contributions: seq<ContributorTx>, optimal: nat, p: Pool)
    requires Shareable(acquisitions, p.acquired) && AllCountable(contributions, p.values)
  {
    && r.Success?
    && RaisedDecimals(v, optimal, r.decimals, r.supply) && PoolTokens(v, r.lp, r.supply, p.acquired, p.tvl)
    && ListsAcquirers(r.acquirers, acquisitions) && ListsContributors(r.contributors, contributions, p.values)
    && Exports(r.acquireMultiplier, r.adaDistribution, contributions, p,
               RawAcquirers(acquisitions, p.acquired, p.lpVt, p.supply, p.offered))
  }

  /** The answer, out of what each step computes; `p` is what the LP step leaves. */
  function AnswerFor(v: VaultConfig, acquisitions: seq<AcquirerTx>, contributions: seq<ContributorTx>,
                     minLpLiquidity: int, optimal: nat, p: Pool): Transition
  {
    var lpLovelace := Floor(p.lpAda * LOVELACE);
    if v.liquidityPool > 0.0 && lpLovelace < minLpLiquidity then InsufficientLiquidity(lpLovelace)
    else if !Shareable(acquisitions, p.acquired) || !AllCountable(contributions, p.values) then NotFinite
    else
      var decimals := FinalDecimals(v, optimal);
      var re, acquirers := RecalculationOf(contributions, p), AcquirersOf(acquisitions, p);
      Success(decimals, p.supply, LpFor(v, decimals, p.acquired, p.tvl), acquirers, re.claims,
              VtRows(SharesOf(TableOf(re.lines)), acquirers), AdaRows(SharesOf(TableOf(re.lines))))
  }

  lemma SuccessIsDescribed(v: VaultConfig, acquisitions: seq<AcquirerTx>, contributions: seq<ContributorTx>,
                           minLpLiquidity: int, optimal: nat, p: Pool)
    requires p.supply == Supply(v, FinalDecimals(v, optimal))
    requires Shareable(acquisitions, p.acquired) && AllCountable(contributions, p.values)
    requires AnswerFor(v, acquisitions, contributions, minLpLiquidity, optimal, p).Success?
    ensures var r := AnswerFor(v, acquisitions, contributions, minLpLiquidity, optimal, p);
            Describes(r, v, acquisitions, contributions, optimal, p)
  {
    DecimalsAreRaised(v, optimal);
    LpForVault(v, FinalDecimals(v, optimal), p.acquired, p.tvl);
    ListsBelongToClaims(contributions, p, RawAcquirers(acquisitions, p.acquired, p.lpVt, p.supply, p.offered));
    ClaimsAreListed(acquisitions, contributions, p);
  }

  /** An answer in its fields: it refuses a pool below the least liquidity; an acquirer against a total of zero, or an
      asset of quantity zero in a claimed contribution, leaves an amount that is no finite number; every other answer
      is as described, with the claims that the conservation theorems are about. */
  ghost predicate Answers(r: Transition, v: VaultConfig, acquisitions: seq<AcquirerTx>,
                          contributions: seq<ContributorTx>, minLpLiquidity: int, optimal: nat, p: Pool)
  {
    var lpLovelace := Floor(p.lpAda * LOVELACE);
    var finite := Shareable(acquisitions, p.acquired) && AllCountable(contributions, p.values);
    && (r.InsufficientLiquidity? <==> v.liquidityPool > 0.0 && lpLovelace < minLpLiquidity)
    && (r.InsufficientLiquidity? ==> r.lpLovelace == lpLovelace)
    && (r.Success? <==> !r.InsufficientLiquidity? && finite)
    && (r.Success? ==> Describes(r, v, acquisitions, contributions, optimal, p))
    && (r.Success? ==> r.contributors == RecalculationOf(contributions, p).claims
                       && r.acquirers == AcquirersOf(acquisitions, p))
  }

  lemma AnswerIsDescribed(v: VaultConfig, acquisitions: seq<AcquirerTx>, contributions: seq<ContributorTx>,
                          minLpLiquidity: int, optimal: nat, p: Pool)
    requires p.supply == Supply(v, FinalDecimals(v, optimal))
    ensures var r := AnswerFor(v, acquisitions, contributions, minLpLiquidity, optimal, p);
            Answers(r, v, acquisitions, contributions, minLpLiquidity, optimal, p)
  {
    if AnswerFor(v, acquisitions, contributions, minLpLiquidity, optimal, p).Success? {
      SuccessIsDescribed(v, acquisitions, contributions, minLpLiquidity, optimal, p);
    }
  }

  // ----- The method -----

  /** Steps 5 to 7: claims, recalculation and the exported lists. */
  method CreateClaims(acquisitions: seq<AcquirerTx>, contributions: seq<ContributorTx>, p: Pool)
    returns (acquirers: seq<AcquirerClaim>, contributors: seq<ContributorClaim>, vtRows: seq<Row>, adaRows: seq<Row>)
    requires Shareable(acquisitions, p.acquired) && AllCountable(contributions, p.values)
    ensures var re := RecalculationOf(contributions, p);
            && acquirers == AcquirersOf(acquisitions, p) && contributors == re.claims
            && vtRows == VtRows(SharesOf(TableOf(re.lines)), acquirers)
            && adaRows == AdaRows(SharesOf(TableOf(re.lines)))
  {
    acquirers := AcquirerClaims(acquisitions, p.acquired, p.lpVt, p.supply, p.offered);
    contributors := ContributorClaims(contributions, p);
    var table;
    contributors, table := RecalculateClaims(contributors, contributions, p.values);
    vtRows, adaRows := ExportTable(table);
    if |acquirers| > 0 {
      vtRows := vtRows + [Row("", Some(""), acquirers[0].multiplier)];
    }
  }

  method SimulateTransition(v: VaultConfig, acquisitions: seq<AcquirerTx>, contributions: seq<ContributorTx>,
                            minLpLiquidity: int) returns (r: Transition)
    ensures var optimal := OptimalFor(v, TotalAcquired(acquisitions), TotalValue(ValuesOf(contributions)));
            var p := PoolOf(v, acquisitions, contributions, optimal);
            Answers(r, v, acquisitions, contributions, minLpLiquidity, optimal, p)
  {
    var acquired := SumAmounts(acquisitions);
    var values, users, tvl := ValueTotals(contributions);
    var lp := LpFor(v, v.decimals, acquired, tvl);
    var lpLovelace := Floor(lp.lpAda * LOVELACE);
    var optimal := OptimalFor(v, acquired, tvl);
    var decimals := v.decimals;
    var finalLp := lp;
    if optimal > v.decimals {
      decimals := optimal;
      finalLp := LpFor(v, optimal, acquired, tvl);
    }
    var supply := Supply(v, decimals);
    var pool := Pool(values, users, tvl, acquired, lp.lpAda, finalLp.lpVt, supply, Offered(v));
    assert pool == PoolOf(v, acquisitions, contributions, optimal);
    r := AnswerFrom(v, acquisitions, contributions, minLpLiquidity, optimal, pool, lpLovelace, finalLp);
  }

  method AnswerFrom(v: VaultConfig, acquisitions: seq<AcquirerTx>, contributions: seq<ContributorTx>,
                    minLpLiquidity: int, optimal: nat, p: Pool, lpLovelace: int, lp: LpTokens) returns (r: Transition)
    requires lpLovelace == Floor(p.lpAda * LOVELACE) && p.supply == Supply(v, FinalDecimals(v, optimal))
    requires lp == LpFor(v, FinalDecimals(v, optimal), p.acquired, p.tvl)
    ensures Answers(r, v, acquisitions, contributions, minLpLiquidity, optimal, p)
  {
    AnswerIsDescribed(v, acquisitions, contributions, minLpLiquidity, optimal, p);
    if v.liquidityPool > 0.0 && lpLovelace < minLpLiquidity {
      return InsufficientLiquidity(lpLovelace);
    }
    if !Shareable(acquisitions, p.acquired) || !AllCountable(contributions, p.values) {
      return NotFinite;
    }
    var acquirers, contributors, vtRows, adaRows := CreateClaims(acquisitions, contributions, p);
    r := Success(FinalDecimals(v, optimal), p.supply, lp, acquirers, contributors, vtRows, adaRows);
  }
}
