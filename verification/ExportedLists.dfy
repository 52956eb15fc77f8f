/**
 The two exported lists, row by row: which asset each row names, which share it holds, and in which list.
 */
module ExportedLists {
  import opened Wrappers
  import opened JsMaps
  import opened Sequences
  import opened AcquireTransition
  import opened TransitionConservation
  import opened MultiplierTable

  ghost predicate NamesKey(r: Row, k: Key) {
    r.policyId == k.policyId && r.assetName == if k.name == "" then None else Some(k.name)
  }

  ghost predicate SameName(r: Row, s: Row) {
    r.policyId == s.policyId && r.assetName == s.assetName
  }

  ghost predicate IsFirstLine(lines: seq<Line>, i: nat)
    requires i < |lines|
  {
    forall j :: 0 <= j < i ==> lines[j].key != lines[i].key
  }

  /** Rows `k` of both lists stand for line `i`, one with its VT share and one with its ADA share. */
  ghost predicate RowsOfLine(vt: seq<Row>, ada: seq<Row>, k: nat, lines: seq<Line>, i: nat)
    requires k < |vt| && k < |ada| && i < |lines|
  {
    && NamesKey(vt[k], lines[i].key) && vt[k].multiplier == lines[i].vt
    && NamesKey(ada[k], lines[i].key) && ada[k].multiplier == lines[i].ada
  }

  ghost predicate StandsForFirstLine(vt: seq<Row>, ada: seq<Row>, k: nat, lines: seq<Line>)
    requires k < |vt| && k < |ada|
  {
    exists i :: 0 <= i < |lines| && IsFirstLine(lines, i) && RowsOfLine(vt, ada, k, lines, i)
  }

  ghost predicate HasRow(rows: seq<Row>, key: Key) {
    exists k :: 0 <= k < |rows| && NamesKey(rows[k], key)
  }

  /** One row per distinct key in each list, in the same order, holding the shares of the key's first line. */
  ghost predicate ListsFirstLines(vt: seq<Row>, ada: seq<Row>, lines: seq<Line>) {
    && |vt| == |ada|
    && (forall k :: 0 <= k < |vt| ==> StandsForFirstLine(vt, ada, k, lines))
    && (forall i :: 0 <= i < |lines| ==> HasRow(vt, lines[i].key))
    && (forall j, k :: 0 <= j < k < |vt| ==> !SameName(vt[j], vt[k]))
  }

  /** The acquirers' row comes last in the VT list, when there are acquirers, and holds the smallest multiplier. */
  ghost predicate EndsWithAcquirers(vt: seq<Row>, assets: nat, raw: seq<AcquirerClaim>) {
    if raw == [] then |vt| == assets
    else
      && |vt| == assets + 1 && vt[assets].policyId == "" && vt[assets].assetName == Some("")
      && (forall c :: c in raw ==> vt[assets].multiplier <= c.multiplier)
      && (exists c :: c in raw && vt[assets].multiplier == c.multiplier)
  }

  lemma FirstLineIs(lines: seq<Line>, k: Key) returns (i: nat)
    requires First(lines, k).Some?
    ensures i < |lines| && lines[i] == First(lines, k).value && lines[i].key == k && IsFirstLine(lines, i)
  {
    FirstIsFirst(lines, k);
    i :| 0 <= i < |lines| && lines[i] == First(lines, k).value && lines[i].key == k
         && forall j :: 0 <= j < i ==> lines[j].key != k;
  }

  /** Both lists against the table's rows before they are split. */
  ghost predicate SplitsInto(shares: seq<Share>, vt: seq<Row>, ada: seq<Row>) {
    && |vt| == |ada| == |shares|
    && forall k :: 0 <= k < |shares| ==>
         && NamesKey(vt[k], shares[k].key) && vt[k].multiplier == shares[k].vt
         && NamesKey(ada[k], shares[k].key) && ada[k].multiplier == shares[k].ada
  }

  lemma RowsSplit(shares: seq<Share>)
    ensures SplitsInto(shares, VtRows(shares, []), AdaRows(shares))
  {
  }

  lemma ShareStandsForLine(lines: seq<Line>, shares: seq<Share>, vt: seq<Row>, ada: seq<Row>, k: nat)
    requires SplitsInto(shares, vt, ada) && k < |shares|
    requires First(lines, shares[k].key) == Some(Line(shares[k].key, shares[k].vt, shares[k].ada))
    ensures StandsForFirstLine(vt, ada, k, lines)
  {
    var i := FirstLineIs(lines, shares[k].key);
    assert RowsOfLine(vt, ada, k, lines, i);
  }

  lemma ListedHasRow(shares: seq<Share>, vt: seq<Row>, ada: seq<Row>, key: Key)
    requires SplitsInto(shares, vt, ada) && Listed(shares, key)
    ensures HasRow(vt, key)
  {
    var k :| 0 <= k < |shares| && shares[k].key == key;
    assert NamesKey(vt[k], key);
  }

  /** What the table's rows are. */
  ghost predicate RowPerKey(shares: seq<Share>, lines: seq<Line>) {
    && (forall i, j :: 0 <= i < j < |shares| ==> shares[i].key != shares[j].key)
    && (forall i :: 0 <= i < |lines| ==> Listed(shares, lines[i].key))
    && (forall i :: 0 <= i < |shares| ==>
          First(lines, shares[i].key) == Some(Line(shares[i].key, shares[i].vt, shares[i].ada)))
  }

  lemma TableHasRowPerKey(lines: seq<Line>)
    ensures RowPerKey(SharesOf(TableOf(lines)), lines)
  {
    OneRowPerKey(lines);
  }

  lemma AssetRowsList(lines: seq<Line>, shares: seq<Share>, vt: seq<Row>, ada: seq<Row>)
    requires SplitsInto(shares, vt, ada) && RowPerKey(shares, lines)
    ensures ListsFirstLines(vt, ada, lines)
  {
    forall k | 0 <= k < |vt| ensures StandsForFirstLine(vt, ada, k, lines) {
      ShareStandsForLine(lines, shares, vt, ada, k);
    }
    forall i | 0 <= i < |lines| ensures HasRow(vt, lines[i].key) {
      ListedHasRow(shares, vt, ada, lines[i].key);
    }
    forall j, k | 0 <= j < k < |vt| ensures !SameName(vt[j], vt[k]) {
      assert shares[j].key != shares[k].key;
    }
  }

  lemma SmallestOfNormalized(raw: seq<AcquirerClaim>)
    requires raw != []
    ensures Normalized(raw) != [] && Normalized(raw)[0].multiplier == MinMultiplier(raw)
    ensures forall c :: c in raw ==> MinMultiplier(raw) <= c.multiplier
    ensures exists c :: c in raw && MinMultiplier(raw) == c.multiplier
  {
    MinIsLeast(raw);
    var i :| 0 <= i < |raw| && MinMultiplier(raw) == raw[i].multiplier;
    assert raw[i] in raw;
  }

  /** Both exported lists in their fields: the rows of the assets first, the acquirers' row in the VT list only. */
  lemma ListsAreExported(lines: seq<Line>, raw: seq<AcquirerClaim>)
    ensures var vt := VtRows(SharesOf(TableOf(lines)), Normalized(raw));
            var ada := AdaRows(SharesOf(TableOf(lines)));
            && |ada| <= |vt| && ListsFirstLines(vt[..|ada|], ada, lines) && EndsWithAcquirers(vt, |ada|, raw)
  {
    var shares := SharesOf(TableOf(lines));
    var vt, ada := VtRows(shares, Normalized(raw)), AdaRows(shares);
    RowsSplit(shares);
    assert vt[..|ada|] == VtRows(shares, []);
    TableHasRowPerKey(lines);
    AssetRowsList(lines, shares, vt[..|ada|], ada);
    if raw != [] {
      SmallestOfNormalized(raw);
    }
  }

  // ----- Rows and assets -----

  /** The row is for the asset: same policy and name, no name and the empty one being the same. */
  ghost predicate NamesAsset(r: Row, a: Asset) {
    && r.policyId == a.policyId
    && if a.assetName == Some("") then r.assetName == None else r.assetName == a.assetName
  }

  lemma KeyNamesAsset(r: Row, a: Asset)
    ensures NamesKey(r, KeyOf(a)) <==> NamesAsset(r, a)
  {
  }

  ghost predicate HasKey(lines: seq<Line>, k: Key) {
    exists i :: 0 <= i < |lines| && lines[i].key == k
  }

  /** Some contribution with a claim holds an asset of that key. */
  ghost predicate Contributed(txs: seq<ContributorTx>, values: JsMap<string, real>, k: Key) {
    exists i, a :: 0 <= i < |txs| && GetOrZero(values, txs[i].id) > 0.0 && a in txs[i].assets && KeyOf(a) == k
  }

  lemma LinesAppend(lines: seq<Line>, more: seq<Line>, k: Key)
    ensures HasKey(lines + more, k) <==> HasKey(lines, k) || HasKey(more, k)
  {
    if HasKey(lines, k) {
      var i :| 0 <= i < |lines| && lines[i].key == k;
      assert (lines + more)[i].key == k;
    }
    if HasKey(more, k) {
      var i :| 0 <= i < |more| && more[i].key == k;
      assert (lines + more)[|lines| + i].key == k;
    }
  }

  lemma LinesOfAssets(c: ContributorClaim, txValue: real, assets: seq<Asset>, k: Key)
    requires txValue != 0.0 && Countable(assets)
    ensures HasKey(LinesOf(c, txValue, assets), k) <==> exists a :: a in assets && KeyOf(a) == k
  {
    var lines := LinesOf(c, txValue, assets);
    if HasKey(lines, k) {
      var i :| 0 <= i < |lines| && lines[i].key == k;
      assert assets[i] in assets;
    }
    if a :| a in assets && KeyOf(a) == k {
      var i :| 0 <= i < |assets| && assets[i] == a;
      assert lines[i].key == k;
    }
  }

  lemma ContributedNext(init: seq<ContributorTx>, tx: ContributorTx, values: JsMap<string, real>, k: Key)
    ensures Contributed(init + [tx], values, k) <==>
            || Contributed(init, values, k)
            || (GetOrZero(values, tx.id) > 0.0 && exists a :: a in tx.assets && KeyOf(a) == k)
  {
    var txs := init + [tx];
    assert txs[|init|] == tx;
    if Contributed(init, values, k) {
      var i, a :| 0 <= i < |init| && GetOrZero(values, init[i].id) > 0.0 && a in init[i].assets && KeyOf(a) == k;
      assert txs[i] == init[i];
    }
    if Contributed(txs, values, k) {
      var i, a :| 0 <= i < |txs| && GetOrZero(values, txs[i].id) > 0.0 && a in txs[i].assets && KeyOf(a) == k;
      if i < |init| {
        assert init[i] == txs[i];
      }
    }
  }

  ghost predicate EveryOneHasAClaim(claims: seq<ContributorClaim>, txs: seq<ContributorTx>,
                                    values: JsMap<string, real>)
  {
    forall i :: 0 <= i < |txs| && GetOrZero(values, txs[i].id) > 0.0 ==>
      exists j :: 0 <= j < |claims| && claims[j].txId == txs[i].id
  }

  /** The keys of the lines are those of the assets of the contributions that have a claim. */
  lemma {:induction false} LinesAreContributed(claims: seq<ContributorClaim>, txs: seq<ContributorTx>,
                                               values: JsMap<string, real>, k: Key)
    requires AllCountable(txs, values) && EveryOneHasAClaim(claims, txs, values)
    ensures HasKey(RecalculateAll(claims, txs, values).lines, k) <==> Contributed(txs, values, k)
  {
    if txs != [] {
      var init, tx := Init(txs), Last(txs);
      assert forall i :: 0 <= i < |init| ==> init[i] == txs[i];
      assert txs[|init|] == tx && init + [tx] == txs;
      LinesAreContributed(claims, init, values, k);
      ContributedNext(init, tx, values, k);
      var before := RecalculateAll(claims, init, values);
      RecalculationKeepsIds(claims, init, values);
      if GetOrZero(values, tx.id) > 0.0 {
        var j :| 0 <= j < |claims| && claims[j].txId == tx.id;
        assert before.claims[j].txId == tx.id;
        var c := before.claims[FindClaim(before.claims, tx.id).value];
        LinesAppend(before.lines, LinesOf(c, GetOrZero(values, tx.id), tx.assets), k);
        LinesOfAssets(c, GetOrZero(values, tx.id), tx.assets, k);
      }
    }
  }

  lemma ClaimedHaveClaims(txs: seq<ContributorTx>, p: Pool)
    ensures EveryOneHasAClaim(ClaimsFor(Claimed(txs, p.values), p), txs, p.values)
  {
    var cs := Claimed(txs, p.values);
    forall i | 0 <= i < |txs| && GetOrZero(p.values, txs[i].id) > 0.0
      ensures exists j :: 0 <= j < |ClaimsFor(cs, p)| && ClaimsFor(cs, p)[j].txId == txs[i].id
    {
      var j := PositionAmongClaimed(txs, p.values, i);
      assert ClaimsFor(cs, p)[j].txId == txs[i].id;
    }
  }

  lemma {:induction false} PositionAmongClaimed(txs: seq<ContributorTx>, values: JsMap<string, real>, i: nat)
    returns (j: nat)
    requires i < |txs| && GetOrZero(values, txs[i].id) > 0.0
    ensures j < |Claimed(txs, values)| && Claimed(txs, values)[j] == txs[i]
  {
    if i == |txs| - 1 {
      j := |Claimed(Init(txs), values)|;
    } else {
      j := PositionAmongClaimed(Init(txs), values, i);
    }
  }

  ghost predicate HasAsset(txs: seq<ContributorTx>, values: JsMap<string, real>, r: Row) {
    exists i, a :: 0 <= i < |txs| && GetOrZero(values, txs[i].id) > 0.0 && a in txs[i].assets && NamesAsset(r, a)
  }

  ghost predicate HasRowFor(rows: seq<Row>, a: Asset) {
    exists k :: 0 <= k < |rows| && NamesAsset(rows[k], a)
  }

  /** There is a row for every asset of every contribution with a claim, and for nothing else. */
  ghost predicate ListsAssets(rows: seq<Row>, txs: seq<ContributorTx>, values: JsMap<string, real>) {
    && (forall i, a :: 0 <= i < |txs| && GetOrZero(values, txs[i].id) > 0.0 && a in txs[i].assets ==>
          HasRowFor(rows, a))
    && (forall k :: 0 <= k < |rows| ==> HasAsset(txs, values, rows[k]))
  }

  lemma RowForAsset(txs: seq<ContributorTx>, values: JsMap<string, real>, lines: seq<Line>, vt: seq<Row>, ada: seq<Row>,
                    i: nat, a: Asset)
    requires i < |txs| && GetOrZero(values, txs[i].id) > 0.0 && a in txs[i].assets
    requires HasKey(lines, KeyOf(a)) && ListsFirstLines(vt, ada, lines)
    ensures HasRowFor(vt, a)
  {
    var l :| 0 <= l < |lines| && lines[l].key == KeyOf(a);
    assert HasRow(vt, lines[l].key);
    var k :| 0 <= k < |vt| && NamesKey(vt[k], lines[l].key);
    KeyNamesAsset(vt[k], a);
  }

  lemma AssetForRow(txs: seq<ContributorTx>, values: JsMap<string, real>, lines: seq<Line>, vt: seq<Row>, ada: seq<Row>,
                    k: nat)
    requires ListsFirstLines(vt, ada, lines) && k < |vt|
    requires forall key: Key :: HasKey(lines, key) ==> Contributed(txs, values, key)
    ensures HasAsset(txs, values, vt[k])
  {
    assert StandsForFirstLine(vt, ada, k, lines);
    var l :| 0 <= l < |lines| && IsFirstLine(lines, l) && RowsOfLine(vt, ada, k, lines, l);
    assert HasKey(lines, lines[l].key);
    assert Contributed(txs, values, lines[l].key);
    var i, a :| 0 <= i < |txs| && GetOrZero(values, txs[i].id) > 0.0 && a in txs[i].assets
                && KeyOf(a) == lines[l].key;
    KeyNamesAsset(vt[k], a);
  }

  lemma RowsListAssets(txs: seq<ContributorTx>, p: Pool, vt: seq<Row>, ada: seq<Row>)
    requires AllCountable(txs, p.values) && ListsFirstLines(vt, ada, RecalculationOf(txs, p).lines)
    ensures ListsAssets(vt, txs, p.values)
  {
    var lines := RecalculationOf(txs, p).lines;
    ClaimedHaveClaims(txs, p);
    forall key: Key ensures HasKey(lines, key) <==> Contributed(txs, p.values, key) {
      LinesAreContributed(ClaimsFor(Claimed(txs, p.values), p), txs, p.values, key);
    }
    forall i, a | 0 <= i < |txs| && GetOrZero(p.values, txs[i].id) > 0.0 && a in txs[i].assets
      ensures HasRowFor(vt, a)
    {
      assert Contributed(txs, p.values, KeyOf(a));
      RowForAsset(txs, p.values, lines, vt, ada, i, a);
    }
    forall k | 0 <= k < |vt| ensures HasAsset(txs, p.values, vt[k]) {
      AssetForRow(txs, p.values, lines, vt, ada, k);
    }
  }
}
