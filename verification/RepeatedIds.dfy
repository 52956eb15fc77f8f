/**
 Contributions that share a transaction id: the value map keeps one of them, but every one of them gets a claim. What
 that does to the claims as they are created, before flooring; RecalculatedRepeats has what becomes of them.
 */
module RepeatedIds {
  import opened Wrappers
  import opened JsMaps
  import opened Sequences
  import opened DistributionMath
  import opened AcquireTransition
  import opened TransitionConservation
  import JsNumbers

  // ----- Sums over keys -----

  lemma {:induction false} RemoveKey(keys: seq<string>, j: nat, m: JsMap<string, real>)
    requires j < |keys|
    ensures SumOver(keys, m) == SumOver(keys[..j] + keys[j + 1..], m) + GetOrZero(m, keys[j])
  {
    if j == |keys| - 1 {
      assert keys[..j] + keys[j + 1..] == Init(keys);
    } else {
      RemoveKey(Init(keys), j, m);
      var rest := keys[..j] + keys[j + 1..];
      assert Init(rest) == Init(keys)[..j] + Init(keys)[j + 1..] && Last(rest) == Last(keys);
    }
  }

  lemma {:induction false} WorthlessKeys(keys: seq<string>, m: JsMap<string, real>)
    requires forall k :: k in keys ==> GetOrZero(m, k) == 0.0
    ensures SumOver(keys, m) == 0.0
  {
    if keys != [] {
      assert forall k :: k in Init(keys) ==> k in keys;
      WorthlessKeys(Init(keys), m);
      assert Last(keys) in keys;
    }
  }

  lemma RemoveFromDistinct(keys: seq<string>, j: nat)
    requires Distinct(keys) && j < |keys|
    ensures var rest := keys[..j] + keys[j + 1..];
            Distinct(rest) && forall k :: k in rest <==> k in keys && k != keys[j]
  {
    var rest := keys[..j] + keys[j + 1..];
    forall k ensures k in rest <==> k in keys && k != keys[j] {
      if k in keys && k != keys[j] {
        var i :| 0 <= i < |keys| && keys[i] == k;
        assert rest[if i < j then i else i - 1] == k;
      }
    }
  }

  /** Two lists without repetitions that agree on the keys of some value have the same sum. */
  lemma {:induction false} SameWorth(a: seq<string>, b: seq<string>, m: JsMap<string, real>)
    requires Distinct(a) && Distinct(b)
    requires forall k :: GetOrZero(m, k) != 0.0 ==> (k in a <==> k in b)
    ensures SumOver(a, m) == SumOver(b, m)
    decreases |a|
  {
    if a == [] {
      WorthlessKeys(b, m);
    } else {
      var init, x := Init(a), Last(a);
      assert a == init + [x];
      RemoveFromDistinct(a, |a| - 1);
      assert init == a[..|a| - 1] + a[|a|..];
      if GetOrZero(m, x) == 0.0 {
        SameWorth(init, b, m);
      } else {
        var j :| 0 <= j < |b| && b[j] == x;
        RemoveFromDistinct(b, j);
        RemoveKey(b, j, m);
        SameWorth(init, b[..j] + b[j + 1..], m);
      }
    }
  }

  /** The keys in order of their first occurrence. */
  ghost function Firsts(keys: seq<string>): seq<string> {
    if keys == [] then []
    else Firsts(Init(keys)) + if Last(keys) in Init(keys) then [] else [Last(keys)]
  }

  /** The value of all occurrences but the first. */
  ghost function RepeatedValue(keys: seq<string>, m: JsMap<string, real>): real {
    if keys == [] then 0.0
    else RepeatedValue(Init(keys), m) + if Last(keys) in Init(keys) then GetOrZero(m, Last(keys)) else 0.0
  }

  lemma {:induction false} FirstsAreSet(keys: seq<string>)
    ensures Distinct(Firsts(keys)) && forall k :: k in Firsts(keys) <==> k in keys
  {
    if keys != [] {
      FirstsAreSet(Init(keys));
      assert keys == Init(keys) + [Last(keys)];
    }
  }

  lemma {:induction false} SumSplits(keys: seq<string>, m: JsMap<string, real>)
    ensures SumOver(keys, m) == SumOver(Firsts(keys), m) + RepeatedValue(keys, m)
  {
    if keys != [] {
      SumSplits(Init(keys), m);
      if Last(keys) !in Init(keys) {
        assert Init(Firsts(keys)) == Firsts(Init(keys));
      } else {
        assert Firsts(keys) == Firsts(Init(keys));
      }
    }
  }

  /** With positive values, nothing is repeated exactly when the repetitions are worth nothing. */
  lemma {:induction false} RepeatedValueIsZeroIff(keys: seq<string>, m: JsMap<string, real>)
    requires forall k :: k in keys ==> GetOrZero(m, k) > 0.0
    ensures RepeatedValue(keys, m) >= 0.0
    ensures RepeatedValue(keys, m) == 0.0 <==> Distinct(keys)
  {
    if keys != [] {
      var init, x := Init(keys), Last(keys);
      assert forall k :: k in init ==> k in keys;
      assert x in keys && keys == init + [x];
      RepeatedValueIsZeroIff(init, m);
      DistinctNext(init, x);
    }
  }

  lemma DistinctNext(init: seq<string>, x: string)
    ensures Distinct(init + [x]) <==> Distinct(init) && x !in init
  {
    var all := init + [x];
    if Distinct(all) {
      forall i, j | 0 <= i < j < |init| ensures init[i] != init[j] {
        assert all[i] != all[j];
      }
      forall i | 0 <= i < |init| ensures init[i] != x {
        assert all[i] != all[|init|];
      }
    }
  }

  // ----- Exact claims -----

  /** The VT and the lovelace of a contribution's claim before they are floored. */
  ghost function ExactVt(tx: ContributorTx, p: Pool): real {
    ContributorVt(GetOrZero(p.values, tx.id), GetOrZero(p.users, tx.userId), p.tvl, p.lpVt, p.supply, p.offered)
  }

  ghost function ExactLovelace(tx: ContributorTx, p: Pool): real {
    ContributorLovelace(GetOrZero(p.values, tx.id), GetOrZero(p.users, tx.userId), p.tvl, p.acquired, p.lpAda)
  }

  lemma ClaimFloorsExact(tx: ContributorTx, p: Pool)
    ensures Floored(ClaimFor(tx, p).vt, ExactVt(tx, p)) && Floored(ClaimFor(tx, p).lovelace, ExactLovelace(tx, p))
  {
  }

  ghost function ExactVts(txs: seq<ContributorTx>, p: Pool): seq<real> {
    seq(|txs|, i requires 0 <= i < |txs| => ExactVt(txs[i], p))
  }

  ghost function ExactLovelaces(txs: seq<ContributorTx>, p: Pool): seq<real> {
    seq(|txs|, i requires 0 <= i < |txs| => ExactLovelace(txs[i], p))
  }

  /** A contribution that is paid something: its id has a value, and its user contributed something. */
  ghost predicate IsPaid(tx: ContributorTx, p: Pool) {
    GetOrZero(p.values, tx.id) > 0.0 && GetOrZero(p.users, tx.userId) > 0.0
  }

  ghost function PaidValue(tx: ContributorTx, p: Pool): real {
    if IsPaid(tx, p) then GetOrZero(p.values, tx.id) else 0.0
  }

  /** The ids of the contributions that are paid, one entry for each. */
  ghost function PaidIds(txs: seq<ContributorTx>, p: Pool): seq<string> {
    if txs == [] then [] else PaidIds(Init(txs), p) + if IsPaid(Last(txs), p) then [Last(txs).id] else []
  }

  /** Exactly the id's portion of the pot if the contribution is paid, else nothing. */
  lemma ExactIsPortion(tx: ContributorTx, p: Pool)
    requires p.offered <= 1.0 && p.tvl > 0.0 && GetOrZero(p.values, tx.id) > 0.0 && GetOrZero(p.users, tx.userId) >= 0.0
    ensures ExactVt(tx, p) == Portion(VtPot(p), PaidValue(tx, p), p.tvl)
    ensures ExactLovelace(tx, p) == Portion(LovelacePot(p), PaidValue(tx, p), p.tvl)
  {
    var value, user := GetOrZero(p.values, tx.id), GetOrZero(p.users, tx.userId);
    if IsPaid(tx, p) {
      CancelUser(VtPot(p), user, value, p.tvl);
      CancelUser(LovelacePot(p), user, value, p.tvl);
      Reorder(user / p.tvl, p.acquired - p.lpAda, value / user);
      if p.offered >= 1.0 {
        assert VtPot(p) == 0.0;
        assert Portion(VtPot(p), value, p.tvl) == 0.0;
      }
    } else {
      NoPortion(VtPot(p), p.tvl);
      NoPortion(LovelacePot(p), p.tvl);
      assert Fraction(value, user) == 0.0;
    }
  }

  lemma SumOverNext(keys: seq<string>, k: string, m: JsMap<string, real>)
    ensures SumOver(keys + [k], m) == SumOver(keys, m) + GetOrZero(m, k)
  {
    assert Init(keys + [k]) == keys;
  }

  lemma {:induction false} SumPortions(xs: seq<real>, values: seq<real>, amount: real, whole: real)
    requires whole != 0.0 && |xs| == |values|
    requires forall i :: 0 <= i < |xs| ==> xs[i] == Portion(amount, values[i], whole)
    ensures Sum(xs) == Portion(amount, Sum(values), whole)
  {
    if xs == [] {
      NoPortion(amount, whole);
    } else {
      SumPortions(Init(xs), Init(values), amount, whole);
      SplitPortion(amount, whole, Sum(Init(values)), Last(values));
    }
  }

  ghost function PaidValues(txs: seq<ContributorTx>, p: Pool): seq<real> {
    seq(|txs|, i requires 0 <= i < |txs| => PaidValue(txs[i], p))
  }

  lemma {:induction false} PaidValuesOfClaimed(txs: seq<ContributorTx>, p: Pool)
    ensures Sum(PaidValues(Claimed(txs, p.values), p)) == SumOver(PaidIds(txs, p), p.values)
  {
    if txs != [] {
      var init, tx := Init(txs), Last(txs);
      assert init + [tx] == txs;
      PaidValuesOfClaimed(init, p);
      PaidValueNext(init, tx, p);
      ClaimedStep(txs, p);
      PaidValuesNext(Claimed(init, p.values), tx, p);
    }
  }

  lemma PaidValuesNext(txs: seq<ContributorTx>, tx: ContributorTx, p: Pool)
    ensures Sum(PaidValues(txs + [tx], p)) == Sum(PaidValues(txs, p)) + PaidValue(tx, p)
  {
    assert Init(PaidValues(txs + [tx], p)) == PaidValues(txs, p);
  }

  /** The exact claims of a list of contributions add up to the portion of their paid ids. */
  lemma ExactClaimsOf(txs: seq<ContributorTx>, p: Pool)
    requires p.offered <= 1.0 && p.tvl > 0.0
    requires forall i :: 0 <= i < |txs| ==> GetOrZero(p.users, txs[i].userId) >= 0.0
    ensures Sum(ExactVts(Claimed(txs, p.values), p)) == Portion(VtPot(p), SumOver(PaidIds(txs, p), p.values), p.tvl)
    ensures Sum(ExactLovelaces(Claimed(txs, p.values), p)) ==
            Portion(LovelacePot(p), SumOver(PaidIds(txs, p), p.values), p.tvl)
  {
    var claimed := Claimed(txs, p.values);
    ClaimedAreTxs(txs, p.values);
    forall i | 0 <= i < |claimed|
      ensures ExactVts(claimed, p)[i] == Portion(VtPot(p), PaidValues(claimed, p)[i], p.tvl)
      ensures ExactLovelaces(claimed, p)[i] == Portion(LovelacePot(p), PaidValues(claimed, p)[i], p.tvl)
    {
      assert claimed[i] in txs;
      ExactIsPortion(claimed[i], p);
    }
    SumPortions(ExactVts(claimed, p), PaidValues(claimed, p), VtPot(p), p.tvl);
    SumPortions(ExactLovelaces(claimed, p), PaidValues(claimed, p), LovelacePot(p), p.tvl);
    PaidValuesOfClaimed(txs, p);
  }

  lemma PaidValueNext(init: seq<ContributorTx>, tx: ContributorTx, p: Pool)
    ensures SumOver(PaidIds(init + [tx], p), p.values) == SumOver(PaidIds(init, p), p.values) + PaidValue(tx, p)
  {
    assert Init(init + [tx]) == init;
    SumOverNext(PaidIds(init, p), tx.id, p.values);
    assert PaidIds(init, p) + [] == PaidIds(init, p);
  }

  lemma ClaimedStep(txs: seq<ContributorTx>, p: Pool)
    requires txs != []
    ensures var init, tx := Init(txs), Last(txs);
            && Claimed(txs, p.values) ==
               (if GetOrZero(p.values, tx.id) > 0.0 then Claimed(init, p.values) + [tx] else Claimed(init, p.values))
            && PaidIds(txs, p) == if IsPaid(tx, p) then PaidIds(init, p) + [tx.id] else PaidIds(init, p)
  {
  }

  // ----- The ids that carry the value -----

  lemma {:induction false} PaidIdsMembers(txs: seq<ContributorTx>, p: Pool)
    ensures forall k :: k in PaidIds(txs, p) ==> GetOrZero(p.values, k) > 0.0
    ensures forall i :: 0 <= i < |txs| && IsPaid(txs[i], p) ==> txs[i].id in PaidIds(txs, p)
  {
    if txs != [] {
      PaidIdsMembers(Init(txs), p);
      ClaimedStep(txs, p);
      assert forall i :: 0 <= i < |txs| - 1 ==> txs[i] == Init(txs)[i];
    }
  }

  /** The map's value for an id is that of a contribution with that id. */
  lemma {:induction false} OwnerOf(txs: seq<ContributorTx>, k: string) returns (i: nat)
    requires k in ValuesOf(txs).items
    ensures i < |txs| && txs[i].id == k && TxValue(txs[i].assets) == ValuesOf(txs).items[k]
  {
    if Last(txs).id == k {
      i := |txs| - 1;
    } else {
      i := OwnerOf(Init(txs), k);
      assert Init(txs)[i] == txs[i];
    }
  }

  /** The distinct paid ids are worth exactly the total value locked. */
  lemma PaidIdsCarryTheValue(txs: seq<ContributorTx>, p: Pool)
    requires PoolFor(p, txs) && NonNegative(txs)
    ensures SumOver(Firsts(PaidIds(txs, p)), p.values) == p.tvl
  {
    ValuesAreKeyedByIds(txs);
    FirstsAreSet(PaidIds(txs, p));
    PaidIdsMembers(txs, p);
    forall k | GetOrZero(p.values, k) != 0.0 ensures k in Firsts(PaidIds(txs, p)) <==> k in p.values.keys {
      var i := OwnerOf(txs, k);
      UserTotalCoversTx(txs, i);
      assert TxValue(txs[i].assets) >= 0.0;
      assert IsPaid(txs[i], p);
    }
    SameWorth(Firsts(PaidIds(txs, p)), p.values.keys, p.values);
  }

  lemma UsersAreNonNegative(txs: seq<ContributorTx>, p: Pool)
    requires PoolFor(p, txs) && NonNegative(txs)
    ensures forall i :: 0 <= i < |txs| ==> GetOrZero(p.users, txs[i].userId) >= 0.0
  {
    forall i | 0 <= i < |txs| ensures GetOrZero(p.users, txs[i].userId) >= 0.0 {
      UserTotalsNonNegative(txs, txs[i].userId);
    }
  }

  /** What the repeated ids are worth. */
  ghost function Excess(txs: seq<ContributorTx>, p: Pool): real {
    RepeatedValue(PaidIds(txs, p), p.values)
  }

  /** Before flooring, all claims together are the pot plus the portion of what the repeated ids are worth. */
  lemma ExactClaimsAddUp(txs: seq<ContributorTx>, p: Pool)
    requires PoolFor(p, txs) && NonNegative(txs) && p.tvl > 0.0
    ensures Sum(ExactVts(Claimed(txs, p.values), p)) == VtPot(p) + Portion(VtPot(p), Excess(txs, p), p.tvl)
    ensures Sum(ExactLovelaces(Claimed(txs, p.values), p)) ==
            LovelacePot(p) + Portion(LovelacePot(p), Excess(txs, p), p.tvl)
  {
    var ids := PaidIds(txs, p);
    UsersAreNonNegative(txs, p);
    ExactClaimsOf(txs, p);
    SumSplits(ids, p.values);
    PaidIdsCarryTheValue(txs, p);
    SplitPortion(VtPot(p), p.tvl, p.tvl, Excess(txs, p));
    SplitPortion(LovelacePot(p), p.tvl, p.tvl, Excess(txs, p));
    WholePortion(VtPot(p), p.tvl);
    WholePortion(LovelacePot(p), p.tvl);
  }

  lemma PortionIsZeroIff(amount: real, part: real, whole: real)
    requires amount != 0.0 && whole > 0.0
    ensures Portion(amount, part, whole) == 0.0 <==> part == 0.0
  {
    assert Portion(amount, part, whole) * whole == amount * part;
    NonZeroProduct(amount, part);
  }

  lemma NonZeroProduct(x: real, y: real)
    requires x != 0.0
    ensures x * y == 0.0 <==> y == 0.0
  {
  }

  /** Conservation before flooring, exactly: the claims add up to a pot that is not empty if and only if no id is paid
      twice. */
  lemma PotIsSharedIffNoIdIsPaidTwice(txs: seq<ContributorTx>, p: Pool)
    requires PoolFor(p, txs) && NonNegative(txs) && p.tvl > 0.0
    ensures VtPot(p) != 0.0 ==>
              (Sum(ExactVts(Claimed(txs, p.values), p)) == VtPot(p) <==> Distinct(PaidIds(txs, p)))
    ensures LovelacePot(p) != 0.0 ==>
              (Sum(ExactLovelaces(Claimed(txs, p.values), p)) == LovelacePot(p) <==> Distinct(PaidIds(txs, p)))
  {
    ExactClaimsAddUp(txs, p);
    PaidIdsMembers(txs, p);
    RepeatedValueIsZeroIff(PaidIds(txs, p), p.values);
    if VtPot(p) != 0.0 {
      PortionIsZeroIff(VtPot(p), Excess(txs, p), p.tvl);
    }
    if LovelacePot(p) != 0.0 {
      PortionIsZeroIff(LovelacePot(p), Excess(txs, p), p.tvl);
    }
  }

  lemma ClaimedNext(init: seq<ContributorTx>, tx: ContributorTx)
    ensures DistinctIds(init + [tx]) <==> DistinctIds(init) && !HasId(init, tx.id)
  {
    var all := init + [tx];
    if DistinctIds(all) {
      forall i, j | 0 <= i < j < |init| ensures init[i].id != init[j].id {
        assert all[i].id != all[j].id;
      }
      forall i | 0 <= i < |init| ensures init[i].id != tx.id {
        assert all[i].id != all[|init|].id;
      }
    }
  }

  /** When every claim's user contributed something, that is: no id of positive value occurs twice. */
  lemma {:induction false} PaidTwiceIsClaimedTwice(txs: seq<ContributorTx>, p: Pool)
    requires forall i :: 0 <= i < |txs| && GetOrZero(p.values, txs[i].id) > 0.0 ==>
               GetOrZero(p.users, txs[i].userId) > 0.0
    ensures Distinct(PaidIds(txs, p)) <==> DistinctIds(Claimed(txs, p.values))
    ensures forall k :: k in PaidIds(txs, p) <==> HasId(Claimed(txs, p.values), k)
  {
    if txs != [] {
      var init, tx := Init(txs), Last(txs);
      assert tx == txs[|txs| - 1] && forall i :: 0 <= i < |init| ==> init[i] == txs[i];
      PaidTwiceIsClaimedTwice(init, p);
      ClaimedStep(txs, p);
      if GetOrZero(p.values, tx.id) > 0.0 {
        DistinctNext(PaidIds(init, p), tx.id);
        ClaimedNext(Claimed(init, p.values), tx);
        HasIdNext(Claimed(init, p.values), tx);
      }
    }
  }

  lemma HasIdNext(init: seq<ContributorTx>, tx: ContributorTx)
    ensures forall k :: HasId(init + [tx], k) <==> HasId(init, k) || k == tx.id
  {
    forall k ensures HasId(init + [tx], k) <==> HasId(init, k) || k == tx.id {
      if HasId(init, k) {
        var i :| 0 <= i < |init| && init[i].id == k;
        assert (init + [tx])[i].id == k;
      }
      assert (init + [tx])[|init|].id == tx.id;
    }
  }
}
