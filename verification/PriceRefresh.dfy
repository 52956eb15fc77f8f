/**
 The VyFi bulk refresh: parsing the price map, and the distributed lock that keeps instances from refreshing at once.
 */
module PriceRefresh {
  import opened Wrappers
  import opened PriceStore

  // ----- The response -----

  /** JSON as the parser looks at it; arrays are objects with index keys, strings and booleans are all alike. */
  datatype Json = JNull | JScalar | JNumber(value: real) | JObject(fields: seq<(string, Json)>)

  type Entries = seq<(string, Json)>

  function FieldFrom(fields: Entries, name: string): Option<Json> {
    if fields == [] then None
    else if fields[0].0 == name then Some(fields[0].1)
    else FieldFrom(fields[1..], name)
  }

  /** A property of a value that is not null. */
  function Field(j: Json, name: string): Option<Json> {
    if j.JObject? then FieldFrom(j.fields, name) else None
  }

  function PositiveNumber(j: Option<Json>): Option<real> {
    if j.Some? && j.value.JNumber? && j.value.value > 0.0 then Some(j.value.value) else None
  }

  /** Parsing one entry: a price, none, or a TypeError from looking into null. */
  datatype Parsed = Priced(price: real) | Unpriced | TypeError

  const LOVELACE_PAIR := "lovelace/"

  function RatioPrice(fields: Entries): Parsed {
    if fields == [] then Unpriced
    else if LOVELACE_PAIR <= fields[0].0 then
      if fields[0].1.JNull? then TypeError
      else
        var p := PositiveNumber(Field(fields[0].1, "priceRatioAB"));
        if p.Some? then Priced(p.value) else RatioPrice(fields[1..])
    else RatioPrice(fields[1..])
  }

  function ParseEntry(data: Json): Parsed {
    if data.JNull? then TypeError
    else
      var direct := PositiveNumber(Field(data, "priceADA"));
      if direct.Some? then Priced(direct.value)
      else
        var ratios := Field(data, "lpRatio");
        if ratios.Some? && ratios.value.JObject? then RatioPrice(ratios.value.fields) else Unpriced
  }

  /** key.replace('-', ''): the first dash goes. */
  function TokenUnit(key: string): string {
    if key == [] then []
    else if key[0] == '-' then key[1..]
    else [key[0]] + TokenUnit(key[1..])
  }

  datatype Bulk = Bulk(prices: map<string, real>, validCount: nat)

  /** The result after a number of entries; None: the loop threw. */
  function BulkPrices(entries: Entries): Option<Bulk> {
    if entries == [] then Some(Bulk(map[], 0))
    else
      var before, last := BulkPrices(entries[..|entries| - 1]), entries[|entries| - 1];
      if before.None? then None
      else
        match ParseEntry(last.1)
        case TypeError => None
        case Unpriced => before
        case Priced(p) => Some(Bulk(before.value.prices[TokenUnit(last.0) := p], before.value.validCount + 1))
  }

  // ----- What an entry is read as -----

  ghost predicate FirstNamed(fields: Entries, name: string, i: int) {
    0 <= i < |fields| && fields[i].0 == name && forall j :: 0 <= j < i ==> fields[j].0 != name
  }

  /** The property of that name is a positive number. */
  ghost predicate HasPositive(j: Json, name: string, p: real) {
    j.JObject? && p > 0.0 && exists i :: FirstNamed(j.fields, name, i) && j.fields[i].1 == JNumber(p)
  }

  lemma {:induction false} FieldFromIs(fields: Entries, name: string)
    ensures FieldFrom(fields, name).Some? ==>
              exists i :: FirstNamed(fields, name, i) && fields[i].1 == FieldFrom(fields, name).value
    ensures forall i :: FirstNamed(fields, name, i) ==> FieldFrom(fields, name) == Some(fields[i].1)
  {
    if fields != [] && fields[0].0 != name {
      var rest := fields[1..];
      FieldFromIs(rest, name);
      if FieldFrom(rest, name).Some? {
        var i :| FirstNamed(rest, name, i) && rest[i].1 == FieldFrom(rest, name).value;
        forall j | 0 <= j < i + 1 ensures fields[j].0 != name {
          assert j > 0 ==> fields[j] == rest[j - 1];
        }
        assert FirstNamed(fields, name, i + 1);
      }
      forall i | FirstNamed(fields, name, i) ensures FieldFrom(fields, name) == Some(fields[i].1) {
        assert i > 0;
        forall j | 0 <= j < i - 1 ensures rest[j].0 != name {
          assert rest[j] == fields[j + 1];
        }
        assert FirstNamed(rest, name, i - 1);
      }
    } else if fields != [] {
      assert FirstNamed(fields, name, 0);
      assert forall i :: FirstNamed(fields, name, i) && i > 0 ==> fields[0].0 != name;
    }
  }

  lemma PositiveNumberIs(j: Json, name: string)
    ensures forall p :: PositiveNumber(Field(j, name)) == Some(p) <==> HasPositive(j, name, p)
    ensures PositiveNumber(Field(j, name)).None? <==> forall p :: !HasPositive(j, name, p)
  {
    if j.JObject? {
      FieldFromIs(j.fields, name);
    }
    var r := PositiveNumber(Field(j, name));
    if r.Some? {
      assert HasPositive(j, name, r.value);
    }
  }

  /** A pair that gives no price: not one with lovelace, or one without a positive ratio. */
  ghost predicate PassedOver(f: (string, Json)) {
    "lovelace/" <= f.0 ==> !f.1.JNull? && forall q :: !HasPositive(f.1, "priceRatioAB", q)
  }

  /** Pair `i` is one with lovelace, and all before it are passed over. */
  ghost predicate ComesToLovelace(fields: Entries, i: int) {
    0 <= i < |fields| && "lovelace/" <= fields[i].0 && forall j :: 0 <= j < i ==> PassedOver(fields[j])
  }

  ghost predicate RatioGives(fields: Entries, p: real) {
    exists i :: ComesToLovelace(fields, i) && HasPositive(fields[i].1, "priceRatioAB", p)
  }

  ghost predicate RatioThrows(fields: Entries) {
    exists i :: ComesToLovelace(fields, i) && fields[i].1.JNull?
  }

  lemma ComesShift(first: (string, Json), rest: Entries, i: nat)
    requires PassedOver(first)
    ensures ComesToLovelace(rest, i) <==> ComesToLovelace([first] + rest, i + 1)
  {
    var fields := [first] + rest;
    assert forall j :: 0 <= j < |rest| ==> fields[j + 1] == rest[j];
    if ComesToLovelace(fields, i + 1) {
      forall j | 0 <= j < i ensures PassedOver(rest[j]) {
        assert PassedOver(fields[j + 1]);
      }
    }
    if ComesToLovelace(rest, i) {
      forall j | 0 <= j < i + 1 ensures PassedOver(fields[j]) {
        assert j > 0 ==> fields[j] == rest[j - 1];
      }
    }
  }

  /** What has been passed over does not matter. */
  lemma RestDecides(first: (string, Json), rest: Entries, p: real)
    requires PassedOver(first)
    ensures RatioGives([first] + rest, p) <==> RatioGives(rest, p)
    ensures RatioThrows([first] + rest) <==> RatioThrows(rest)
  {
    var fields := [first] + rest;
    forall i | 0 <= i < |rest|
      ensures fields[i + 1] == rest[i] && (ComesToLovelace(rest, i) <==> ComesToLovelace(fields, i + 1))
    {
      ComesShift(first, rest, i);
    }
    if RatioGives(fields, p) {
      var i :| ComesToLovelace(fields, i) && HasPositive(fields[i].1, "priceRatioAB", p);
      assert i > 0 && ComesToLovelace(rest, i - 1);
    }
    if RatioThrows(fields) {
      var i :| ComesToLovelace(fields, i) && fields[i].1.JNull?;
      assert i > 0 && ComesToLovelace(rest, i - 1);
    }
  }

  /** A pair that is not passed over decides. */
  lemma FirstDecides(first: (string, Json), rest: Entries)
    requires !PassedOver(first)
    ensures RatioThrows([first] + rest) <==> first.1.JNull?
    ensures forall p :: RatioGives([first] + rest, p) <==> HasPositive(first.1, "priceRatioAB", p)
  {
    var fields := [first] + rest;
    assert fields[0] == first && !PassedOver(fields[0]);
    forall p | HasPositive(first.1, "priceRatioAB", p) ensures RatioGives(fields, p) {
      assert HasPositive(fields[0].1, "priceRatioAB", p);
    }
  }

  lemma {:induction false} RatioPriceIs(fields: Entries)
    ensures forall p :: RatioPrice(fields) == Priced(p) <==> RatioGives(fields, p)
    ensures RatioPrice(fields).TypeError? <==> RatioThrows(fields)
  {
    if fields != [] {
      var first, rest := fields[0], fields[1..];
      assert [first] + rest == fields;
      RatioPriceIs(rest);
      PositiveNumberIs(first.1, "priceRatioAB");
      if PassedOver(first) {
        forall p: real ensures RatioGives(fields, p) <==> RatioGives(rest, p) {
          RestDecides(first, rest, p);
        }
        RestDecides(first, rest, 0.0);
      } else {
        FirstDecides(first, rest);
      }
    }
  }

  /** The pairs of the entry's lpRatio, if it is an object. */
  ghost predicate HasRatios(data: Json, ratios: Entries) {
    data.JObject? && exists i :: FirstNamed(data.fields, "lpRatio", i) && data.fields[i].1 == JObject(ratios)
  }

  /** What an entry is read as, by property names: a positive priceADA first; else the first pair under lpRatio that
      starts with "lovelace/" and has a positive priceRatioAB; a null on the way throws. */
  lemma EntryIsReadAs(data: Json)
    ensures forall p :: ParseEntry(data) == Priced(p) <==>
              || HasPositive(data, "priceADA", p)
              || ((forall q :: !HasPositive(data, "priceADA", q))
                  && exists ratios :: HasRatios(data, ratios) && RatioGives(ratios, p))
    ensures ParseEntry(data).TypeError? <==>
              || data.JNull?
              || ((forall q :: !HasPositive(data, "priceADA", q))
                  && exists ratios :: HasRatios(data, ratios) && RatioThrows(ratios))
  {
    PositiveNumberIs(data, "priceADA");
    if data.JObject? {
      FieldFromIs(data.fields, "lpRatio");
    }
    var ratios := Field(data, "lpRatio");
    if ratios.Some? && ratios.value.JObject? {
      assert HasRatios(data, ratios.value.fields);
      RatioPriceIs(ratios.value.fields);
    }
  }

  lemma {:induction false} NoDashStays(key: string)
    requires '-' !in key
    ensures TokenUnit(key) == key
  {
    if key != [] {
      NoDashStays(key[1..]);
    }
  }

  lemma {:induction false} DashAtGoes(before: string, after: string)
    requires '-' !in before
    ensures TokenUnit(before + "-" + after) == before + after
  {
    var key := before + "-" + after;
    if before == [] {
      assert key == "-" + after && key[1..] == after;
    } else {
      assert key[0] == before[0] && key[1..] == before[1..] + "-" + after;
      DashAtGoes(before[1..], after);
    }
  }

  /** The unit of an entry is its key without the first dash, and without one the key itself. */
  lemma FirstDashGoes(before: string, after: string)
    requires '-' !in before
    ensures TokenUnit(before) == before && TokenUnit(before + "-" + after) == before + after
  {
    NoDashStays(before);
    DashAtGoes(before, after);
  }

  method ParseRatios(fields: Entries) returns (r: Parsed)
    ensures r == RatioPrice(fields)
  {
    for i := 0 to |fields|
      invariant RatioPrice(fields[i..]) == RatioPrice(fields)
    {
      assert fields[i..][1..] == fields[i + 1..];
      if LOVELACE_PAIR <= fields[i].0 {
        if fields[i].1.JNull? {
          return TypeError;
        }
        var p := PositiveNumber(Field(fields[i].1, "priceRatioAB"));
        if p.Some? {
          return Priced(p.value);
        }
      }
    }
    return Unpriced;
  }

  /** The parsing loop, over the entries of a response that came back as an object. */
  method FetchVyFiBulkPrices(entries: Entries) returns (r: Option<Bulk>)
    ensures r == BulkPrices(entries)
  {
    var prices: map<string, real> := map[];
    var validCount := 0;
    for i := 0 to |entries|
      invariant BulkPrices(entries[..i]) == Some(Bulk(prices, validCount))
    {
      assert entries[..i + 1][..i] == entries[..i];
      var data := entries[i].1;
      var price: Option<real> := None;
      if data.JNull? {
        ThrownStaysThrown(entries, i + 1);
        return None;
      }
      if PositiveNumber(Field(data, "priceADA")).Some? {
        price := PositiveNumber(Field(data, "priceADA"));
      } else {
        var ratios := Field(data, "lpRatio");
        if ratios.Some? && ratios.value.JObject? {
          var parsed := ParseRatios(ratios.value.fields);
          if parsed.TypeError? {
            ThrownStaysThrown(entries, i + 1);
            return None;
          }
          price := if parsed.Priced? then Some(parsed.price) else None;
        }
      }
      if price.Some? {
        prices := prices[TokenUnit(entries[i].0) := price.value];
        validCount := validCount + 1;
      }
    }
    assert entries[..|entries|] == entries;
    return Some(Bulk(prices, validCount));
  }

  lemma {:induction false} ThrownStaysThrown(entries: Entries, n: nat)
    requires n <= |entries| && BulkPrices(entries[..n]).None?
    ensures BulkPrices(entries).None?
    decreases |entries| - n
  {
    if n == |entries| {
      assert entries[..n] == entries;
    } else {
      assert entries[..n + 1][..n] == entries[..n];
      ThrownStaysThrown(entries, n + 1);
    }
  }

  /** One entry that makes the parser look into null loses the whole response, and nothing else does. */
  lemma {:induction false} OneBadEntryLosesAll(entries: Entries)
    ensures BulkPrices(entries).None? <==> exists i :: 0 <= i < |entries| && ParseEntry(entries[i].1).TypeError?
  {
    if entries != [] {
      var init := entries[..|entries| - 1];
      OneBadEntryLosesAll(init);
      if exists i :: 0 <= i < |init| && ParseEntry(init[i].1).TypeError? {
        var i :| 0 <= i < |init| && ParseEntry(init[i].1).TypeError?;
        assert ParseEntry(entries[i].1).TypeError?;
      }
      if exists i :: 0 <= i < |entries| && ParseEntry(entries[i].1).TypeError? {
        var i :| 0 <= i < |entries| && ParseEntry(entries[i].1).TypeError?;
        if i < |init| {
          assert ParseEntry(init[i].1).TypeError?;
        }
      }
    }
  }

  /** Entry `i` is the last one that gives `unit` a price. */
  ghost predicate LastPriceOf(entries: Entries, unit: string, i: nat, price: real) {
    && i < |entries| && TokenUnit(entries[i].0) == unit && ParseEntry(entries[i].1) == Priced(price)
    && forall j :: i < j < |entries| && TokenUnit(entries[j].0) == unit ==> !ParseEntry(entries[j].1).Priced?
  }

  lemma {:induction false} RatioPricesArePositive(fields: Entries)
    ensures RatioPrice(fields).Priced? ==> RatioPrice(fields).price > 0.0
  {
    if fields != [] {
      RatioPricesArePositive(fields[1..]);
    }
  }

  lemma ParsedPricesArePositive(data: Json)
    ensures ParseEntry(data).Priced? ==> ParseEntry(data).price > 0.0
  {
    var ratios := Field(data, "lpRatio");
    if ratios.Some? && ratios.value.JObject? {
      RatioPricesArePositive(ratios.value.fields);
    }
  }

  ghost predicate HasLastPrice(entries: Entries, unit: string, price: real) {
    exists i: nat :: LastPriceOf(entries, unit, i, price)
  }

  lemma LastPriceNext(init: Entries, last: (string, Json), unit: string, price: real)
    ensures ParseEntry(last.1) == Priced(price) && TokenUnit(last.0) == unit ==>
              HasLastPrice(init + [last], unit, price)
    ensures HasLastPrice(init, unit, price) && !(ParseEntry(last.1).Priced? && TokenUnit(last.0) == unit) ==>
              HasLastPrice(init + [last], unit, price)
  {
    var entries := init + [last];
    if ParseEntry(last.1) == Priced(price) && TokenUnit(last.0) == unit {
      assert LastPriceOf(entries, unit, |init|, price);
    } else if HasLastPrice(init, unit, price) && !(ParseEntry(last.1).Priced? && TokenUnit(last.0) == unit) {
      var i: nat :| LastPriceOf(init, unit, i, price);
      assert LastPriceOf(entries, unit, i, price);
    }
  }

  /** The map holds, for each token unit, the price of the last entry that has one for it, and nothing else; all prices
      are positive. */
  lemma {:induction false} BulkHoldsLastPrices(entries: Entries)
    requires BulkPrices(entries).Some?
    ensures forall u :: u in BulkPrices(entries).value.prices ==>
              BulkPrices(entries).value.prices[u] > 0.0 && HasLastPrice(entries, u, BulkPrices(entries).value.prices[u])
  {
    if entries != [] {
      var init, last := entries[..|entries| - 1], entries[|entries| - 1];
      BulkHoldsLastPrices(init);
      ParsedPricesArePositive(last.1);
      assert entries == init + [last];
      var b := BulkPrices(entries).value;
      forall u | u in b.prices ensures b.prices[u] > 0.0 && HasLastPrice(entries, u, b.prices[u]) {
        LastPriceNext(init, last, u, b.prices[u]);
      }
    }
  }

  /** Every unit with a priced entry is in the map. */
  lemma {:induction false} PricedUnitsAreHeld(entries: Entries, i: nat)
    requires BulkPrices(entries).Some? && i < |entries| && ParseEntry(entries[i].1).Priced?
    ensures TokenUnit(entries[i].0) in BulkPrices(entries).value.prices
  {
    if i < |entries| - 1 {
      PricedUnitsAreHeld(entries[..|entries| - 1], i);
    }
  }

  /** The reported count is at least the number of units: entries whose keys differ by a dash share one. */
  lemma {:induction false} CountCoversUnits(entries: Entries)
    requires BulkPrices(entries).Some?
    ensures |BulkPrices(entries).value.prices| <= BulkPrices(entries).value.validCount <= |entries|
  {
    if entries != [] {
      var init, last := entries[..|entries| - 1], entries[|entries| - 1];
      CountCoversUnits(init);
      if ParseEntry(last.1).Priced? {
        assert BulkPrices(entries).value.prices.Keys == BulkPrices(init).value.prices.Keys + {TokenUnit(last.0)};
      }
    }
  }

  ghost function PricedEntries(entries: Entries): set<nat> {
    set i: nat | i < |entries| && ParseEntry(entries[i].1).Priced?
  }

  /** The reported count is the number of entries that have a price. */
  lemma {:induction false} CountIsPricedEntries(entries: Entries)
    requires BulkPrices(entries).Some?
    ensures BulkPrices(entries).value.validCount == |PricedEntries(entries)|
  {
    if entries != [] {
      var last := |entries| - 1;
      var init := entries[..last];
      CountIsPricedEntries(init);
      assert PricedEntries(entries) ==
             PricedEntries(init) + if ParseEntry(entries[last].1).Priced? then {last} else {};
    } else {
      assert PricedEntries(entries) == {};
    }
  }

  // ----- The refresh of one instance -----

  datatype Refreshed = Skipped | NoPrices | CachedPrices(count: nat) | RedisDown

  /** `response`: the entries of the price map, None for every way the request can fail. */
  method RefreshVyFiCache(isMainnet: bool, redis: Redis, response: Option<Entries>) returns (r: Refreshed)
    modifies redis
    ensures var s := old(redis.store);
            if !isMainnet || (s.up && LockHeld(s)) then r == Skipped && redis.store == s
            else if !s.up then r == RedisDown && redis.store == s
            else
              var bulk := if response.Some? then BulkPrices(response.value) else None;
              if bulk.None? || |bulk.value.prices| == 0 then r == NoPrices && redis.store == TakeLock(s)
              else r == CachedPrices(|bulk.value.prices|) && redis.store == WriteAll(TakeLock(s), bulk.value.prices)
    ensures Sound(old(redis.store)) ==> Sound(redis.store)
  {
    if !isMainnet {
      return Skipped;
    }
    if !redis.store.up {
      return RedisDown;
    }
    var lock := redis.SetLockNx();
    if !lock {
      return Skipped;
    }
    var bulk: Option<Bulk> := None;
    if response.Some? {
      bulk := FetchVyFiBulkPrices(response.value);
    }
    if bulk.None? || |bulk.value.prices| == 0 {
      return NoPrices;
    }
    BulkHoldsLastPrices(response.value);
    redis.store := WriteAll(redis.store, bulk.value.prices);
    return CachedPrices(|bulk.value.prices|);
  }
}
