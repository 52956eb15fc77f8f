/**
 The refresh lock as a protocol: any number of instances, cron ticks and manual triggers in any order, one shared store
 and a clock that never goes back. The lock is never released; it runs out after 540 seconds.
 */
module RefreshLock {
  import opened Wrappers
  import opened PriceStore

  datatype Event =
    | Tick(seconds: nat)
    | Attempt                                       // some instance asks for the lock
    | Publish(run: nat, prices: map<string, real>)  // a refresh that holds it stores its prices
    | Finish(run: nat)                              // ... and ends, successfully or not
    | CacheOne(token: string, price: real)          // a client caches a fetched price
    | ClearPrices                                   // clearCache
    | Outage(up: bool)

  /** `acquired[k]` is when refresh number k took the lock; `running` are the refreshes not yet finished. */
  datatype System = System(store: Store, acquired: seq<int>, running: set<nat>)

  function Start(now: int): System {
    System(Store(true, now, map[], None), [], {})
  }

  function Next(s: System, e: Event): System {
    match e
    case Tick(n) => s.(store := s.store.(now := s.store.now + n))
    case Attempt =>
      if !s.store.up || LockHeld(s.store) then s
      else System(TakeLock(s.store), s.acquired + [s.store.now], s.running + {|s.acquired|})
    case Publish(run, prices) =>
      if run in s.running then s.(store := WriteAll(s.store, prices)) else s
    case Finish(run) => s.(running := s.running - {run})
    case CacheOne(token, price) => s.(store := Write(s.store, token, price))
    case ClearPrices => if s.store.up then s.(store := s.store.(prices := map[])) else s
    case Outage(up) => s.(store := s.store.(up := up))
  }

  /** Writers only ever bring positive prices (see BulkHoldsLastPrices and CachingKeepsSound). */
  ghost predicate Possible(e: Event) {
    && (e.Publish? ==> forall t :: t in e.prices ==> e.prices[t] > 0.0)
    && (e.CacheOne? ==> e.price > 0.0)
  }

  function Run(s: System, es: seq<Event>): System {
    if es == [] then s else Next(Run(s, es[..|es| - 1]), es[|es| - 1])
  }

  // ----- Reading is the last write -----

  /** The price an event stores for a token, if it does. */
  ghost function Writes(s: System, e: Event, token: string): Option<real> {
    if !s.store.up then None
    else if e.CacheOne? && e.token == token then Some(e.price)
    else if e.Publish? && e.run in s.running && token in e.prices then Some(e.prices[token])
    else None
  }

  datatype Written = Written(price: real, at: int)

  /** The last price stored for a token and when, unless the cache was cleared since. */
  ghost function LastWritten(s: System, es: seq<Event>, token: string): Option<Written> {
    if es == [] then None
    else
      var before, e := Run(s, es[..|es| - 1]), es[|es| - 1];
      if Writes(before, e, token).Some? then Some(Written(Writes(before, e, token).value, before.store.now))
      else if e.ClearPrices? && before.store.up then None
      else LastWritten(s, es[..|es| - 1], token)
  }

  lemma {:induction false} StoreHoldsLastWritten(now: int, es: seq<Event>, token: string)
    ensures var prices, w := Run(Start(now), es).store.prices, LastWritten(Start(now), es, token);
            && (token in prices <==> w.Some?)
            && (w.Some? ==> prices[token] == Cached(w.value.price, w.value.at, w.value.at + PRICE_TTL_SECONDS))
  {
    if es != [] {
      StoreHoldsLastWritten(now, es[..|es| - 1], token);
    }
  }

  /** Over any interleaving of refreshes, single writes, clearings and outages: a read answers with the last price
      stored for the token, if that was less than ten minutes ago, not cleared since, and the server is up; and with
      nothing otherwise. */
  lemma ReadIsLastWritten(now: int, es: seq<Event>, token: string)
    ensures var store, w := Run(Start(now), es).store, LastWritten(Start(now), es, token);
            Read(store, token) ==
            if store.up && w.Some? && store.now - w.value.at < 600 then Some(w.value.price) else None
  {
    StoreHoldsLastWritten(now, es, token);
  }

  // ----- The invariant -----

  ghost predicate Spaced(acquired: seq<int>) {
    forall i, j :: 0 <= i < j < |acquired| ==> acquired[j] - acquired[i] >= LOCK_TTL_SECONDS
  }

  ghost predicate Inv(s: System) {
    && Sound(s.store)
    && Spaced(s.acquired)
    && (forall i :: 0 <= i < |s.acquired| ==> s.acquired[i] <= s.store.now)
    && s.store.lockUntil == (if s.acquired == [] then None
                             else Some(s.acquired[|s.acquired| - 1] + LOCK_TTL_SECONDS))
    && (forall k :: k in s.running ==> k < |s.acquired|)
  }

  lemma AcquiringKeepsSpaced(acquired: seq<int>, now: int)
    requires Spaced(acquired)
    requires acquired != [] ==> now - acquired[|acquired| - 1] >= LOCK_TTL_SECONDS
    ensures Spaced(acquired + [now])
  {
    if acquired != [] {
      var last := |acquired| - 1;
      assert forall i :: 0 <= i < last ==> acquired[last] - acquired[i] >= LOCK_TTL_SECONDS;
    }
  }

  lemma NextKeepsInv(s: System, e: Event)
    requires Inv(s) && Possible(e)
    ensures Inv(Next(s, e))
  {
    if e.Attempt? && s.store.up && !LockHeld(s.store) {
      AcquiringKeepsSpaced(s.acquired, s.store.now);
    }
  }

  lemma {:induction false} RunKeepsInv(now: int, es: seq<Event>)
    requires forall e :: e in es ==> Possible(e)
    ensures Inv(Run(Start(now), es))
  {
    if es != [] {
      RunKeepsInv(now, es[..|es| - 1]);
      NextKeepsInv(Run(Start(now), es[..|es| - 1]), es[|es| - 1]);
    }
  }

  // ----- What it gives -----

  /** Over any interleaving, two successful acquisitions are at least 540 seconds apart. */
  lemma AcquisitionsAreSpaced(now: int, es: seq<Event>, i: nat, j: nat)
    requires forall e :: e in es ==> Possible(e)
    requires i < j < |Run(Start(now), es).acquired|
    ensures Run(Start(now), es).acquired[j] - Run(Start(now), es).acquired[i] >= 540
  {
    RunKeepsInv(now, es);
  }

  /** Two refreshes are under way together only if the earlier one has been running for at least 540 seconds. */
  lemma OverlapNeedsSlowRefresh(now: int, es: seq<Event>, i: nat, j: nat)
    requires forall e :: e in es ==> Possible(e)
    requires i in Run(Start(now), es).running && j in Run(Start(now), es).running && i < j
    ensures j < |Run(Start(now), es).acquired|
    ensures Run(Start(now), es).store.now - Run(Start(now), es).acquired[i] >= 540
  {
    RunKeepsInv(now, es);
    var s := Run(Start(now), es);
    assert s.acquired[j] - s.acquired[i] >= LOCK_TTL_SECONDS;
  }

  /** An attempt succeeds if and only if Redis answers and 540 seconds have passed since the last success, however that
      refresh ended: a failed refresh blocks the next one just as long as a successful one. */
  lemma AttemptSucceedsIff(now: int, es: seq<Event>)
    requires forall e :: e in es ==> Possible(e)
    ensures var s := Run(Start(now), es);
            Next(s, Attempt).acquired != s.acquired <==>
              s.store.up && (s.acquired == [] || s.store.now - s.acquired[|s.acquired| - 1] >= 540)
  {
    RunKeepsInv(now, es);
    var s := Run(Start(now), es);
    assert |s.acquired + [s.store.now]| == |s.acquired| + 1;
  }

  /** Every cached price that can be read is positive and was written less than 600 seconds ago. */
  lemma CachedPricesAreFresh(now: int, es: seq<Event>, token: string)
    requires forall e :: e in es ==> Possible(e)
    requires Read(Run(Start(now), es).store, token).Some?
    ensures var store := Run(Start(now), es).store;
            && Read(store, token).value > 0.0
            && token in store.prices && 0 <= store.now - store.prices[token].writtenAt < 600
  {
    RunKeepsInv(now, es);
  }
}
