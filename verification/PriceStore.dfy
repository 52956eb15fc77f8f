/**
 The Redis keys the pricing code uses, as a value: prices with a time to live, and the refresh lock. A key is gone once
 its time is up. All instances share one store and one clock.
 */
module PriceStore {
  import opened Wrappers

  const PRICE_TTL_SECONDS := 600
  const LOCK_TTL_SECONDS := 540

  datatype Cached = Cached(price: real, writtenAt: int, expiresAt: int)

  /** `up`: the server answers. When it does not, reads count as misses and price writes are dropped. */
  datatype Store = Store(up: bool, now: int, prices: map<string, Cached>, lockUntil: Option<int>)

  function Read(s: Store, token: string): Option<real> {
    if s.up && token in s.prices && s.now < s.prices[token].expiresAt then Some(s.prices[token].price) else None
  }

  /** SETEX vyfi_price:<token> 600 <price>:<timestamp> */
  function Write(s: Store, token: string, price: real): Store {
    if s.up then s.(prices := s.prices[token := Cached(price, s.now, s.now + PRICE_TTL_SECONDS)]) else s
  }

  predicate LockHeld(s: Store) {
    s.lockUntil.Some? && s.now < s.lockUntil.value
  }

  /** SET lock:vyfi-price-refresh 1 EX 540 NX, on a lock that is free. */
  function TakeLock(s: Store): Store {
    s.(lockUntil := Some(s.now + LOCK_TTL_SECONDS))
  }

  function WriteAll(s: Store, prices: map<string, real>): Store {
    if s.up then
      s.(prices := map t | t in s.prices.Keys + prices.Keys ::
        if t in prices then Cached(prices[t], s.now, s.now + PRICE_TTL_SECONDS) else s.prices[t])
    else s
  }

  /** A price that was written can be read back for ten minutes and no longer, and writing it touches no other token. */
  lemma ReadAfterWrite(s: Store, token: string, price: real, seconds: nat, other: string)
    ensures s.up && token != other ==>
              Read(Write(s, token, price).(now := s.now + seconds), other) == Read(s.(now := s.now + seconds), other)
    ensures s.up ==>
              Read(Write(s, token, price).(now := s.now + seconds), token) ==
              if seconds < 600 then Some(price) else None
  {
  }

  /** What every writer keeps: prices are positive, and stamped no later than now with the full time to live. */
  ghost predicate Sound(s: Store) {
    forall t :: t in s.prices ==>
      && s.prices[t].price > 0.0
      && s.prices[t].writtenAt <= s.now
      && s.prices[t].expiresAt == s.prices[t].writtenAt + PRICE_TTL_SECONDS
  }

  /** The shared server. */
  class Redis {
    var store: Store

    constructor (store: Store)
      ensures this.store == store
    {
      this.store := store;
    }

    /** The lock is taken if it is free, and left alone otherwise. */
    method SetLockNx() returns (taken: bool)
      requires store.up
      modifies this
      ensures taken == !LockHeld(old(store)) && store == if taken then TakeLock(old(store)) else old(store)
    {
      taken := !LockHeld(store);
      if taken {
        store := TakeLock(store);
      }
    }
  }
}
