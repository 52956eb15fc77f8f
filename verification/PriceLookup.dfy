/**
 Token prices: the DexHunter client with its Redis cache and batches of ten, and the service in front of it, in its
 one-token and its batch form.
 */
module PriceLookup {
  import opened Wrappers
  import opened JsMaps
  import opened Sequences
  import opened PriceStore

  const LOVELACE := "lovelace"
  const CONCURRENCY_LIMIT := 10

  /** One call of the averagePrice endpoint: it throws, answers with an error status, or sends a price (or none). */
  datatype Answer = Threw | ErrorStatus | Body(priceBa: Option<real>)

  function FetchedPrice(a: Answer): Option<real> {
    if a.Body? && a.priceBa.Some? && a.priceBa.value > 0.0 then a.priceBa else None
  }

  // ----- What the lookups mean for one token -----

  datatype Source = Source(mainnet: bool, store: Store, fetch: string -> Answer)

  /** The client's answer: nothing off mainnet, 1 for lovelace, else the cache, else the API. */
  function ClientPrice(s: Source, token: string): Option<real> {
    if !s.mainnet then None
    else if token == LOVELACE then Some(1.0)
    else if Read(s.store, token).Some? then Read(s.store, token)
    else FetchedPrice(s.fetch(token))
  }

  predicate IsPositive(p: Option<real>) {
    p.Some? && p.value > 0.0
  }

  /** The service's one-token answer: a positive cached price, else a positive client price. */
  function SinglePrice(s: Source, token: string): Option<real> {
    if IsPositive(Read(s.store, token)) then Read(s.store, token)
    else if IsPositive(ClientPrice(s, token)) then ClientPrice(s, token)
    else None
  }

  /** The service's batch answer: any cached price, else a positive client price. */
  function BatchPrice(s: Source, token: string): Option<real> {
    if Read(s.store, token).Some? then Read(s.store, token)
    else if IsPositive(ClientPrice(s, token)) then ClientPrice(s, token)
    else None
  }

  /** What the client finds for a token it has no cached price for: 1 for lovelace, else a positive answer of the API.
      */
  ghost predicate Finds(s: Source, token: string, p: real) {
    s.mainnet && if token == "lovelace" then p == 1.0 else s.fetch(token) == Body(Some(p)) && p > 0.0
  }

  /** The one-token form gives a price exactly when it is cached and positive, or when nothing positive is cached and
      the client finds it; a token other than lovelace is looked up only if nothing is cached at all. */
  lemma SinglePriceIs(s: Source, token: string)
    ensures forall p :: SinglePrice(s, token) == Some(p) <==>
              var cached := Read(s.store, token);
              if IsPositive(cached) then cached == Some(p)
              else Finds(s, token, p) && (cached.None? || token == "lovelace")
  {
  }

  /** The batch form: any cached price, else what the client finds. */
  lemma BatchPriceIs(s: Source, token: string)
    ensures forall p :: BatchPrice(s, token) == Some(p) <==>
              Read(s.store, token) == Some(p) || (Read(s.store, token).None? && Finds(s, token, p))
  {
  }

  /** The two forms agree on a token if and only if its cached price, if there is one, is positive. */
  lemma FormsAgreeIffCacheIsPositive(s: Source, token: string)
    ensures SinglePrice(s, token) == BatchPrice(s, token) <==>
              (Read(s.store, token).Some? ==> Read(s.store, token).value > 0.0)
  {
  }

  /** Which every writer sees to, so that they agree on every token of a sound store. */
  lemma FormsAgree(s: Source, token: string)
    requires Sound(s.store)
    ensures SinglePrice(s, token) == BatchPrice(s, token)
    ensures BatchPrice(s, token).Some? ==> BatchPrice(s, token).value > 0.0
  {
  }

  // ----- Requests with repetitions -----

  /** The distinct elements in order of first occurrence: the keys of a Map filled by setting each in turn. */
  function Distinctly(tokens: seq<string>): seq<string> {
    if tokens == [] then []
    else
      var before := Distinctly(tokens[..|tokens| - 1]);
      var t := tokens[|tokens| - 1];
      if t in before then before else before + [t]
  }

  lemma {:induction false} DistinctlyIsSet(tokens: seq<string>)
    ensures Distinct(Distinctly(tokens))
    ensures forall t :: t in Distinctly(tokens) <==> t in tokens
  {
    if tokens != [] {
      DistinctlyIsSet(tokens[..|tokens| - 1]);
      assert tokens == tokens[..|tokens| - 1] + [tokens[|tokens| - 1]];
    }
  }

  function WithoutLovelace(tokens: seq<string>): seq<string> {
    if tokens == [] then []
    else WithoutLovelace(tokens[..|tokens| - 1])
         + if tokens[|tokens| - 1] == LOVELACE then [] else [tokens[|tokens| - 1]]
  }

  lemma {:induction false} WithoutLovelaceMembers(tokens: seq<string>)
    ensures forall t :: t in WithoutLovelace(tokens) <==> t in tokens && t != LOVELACE
  {
    if tokens != [] {
      WithoutLovelaceMembers(tokens[..|tokens| - 1]);
      assert tokens == tokens[..|tokens| - 1] + [tokens[|tokens| - 1]];
    }
  }

  /** The tokens of a list that the store has no price for. */
  function Missing(s: Store, tokens: seq<string>): seq<string> {
    if tokens == [] then []
    else Missing(s, tokens[..|tokens| - 1])
         + if Read(s, tokens[|tokens| - 1]).None? then [tokens[|tokens| - 1]] else []
  }

  lemma DistinctTail(init: seq<string>, last: string)
    requires Distinct(init + [last])
    ensures Distinct(init) && last !in init
  {
    var all := init + [last];
    assert forall i :: 0 <= i < |init| ==> init[i] == all[i] && all[i] != all[|init|];
  }

  lemma {:induction false} MissingMembers(s: Store, tokens: seq<string>)
    ensures forall t :: t in Missing(s, tokens) <==> t in tokens && Read(s, t).None?
    ensures Distinct(tokens) ==> Distinct(Missing(s, tokens))
  {
    if tokens != [] {
      var init, last := tokens[..|tokens| - 1], tokens[|tokens| - 1];
      MissingMembers(s, init);
      assert tokens == init + [last];
      if Distinct(tokens) {
        DistinctTail(init, last);
      }
    }
  }

  /** The calls a client request makes: each distinct token that is not lovelace and not cached, once. */
  function ToFetch(s: Store, tokens: seq<string>): seq<string> {
    Missing(s, Distinctly(WithoutLovelace(tokens)))
  }

  lemma ToFetchMembers(s: Store, tokens: seq<string>)
    ensures Distinct(ToFetch(s, tokens))
    ensures forall t :: t in ToFetch(s, tokens) <==> t in tokens && t != LOVELACE && Read(s, t).None?
  {
    WithoutLovelaceMembers(tokens);
    DistinctlyIsSet(WithoutLovelace(tokens));
    MissingMembers(s, Distinctly(WithoutLovelace(tokens)));
  }

  /** The store after caching the positive answers for a list of tokens. */
  function CacheAnswers(s: Store, fetch: string -> Answer, tokens: seq<string>): Store {
    if tokens == [] then s
    else
      var before := CacheAnswers(s, fetch, tokens[..|tokens| - 1]);
      var p := FetchedPrice(fetch(tokens[|tokens| - 1]));
      if p.Some? then Write(before, tokens[|tokens| - 1], p.value) else before
  }

  /** Caching answers keeps the store sound: only positive prices are ever written. */
  lemma {:induction false} CachingKeepsSound(s: Store, fetch: string -> Answer, tokens: seq<string>)
    requires Sound(s)
    ensures var t := CacheAnswers(s, fetch, tokens);
            Sound(t) && t.now == s.now && t.up == s.up && t.lockUntil == s.lockUntil
  {
    if tokens != [] {
      CachingKeepsSound(s, fetch, tokens[..|tokens| - 1]);
    }
  }

  /** After a request, a token that was fetched at a price is a cache hit at that price. */
  lemma {:induction false} FetchedIsCached(s: Store, fetch: string -> Answer, tokens: seq<string>, t: string)
    requires s.up && t in tokens && FetchedPrice(fetch(t)).Some?
    ensures CacheAnswers(s, fetch, tokens).up && CacheAnswers(s, fetch, tokens).now == s.now
    ensures Read(CacheAnswers(s, fetch, tokens), t) == FetchedPrice(fetch(t))
  {
    var init, last := tokens[..|tokens| - 1], tokens[|tokens| - 1];
    assert tokens == init + [last];
    CachingKeepsClock(s, fetch, init);
    if t != last {
      FetchedIsCached(s, fetch, init, t);
    }
  }

  lemma {:induction false} CachingKeepsClock(s: Store, fetch: string -> Answer, tokens: seq<string>)
    ensures CacheAnswers(s, fetch, tokens).up == s.up && CacheAnswers(s, fetch, tokens).now == s.now
  {
    if tokens != [] {
      CachingKeepsClock(s, fetch, tokens[..|tokens| - 1]);
    }
  }

  // ----- The imperative code -----

  class DexHunterPricingClient {
    const isMainnet: bool
    const redis: Redis

    constructor (isMainnet: bool, redis: Redis)
      ensures this.isMainnet == isMainnet && this.redis == redis
    {
      this.isMainnet := isMainnet;
      this.redis := redis;
    }

    method GetRedisPrice(token: string) returns (price: Option<real>)
      ensures price == Read(redis.store, token)
    {
      price := Read(redis.store, token);
    }

    method GetRedisPrices(tokens: seq<string>) returns (result: JsMap<string, Option<real>>)
      ensures Ordered(result) && result.keys == Distinctly(tokens)
      ensures forall t :: t in result.items ==> result.items[t] == Read(redis.store, t)
    {
      result := Empty();
      for i := 0 to |tokens|
        invariant Ordered(result) && result.keys == Distinctly(tokens[..i])
        invariant forall t :: t in result.items ==> result.items[t] == Read(redis.store, t)
      {
        assert tokens[..i + 1][..i] == tokens[..i];
        SetKeepsOrdered(result, tokens[i], Read(redis.store, tokens[i]));
        result := Set(result, tokens[i], Read(redis.store, tokens[i]));
      }
      assert tokens[..|tokens|] == tokens;
    }

    method SetRedisPrice(token: string, price: real)
      modifies redis
      ensures redis.store == Write(old(redis.store), token, price)
    {
      redis.store := Write(redis.store, token, price);
    }

    /** `fetched` lists the API calls made. */
    method GetTokenPrices(tokens: seq<string>, fetch: string -> Answer)
      returns (result: map<string, Option<real>>, fetched: seq<string>)
      modifies redis
      ensures var s := Source(isMainnet, old(redis.store), fetch);
              && (forall t :: t in result <==> t in tokens)
              && (forall t :: t in result ==> result[t] == ClientPrice(s, t))
              && fetched == (if isMainnet then ToFetch(s.store, tokens) else [])
              && redis.store == CacheAnswers(s.store, fetch, fetched)
    {
      result, fetched := map[], [];
      if !isMainnet {
        for i := 0 to |tokens|
          invariant forall t :: t in result <==> t in tokens[..i]
          invariant forall t :: t in result ==> result[t] == None
        {
          result := result[tokens[i] := None];
        }
        return;
      }
      var nonLovelace;
      result, nonLovelace := SetLovelaceAside(tokens);
      var toFetch;
      result, toFetch := SplitByCache(nonLovelace, result);
      WithoutLovelaceMembers(tokens);
      DistinctlyIsSet(nonLovelace);
      ToFetchMembers(redis.store, tokens);
      result, fetched := FetchInBatches(toFetch, fetch, result);
    }

    method SetLovelaceAside(tokens: seq<string>) returns (result: map<string, Option<real>>, rest: seq<string>)
      ensures rest == WithoutLovelace(tokens)
      ensures forall t :: t in result <==> t in tokens && t == LOVELACE
      ensures forall t :: t in result ==> result[t] == Some(1.0)
    {
      result, rest := map[], [];
      for i := 0 to |tokens|
        invariant rest == WithoutLovelace(tokens[..i])
        invariant forall t :: t in result <==> t in tokens[..i] && t == LOVELACE
        invariant forall t :: t in result ==> result[t] == Some(1.0)
      {
        assert tokens[..i + 1][..i] == tokens[..i];
        if tokens[i] == LOVELACE {
          result := result[LOVELACE := Some(1.0)];
        } else {
          rest := rest + [tokens[i]];
        }
      }
      assert tokens[..|tokens|] == tokens;
    }

    /** Cache hits go into the result, misses into the list to fetch. */
    method SplitByCache(tokens: seq<string>, start: map<string, Option<real>>)
      returns (result: map<string, Option<real>>, misses: seq<string>)
      ensures misses == Missing(redis.store, Distinctly(tokens))
      ensures WithHits(result, start, Distinctly(tokens), redis.store)
    {
      var cached := GetRedisPrices(tokens);
      result, misses := start, [];
      for i := 0 to |cached.keys|
        invariant misses == Missing(redis.store, cached.keys[..i])
        invariant WithHits(result, start, cached.keys[..i], redis.store)
      {
        var token := cached.keys[i];
        assert token in cached.keys;
        HitNext(result, start, cached.keys[..i], redis.store, token);
        MissNext(redis.store, cached.keys, i);
        if cached.items[token].Some? {
          result := result[token := cached.items[token]];
        } else {
          misses := misses + [token];
        }
      }
      assert cached.keys[..|cached.keys|] == cached.keys;
    }

    /** The batches of ten; the prices of a batch are cached before the next one starts. */
    method FetchInBatches(toFetch: seq<string>, fetch: string -> Answer, start: map<string, Option<real>>)
      returns (result: map<string, Option<real>>, fetched: seq<string>)
      modifies redis
      ensures fetched == toFetch && Answered(result, start, fetched, fetch)
      ensures redis.store == CacheAnswers(old(redis.store), fetch, toFetch)
    {
      result, fetched := start, [];
      while |fetched| < |toFetch|
        invariant fetched <= toFetch && Answered(result, start, fetched, fetch)
        invariant redis.store == CacheAnswers(old(redis.store), fetch, fetched)
        decreases |toFetch| - |fetched|
      {
        var end := if |fetched| + CONCURRENCY_LIMIT < |toFetch| then |fetched| + CONCURRENCY_LIMIT else |toFetch|;
        result, fetched := FetchBatch(toFetch[|fetched|..end], fetch, result, fetched, start, old(redis.store));
      }
    }

    method FetchBatch(batch: seq<string>, fetch: string -> Answer, before: map<string, Option<real>>, done: seq<string>,
                      ghost start: map<string, Option<real>>, ghost store: Store)
      returns (result: map<string, Option<real>>, fetched: seq<string>)
      requires Answered(before, start, done, fetch) && redis.store == CacheAnswers(store, fetch, done)
      modifies redis
      ensures fetched == done + batch && Answered(result, start, fetched, fetch)
      ensures redis.store == CacheAnswers(store, fetch, fetched)
    {
      result, fetched := before, done;
      for i := 0 to |batch|
        invariant fetched == done + batch[..i] && Answered(result, start, fetched, fetch)
        invariant redis.store == CacheAnswers(store, fetch, fetched)
      {
        BatchNext(done, batch, i);
        AnsweredNext(result, start, fetched, fetch, batch[i]);
        CacheNext(store, fetch, fetched, batch[i]);
        result := CacheAnswer(batch[i], FetchedPrice(fetch(batch[i])), result);
        fetched := fetched + [batch[i]];
      }
      assert batch[..|batch|] == batch;
    }

    method CacheAnswer(token: string, price: Option<real>, before: map<string, Option<real>>)
      returns (result: map<string, Option<real>>)
      modifies redis
      ensures result == before[token := price]
      ensures redis.store == if price.Some? then Write(old(redis.store), token, price.value) else old(redis.store)
    {
      result := before[token := price];
      if price.Some? {
        SetRedisPrice(token, price.value);
      }
    }
  }

  lemma BatchNext(done: seq<string>, batch: seq<string>, i: nat)
    requires i < |batch|
    ensures done + batch[..i] + [batch[i]] == done + batch[..i + 1]
  {
  }

  /** A result map that holds the cache hits among some tokens, on top of what was there. */
  ghost predicate WithHits(result: map<string, Option<real>>, start: map<string, Option<real>>, tokens: seq<string>,
                           s: Store) {
    && (forall t :: t in result <==> t in start || (t in tokens && Read(s, t).Some?))
    && (forall t :: t in result ==> result[t] == if t in tokens && Read(s, t).Some? then Read(s, t) else start[t])
  }

  lemma MissNext(s: Store, tokens: seq<string>, i: nat)
    requires i < |tokens|
    ensures tokens[..i + 1] == tokens[..i] + [tokens[i]]
    ensures Missing(s, tokens[..i + 1]) ==
            Missing(s, tokens[..i]) + if Read(s, tokens[i]).None? then [tokens[i]] else []
  {
    assert tokens[..i + 1][..i] == tokens[..i];
  }

  lemma HitNext(result: map<string, Option<real>>, start: map<string, Option<real>>, tokens: seq<string>, s: Store,
                token: string)
    requires WithHits(result, start, tokens, s)
    ensures Read(s, token).Some? ==> WithHits(result[token := Read(s, token)], start, tokens + [token], s)
    ensures Read(s, token).None? ==> WithHits(result, start, tokens + [token], s)
  {
  }

  /** A result map that holds the answers of the tokens fetched so far, on top of what was there. */
  ghost predicate Answered(result: map<string, Option<real>>, start: map<string, Option<real>>, fetched: seq<string>,
                           fetch: string -> Answer) {
    && (forall t :: t in result <==> t in start || t in fetched)
    && (forall t :: t in result ==> result[t] == if t in fetched then FetchedPrice(fetch(t)) else start[t])
  }

  lemma AnsweredNext(result: map<string, Option<real>>, start: map<string, Option<real>>, fetched: seq<string>,
                     fetch: string -> Answer, token: string)
    requires Answered(result, start, fetched, fetch)
    ensures Answered(result[token := FetchedPrice(fetch(token))], start, fetched + [token], fetch)
  {
  }

  lemma CacheNext(s: Store, fetch: string -> Answer, tokens: seq<string>, token: string)
    ensures var before, p := CacheAnswers(s, fetch, tokens), FetchedPrice(fetch(token));
            CacheAnswers(s, fetch, tokens + [token]) == if p.Some? then Write(before, token, p.value) else before
  {
    assert (tokens + [token])[..|tokens|] == tokens;
  }

  class DexHunterPricingService {
    const client: DexHunterPricingClient

    constructor (client: DexHunterPricingClient)
      ensures this.client == client
    {
      this.client := client;
    }

    method GetTokenPrice(token: string, fetch: string -> Answer) returns (price: Option<real>)
      modifies client.redis
      ensures price == SinglePrice(Source(client.isMainnet, old(client.redis.store), fetch), token)
      ensures Sound(old(client.redis.store)) ==> Sound(client.redis.store)
    {
      var cached := client.GetRedisPrice(token);
      if cached.Some? && cached.value > 0.0 {
        return cached;
      }
      var result, fetched := client.GetTokenPrices([token], fetch);
      if Sound(old(client.redis.store)) {
        CachingKeepsSound(old(client.redis.store), fetch, fetched);
      }
      assert token in [token];
      if result[token].Some? && result[token].value > 0.0 {
        return result[token];
      }
      return None;
    }

    method GetTokenPrices(tokens: seq<string>, fetch: string -> Answer)
      returns (result: map<string, Option<real>>, fetched: seq<string>)
      modifies client.redis
      ensures var s := Source(client.isMainnet, old(client.redis.store), fetch);
              && (forall t :: t in result <==> t in tokens)
              && (forall t :: t in result ==> result[t] == BatchPrice(s, t))
              && Distinct(fetched)
              && (forall t :: t in fetched <==>
                    client.isMainnet && t in tokens && t != LOVELACE && Read(s.store, t).None?)
      ensures Sound(old(client.redis.store)) ==> Sound(client.redis.store)
    {
      ghost var store := client.redis.store;
      var cached, fallback := CacheMisses(tokens);
      if |fallback| == 0 {
        return cached, [];
      }
      var answers;
      answers, fetched := client.GetTokenPrices(fallback, fetch);
      ToFetchMembers(store, fallback);
      if Sound(store) {
        CachingKeepsSound(store, fetch, fetched);
      }
      result := FillIn(cached, answers, fallback);
    }

    method CacheMisses(tokens: seq<string>) returns (cached: map<string, Option<real>>, misses: seq<string>)
      ensures forall t :: t in cached <==> t in tokens
      ensures forall t :: t in cached ==> cached[t] == Read(client.redis.store, t)
      ensures forall t :: t in misses <==> t in tokens && Read(client.redis.store, t).None?
    {
      var all := client.GetRedisPrices(tokens);
      DistinctlyIsSet(tokens);
      misses := [];
      for i := 0 to |all.keys|
        invariant misses == Missing(client.redis.store, all.keys[..i])
      {
        assert all.keys[..i + 1][..i] == all.keys[..i];
        assert all.keys[i] in all.keys;
        if all.items[all.keys[i]].None? {
          misses := misses + [all.keys[i]];
        }
      }
      assert all.keys[..|all.keys|] == all.keys;
      MissingMembers(client.redis.store, all.keys);
      cached := all.items;
    }

    /** Positive answers replace the misses. */
    method FillIn(cached: map<string, Option<real>>, answers: map<string, Option<real>>, missing: seq<string>)
      returns (result: map<string, Option<real>>)
      requires forall t :: t in missing ==> t in cached && t in answers
      ensures forall t :: t in result <==> t in cached
      ensures forall t :: t in result ==>
                result[t] == if t in missing && IsPositive(answers[t]) then answers[t] else cached[t]
    {
      result := cached;
      for i := 0 to |missing|
        invariant forall t :: t in result <==> t in cached
        invariant forall t :: t in result ==>
                    result[t] == if t in missing[..i] && IsPositive(answers[t]) then answers[t] else cached[t]
      {
        if IsPositive(answers[missing[i]]) {
          result := result[missing[i] := answers[missing[i]]];
        }
      }
    }
  }
}
