/**
 * The `WhmcsClient` object: its settings, its TTL cache of normalised product
 * lists, the retrying request loop and the product queries built on them.
 *
 * Time is an integer number of seconds passed in by the caller (`now`), and the
 * network is a `Network` value: the transport outcome of each POST attempt.
 */
module Client {
  import opened Wrappers
  import opened Text
  import opened Json
  import opened Whmcs
  import opened Catalog

  const DEFAULT_TIMEOUT: int := 30
  const DEFAULT_CACHE_TTL: int := 300

  /** A cached product list and the second after which it is stale. */
  datatype CacheEntry = CacheEntry(data: seq<Product>, expiry: int)

  type Cache = map<CacheKey, CacheEntry>

  /** The client's fixed configuration. */
  datatype ClientSettings = ClientSettings(
    apiUrl: string,
    apiIdentifier: string,
    apiSecret: string,
    timeout: int,
    cacheTtl: int)

  // ---------------------------------------------------------------- cache

  /** `CacheEntry.is_expired`: strictly after the expiry instant. */
  predicate IsExpired(e: CacheEntry, now: int) {
    now > e.expiry
  }

  /** The key has an entry whose TTL has not run out. */
  predicate Live(cache: Cache, key: CacheKey, now: int) {
    key in cache && now <= cache[key].expiry
  }

  /**
   * `_get_from_cache`: the data of a live entry, or nothing; a stale entry is
   * evicted as a side effect.
   */
  function CacheLookup(cache: Cache, key: CacheKey, now: int): (r: (Option<seq<Product>>, Cache))
    ensures r.0.Some? <==> Live(cache, key, now)
    ensures r.0.Some? ==> r.0.value == cache[key].data && r.1 == cache
    ensures r.0.None? ==> r.1 == cache - {key}
  {
    if key in cache then
      if !IsExpired(cache[key], now) then (Some(cache[key].data), cache)
      else (None, cache - {key})
    else (None, cache)
  }

  /** `_set_cache`: the entry expires `ttl` seconds after it is stored. */
  function CacheStore(cache: Cache, key: CacheKey, data: seq<Product>, ttl: int, now: int): (r: Cache)
    ensures key in r && r[key] == CacheEntry(data, now + ttl)
    ensures forall k | k != key :: (k in r <==> k in cache) && (k in cache ==> r[k] == cache[k])
  {
    cache[key := CacheEntry(data, now + ttl)]
  }

  /** What is stored is served back until its TTL has run out, and is gone afterwards. */
  lemma CacheRoundTrip(cache: Cache, key: CacheKey, data: seq<Product>, ttl: int, now: int, later: int)
    ensures later <= now + ttl ==> CacheLookup(CacheStore(cache, key, data, ttl, now), key, later).0 == Some(data)
    ensures later > now + ttl ==>
      && CacheLookup(CacheStore(cache, key, data, ttl, now), key, later).0 == None
      && key !in CacheLookup(CacheStore(cache, key, data, ttl, now), key, later).1
  {
  }

  /** Looking one key up never disturbs the entries of other keys. */
  lemma CacheLookupKeepsOtherKeys(cache: Cache, key: CacheKey, now: int, other: CacheKey)
    requires other != key
    ensures other in CacheLookup(cache, key, now).1 <==> other in cache
    ensures other in cache ==> CacheLookup(cache, key, now).1[other] == cache[other]
  {
  }

  // ---------------------------------------------------------------- queries as values

  /** The request `_make_request` sends and its retried outcome. */
  function Request(s: ClientSettings, action: string, params: Dict, net: Network): (Result<Json, ClientError>, nat)
    requires DistinctKeys(params)
  {
    RetryReraise(net, BuildRequestData(s.apiIdentifier, s.apiSecret, action, params), s.timeout)
  }

  /** The products of a `GetProducts` response, or the error that ended the request. */
  function ProductsOf(response: Result<Json, ClientError>): Result<seq<Product>, ClientError> {
    match response
    case Failure(e) => Failure(e)
    case Success(JObj(fields)) => NormalizeProductsResponse(fields)
    case Success(_) => Failure(BuiltinError("AttributeError"))
  }

  /** `_make_request('GetProducts', filters)` followed by normalisation. */
  function FetchProducts(s: ClientSettings, filters: Dict, net: Network): Result<seq<Product>, ClientError>
    requires DistinctKeys(filters)
  {
    ProductsOf(Request(s, "GetProducts", filters, net).0)
  }

  /** The outcome of `get_products` and the cache it leaves behind. */
  function ProductsOutcome(s: ClientSettings, cache: Cache, useCache: bool, filters: Dict, now: int, net: Network)
    : (r: (Result<seq<Product>, ClientError>, Cache))
    requires DistinctKeys(filters)
    ensures !useCache ==> r == (FetchProducts(s, filters, net), cache)
    ensures r.0.Failure? ==> r.0 == FetchProducts(s, filters, net)
    ensures useCache && r.0.Success? ==>
      var key := GetCacheKey("GetProducts", filters);
      key in r.1 && r.1[key].data == r.0.value
    ensures useCache && Live(cache, GetCacheKey("GetProducts", filters), now) ==>
      r == (Success(cache[GetCacheKey("GetProducts", filters)].data), cache)
    ensures useCache && !Live(cache, GetCacheKey("GetProducts", filters), now) ==>
      r.0 == FetchProducts(s, filters, net)
    ensures useCache && !Live(cache, GetCacheKey("GetProducts", filters), now) && r.0.Success? ==>
      r.1 == CacheStore(cache - {GetCacheKey("GetProducts", filters)}, GetCacheKey("GetProducts", filters),
                        r.0.value, s.cacheTtl, now)
    ensures useCache && !Live(cache, GetCacheKey("GetProducts", filters), now) && r.0.Failure? ==>
      r.1 == cache - {GetCacheKey("GetProducts", filters)}
    ensures forall k | k != GetCacheKey("GetProducts", filters) ::
      (k in r.1 <==> k in cache) && (k in cache ==> r.1[k] == cache[k])
  {
    var key := GetCacheKey("GetProducts", filters);
    if !useCache then (FetchProducts(s, filters, net), cache)
    else
      var (hit, afterLookup) := CacheLookup(cache, key, now);
      if hit.Some? then (Success(hit.value), cache)
      else
        var fetched := FetchProducts(s, filters, net);
        if fetched.Success? then (fetched, CacheStore(afterLookup, key, fetched.value, s.cacheTtl, now))
        else (fetched, afterLookup)
  }

  /** A live cache entry answers the query whatever the network would have done. */
  lemma LiveEntryServedWithoutNetwork(s: ClientSettings, cache: Cache, filters: Dict, now: int, net: Network)
    requires DistinctKeys(filters)
    requires GetCacheKey("GetProducts", filters) in cache
    requires now <= cache[GetCacheKey("GetProducts", filters)].expiry
    ensures ProductsOutcome(s, cache, true, filters, now, net) ==
      (Success(cache[GetCacheKey("GetProducts", filters)].data), cache)
  {
  }

  /** A missing or stale entry is not served: the query goes to the network. */
  lemma StaleEntryRefetched(s: ClientSettings, cache: Cache, filters: Dict, now: int, net: Network)
    requires DistinctKeys(filters)
    requires GetCacheKey("GetProducts", filters) in cache ==> now > cache[GetCacheKey("GetProducts", filters)].expiry
    ensures ProductsOutcome(s, cache, true, filters, now, net).0 == FetchProducts(s, filters, net)
  {
  }

  /**
   * After a successful cached query, the same filters (in any keyword order)
   * asked again within the TTL get the same products without touching the
   * network.
   */
  lemma RepeatWithinTtlIsServedFromCache(
    s: ClientSettings, cache: Cache, f1: Dict, f2: Dict, now: int, later: int, net1: Network, net2: Network)
    requires DistinctKeys(f1) && DistinctKeys(f2) && multiset(f1) == multiset(f2)
    requires ProductsOutcome(s, cache, true, f1, now, net1).0.Success?
    requires later <= now + s.cacheTtl
    requires GetCacheKey("GetProducts", f1) in cache ==> later <= cache[GetCacheKey("GetProducts", f1)].expiry
    ensures ProductsOutcome(s, ProductsOutcome(s, cache, true, f1, now, net1).1, true, f2, later, net2).0 ==
      ProductsOutcome(s, cache, true, f1, now, net1).0
  {
    CacheKeyOrderIndependent("GetProducts", f1, f2);
  }

  /** `get_product`: the first product the filtered query returns, if any. */
  function FirstProduct(products: Result<seq<Product>, ClientError>): (r: Result<Option<Product>, ClientError>)
    ensures products.Failure? ==> r == Failure(products.error)
    ensures products.Success? ==>
      && r.Success?
      && (r.value.None? <==> products.value == [])
      && (r.value.Some? ==> r.value.value == products.value[0])
  {
    match products
    case Failure(e) => Failure(e)
    case Success(ps) => if ps == [] then Success(None) else Success(Some(ps[0]))
  }

  /** The filter `get_product` passes: `pid=product_id`. */
  function ProductFilter(productId: int): (f: Dict)
    ensures DistinctKeys(f) && Lookup(f, "pid") == Some(JInt(productId))
  {
    [("pid", JInt(productId))]
  }

  /** `get_product_inventory`: the inventory of the product, or an API error when there is none. */
  function InventoryResult(productId: int, product: Result<Option<Product>, ClientError>): (r: Result<Inventory, ClientError>)
    ensures product.Failure? ==> r == Failure(product.error)
    ensures product == Success(None) ==>
      r == Failure(ApiError("Product with ID " + ShowInt(productId) + " not found"))
    ensures r.Success? ==> product.Success? && product.value.Some? && r.value == InventoryOf(productId, product.value.value)
  {
    match product
    case Failure(e) => Failure(e)
    case Success(None) => Failure(ApiError("Product with ID " + ShowInt(productId) + " not found"))
    case Success(Some(p)) => Success(InventoryOf(productId, p))
  }

  /** An inventory always reports the id that was asked for, whatever product id upstream returned. */
  lemma InventoryReportsRequestedId(productId: int, product: Result<Option<Product>, ClientError>)
    requires InventoryResult(productId, product).Success?
    ensures InventoryResult(productId, product).value.productId == productId
    ensures InventoryResult(productId, product).value.quantity == product.value.value.quantity
  {
  }

  /**
   * The engine's read (`use_cache=False`): the answer depends on the network
   * alone, whatever the cache holds and whatever the time, and the cache is
   * left as it was.
   */
  lemma UncachedInventoryIgnoresCache(
    s: ClientSettings, cache1: Cache, cache2: Cache, productId: int, now1: int, now2: int, net: Network)
    ensures var (p1, after1) := ProductsOutcome(s, cache1, false, ProductFilter(productId), now1, net);
      var (p2, _) := ProductsOutcome(s, cache2, false, ProductFilter(productId), now2, net);
      && InventoryResult(productId, FirstProduct(p1)) == InventoryResult(productId, FirstProduct(p2))
      && after1 == cache1
  {
  }

  /** `test_connection`: true when the probe succeeds, otherwise the request's own error. */
  function ConnectionProbe(outcome: Result<Json, ClientError>): (r: Result<bool, ClientError>)
    ensures r.Success? <==> outcome.Success?
    ensures r.Success? ==> r.value
    ensures r.Failure? ==> r.error == outcome.error
  {
    match outcome
    case Success(_) => Success(true)
    case Failure(e) => Failure(e)
  }

  /** The loop tenacity runs around one request payload, re-raising the last retryable error. */
  method RetryLoop(net: Network, data: Dict, timeout: int)
    returns (r: Result<Json, ClientError>, attempts: nat, delays: seq<int>)
    ensures (r, attempts) == RetryReraise(net, data, timeout)
    ensures |delays| == attempts - 1
    ensures forall i | 0 <= i < |delays| :: delays[i] == BackoffDelay(i + 1)
  {
    var n: nat := 1;
    r := Attempt(net, data, timeout, 0);
    delays := [];
    while IsTransient(r) && n < MAX_RETRIES
      invariant 1 <= n <= MAX_RETRIES
      invariant r == Attempt(net, data, timeout, n - 1)
      invariant RetryFrom(net, data, timeout, n, true) == RetryReraise(net, data, timeout)
      invariant |delays| == n - 1
      invariant forall i | 0 <= i < |delays| :: delays[i] == BackoffDelay(i + 1)
      decreases MAX_RETRIES - n
    {
      delays := delays + [BackoffDelay(n)];
      n := n + 1;
      r := Attempt(net, data, timeout, n - 1);
    }
    attempts := n;
  }

  // ---------------------------------------------------------------- the client object

  class WhmcsClient {
    const apiUrl: string
    const apiIdentifier: string
    const apiSecret: string
    const timeout: int
    const cacheTtl: int
    var cache: Cache

    function Settings(): ClientSettings {
      ClientSettings(apiUrl, apiIdentifier, apiSecret, timeout, cacheTtl)
    }

    /** Stores the settings once they have been validated (the URL without trailing slashes). */
    constructor(apiUrl: string, apiIdentifier: string, apiSecret: string, timeout: int := DEFAULT_TIMEOUT, cacheTtl: int := DEFAULT_CACHE_TTL)
      ensures this.apiUrl == RStrip(apiUrl, '/')
      ensures this.apiIdentifier == apiIdentifier && this.apiSecret == apiSecret
      ensures this.timeout == timeout && this.cacheTtl == cacheTtl
      ensures cache == map[]
    {
      this.apiUrl := RStrip(apiUrl, '/');
      this.apiIdentifier := apiIdentifier;
      this.apiSecret := apiSecret;
      this.timeout := timeout;
      this.cacheTtl := cacheTtl;
      cache := map[];
    }

    /** `WhmcsClient(...)`: a validation error for a missing setting, a fresh client otherwise. */
    static method Create(apiUrl: string, apiIdentifier: string, apiSecret: string, timeout: int := DEFAULT_TIMEOUT, cacheTtl: int := DEFAULT_CACHE_TTL)
      returns (r: Result<WhmcsClient, ClientError>)
      ensures r.Failure? <==> ValidateSettings(apiUrl, apiIdentifier, apiSecret).Some?
      ensures r.Failure? ==> r.error == ValidateSettings(apiUrl, apiIdentifier, apiSecret).value
      ensures r.Success? ==>
        && fresh(r.value)
        && r.value.Settings() == ClientSettings(RStrip(apiUrl, '/'), apiIdentifier, apiSecret, timeout, cacheTtl)
        && r.value.cache == map[]
    {
      var invalid := ValidateSettings(apiUrl, apiIdentifier, apiSecret);
      if invalid.Some? {
        return Failure(invalid.value);
      }
      var c := new WhmcsClient(apiUrl, apiIdentifier, apiSecret, timeout, cacheTtl);
      return Success(c);
    }

    /** `_get_from_cache`. */
    method GetFromCache(key: CacheKey, now: int) returns (r: Option<seq<Product>>)
      modifies this
      ensures (r, cache) == CacheLookup(old(cache), key, now)
    {
      if key in cache {
        var entry := cache[key];
        if !IsExpired(entry, now) {
          return Some(entry.data);
        }
        cache := cache - {key};
      }
      return None;
    }

    /** `_set_cache`. */
    method SetCache(key: CacheKey, data: seq<Product>, now: int)
      modifies this
      ensures cache == CacheStore(old(cache), key, data, cacheTtl, now)
    {
      cache := cache[key := CacheEntry(data, now + cacheTtl)];
    }

    /** `clear_cache`. */
    method ClearCache()
      modifies this
      ensures cache == map[]
    {
      cache := map[];
    }

    /**
     * `_make_request` under its retry decorator: up to MAX_RETRIES POSTs while
     * the outcome is a timeout or a connection failure, with the exponential
     * back-off delays slept between them.
     */
    method MakeRequest(action: string, params: Dict, net: Network)
      returns (r: Result<Json, ClientError>, attempts: nat, delays: seq<int>)
      requires DistinctKeys(params)
      ensures (r, attempts) == Request(Settings(), action, params, net)
      ensures |delays| == attempts - 1
      ensures forall i | 0 <= i < |delays| :: delays[i] == BackoffDelay(i + 1)
    {
      var data := BuildRequestData(apiIdentifier, apiSecret, action, params);
      r, attempts, delays := RetryLoop(net, data, timeout);
    }

    /** `get_products`. */
    method GetProducts(useCache: bool, filters: Dict, now: int, net: Network)
      returns (r: Result<seq<Product>, ClientError>)
      requires DistinctKeys(filters)
      modifies this
      ensures (r, cache) == ProductsOutcome(Settings(), old(cache), useCache, filters, now, net)
    {
      var key := GetCacheKey("GetProducts", filters);
      ghost var start := cache;
      if useCache {
        var cached := GetFromCache(key, now);
        if cached.Some? {
          return Success(cached.value);
        }
      }
      assert cache == (if useCache then CacheLookup(start, key, now).1 else start);
      var response, _, _ := MakeRequest("GetProducts", filters, net);
      r := ProductsOf(response);
      assert r == FetchProducts(Settings(), filters, net);
      if useCache && r.Success? {
        SetCache(key, r.value, now);
      }
    }

    /** `get_product`. */
    method GetProduct(productId: int, useCache: bool, now: int, net: Network)
      returns (r: Result<Option<Product>, ClientError>)
      modifies this
      ensures (r, cache) ==
        var (products, after) := ProductsOutcome(Settings(), old(cache), useCache, ProductFilter(productId), now, net);
        (FirstProduct(products), after)
    {
      var products := GetProducts(useCache, ProductFilter(productId), now, net);
      r := FirstProduct(products);
    }

    /** `get_product_inventory`. */
    method GetProductInventory(productId: int, useCache: bool, now: int, net: Network)
      returns (r: Result<Inventory, ClientError>)
      modifies this
      ensures (r, cache) ==
        var (products, after) := ProductsOutcome(Settings(), old(cache), useCache, ProductFilter(productId), now, net);
        (InventoryResult(productId, FirstProduct(products)), after)
    {
      var product := GetProduct(productId, useCache, now, net);
      r := InventoryResult(productId, product);
    }

    /** `test_connection`: a one-product probe that bypasses the cache. */
    method TestConnection(net: Network) returns (r: Result<bool, ClientError>)
      ensures r == ConnectionProbe(Request(Settings(), "GetProducts", [("limitnum", JInt(1))], net).0)
    {
      var outcome, _, _ := MakeRequest("GetProducts", [("limitnum", JInt(1))], net);
      r := ConnectionProbe(outcome);
    }
  }
}
