# whmcs-stock-monitor in Dafny

This project models the core of whmcs-stock-monitor, a service that watches the
stock level of products sold through a WHMCS installation. The core has five parts:

- **The WHMCS inventory client** (`Whmcs`, `Catalog`, `Client`). It covers:
  - settings validation;
  - the TTL cache of product lists, keyed by action and sorted parameters;
  - the authenticated request body;
  - classification of a response into success or one of the client's error kinds;
  - the tenacity retry policy: three attempts, and only connection or timeout
    errors are retried;
  - normalisation of the `GetProducts` payload into product records;
  - the cached and uncached product queries.
- **Change detection and the monitoring cycle** (`Models`, `Monitoring`). It covers:
  - the two classifiers of `StockChangeDetector`;
  - one check of a monitor: fetch, delta against the latest record, a new record,
    and events;
  - the cycle over every active monitor. A monitor whose check fails has its
    writes rolled back, gets a MONITOR_ERROR, and does not stop the cycle;
  - the counters of the cycle's results.
- **The event bus** (`Events`). It covers:
  - per-type and global handler lists;
  - delivery in registration order, which goes on past handlers that raise;
  - `to_dict`;
  - the module-level bus with the logging handler.
- **The configuration repositories** (`Tables`, `Repositories`). The website,
  monitor, stock-record and history tables are in-memory tables with an
  autoincrement id and a creation stamp. Their queries (by id, first match,
  filter, newest first with a limit) are sequence operations.
- **The configuration services** (`Services`). They cover:
  - the validation done before inserts: duplicate website name, unknown website,
    duplicate (website, product) monitor;
  - partial updates field by field;
  - the recording of stock changes and history;
  - the status summary of a monitor.

The engine and the service layer use two separate schemas, as the repository
does. The engine's `MonitorConfig` and `StockRecord` follow `src/models.py`.
`Website` and `MonitorHistory` are imported from `src/models.py` by the service
layer, but that file does not define them. Its `MonitorConfig` also has no
`website_id`, `status` or `purchase_link`. So the service-layer row shapes
(`Repositories.Website`, `Monitor`, `Record`, `History`) are inferred from the
constructor calls in `src/services.py` (lines 35-42, 119-131, 187-197 and
215-227).

The model turns the program's outside world into explicit inputs:

- Time is a logical clock. The client takes the current second as a `now`
  parameter. The engine database and the service session each keep a clock
  that ticks whenever a row is stamped.
- The network is a `Network` value: the transport outcome of each attempt.
- The engine reaches the client through an `InventorySource` function, from a
  product id to an inventory or an error. Each monitoring cycle is given its
  own, since the engine builds a fresh client for every cycle unless one was
  injected.
- Whether an event handler raises is a predicate on (handler, event).

Objects that the program updates in place are classes with `modifies` clauses.
These are `WhmcsClient` (its cache), `EventBus`, the engine database
`EngineDb`, the session and the repositories and services. The engine's
operations are module-level methods that take the session `db: EngineDb` and
the cycle's inventory reads; the engine object itself holds no state the model
needs.
Pure logic is functions and lemmas.

Where the code and its intended behaviour disagree, the model records both (see
"## Findings"):

- **After three transient failures.** `_make_request` uses tenacity's `retry`
  without `reraise=True`, so the caller receives a `RetryError` that wraps the
  last error. The repository's own test (tests/test_whmcs_client.py:436-449)
  expects the last `WhmcsConnectionError` itself. `Whmcs.Retry` models the code
  as written. `Whmcs.RetryReraise` models the intended behaviour, and the client
  (`Client.Request`, `Client.RetryLoop`) uses it.

Other modelling choices:

- **Event timestamps.** `to_dict` writes the timestamp as an ISO string. The
  model writes the logical instant.
- **Prices.** `float()` is modelled as an exact decimal (`Text.Decimal`: digits
  and a scale), read from an integer, a boolean, or a string of digits with at
  most one point and an optional sign.

## Model

| member | source | states |
|---|---|---|
| Text.ParseInt | src/whmcs_client.py:313-322 | `int(s)` of a non-empty digit string is its decimal value, with a leading `-` negated and a leading `+` ignored; any other string (including the empty one) is not read |
| Text.ParseShowRoundTrip | src/whmcs_client.py:313-322 | every integer written in decimal is read back as itself by `int` |
| Text.DigitsRoundTrip | src/whmcs_client.py:313-322 | a natural number written as digits has that digit string's value |
| Text.ParseDecimal | src/whmcs_client.py:348-349 | `float(s)` reads every string `int()` reads, to the same value with scale 0; anything read is non-empty, made of digits and points, with a sign only in front |
| Text.ParseDecimalPoint | src/whmcs_client.py:348-349 | `whole.fraction` (digits on either side, not both empty) is read as the digits of both with scale `len(fraction)` |
| Text.NegatedLiteral | src/whmcs_client.py:348-349 | a leading `-` negates an unsigned decimal literal that has a point |
| Text.Lower | src/whmcs_client.py:169 | `lower()` keeps the length and maps each character by ASCII case folding |
| Text.RStrip | src/whmcs_client.py:77 | `rstrip('/')` is a prefix of the input, does not end in `/`, and only `/` were removed |
| Text.StrLtIrreflexive | src/whmcs_client.py:89 | the string order used by `sorted` is irreflexive |
| Text.StrLtTransitive | src/whmcs_client.py:89 | the string order used by `sorted` is transitive |
| Text.StrLtTotal | src/whmcs_client.py:89 | any two different strings are ordered one way or the other |
| Json.Lookup | src/whmcs_client.py:165-166 | `d.get(k)` is present iff some entry has key `k`, and it returns that entry's value |
| Json.LookupAt | src/whmcs_client.py:165-166 | the first entry with key `k` is the one a lookup returns |
| Json.LookupDistinct | src/whmcs_client.py:118-123 | in a dict with distinct keys every entry is found by its key |
| Json.Values | src/whmcs_client.py:301 | `list(d.values())` has one value per entry, in order |
| Json.Put | src/whmcs_client.py:125 | after `d[k] = v`, `k` maps to `v` and every other key keeps its value |
| Json.PutKeepsKeysDistinct | src/whmcs_client.py:125 | assignment keeps a dict's keys distinct |
| Json.Update | src/whmcs_client.py:124-125 | `d.update(p)`: keys of `p` map to `p`'s values, other keys keep `d`'s values, keys stay distinct |
| Whmcs.ValidateSettings | src/whmcs_client.py:70-75 | the URL is checked first, then the identifier, then the secret, each with its own validation message; no error iff all three are non-empty |
| Whmcs.Credentials | src/whmcs_client.py:118-123 | the fixed fields are identifier, secret, action and `responsetype = 'json'`, and only those |
| Whmcs.BuildRequestData | src/whmcs_client.py:116-126 | every parameter key maps to the parameter's value, even over a fixed field; an unoverridden fixed field keeps its credential; no other keys appear |
| Whmcs.SortByKey | src/whmcs_client.py:88-89 | `sorted(params.items())` is strictly ordered by key and a permutation of the parameters |
| Whmcs.InsertByKey | src/whmcs_client.py:89 | inserting one pair keeps the order and adds exactly that pair |
| Whmcs.SortedUnique | src/whmcs_client.py:89 | two key-sorted lists with the same entries are equal |
| Whmcs.GetCacheKey | src/whmcs_client.py:86-92 | the key carries the action and the parameters sorted by name; with no parameters it is the bare action |
| Whmcs.CacheKeyOrderIndependent | src/whmcs_client.py:86-92 | two parameter dicts with the same entries in any insertion order give the same key |
| Whmcs.CacheKeyDistinguishes | src/whmcs_client.py:86-92 | equal keys come from the same action and the same parameter entries |
| Whmcs.Classify | src/whmcs_client.py:151-197 | a received JSON object whose `result` is not `'error'` is returned as it is, and a payload is returned only then; a non-object body, or an error reply whose message is not a string (`.lower()` fails), raises AttributeError; a timeout gives a timeout error and a refused connection a connection error, and an error is retryable iff it is one of these two; an HTTP status failure or an unparsable body gives an API error; an authentication error occurs iff `result == 'error'` and the lowered message (default `Unknown error`) mentions authentication or invalid identifier |
| Whmcs.UpstreamErrorIsApiError | src/whmcs_client.py:165-176 | `result == 'error'` with a non-authentication message is an API error carrying `WHMCS API error: <message>` |
| Whmcs.MissingMessageIsUnknownError | src/whmcs_client.py:166-176 | an error response without a message is an API error about `Unknown error` |
| Whmcs.UnknownErrorIsNotAuth | src/whmcs_client.py:166-170 | the default message is not taken for an authentication failure |
| Whmcs.AuthPhraseAnywhere | src/whmcs_client.py:169 | the word authentication in any letter case, anywhere in the message, makes it an authentication failure |
| Whmcs.AuthFailureRecognised | src/whmcs_client.py:169-170 | WHMCS's own `Authentication Failed` message is classified as an authentication failure |
| Whmcs.RetryFrom | src/whmcs_client.py:128-134 | at most MAX_RETRIES attempts; every attempt before the last was transient; a non-transient last attempt is the result; a transient last attempt means the budget ran out, and the result is that error, re-raised or wrapped in RetryError as configured |
| Whmcs.SucceedsAfterTransientFailures | src/whmcs_client.py:128-134 | under either policy, N < 3 transient failures then success return the payload after exactly N+1 attempts |
| Whmcs.TerminalErrorNotRetried | src/whmcs_client.py:129 | under either policy, an authentication or API error ends the call after exactly one attempt |
| Whmcs.GivesUpAfterMaxAttempts | src/whmcs_client.py:128-134 | as written (`Retry`): three transient failures give RetryError wrapping the third, after three attempts |
| Whmcs.RetryNeverReturnsRawTransient | src/whmcs_client.py:128-134 | as written (`Retry`): the retry loop never surfaces a bare connection or timeout error |
| Whmcs.RetryReraise | src/whmcs_client.py:128-134 | with `reraise=True`: the same attempts as `Retry`; where `Retry` gives up with RetryError the wrapped error is raised instead, and otherwise the outcome is the same |
| Whmcs.ReraiseChangesOnlyExhaustion | src/whmcs_client.py:128-134 | from any attempt on, the two policies make the same attempts and differ only by the RetryError wrapper once the budget is spent |
| Whmcs.GivesUpReraisingLastError | src/whmcs_client.py:128-134 | with `reraise=True`, three transient failures raise the third error itself, after three attempts |
| Whmcs.ExhaustedRetriesRaiseRetryError | src/whmcs_client.py:128-134 | against a server that refuses every connection, `Retry` raises a RetryError while `RetryReraise` raises the `WhmcsConnectionError` the test expects |
| Whmcs.BackoffDelay | src/whmcs_client.py:131 | the exponential wait is clamped to between 1 and 10 seconds |
| Catalog.ToIntReadsDecimal | src/whmcs_client.py:313 | `int()` of a decimal string reads that number |
| Catalog.ToFloatExtendsToInt | src/whmcs_client.py:348-349 | `float()` accepts every value `int()` accepts, with the same value, and where `float()` raises `int()` raises the same exception |
| Catalog.ToFloatReadsDecimalPoint | src/whmcs_client.py:348-349 | `float("12.50")` is 12.50, which `int()` would reject |
| Catalog.ToFloatRejects | src/whmcs_client.py:348-349 | `float("abc")` raises ValueError and `float(None)` raises TypeError |
| Catalog.PriceOf | src/whmcs_client.py:347-350 | price and setup are `float()` of their values (default 0); the price is read first, so its error wins; it succeeds iff both reads do |
| Catalog.Dicts | src/whmcs_client.py:308-310 | non-dict entries are skipped: the result is exactly the list's dict entries, in their order, one per dict entry |
| Catalog.ObjectEntries | src/whmcs_client.py:342-346 | exactly the dict-valued entries of a pricing level, with their keys, in their order |
| Catalog.PricingPeriods | src/whmcs_client.py:345-350 | succeeds iff every dict-valued period's prices read; then one entry per such period, in order, with its price and setup; otherwise the error of the first period that fails |
| Catalog.BadPriceFailsPeriods | src/whmcs_client.py:347-350 | a period whose price `float()` rejects makes the whole pricing raise that error |
| Catalog.Currencies | src/whmcs_client.py:342-350 | succeeds iff every dict-valued currency's periods do; then one entry per currency, in order; otherwise the first failing currency's error |
| Catalog.NormalizePricing | src/whmcs_client.py:328-352 | falsy pricing gives `{}`; truthy pricing that is not a dict raises AttributeError on `.items()`; a dict is exactly its dict-valued currencies, each normalised by period, or the first `float()` error |
| Catalog.NormalizeProduct | src/whmcs_client.py:312-323 | id, group, quantity and order are `int()` of pid, gid, qty and order (default 0); name, description and module default to empty; `stock_control` iff `stockcontrol == '1'`; `available` iff `retired` is absent or `'0'`; pricing is the normalised pricing; it fails iff one of the `int()` calls or the pricing fails, and then with the error of the first failing one in the order pid, gid, qty, pricing, order |
| Catalog.NormalizeAll | src/whmcs_client.py:307-326 | succeeds iff every dict entry normalises, and then gives one product per dict entry, in order; otherwise fails with the error of the first dict entry that does not normalise |
| Catalog.ProductCandidates | src/whmcs_client.py:292-305 | a single `product` dict becomes a one-element list; a `product` list stays; a `product` string is iterated into its characters; a `product` none, boolean or number raises TypeError; a dict without `product` gives its values; a list stays; anything else, or no `products`, gives `[]` |
| Catalog.NormalizeProductsResponse | src/whmcs_client.py:282-326 | normalises exactly the candidate entries; when the candidates cannot be iterated it fails with their own error |
| Catalog.SingleProductIsOneElementList | src/whmcs_client.py:296-299 | a response with one product object yields a one-element product list |
| Catalog.ListOutputCountsDictionaries | src/whmcs_client.py:302-310 | when every dict entry normalises, the output length of a list payload equals the number of positions holding a dict |
| Catalog.DictsCount | src/whmcs_client.py:308-310 | the dicts kept are as many as the positions of the list that hold a dict |
| Catalog.StringProductGivesNoProducts | src/whmcs_client.py:296-310 | a string under `product` is iterated character by character, none is a dict, so no product results |
| Catalog.ScalarProductRaises | src/whmcs_client.py:296-308 | a none, boolean or number under `product` cannot be iterated and raises TypeError |
| Catalog.OtherShapesAreEmpty | src/whmcs_client.py:304-305 | a payload that is neither a dict nor a list yields no products |
| Catalog.InventoryOf | src/whmcs_client.py:273-280 | the inventory reports the requested id, and the product's name, quantity, stock control and availability |
| Client.CacheLookup | src/whmcs_client.py:94-104 | data comes back iff the key is present and not past expiry, and then the cache is unchanged; otherwise the key is evicted |
| Client.CacheStore | src/whmcs_client.py:106-108 | the key now holds the data with expiry now + ttl, and other keys are untouched |
| Client.CacheRoundTrip | src/whmcs_client.py:28-34 | after a store at t, a read at or before t + ttl returns the data; a later read returns nothing and evicts the key |
| Client.CacheLookupKeepsOtherKeys | src/whmcs_client.py:94-104 | a read never changes entries for other keys |
| Client.ProductsOutcome | src/whmcs_client.py:199-229 | without the cache it is a plain fetch that leaves the cache alone; with it, a live entry is returned with the cache unchanged, and otherwise (key absent or expired) the result is the fetch's, a success being stored under the key with expiry now + TTL and a failure leaving the key evicted; other keys are never touched |
| Client.LiveEntryServedWithoutNetwork | src/whmcs_client.py:218-221 | a live entry is returned as is, whatever the network would say |
| Client.StaleEntryRefetched | src/whmcs_client.py:218-224 | a missing or expired entry is fetched again |
| Client.RepeatWithinTtlIsServedFromCache | src/whmcs_client.py:216-229 | a repeat of a successful cached call within the TTL, with the same filters in any order, returns the same list |
| Client.FirstProduct | src/whmcs_client.py:248-249 | `get_product` is the first product, or none for an empty list; errors pass through |
| Client.ProductFilter | src/whmcs_client.py:248 | the filter has distinct keys and asks for `pid = product_id` |
| Client.InventoryResult | src/whmcs_client.py:268-280 | no product raises `Product with ID <id> not found` as an API error; a found product gives its inventory |
| Client.InventoryReportsRequestedId | src/whmcs_client.py:273-277 | the inventory's `product_id` is the requested id and its quantity the product's |
| Client.UncachedInventoryIgnoresCache | src/monitoring_engine.py:157 | an uncached inventory read is the same whatever the cache holds, and it leaves the cache unchanged |
| Client.ConnectionProbe | src/whmcs_client.py:366-376 | the connection test returns true iff the request succeeds, and otherwise raises the request's error |
| Client.RetryLoop | src/whmcs_client.py:128-134 | the explicit attempt loop gives the outcome and attempt count of `RetryReraise`, waiting `BackoffDelay(i)` before each retry |
| Client.WhmcsClient.constructor | src/whmcs_client.py:77-83 | stores the URL without trailing slashes and the other settings, with an empty cache |
| Client.WhmcsClient.Create | src/whmcs_client.py:49-83 | a validation error iff a setting is missing, the first missing one in order; otherwise a fresh client with those settings |
| Client.WhmcsClient.GetFromCache | src/whmcs_client.py:94-104 | result and new cache are those of `CacheLookup` |
| Client.WhmcsClient.SetCache | src/whmcs_client.py:106-108 | the new cache is `CacheStore` with the client's TTL |
| Client.WhmcsClient.ClearCache | src/whmcs_client.py:111-113 | the cache is empty |
| Client.WhmcsClient.MakeRequest | src/whmcs_client.py:128-197 | builds the request body and runs the retry loop, with the backoff delays between attempts |
| Client.WhmcsClient.GetProducts | src/whmcs_client.py:199-229 | result and new cache are those of `ProductsOutcome` |
| Client.WhmcsClient.GetProduct | src/whmcs_client.py:231-249 | the first product of the `pid` query, and the cache it leaves |
| Client.WhmcsClient.GetProductInventory | src/whmcs_client.py:251-280 | the inventory of the first product of the `pid` query, or the not-found error |
| Client.WhmcsClient.TestConnection | src/whmcs_client.py:354-376 | probes with `GetProducts` and `limitnum = 1` |
| Models.NewMonitorConfig | src/models.py:9-27 | a new configuration is active, notifies on everything, has no thresholds, no name and no last check, and is stamped now |
| Models.NewStockRecord | src/models.py:35-53 | a new record has delta 0, is available, has stock control off, no breach and no change or threshold kind |
| Models.InsertConfig | src/models.py:12-13 | an insert fails iff the id or the `product_id` is taken, with the duplicate-product error when only the product is taken; a success appends and keeps the store rules |
| Models.DuplicateProductRejected | src/models.py:13 | a second configuration for the same product is rejected |
| Models.DeleteConfig | src/models.py:29-39 | deleting a configuration also deletes exactly its stock records; nothing else goes, and the store rules hold |
| Monitoring.DetectChangeType | src/monitoring_engine.py:22-31 | initial iff there is no previous quantity; otherwise restock iff delta > 0, purchase iff delta < 0, unchanged iff delta = 0 |
| Monitoring.CheckThresholdBreach | src/monitoring_engine.py:33-45 | breached iff a kind is given; low iff a low bound is set and quantity ≤ low; high iff not low and a high bound is set and quantity ≥ high, so low wins |
| Monitoring.ActivePositions | src/monitoring_engine.py:138-139 | the positions of exactly the active configurations, in table order |
| Monitoring.ActiveMonitors | src/monitoring_engine.py:138-139 | exactly the active configurations, one per active position |
| Monitoring.LatestRecord | src/monitoring_engine.py:141-147 | none iff the monitor has no record; otherwise one of its records with the greatest `created_at` |
| Monitoring.LatestAfterAppend | src/monitoring_engine.py:141-147 | a record stamped after all others is the latest for its monitor |
| Monitoring.LatestQuantity | src/monitoring_engine.py:166-167 | the previous quantity is the latest record's, or none without one |
| Monitoring.ThresholdEvents | src/monitoring_engine.py:218-234 | one threshold event iff breached and `notify_on_threshold`; LOW iff the kind is low; the threshold value is the matching bound and `threshold_type` is `"low"` or `"high"`; it carries the monitor's name and the previous quantity |
| Monitoring.DeltaEvents | src/monitoring_engine.py:236-250 | at most one event: INCREASED iff delta > 0 and `notify_on_restock`, DECREASED iff delta < 0 and `notify_on_purchase`, UNCHANGED iff delta = 0 and a previous record exists |
| Monitoring.EmitEvents | src/monitoring_engine.py:198-250 | the threshold event comes before the delta event, at most two in all, all about this monitor and none an error |
| Monitoring.NamedConfig | src/monitoring_engine.py:163-164 | only `product_name` changes, and only when it was none and the inventory name is truthy |
| Monitoring.ObservedRecord | src/monitoring_engine.py:159-187 | the record holds the observed quantity, delta = current − previous (0 on the first observation, which is initial), the detected change kind, the breach check and both flags |
| Monitoring.CheckOutcome | src/monitoring_engine.py:149-196 | one check: the new record against the latest quantity, the renamed configuration, `change_detected` iff delta ≠ 0, the record's breach flag, and the emitted events |
| Monitoring.FirstObservationHasNoMovementEvent | src/monitoring_engine.py:166-169 | the first observation is initial, reports no change and emits no delta event (no UNCHANGED) |
| Monitoring.ChangeDetectionIgnoresNotifyFlags | src/monitoring_engine.py:194 | the notify toggles change neither the record nor `change_detected` |
| Monitoring.ConsecutiveReadingsDelta | src/monitoring_engine.py:166-194 | the second of two consecutive checks records the difference of the two readings, and reports a change iff they differ |
| Monitoring.ResultsDict | src/monitoring_engine.py:75-82 | the results dict has distinct keys, and each of its seven keys holds its counter or instant |
| Monitoring.ErrorEvent | src/monitoring_engine.py:115-122 | a MONITOR_ERROR about the monitor, with the error's message (see Left out) and `error_type` set to the exception's class name |
| Monitoring.EventTypes | src/monitoring_engine.py:65-136 | the event kinds of a trace, in order |
| Monitoring.CountTypeAppend | src/monitoring_engine.py:65-136 | counting an event kind distributes over concatenated traces |
| Monitoring.CountTypeAbsent | src/monitoring_engine.py:65-136 | a trace without that kind counts zero |
| Monitoring.CountTypeFramed | src/monitoring_engine.py:68-134 | the STARTED and COMPLETED events add no count of another kind |
| Monitoring.SameKeysKeepStore | src/models.py:12-13 | changing configurations without touching ids or product ids keeps the store rules |
| Monitoring.FailedReads | src/monitoring_engine.py:111-113 | at most one failure per checked monitor |
| Monitoring.FailedReadsSnoc | src/monitoring_engine.py:111-113 | one more monitor adds one failure iff its inventory read fails |
| Monitoring.ConfigsAfterStep | src/monitoring_engine.py:95-124 | checking one more monitor extends the per-monitor account of the configurations |
| Monitoring.ProgressStep | src/monitoring_engine.py:95-124 | one committed or rolled-back check keeps the cycle invariant: the bookkeeping, the expected records and the expected events |
| Monitoring.StampsOnlyStampRecord | src/monitoring_engine.py:177-187 | the id and instant a record is given change none of its other columns |
| Monitoring.StampsOnlyTimeEvents | src/monitoring_engine.py:198-250 | the instant of a check changes no event but in its timestamp |
| Monitoring.RecordAt | src/monitoring_engine.py:157-185 | the record a check stores: the quantity read, a non-zero delta iff a record existed before the cycle and its quantity differs from the one read, and the breach check |
| Monitoring.EventsAt | src/monitoring_engine.py:101-122 | a failed read publishes exactly one MONITOR_ERROR and a successful one none |
| Monitoring.RecordsFor | src/monitoring_engine.py:95-124 | one record per successful read, at most one per checked monitor |
| Monitoring.RecordsForSnoc | src/monitoring_engine.py:95-124 | one more monitor adds its record iff its read succeeds |
| Monitoring.EventsForSnoc | src/monitoring_engine.py:95-124 | one more monitor adds its events after those already published |
| Monitoring.RecordsForCount | src/monitoring_engine.py:101-113 | every checked monitor either stores a record or counts as a failed read |
| Monitoring.EventsForErrors | src/monitoring_engine.py:111-122 | the expected trace has one MONITOR_ERROR per failed read |
| Monitoring.LatestIgnoresOtherMonitors | src/monitoring_engine.py:141-147 | a record of another monitor does not change this monitor's latest quantity |
| Monitoring.CheckMatchesExpected | src/monitoring_engine.py:149-196 | a check of a monitor whose latest quantity is still the one from before the cycle stores the expected record, publishes the expected events, and counts a change and a breach as its record says |
| Monitoring.RecordsStep | src/monitoring_engine.py:189-190 | appending the expected record extends the stored suffix by it |
| Monitoring.CountStep | src/monitoring_engine.py:101-106 | counting one more record with a predicate adds one iff the record satisfies it |
| Monitoring.EventsStep | src/monitoring_engine.py:95-124 | appending one turn's expected events extends the published trace by them |
| Monitoring.ProgressStepLatest | src/monitoring_engine.py:166-167 | monitors still to check keep their latest quantity from before the cycle, since configuration ids are distinct |
| Monitoring.AccountedStepRead | src/monitoring_engine.py:99-109 | a successful turn adds one record, no error and no MONITOR_ERROR |
| Monitoring.StoredStepRead | src/monitoring_engine.py:99-106 | a successful turn stores the expected record and counts its change and breach |
| Monitoring.AsExpectedStepRead | src/monitoring_engine.py:99-109 | a successful turn stores the expected record and publishes the expected events |
| Monitoring.ProgressStepRead | src/monitoring_engine.py:99-109 | a successful turn keeps the cycle invariant |
| Monitoring.ProgressStepError | src/monitoring_engine.py:111-124 | a failed turn keeps the cycle invariant: no record, one error and one MONITOR_ERROR |
| Monitoring.EngineDb.constructor | src/models.py:9-59 | a database holding the given configurations and no records |
| Monitoring.EngineDb.Now | src/monitoring_engine.py:108 | reads the instant and ticks the clock, changing nothing else |
| Monitoring.EngineDb.MarkChecked | src/monitoring_engine.py:108-109 | only that monitor changes: `last_checked_at` becomes the current instant and `updated_at` the commit's later instant (the column's `onupdate`) |
| Monitoring.EngineDb.Rollback | src/monitoring_engine.py:124 | restores the committed configurations and records |
| Monitoring.CheckMonitor | src/monitoring_engine.py:149-196 | a failed read changes nothing and raises its error; a success is `CheckOutcome` with the next record id and the current instant, renaming the configuration and appending one record |
| Monitoring.CheckAndCommit | src/monitoring_engine.py:95-124 | a success is the check's outcome, committed with `last_checked_at` stamped and `updated_at` set to the later commit instant, publishing its events; a failure rolls back and publishes exactly the MONITOR_ERROR for its error |
| Monitoring.CommitTurn | src/monitoring_engine.py:108-109 | the successful branch commits the checked monitor stamped checked, then updated, and is a committed turn |
| Monitoring.RollbackTurn | src/monitoring_engine.py:111-123 | the failing branch publishes the MONITOR_ERROR, restores the committed tables and is a committed turn |
| Monitoring.CommitSucceeds | src/monitoring_engine.py:96-109 | a successful turn, stamped and committed, is a committed turn with the check's record and events |
| Monitoring.CommitFails | src/monitoring_engine.py:111-123 | a failed read, rolled back, is a committed turn with no record and one MONITOR_ERROR |
| Monitoring.CheckNext | src/monitoring_engine.py:95-124 | one turn with its counters keeps the cycle invariant |
| Monitoring.CheckMonitors | src/monitoring_engine.py:95-124 | after the loop the cycle invariant holds for every active position: the records, counters and events expected, and each checked configuration is `NamedConfig` of its read with `last_checked_at` and a later `updated_at`, or unchanged when its read failed |
| Monitoring.IncreasingPrefix | src/monitoring_engine.py:95 | the active positions are visited once each, in order |
| Monitoring.RunMonitoringCycle | src/monitoring_engine.py:65-136 | STARTED comes first. `monitors_checked` is the number of active monitors, split into created and errors. `errors` is the number of failed reads and of MONITOR_ERROR events. With no active monitor nothing else happens. Otherwise COMPLETED with the results comes last. The appended records are exactly `RecordsFor` the active positions, up to id and instant. `changes_detected` counts those with a non-zero delta and `threshold_breaches` those breached. The events in between are exactly `EventsFor` the active positions, up to time. Each checked monitor whose read succeeded ends as `NamedConfig` of its read (the name filled in only when it was none), with `last_checked_at` set and a later `updated_at`; every other configuration is unchanged |
| Events.EventTypeFromValue | src/events.py:10-18 | looking a string up gives the member with that value, and none iff no member has it |
| Events.EventTypeValueRoundTrip | src/events.py:10-18 | every event type is found again from its value, so values are distinct |
| Events.BareEvent | src/events.py:21-38 | an event with only the required fields has every optional field none |
| Events.ToDict | src/events.py:40-44 | `to_dict` has distinct keys; `event_type` is the value string; every other field (ids, name, quantities, delta, threshold value and type, error message, metadata, timestamp) is kept under its key |
| Events.ToDictKeepsEventType | src/events.py:40-44 | the event type can be read back from the serialised event |
| Events.DispatchOrder | src/events.py:68-69 | the handlers for the event's type, then the global handlers |
| Events.Failing | src/events.py:71-75 | the handlers that raise are exactly those among the called ones for which the raise predicate holds |
| Events.FailingInCallOrder | src/events.py:71-75 | the failing handlers are the called ones filtered by the raise predicate, in call order and once per call |
| Events.SubscribeIsolated | src/events.py:55-58 | subscribing to one type leaves every other type's delivery unchanged and appends to its own |
| Events.EventBus.constructor | src/events.py:51-53 | a new bus has no handlers |
| Events.EventBus.Subscribe | src/events.py:55-59 | appends to that type's list and leaves the global list alone |
| Events.EventBus.SubscribeAll | src/events.py:61-63 | appends to the global list and leaves the per-type lists alone |
| Events.EventBus.Emit | src/events.py:65-75 | every registered handler is called once in dispatch order, whatever raises, and the ones that raised are reported |
| Events.EventBus.ClearHandlers | src/events.py:77-80 | both registries are empty |
| Events.ClearedBusDeliversNothing | src/events.py:77-80 | after clearing, no event reaches a handler |
| Events.DefaultBus | src/events.py:83-90 | the module bus has only `log_event_handler`, registered globally |
| Events.DefaultBusLogsEverything | src/events.py:83-90 | on the module bus every event reaches the logging handler and only it |
| Tables.Find | src/repositories.py:24-26 | `session.get` is none iff no row has the id, and otherwise a row with that id |
| Tables.FindOwnId | src/repositories.py:24-26 | in a well-formed table each row is found by its own id |
| Tables.First | src/repositories.py:28-31 | `.first()` is none iff nothing matches, and otherwise a matching row |
| Tables.InsertKeepsWellFormed | src/repositories.py:15-22 | inserting keeps ids and creation instants strictly increasing |
| Tables.LaterKeepsWellFormed | src/repositories.py:15-22 | time moving on keeps a table well formed |
| Tables.Remove | src/repositories.py:48-55 | deleting removes exactly the rows with that id |
| Tables.RemoveKeepsWellFormed | src/repositories.py:48-55 | deleting keeps a table well formed |
| Tables.Replace | src/repositories.py:40-46 | an update changes only the columns of the row with that id |
| Tables.ReplaceKeepsWellFormed | src/repositories.py:40-46 | an update keeps a table well formed |
| Tables.FindAfterReplace | src/repositories.py:40-46 | after an update the row is found with its new columns and its old creation instant |
| Tables.Newest | src/repositories.py:139-147 | the matching rows in reverse insertion order, min(count, limit) of them |
| Tables.NewestIsOrdered | src/repositories.py:139-147 | `order_by(desc(created_at))` holds: each row was created after those that follow it |
| Tables.NewestLeavesOutOlder | src/repositories.py:139-147 | every matching row left out by the limit is older than every row returned |
| Tables.Latest | src/repositories.py:130-137 | none iff nothing matches, and otherwise a matching row |
| Tables.LatestIsNewest | src/repositories.py:130-137 | the latest row is newer than every other matching row |
| Repositories.ReplaceWebsiteKeepsStamped | src/repositories.py:40-46 | a website rewritten with a fresh `updated_at` keeps `created_at < updated_at` |
| Repositories.ReplaceMonitorKeepsStamped | src/repositories.py:98-104 | a monitor rewritten with a fresh `updated_at` keeps `created_at < updated_at` |
| Repositories.Session.constructor | src/repositories.py:12-13 | a session starts with empty tables and ids from 1 |
| Repositories.Session.Now | src/repositories.py:17-18 | reads the instant and ticks the clock, keeping every table |
| Repositories.Session.RewriteWebsite | src/repositories.py:43-45 | replaces that website's columns and keeps the session valid |
| Repositories.Session.RewriteMonitor | src/repositories.py:101-103 | replaces that monitor's columns and keeps the session valid |
| Repositories.WebsiteRepository.constructor | src/repositories.py:12-13 | the repository works on the given session |
| Repositories.WebsiteRepository.Create | src/repositories.py:15-22 | appends the website with a fresh id, `created_at` now and a later `updated_at`; other tables unchanged |
| Repositories.WebsiteRepository.GetById | src/repositories.py:24-26 | none iff no website has the id, otherwise that website |
| Repositories.WebsiteRepository.GetByName | src/repositories.py:28-31 | none iff no website has the name, otherwise a website with it |
| Repositories.WebsiteRepository.GetAll | src/repositories.py:33-38 | exactly the websites, or the active ones when asked; all of them in order when not filtering |
| Repositories.WebsiteRepository.Update | src/repositories.py:40-46 | the row keeps its id and creation instant, takes the new columns with `updated_at` now, and is found again |
| Repositories.WebsiteRepository.Delete | src/repositories.py:48-55 | true iff the website existed; afterwards it is gone and nothing else changed |
| Repositories.MonitorConfigRepository.constructor | src/repositories.py:61-62 | the repository works on the given session |
| Repositories.MonitorConfigRepository.Create | src/repositories.py:64-71 | appends the monitor with a fresh id, `created_at` now and a later `updated_at`; other tables unchanged |
| Repositories.MonitorConfigRepository.GetById | src/repositories.py:73-75 | none iff no monitor has the id, otherwise that monitor |
| Repositories.MonitorConfigRepository.GetByWebsiteAndProduct | src/repositories.py:77-83 | none iff no monitor has that (website, product), otherwise one that does |
| Repositories.MonitorConfigRepository.GetActiveByWebsite | src/repositories.py:85-91 | exactly the active monitors of the website |
| Repositories.MonitorConfigRepository.GetAllActive | src/repositories.py:93-96 | exactly the active monitors |
| Repositories.MonitorConfigRepository.Update | src/repositories.py:98-104 | the row keeps its id and creation instant, takes the new columns with `updated_at` now, and is found again |
| Repositories.MonitorConfigRepository.Delete | src/repositories.py:106-113 | true iff the monitor existed; afterwards it is gone and nothing else changed |
| Repositories.StockRecordRepository.constructor | src/repositories.py:119-120 | the repository works on the given session |
| Repositories.StockRecordRepository.Create | src/repositories.py:122-128 | appends the record with a fresh id stamped now; other tables unchanged |
| Repositories.StockRecordRepository.GetLatestByMonitor | src/repositories.py:130-137 | none iff the monitor has no record; otherwise its record created after all its others |
| Repositories.StockRecordRepository.GetByMonitor | src/repositories.py:139-147 | min(count, limit) of the monitor's records, newest first, leaving out only older ones |
| Repositories.MonitorHistoryRepository.constructor | src/repositories.py:153-154 | the repository works on the given session |
| Repositories.MonitorHistoryRepository.Create | src/repositories.py:156-162 | appends the entry with a fresh id stamped now; other tables unchanged |
| Repositories.MonitorHistoryRepository.GetByMonitor | src/repositories.py:164-172 | min(count, limit) of the monitor's history, newest first, leaving out only older entries |
| Repositories.MonitorHistoryRepository.GetByEventType | src/repositories.py:174-182 | min(count, limit) entries of that event type, newest first, leaving out only older entries |
| Services.WebsiteService.constructor | src/services.py:17-19 | the service and its repository share the session |
| Services.WebsiteService.CreateWebsite | src/services.py:21-43 | fails with `Website with name '<name>' already exists`, changing nothing, iff the name is taken; otherwise appends a website with exactly the given columns and a fresh id |
| Services.WebsiteService.GetWebsite | src/services.py:45-47 | none iff no website has the id, otherwise that website |
| Services.WebsiteService.GetAllWebsites | src/services.py:49-51 | exactly the websites, or the active ones when asked |
| Services.OverwriteGiven | src/services.py:68-79 | each given field replaces the column; an absent one keeps it |
| Services.WebsiteService.UpdateWebsite | src/services.py:53-81 | none, changing nothing, iff the website is missing; otherwise only the given fields change, `updated_at` grows, and the row is found with them |
| Services.WebsiteService.DeleteWebsite | src/services.py:83-85 | true iff the website existed; then exactly the rows with that id are removed, otherwise the table is unchanged; the other tables are untouched |
| Services.AttrNamed | src/services.py:154-155 | a name maps to the settable column called that, every column's own name maps to that column, and a name maps to none iff no column has it |
| Services.SetAttr | src/services.py:156 | `setattr` makes that column read as the value and keeps every other column, `last_checked_at` and `updated_at` |
| Services.AssignAllKeepsOthers | src/services.py:154-156 | a column no argument names keeps its value, and neither `last_checked_at` nor `updated_at` moves |
| Services.AssignAllSets | src/services.py:154-156 | with distinct argument names, a non-none argument for a column ends up in that column |
| Services.UpdateMonitorTouchesOnlyNamed | src/services.py:144-158 | an update leaves every column it does not name unchanged |
| Services.MonitorConfigService.constructor | src/services.py:91-94 | the service's repositories share its session |
| Services.MonitorConfigService.CreateMonitor | src/services.py:96-132 | an unknown website fails with `Website with ID <id> does not exist`, and then a duplicate (website, product) fails with `Monitor for product <p> on website <w> already exists`, each changing nothing; success iff neither holds, appending the given columns with no last check; the (website, product) uniqueness is preserved |
| Services.MonitorConfigService.GetMonitor | src/services.py:134-136 | none iff no monitor has the id, otherwise that monitor |
| Services.MonitorConfigService.GetActiveMonitors | src/services.py:138-142 | exactly the active monitors, of the given website when the id is truthy |
| Services.MonitorConfigService.UpdateMonitor | src/services.py:144-158 | none, changing nothing, iff the monitor is missing; otherwise its columns are the `setattr` loop over the arguments, `updated_at` grows, and the row is found with them |
| Services.MonitorConfigService.DeleteMonitor | src/services.py:160-162 | true iff the monitor existed; then exactly the rows with that id are removed, otherwise the table is unchanged; the other tables are untouched |
| Services.SummaryDict | src/services.py:251-263 | the summary has distinct keys and each of its eleven keys holds its column: the monitor's id, website, product, name, activity, status and last check, and the latest record's quantity, change type and breach flag (null, null and false without one), and the recent-event count |
| Services.SummaryKeysDistinct | src/services.py:251-263 | the eleven summary keys are distinct |
| Services.SummaryMonitorColumns | src/services.py:252-258 | the monitor columns of the summary are read from the monitor |
| Services.SummaryStockColumns | src/services.py:259-262 | the stock columns of the summary are read from the latest record, with their defaults without one |
| Services.MonitoringService.constructor | src/services.py:168-172 | the three repositories share the service's session |
| Services.MonitoringService.RecordStockChange | src/services.py:174-198 | appends a record with exactly the given columns, stamped now; the other tables are unchanged |
| Services.MonitoringService.RecordHistory | src/services.py:200-228 | appends a history entry with exactly the given columns, stamped now; the other tables are unchanged |
| Services.MonitoringService.GetStatusSummary | src/services.py:242-263 | `{}` iff the monitor is missing; otherwise every summary key holds the monitor's column, the latest record's quantity, change type and breach flag, and `recent_events` as min(10, the monitor's history count) |
| Services.MonitoringService.GetLatestStock | src/services.py:230-232 | none iff the monitor has no record; otherwise its newest record |
| Services.MonitoringService.GetStockHistory | src/services.py:234-236 | exactly min(count, limit) of the monitor's records, newest first, leaving out only older ones |
| Services.MonitoringService.GetMonitorHistory | src/services.py:238-240 | exactly min(count, limit) of the monitor's history entries, newest first, leaving out only older ones |

## Left out

- HTTP, the `requests` session, `close` and the context-manager methods are not modelled. A request is the `Network` outcome of each attempt. Exception texts raised inside `requests` are not modelled.
- The wall clock is replaced by logical time. Timestamps and `last_checked_at` are integer instants, not ISO strings, and the `last_updated` field of an inventory is dropped.
- Prices are `float()` in the source. The model reads them as exact decimals. Python's exponents, `inf`, `nan`, surrounding whitespace and underscores, and binary rounding are not modelled.
- `Catalog.NormalizeProduct`, `Catalog.PricingPeriods`: the JSON value type has integers only. A number with a fraction in the payload (`int(12.5)` truncating, or a fractional `price` given as a number rather than a string) is not representable.
- `int()` is modelled for an optional sign followed by decimal digits. Python's surrounding whitespace, underscores and non-ASCII digits are not accepted by the model. `lower()` folds ASCII letters only.
- The retry waits are returned as a list of delays. No sleeping and no `before_sleep` logging is modelled.
- Logging, the scheduler, the web API, configuration and database session setup are outside the modelled core.
- Events that the engine emits are returned as a trace. Delivery to handlers is `Events.EventBus.Emit`, modelled separately.
- `Monitoring.ErrorEvent`: the message is `Whmcs.Message` of the error. For the client's own errors that is `str(e)`. For a builtin exception (a `KeyError` or `ValueError` raised while normalising) it is only the exception's class name, not Python's text of it. The same holds for tenacity's `RetryError`, whose `str()` names the failed attempt's future.
- `Monitoring.RunMonitoringCycle`, `Monitoring.CheckMonitors`: the records and events are stated up to their ids and instants, which follow the database's counter and the clock.
- The engine's database session is its own class. A failure while committing, or any exception other than a failed inventory read, is not modelled.
- Cascades and foreign keys of the service schema are not enforced: deleting a website or monitor through the services leaves dependent rows in place.
- `Repositories.WebsiteRepository.Update`, `Repositories.MonitorConfigRepository.Update`: require the row to exist. The source would insert a detached object, which no caller in the core does.
- `Services.MonitorConfigService.UpdateMonitor`: requires well-typed arguments. The reserved names `id`, `created_at`, `updated_at` and `last_checked_at` may only be passed as none. Each value must have its column's type. A name that is not a column (a relationship, `metadata`, a method: `hasattr` is true for these and the source would call `setattr` on them) is outside the model.
- `Services.WebsiteService.UpdateWebsite`, `Services.MonitorConfigService.UpdateMonitor`: as in the source, they do not re-check name or (website, product) uniqueness.
- `Repositories.StockRecordRepository.GetByMonitor`, `Repositories.MonitorHistoryRepository.GetByMonitor`, `Repositories.MonitorHistoryRepository.GetByEventType`: the limit is a natural number. A negative SQL limit is not modelled.
- The `Website` and `MonitorHistory` tables, and the service-layer monitor columns `website_id`, `status` and `purchase_link`, are not defined in `src/models.py`. Their shapes come from the service constructor calls, as described above.

## Findings

| source | as written | input that shows it | evidently intended | confidence | as-written member | corrected member |
|---|---|---|---|---|---|---|
| src/whmcs_client.py:128-134 | `@retry` without `reraise=True`: once three attempts fail with a retryable error, tenacity raises `RetryError` | three refused connections in a row, as in tests/test_whmcs_client.py:436-449 | the last `WhmcsConnectionError` is raised to the caller | not executed | Whmcs.ExhaustedRetriesRaiseRetryError | Whmcs.RetryReraise |
