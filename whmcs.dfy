/**
 * The pure part of the WHMCS inventory client: the exception taxonomy, the
 * request payload, the deterministic cache key, the classification of one
 * HTTP attempt and the retry policy wrapped around `_make_request`.
 */
module Whmcs {
  import opened Wrappers
  import opened Text
  import opened Json

  /** The client's exceptions, plus the few Python built-ins its code can raise. */
  datatype ClientError =
    | ValidationError(message: string)
    | AuthenticationError(message: string)
    | ApiError(message: string)
    | ConnectionError(message: string)
    | TimeoutError(message: string)
      /** tenacity's RetryError after the last allowed attempt failed with `last` */
    | RetryError(last: ClientError)
      /** a Python built-in exception (ValueError, TypeError, AttributeError) */
    | BuiltinError(typeName: string)

  /** `type(e).__name__`, as the engine reports it in MONITOR_ERROR events. */
  function TypeName(e: ClientError): string {
    match e
    case ValidationError(_) => "WhmcsValidationError"
    case AuthenticationError(_) => "WhmcsAuthenticationError"
    case ApiError(_) => "WhmcsAPIError"
    case ConnectionError(_) => "WhmcsConnectionError"
    case TimeoutError(_) => "WhmcsTimeoutError"
    case RetryError(_) => "RetryError"
    case BuiltinError(name) => name
  }

  /** `str(e)`; the text of exceptions raised inside `requests` is not modelled. */
  function Message(e: ClientError): string {
    match e
    case ValidationError(m) => m
    case AuthenticationError(m) => m
    case ApiError(m) => m
    case ConnectionError(m) => m
    case TimeoutError(m) => m
    case RetryError(_) => "RetryError"
    case BuiltinError(name) => name
  }

  /** The exception kinds tenacity is told to retry. */
  predicate IsRetryable(e: ClientError) {
    e.ConnectionError? || e.TimeoutError?
  }

  // ---------------------------------------------------------------- construction

  /** The constructor's checks, in order; `None` when they all pass. */
  function ValidateSettings(apiUrl: string, apiIdentifier: string, apiSecret: string): (r: Option<ClientError>)
    ensures r.None? <==> apiUrl != "" && apiIdentifier != "" && apiSecret != ""
    ensures apiUrl == "" ==> r == Some(ValidationError("API URL is required"))
    ensures apiUrl != "" && apiIdentifier == "" ==> r == Some(ValidationError("API identifier is required"))
    ensures apiUrl != "" && apiIdentifier != "" && apiSecret == "" ==> r == Some(ValidationError("API secret is required"))
  {
    if apiUrl == "" then Some(ValidationError("API URL is required"))
    else if apiIdentifier == "" then Some(ValidationError("API identifier is required"))
    else if apiSecret == "" then Some(ValidationError("API secret is required"))
    else None
  }

  // ---------------------------------------------------------------- request data

  const FixedFields: set<string> := {"identifier", "secret", "action", "responsetype"}

  /** `_build_request_data`: credentials, action and response type, then the params merged over them. */
  function Credentials(identifier: string, secret: string, action: string): (d: Dict)
    ensures DistinctKeys(d)
    ensures forall k | HasKey(d, k) :: k in FixedFields
    ensures Lookup(d, "identifier") == Some(JStr(identifier))
    ensures Lookup(d, "secret") == Some(JStr(secret))
    ensures Lookup(d, "action") == Some(JStr(action))
    ensures Lookup(d, "responsetype") == Some(JStr("json"))
  {
    var d := [("identifier", JStr(identifier)), ("secret", JStr(secret)),
              ("action", JStr(action)), ("responsetype", JStr("json"))];
    assert d[2].0 == "action" && d[3].0 == "responsetype";
    d
  }

  function BuildRequestData(identifier: string, secret: string, action: string, params: Dict): (r: Dict)
    requires DistinctKeys(params)
    ensures DistinctKeys(r)
    ensures forall k | HasKey(params, k) :: Lookup(r, k) == Lookup(params, k)
    ensures !HasKey(params, "identifier") ==> Lookup(r, "identifier") == Some(JStr(identifier))
    ensures !HasKey(params, "secret") ==> Lookup(r, "secret") == Some(JStr(secret))
    ensures !HasKey(params, "action") ==> Lookup(r, "action") == Some(JStr(action))
    ensures !HasKey(params, "responsetype") ==> Lookup(r, "responsetype") == Some(JStr("json"))
    ensures forall k | !HasKey(params, k) && k !in FixedFields :: !HasKey(r, k)
  {
    Update(Credentials(identifier, secret, action), params)
  }

  // ---------------------------------------------------------------- cache key

  /** The entries are in strictly increasing key order. */
  predicate SortedByKey(s: Dict) {
    forall i, j | 0 <= i < j < |s| :: StrLt(s[i].0, s[j].0)
  }

  /**
   * The cache key: the action together with the request parameters sorted by
   * name (`f"{action}:{sorted(params.items())}"`, or the bare action when there
   * are no parameters).
   */
  datatype CacheKey = CacheKey(action: string, params: Dict)

  lemma SameEntriesSameKeys(a: Dict, b: Dict, k: string)
    requires multiset(a) == multiset(b)
    ensures HasKey(a, k) <==> HasKey(b, k)
  {
    if HasKey(a, k) {
      var i :| 0 <= i < |a| && a[i].0 == k;
      assert a[i] in multiset(b);
      var j :| 0 <= j < |b| && b[j] == a[i];
    }
    if HasKey(b, k) {
      var i :| 0 <= i < |b| && b[i].0 == k;
      assert b[i] in multiset(a);
      var j :| 0 <= j < |a| && a[j] == b[i];
    }
  }

  /** An entry whose key precedes every key of a sorted list can be put in front of it. */
  lemma SortedCons(x: (string, Json), s: Dict)
    requires SortedByKey(s)
    requires forall j | 0 <= j < |s| :: StrLt(x.0, s[j].0)
    ensures SortedByKey([x] + s)
  {
    var r := [x] + s;
    forall i, j | 0 <= i < j < |r|
      ensures StrLt(r[i].0, r[j].0)
    {
      assert r[j] == s[j - 1];
      if i > 0 {
        assert r[i] == s[i - 1];
      }
    }
  }

  /** The tail of a sorted list is sorted, and its head precedes all of it. */
  lemma SortedTail(s: Dict)
    requires SortedByKey(s) && s != []
    ensures SortedByKey(s[1..])
    ensures forall x | x in s[1..] :: StrLt(s[0].0, x.0)
  {
    var t := s[1..];
    forall i, j | 0 <= i < j < |t|
      ensures StrLt(t[i].0, t[j].0)
    {
      assert t[i] == s[i + 1] && t[j] == s[j + 1];
    }
    forall x | x in t
      ensures StrLt(s[0].0, x.0)
    {
      var j :| 0 <= j < |t| && t[j] == x;
      assert s[j + 1] == x;
    }
  }

  /** An entry whose key precedes the first key goes in front. */
  lemma InsertAtHead(e: (string, Json), s: Dict)
    requires SortedByKey(s) && s != [] && StrLt(e.0, s[0].0)
    ensures SortedByKey([e] + s)
  {
    forall j | 1 <= j < |s|
      ensures StrLt(e.0, s[j].0)
    {
      StrLtTransitive(e.0, s[0].0, s[j].0);
    }
    SortedCons(e, s);
  }

  /** An entry inserted into the tail of a list whose head precedes it. */
  lemma InsertAfterHead(e: (string, Json), s: Dict, rest: Dict)
    requires SortedByKey(s) && s != [] && StrLt(s[0].0, e.0)
    requires SortedByKey(rest) && multiset(rest) == multiset(s[1..]) + multiset{e}
    ensures SortedByKey([s[0]] + rest)
    ensures multiset([s[0]] + rest) == multiset(s) + multiset{e}
  {
    SortedTail(s);
    forall j | 0 <= j < |rest|
      ensures StrLt(s[0].0, rest[j].0)
    {
      assert rest[j] in multiset(rest);
    }
    SortedCons(s[0], rest);
    assert s == [s[0]] + s[1..];
  }

  function InsertByKey(e: (string, Json), s: Dict): (r: Dict)
    requires SortedByKey(s) && !HasKey(s, e.0)
    ensures SortedByKey(r)
    ensures multiset(r) == multiset(s) + multiset{e}
  {
    if s == [] then [e]
    else if StrLt(e.0, s[0].0) then
      InsertAtHead(e, s);
      [e] + s
    else
      assert e.0 != s[0].0;
      StrLtTotal(e.0, s[0].0);
      SortedTail(s);
      assert !HasKey(s[1..], e.0) by {
        assert forall i | 0 <= i < |s| - 1 :: s[1..][i] == s[i + 1];
      }
      var rest := InsertByKey(e, s[1..]);
      InsertAfterHead(e, s, rest);
      [s[0]] + rest
  }

  function SortByKey(p: Dict): (r: Dict)
    requires DistinctKeys(p)
    ensures SortedByKey(r)
    ensures multiset(r) == multiset(p)
  {
    if p == [] then []
    else
      var init := p[..|p| - 1];
      var last := p[|p| - 1];
      var sorted := SortByKey(init);
      assert !HasKey(init, last.0);
      SameEntriesSameKeys(sorted, init, last.0);
      assert p == init + [last];
      InsertByKey(last, sorted)
  }

  /** Two strictly sorted lists with the same entries are the same list. */
  lemma {:induction false} SortedUnique(a: Dict, b: Dict)
    requires SortedByKey(a) && SortedByKey(b)
    requires multiset(a) == multiset(b)
    ensures a == b
    decreases |a|
  {
    if a == [] {
      assert |b| == |multiset(b)| == 0;
    } else {
      assert a[0] in multiset(b);
      assert b != [];
      SortedTail(a);
      SortedTail(b);
      if a[0] != b[0] {
        assert b[0] in multiset(a);
        assert a == [a[0]] + a[1..] && b == [b[0]] + b[1..];
        assert b[0] in a[1..] && a[0] in b[1..];
        StrLtTransitive(a[0].0, b[0].0, a[0].0);
        StrLtIrreflexive(a[0].0);
        assert false;
      }
      assert a == [a[0]] + a[1..] && b == [b[0]] + b[1..];
      assert multiset(a[1..]) == multiset(b[1..]) by {
        assert multiset(a) == multiset{a[0]} + multiset(a[1..]);
        assert multiset(b) == multiset{b[0]} + multiset(b[1..]);
        assert multiset(a[1..]) == multiset(a) - multiset{a[0]};
        assert multiset(b[1..]) == multiset(b) - multiset{b[0]};
      }
      SortedUnique(a[1..], b[1..]);
    }
  }

  /** `_get_cache_key`. */
  function GetCacheKey(action: string, params: Dict): (k: CacheKey)
    requires DistinctKeys(params)
    ensures k.action == action
    ensures params == [] ==> k == CacheKey(action, [])
    ensures SortedByKey(k.params) && multiset(k.params) == multiset(params)
  {
    CacheKey(action, SortByKey(params))
  }

  /** Parameter dictionaries with the same entries, in any insertion order, share a cache key. */
  lemma CacheKeyOrderIndependent(action: string, p1: Dict, p2: Dict)
    requires DistinctKeys(p1) && DistinctKeys(p2)
    requires multiset(p1) == multiset(p2)
    ensures GetCacheKey(action, p1) == GetCacheKey(action, p2)
  {
    SortedUnique(GetCacheKey(action, p1).params, GetCacheKey(action, p2).params);
  }

  /** Different actions or different parameter entries give different cache keys. */
  lemma CacheKeyDistinguishes(a1: string, p1: Dict, a2: string, p2: Dict)
    requires DistinctKeys(p1) && DistinctKeys(p2)
    requires GetCacheKey(a1, p1) == GetCacheKey(a2, p2)
    ensures a1 == a2 && multiset(p1) == multiset(p2)
  {
  }

  // ---------------------------------------------------------------- one attempt

  /** What one HTTP POST produced, as seen through `requests`. */
  datatype Transport =
    | TransportTimeout
    | TransportConnectionFailure
    | HttpStatusError(status: int)
    | UnparsableBody
    | Received(body: Json)

  /** The upstream message reports bad credentials. */
  predicate IsAuthMessage(m: string) {
    Contains(Lower(m), "authentication") || Contains(Lower(m), "invalid identifier")
  }

  /** The body of one `_make_request` attempt: its payload, or the exception it raises. */
  function Classify(t: Transport, timeout: int): (r: Result<Json, ClientError>)
    ensures r.Success? ==>
      t.Received? && r.value == t.body && t.body.JObj? && Lookup(t.body.fields, "result") != Some(JStr("error"))
    ensures t.Received? && t.body.JObj? && Lookup(t.body.fields, "result") != Some(JStr("error")) ==>
      r == Success(t.body)
    ensures t.Received? && !t.body.JObj? ==> r == Failure(BuiltinError("AttributeError"))
    ensures t.Received? && t.body.JObj? && Lookup(t.body.fields, "result") == Some(JStr("error")) &&
            !Get(t.body.fields, "message", JStr("Unknown error")).JStr? ==>
      r == Failure(BuiltinError("AttributeError"))
    ensures t.TransportTimeout? ==> r.Failure? && r.error.TimeoutError?
    ensures t.TransportConnectionFailure? ==> r.Failure? && r.error.ConnectionError?
    ensures t.HttpStatusError? || t.UnparsableBody? ==> r.Failure? && r.error.ApiError?
    ensures r.Failure? && IsRetryable(r.error) <==> t.TransportTimeout? || t.TransportConnectionFailure?
    ensures r.Failure? && r.error.AuthenticationError? <==>
      t.Received? && t.body.JObj? && Lookup(t.body.fields, "result") == Some(JStr("error")) &&
      Get(t.body.fields, "message", JStr("Unknown error")).JStr? &&
      IsAuthMessage(Get(t.body.fields, "message", JStr("Unknown error")).s)
  {
    match t
    case TransportTimeout =>
      Failure(TimeoutError("Request timed out after " + ShowInt(timeout) + " seconds"))
    case TransportConnectionFailure =>
      Failure(ConnectionError("Failed to connect to WHMCS API"))
    case HttpStatusError(_) =>
      Failure(ApiError("HTTP error"))
    case UnparsableBody =>
      Failure(ApiError("Invalid JSON response"))
    case Received(body) =>
      if !body.JObj? then Failure(BuiltinError("AttributeError"))
      else if Lookup(body.fields, "result") != Some(JStr("error")) then Success(body)
      else
        match Get(body.fields, "message", JStr("Unknown error"))
        case JStr(m) =>
          if IsAuthMessage(m) then Failure(AuthenticationError("Authentication failed: " + m))
          else Failure(ApiError("WHMCS API error: " + m))
        case _ => Failure(BuiltinError("AttributeError"))
  }

  /** An error payload without an authentication phrase is an API error, never retried. */
  lemma UpstreamErrorIsApiError(fields: Dict, m: string, timeout: int)
    requires Lookup(fields, "result") == Some(JStr("error"))
    requires Lookup(fields, "message") == Some(JStr(m)) && !IsAuthMessage(m)
    ensures Classify(Received(JObj(fields)), timeout) == Failure(ApiError("WHMCS API error: " + m))
  {
  }

  lemma UnknownErrorIsNotAuth()
    ensures !IsAuthMessage("Unknown error")
  {
    var u := "Unknown error";
    var m := Lower(u);
    assert 'a' !in u && 'A' !in u && 'i' !in u && 'I' !in u;
    forall i | 0 <= i <= |m|
      ensures !OccursAt(m, "authentication", i) && !OccursAt(m, "invalid identifier", i)
    {
    }
  }

  /** An error payload without a message is reported as "Unknown error", an API error. */
  lemma MissingMessageIsUnknownError(fields: Dict, timeout: int)
    requires Lookup(fields, "result") == Some(JStr("error"))
    requires !HasKey(fields, "message")
    ensures Classify(Received(JObj(fields)), timeout) == Failure(ApiError("WHMCS API error: " + "Unknown error"))
  {
    UnknownErrorIsNotAuth();
    assert Get(fields, "message", JStr("Unknown error")) == JStr("Unknown error");
  }

  /** The authentication phrase is recognised in any letter case and at any position of the message. */
  lemma AuthPhraseAnywhere(m: string, at: nat)
    requires at + 14 <= |m| && Lower(m[at..at + 14]) == "authentication"
    ensures IsAuthMessage(m)
  {
    var l := Lower(m);
    assert l[at..at + 14] == Lower(m[at..at + 14]);
    assert OccursAt(l, "authentication", at);
  }

  /** The message of the test suite's authentication failure is recognised. */
  lemma AuthFailureRecognised()
    ensures IsAuthMessage("Authentication Failed: Invalid identifier")
  {
    var m := "Authentication Failed: Invalid identifier";
    assert m[0..14] == "Authentication";
    assert Lower("Authentication") == "authentication" by {
      assert Lower("Authentication")[0] == 'a';
    }
    AuthPhraseAnywhere(m, 0);
  }

  // ---------------------------------------------------------------- retry policy

  /** `stop_after_attempt(MAX_RETRIES)`. */
  const MAX_RETRIES: nat := 3

  /** The network as seen by the client: the outcome of attempt `i` for a request payload. */
  type Network = (Dict, nat) -> Transport

  function Attempt(net: Network, data: Dict, timeout: int, i: nat): Result<Json, ClientError> {
    Classify(net(data, i), timeout)
  }

  predicate IsTransient(r: Result<Json, ClientError>) {
    r.Failure? && IsRetryable(r.error)
  }

  /**
   * The outcome of the retry loop started at attempt number `n` (1-based),
   * with the number of the last attempt made.  When the last allowed attempt
   * fails with a retryable error, tenacity raises its own RetryError wrapping
   * that error, unless it is told to `reraise` the error itself.
   */
  function RetryFrom(net: Network, data: Dict, timeout: int, n: nat, reraise: bool): (r: (Result<Json, ClientError>, nat))
    requires 1 <= n <= MAX_RETRIES
    ensures n <= r.1 <= MAX_RETRIES
    ensures forall i | n - 1 <= i < r.1 - 1 :: IsTransient(Attempt(net, data, timeout, i))
    ensures IsTransient(Attempt(net, data, timeout, r.1 - 1)) ==>
      && r.1 == MAX_RETRIES
      && r.0 == Failure(if reraise then Attempt(net, data, timeout, r.1 - 1).error
                        else RetryError(Attempt(net, data, timeout, r.1 - 1).error))
    ensures !IsTransient(Attempt(net, data, timeout, r.1 - 1)) ==> r.0 == Attempt(net, data, timeout, r.1 - 1)
    decreases MAX_RETRIES - n
  {
    var res := Attempt(net, data, timeout, n - 1);
    if IsTransient(res) then
      if n < MAX_RETRIES then RetryFrom(net, data, timeout, n + 1, reraise)
      else (Failure(if reraise then res.error else RetryError(res.error)), n)
    else (res, n)
  }

  /** The decorated `_make_request` as written (no `reraise=True`): its outcome and how many POSTs it made. */
  function Retry(net: Network, data: Dict, timeout: int): (Result<Json, ClientError>, nat) {
    RetryFrom(net, data, timeout, 1, false)
  }

  /**
   * The decorated `_make_request` with `reraise=True`, the behaviour the client's
   * callers and tests rely on: the same attempts as `Retry`, and where `Retry`
   * gives up with a RetryError, the error it wraps is raised instead.
   */
  function RetryReraise(net: Network, data: Dict, timeout: int): (r: (Result<Json, ClientError>, nat))
    ensures r.1 == Retry(net, data, timeout).1
    ensures Retry(net, data, timeout).0.Failure? && Retry(net, data, timeout).0.error.RetryError? ==>
      r.0 == Failure(Retry(net, data, timeout).0.error.last)
    ensures !(Retry(net, data, timeout).0.Failure? && Retry(net, data, timeout).0.error.RetryError?) ==>
      r.0 == Retry(net, data, timeout).0
  {
    ReraiseChangesOnlyExhaustion(net, data, timeout, 1);
    RetryFrom(net, data, timeout, 1, true)
  }

  /** The two policies make the same attempts and differ only in what they raise once the budget is spent. */
  lemma {:induction false} ReraiseChangesOnlyExhaustion(net: Network, data: Dict, timeout: int, n: nat)
    requires 1 <= n <= MAX_RETRIES
    ensures RetryFrom(net, data, timeout, n, true).1 == RetryFrom(net, data, timeout, n, false).1
    ensures var wrapped := RetryFrom(net, data, timeout, n, false).0;
      if wrapped.Failure? && wrapped.error.RetryError? then
        RetryFrom(net, data, timeout, n, true).0 == Failure(wrapped.error.last)
      else RetryFrom(net, data, timeout, n, true).0 == wrapped
    decreases MAX_RETRIES - n
  {
    var res := Attempt(net, data, timeout, n - 1);
    if !IsTransient(res) {
      assert RetryFrom(net, data, timeout, n, true) == (res, n) == RetryFrom(net, data, timeout, n, false);
    } else if n < MAX_RETRIES {
      assert RetryFrom(net, data, timeout, n, true) == RetryFrom(net, data, timeout, n + 1, true);
      assert RetryFrom(net, data, timeout, n, false) == RetryFrom(net, data, timeout, n + 1, false);
      ReraiseChangesOnlyExhaustion(net, data, timeout, n + 1);
    } else {
      assert RetryFrom(net, data, timeout, n, false) == (Failure(RetryError(res.error)), n);
    }
  }

  /** N transient failures (N < MAX_RETRIES) then a success: the payload, after exactly N+1 attempts. */
  lemma SucceedsAfterTransientFailures(net: Network, data: Dict, timeout: int, n: nat, reraise: bool)
    requires n < MAX_RETRIES
    requires forall i | 0 <= i < n :: IsTransient(Attempt(net, data, timeout, i))
    requires Attempt(net, data, timeout, n).Success?
    ensures RetryFrom(net, data, timeout, 1, reraise) == (Attempt(net, data, timeout, n), n + 1)
  {
  }

  /** Authentication and API errors (anything not retryable) end the call after one attempt. */
  lemma TerminalErrorNotRetried(net: Network, data: Dict, timeout: int, reraise: bool)
    requires Attempt(net, data, timeout, 0).Failure?
    requires !IsRetryable(Attempt(net, data, timeout, 0).error)
    ensures RetryFrom(net, data, timeout, 1, reraise) == (Attempt(net, data, timeout, 0), 1)
  {
  }

  /** Three transient failures: tenacity as configured gives up, wrapping the last error. */
  lemma GivesUpAfterMaxAttempts(net: Network, data: Dict, timeout: int)
    requires forall i | 0 <= i < MAX_RETRIES :: IsTransient(Attempt(net, data, timeout, i))
    ensures Retry(net, data, timeout) ==
      (Failure(RetryError(Attempt(net, data, timeout, MAX_RETRIES - 1).error)), MAX_RETRIES)
  {
    var r := Retry(net, data, timeout);
    assert IsTransient(Attempt(net, data, timeout, r.1 - 1));
  }

  /** Three transient failures with `reraise=True`: the last error itself is raised. */
  lemma GivesUpReraisingLastError(net: Network, data: Dict, timeout: int)
    requires forall i | 0 <= i < MAX_RETRIES :: IsTransient(Attempt(net, data, timeout, i))
    ensures RetryReraise(net, data, timeout) == (Attempt(net, data, timeout, MAX_RETRIES - 1), MAX_RETRIES)
  {
    GivesUpAfterMaxAttempts(net, data, timeout);
  }

  /** As configured, a retryable error never escapes unwrapped: the caller sees it only inside RetryError. */
  lemma RetryNeverReturnsRawTransient(net: Network, data: Dict, timeout: int)
    ensures !IsTransient(Retry(net, data, timeout).0)
  {
  }

  /** A server that refuses every connection. */
  function RefusingServer(): Network {
    (data: Dict, i: nat) => TransportConnectionFailure
  }

  /**
   * Three refused connections: as configured the caller gets a RetryError,
   * not the WhmcsConnectionError that the test of exhausted retries expects;
   * with `reraise=True` it gets the WhmcsConnectionError.
   */
  lemma ExhaustedRetriesRaiseRetryError(data: Dict, timeout: int)
    ensures Retry(RefusingServer(), data, timeout).0 == Failure(RetryError(ConnectionError("Failed to connect to WHMCS API")))
    ensures TypeName(Retry(RefusingServer(), data, timeout).0.error) == "RetryError"
    ensures RetryReraise(RefusingServer(), data, timeout).0 == Failure(ConnectionError("Failed to connect to WHMCS API"))
    ensures TypeName(RetryReraise(RefusingServer(), data, timeout).0.error) == "WhmcsConnectionError"
  {
    forall i | 0 <= i < MAX_RETRIES
      ensures Attempt(RefusingServer(), data, timeout, i) == Failure(ConnectionError("Failed to connect to WHMCS API"))
    {
    }
    GivesUpAfterMaxAttempts(RefusingServer(), data, timeout);
    GivesUpReraisingLastError(RefusingServer(), data, timeout);
  }

  function Pow2(n: nat): nat {
    if n == 0 then 1 else 2 * Pow2(n - 1)
  }

  /** `wait_exponential(multiplier=1, min=1, max=10)` before the retry that follows attempt `attemptNumber`. */
  function BackoffDelay(attemptNumber: nat): (d: int)
    ensures 1 <= d <= 10
  {
    var exp := if attemptNumber == 0 then 1 else Pow2(attemptNumber - 1);
    if exp < 1 then 1 else if exp > 10 then 10 else exp
  }
}
