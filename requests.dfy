/**
 * Model of challenge/utils/requests/requests_utils.py: `get`, one HTTP GET with
 * a bounded retry on client (transport) errors.
 *
 * The network is abstracted as a `Transport`: the outcome of the request made
 * while the retry counter holds a given value. The 0.5-second sleeps and the
 * requests are not performed, only counted.
 */
module Requests {
  import opened Wrappers

  /** The number of retries allowed after the first request. */
  const MAX_RETRIES: int := 3

  /** A parsed JSON document, as `r.json()` returns it (numbers are modelled as integers). */
  datatype Json =
    | JNull
    | JBool(b: bool)
    | JNumber(n: int)
    | JString(s: string)
    | JArray(items: seq<Json>)
    | JObject(members: map<string, Json>)

  /** Python truthiness of a value `get` returns: `None` (and JSON null) is false, empty values are false. */
  predicate IsTruthy(v: Option<Json>)
  {
    match v
    case None => false
    case Some(j) =>
      match j
      case JNull => false
      case JBool(b) => b
      case JNumber(n) => n != 0
      case JString(s) => s != ""
      case JArray(items) => items != []
      case JObject(members) => members != map[]
  }

  /**
   * What one request does: a response whose body parses to the JSON value, an
   * `aiohttp.ClientError`, or any other exception.
   */
  datatype Outcome = Ok(body: Json) | ClientError | OtherError

  /** The outcome of the request made while the retry counter holds the argument. */
  type Transport = int -> Outcome

  /** What a call of `get` returns, with the number of requests it made and of sleeps it took. */
  datatype FetchResult = FetchResult(value: Option<Json>, requests: nat, sleeps: nat)

  /** The largest number of requests one call can make when it starts from `retries`. */
  function MaxRequests(retries: int): nat
  {
    if retries < MAX_RETRIES then MAX_RETRIES - retries + 1 else 1
  }

  /**
   * `get(url, session, retries)`. All requests but the last one of a call
   * failed with a client error. The call returns the last request's body when
   * it succeeded and `None` otherwise. Every client error is followed by one
   * sleep. It stops after a client error only once the counter has reached
   * MAX_RETRIES, so it makes at most `MaxRequests(retries)` requests. Nothing
   * is raised to the caller.
   */
  function Get(transport: Transport, retries: int): (r: FetchResult)
    ensures 1 <= r.requests <= MaxRequests(retries)
    ensures forall k :: retries <= k < retries + r.requests - 1 ==> transport(k) == ClientError
    ensures var last := transport(retries + r.requests - 1);
      && r.value == (if last.Ok? then Some(last.body) else None)
      && r.sleeps == r.requests - 1 + (if last.ClientError? then 1 else 0)
      && (last.ClientError? ==> retries + r.requests - 1 >= MAX_RETRIES)
    decreases if retries < MAX_RETRIES then MAX_RETRIES - retries else 0
  {
    match transport(retries)
    case Ok(body) => FetchResult(Some(body), 1, 0)
    case ClientError =>
      // the sleep comes before the bound check
      if retries < MAX_RETRIES then
        var rest := Get(transport, retries + 1);
        FetchResult(rest.value, rest.requests + 1, rest.sleeps + 1)
      else
        FetchResult(None, 1, 1)
    case OtherError => FetchResult(None, 1, 0)
  }

  /** A first request that succeeds returns its body after one request and no sleep. */
  lemma FirstRequestSucceeds(transport: Transport, retries: int)
    requires transport(retries).Ok?
    ensures Get(transport, retries) == FetchResult(Some(transport(retries).body), 1, 0)
  {
  }

  /**
   * A client error below the bound costs one sleep and one more request, made
   * with the counter one higher.
   */
  lemma ClientErrorRetriesOnce(transport: Transport, retries: int)
    requires transport(retries) == ClientError && retries < MAX_RETRIES
    ensures var rest := Get(transport, retries + 1);
      Get(transport, retries) == FetchResult(rest.value, rest.requests + 1, rest.sleeps + 1)
  {
  }

  /** Any other exception gives up at once: `None`, one request, no sleep, no retry. */
  lemma OtherErrorGivesUp(transport: Transport, retries: int)
    requires transport(retries) == OtherError
    ensures Get(transport, retries) == FetchResult(None, 1, 0)
  {
  }

  /**
   * `k` client errors followed by a success, with the counter staying within
   * the bound: the success's body after `k + 1` requests and `k` sleeps.
   */
  lemma SucceedsAfterClientErrors(transport: Transport, retries: int, k: nat)
    requires retries + k <= MAX_RETRIES
    requires forall j :: retries <= j < retries + k ==> transport(j) == ClientError
    requires transport(retries + k).Ok?
    ensures Get(transport, retries) == FetchResult(Some(transport(retries + k).body), k + 1, k)
  {
    // follows from the contract of Get alone
  }

  /**
   * Client errors on every request up to the bound: `None` after
   * `MAX_RETRIES - retries + 1` requests and as many sleeps.
   */
  lemma ClientErrorsExhaustRetries(transport: Transport, retries: int)
    requires retries <= MAX_RETRIES
    requires forall j :: retries <= j <= MAX_RETRIES ==> transport(j) == ClientError
    ensures Get(transport, retries) ==
      FetchResult(None, MAX_RETRIES - retries + 1, MAX_RETRIES - retries + 1)
  {
    // follows from the contract of Get alone
  }

  /**
   * From the default counter 0: at most four requests; four client errors in a
   * row give `None` after four requests and four sleeps.
   */
  lemma DefaultCallBounds(transport: Transport)
    ensures Get(transport, 0).requests <= 4
    ensures (forall j :: 0 <= j <= 3 ==> transport(j) == ClientError) ==>
      Get(transport, 0) == FetchResult(None, 4, 4)
  {
    if forall j :: 0 <= j <= 3 ==> transport(j) == ClientError {
      ClientErrorsExhaustRetries(transport, 0);
    }
  }
}
