/** The shared HTTP client of the Apple documentation tools: a GET with retries
    and exponential back-off, and two bounded response caches, one for text and
    one for parsed JSON. The network is a parameter: `network(i)` is what the
    `i`-th attempt of a request gets back. */
module HttpClient {
  import opened Wrappers
  import opened Constants
  import opened OrderedDict

  /** What one attempt gets: a response with its status, body and the text of
      the status error `raise_for_status` would raise, or a transport error. */
  datatype Outcome =
    | Response(status: int, body: string, error: string)
    | RequestError(error: string)

  /** `raise_for_status` passes exactly the 2xx responses. */
  predicate IsSuccess(status: int) {
    200 <= status < 300
  }

  /** A 4xx status other than 429 is not worth retrying. */
  predicate IsClientError(status: int) {
    400 <= status < 500 && status != 429
  }

  /** An outcome that is retried: a transport error, or a failed status that
      is neither 404 nor a client error (so 429, 5xx and the other codes). */
  predicate Transient(o: Outcome) {
    match o
    case Response(status, _, _) => !IsSuccess(status) && status != 404 && !IsClientError(status)
    case RequestError(_) => true
  }

  /** The result an outcome stands for when it ends the request: the body on
      success, the not-found text for 404, the fetch-failed text with the
      error for any other status, and the network text for a transport error. */
  function Verdict(o: Outcome): (r: Result<string, string>)
    ensures r.Success? <==> o.Response? && IsSuccess(o.status)
  {
    match o
    case Response(status, body, error) =>
      if IsSuccess(status) then Success(body)
      else if status == 404 then Failure(NotFound)
      else Failure(FetchFailed + ": " + error)
    case RequestError(error) => Failure(NetworkError + ": " + error)
  }

  function Pow2(n: nat): (r: nat)
    ensures r >= 1
  {
    if n == 0 then 1 else 2 * Pow2(n - 1)
  }

  /** The waits before attempts 1 .. n: `RETRY_DELAY * 2 ** attempt` seconds. */
  function Delays(n: nat): (d: seq<nat>)
    ensures |d| == n
    ensures forall k :: 0 <= k < n ==> d[k] == RetryDelaySeconds * Pow2(k)
  {
    seq(n, k requires 0 <= k < n => RetryDelaySeconds * Pow2(k))
  }

  /** The attempt that ends the request, looking from attempt `i`: the first
      outcome that is not retried, or the last attempt allowed. */
  function Decider(network: nat -> Outcome, i: nat): (n: nat)
    requires i <= Retries
    ensures i <= n <= Retries
    ensures forall k :: i <= k < n ==> Transient(network(k))
    ensures n < Retries ==> !Transient(network(n))
    decreases Retries - i
  {
    if i == Retries || !Transient(network(i)) then i else Decider(network, i + 1)
  }

  /** What a request comes to: its result, how many attempts it made and the
      waits it slept between them. */
  datatype Attempted = Attempted(result: Result<string, string>, attempts: nat, delays: seq<nat>)

  /** `_request_with_retry`. */
  function Retry(network: nat -> Outcome): Attempted {
    var n := Decider(network, 0);
    Attempted(Verdict(network(n)), n + 1, Delays(n))
  }

  /** A request makes between one and `RETRIES + 1` attempts and waits before
      each but the first; every attempt but the last was retried, and the last
      decides the result: success, 404 and client errors end it at once, and a
      retried failure ends it only when the attempts are used up. */
  lemma RetryCorrect(network: nat -> Outcome)
    ensures var a := Retry(network);
            var last := network(a.attempts - 1);
            && 1 <= a.attempts <= Retries + 1
            && (forall k :: 0 <= k < a.attempts - 1 ==> Transient(network(k)))
            && (Transient(last) ==> a.attempts == Retries + 1)
            && a.result == Verdict(last)
            && a.delays == Delays(a.attempts - 1)
  {
  }

  /** A 404 ends the request with the not-found text, and any other 4xx but
      429 with the fetch-failed text, without another attempt. */
  lemma NoRetryOnClientError(network: nat -> Outcome)
    requires network(0).Response? && (network(0).status == 404 || IsClientError(network(0).status))
    ensures Retry(network).attempts == 1
    ensures network(0).status == 404 ==> Retry(network).result == Failure(NotFound)
    ensures network(0).status != 404 ==> Retry(network).result == Failure(FetchFailed + ": " + network(0).error)
  {
  }

  /** When every attempt is retried, all four are made, with waits of 1, 2 and
      4 seconds, and the last failure's kind picks the message. */
  lemma AllAttemptsFail(network: nat -> Outcome)
    requires forall k :: 0 <= k <= Retries ==> Transient(network(k))
    ensures var a := Retry(network);
            && a.attempts == 4
            && a.delays == [1, 2, 4]
            && (network(3).RequestError? ==> a.result == Failure(NetworkError + ": " + network(3).error))
            && (network(3).Response? ==> a.result == Failure(FetchFailed + ": " + network(3).error))
  {
    assert Decider(network, 0) == 3;
    assert Delays(3) == [1, 2, 4];
  }

  /** Decider finds `n` once every attempt before it was retried and `n`
      itself ends the request. */
  lemma {:induction false} DeciderFinds(network: nat -> Outcome, i: nat, n: nat)
    requires i <= n <= Retries
    requires forall k :: i <= k < n ==> Transient(network(k))
    requires n == Retries || !Transient(network(n))
    ensures Decider(network, i) == n
    decreases n - i
  {
    if i < n {
      DeciderFinds(network, i + 1, n);
    }
  }

  /** The loop of `_request_with_retry`. */
  method RequestWithRetry(network: nat -> Outcome) returns (a: Attempted)
    ensures a == Retry(network)
  {
    var delays: seq<nat> := [];
    var last: Option<Outcome> := None;
    for attempt := 0 to Retries + 1
      invariant delays == Delays(if attempt < Retries then attempt else Retries)
      invariant forall k :: 0 <= k < attempt ==> Transient(network(k))
      invariant attempt > 0 ==> last == Some(network(attempt - 1))
    {
      var o := network(attempt);
      if !Transient(o) {
        DeciderFinds(network, 0, attempt);
        return Attempted(Verdict(o), attempt + 1, delays);
      }
      last := Some(o);
      if attempt < Retries {
        assert Delays(attempt) + [RetryDelaySeconds * Pow2(attempt)] == Delays(attempt + 1);
        delays := delays + [RetryDelaySeconds * Pow2(attempt)];
      }
    }
    DeciderFinds(network, 0, Retries);
    // The retries are used up: the message follows the kind of the last failure.
    match last.value {
      case Response(_, _, error) =>
        a := Attempted(Failure(FetchFailed + ": " + error), Retries + 1, delays);
      case RequestError(error) =>
        a := Attempted(Failure(NetworkError + ": " + error), Retries + 1, delays);
    }
  }

  // ---------------------------------------------------------------------------
  // The client and its caches

  /** `HttpClient`, with `J` the type of parsed JSON documents. */
  class Client<J> {
    /** `_text_cache` and `_json_cache`, in insertion order. */
    var textCache: Dict<string, string>
    var jsonCache: Dict<string, J>

    ghost predicate Valid()
      reads this
    {
      && textCache.Valid() && textCache.Size() <= HttpCacheSize
      && jsonCache.Valid() && jsonCache.Size() <= HttpCacheSize
    }

    constructor ()
      ensures Valid()
      ensures textCache.Size() == 0 && jsonCache.Size() == 0
    {
      textCache := Empty();
      jsonCache := Empty();
    }

    /** `get_text`: a cached URL is answered without a request; otherwise the
        text is fetched and, on success, cached after pruning the oldest entry
        of a full cache. */
    method GetText(url: string, network: nat -> Outcome) returns (r: Result<string, string>, requests: nat)
      requires Valid()
      modifies this`textCache
      ensures Valid()
      ensures url in old(textCache.values) ==>
                r == Success(old(textCache.values[url])) && requests == 0 && textCache == old(textCache)
      ensures url !in old(textCache.values) ==>
                var a := Retry(network);
                && r == a.result && requests == a.attempts
                && textCache == (if r.Success? then old(textCache).PruneOldest(HttpCacheSize).Set(url, r.value)
                                 else old(textCache))
      ensures r.Success? ==> textCache.Get(url) == Some(r.value)
    {
      if url in textCache.values {
        return Success(textCache.values[url]), 0;
      }
      var a := RequestWithRetry(network);
      r, requests := a.result, a.attempts;
      if r.Success? {
        PruneThenInsertBounded(textCache, HttpCacheSize, url, r.value);
        textCache := textCache.PruneOldest(HttpCacheSize).Set(url, r.value);
      }
    }

    /** `get_json`: like `get_text`, except that the body is parsed first; a
        body that does not parse gives the parse-failed text and caches nothing. */
    method GetJson(url: string, network: nat -> Outcome, parse: string -> Result<J, string>)
      returns (r: Result<J, string>, requests: nat)
      requires Valid()
      modifies this`jsonCache
      ensures Valid()
      ensures url in old(jsonCache.values) ==>
                r == Success(old(jsonCache.values[url])) && requests == 0 && jsonCache == old(jsonCache)
      ensures url !in old(jsonCache.values) ==>
                var a := Retry(network);
                && requests == a.attempts
                && r == ParsedResponse(a.result, parse)
                && jsonCache == (if r.Success? then old(jsonCache).PruneOldest(HttpCacheSize).Set(url, r.value)
                                 else old(jsonCache))
      ensures r.Success? ==> jsonCache.Get(url) == Some(r.value)
    {
      if url in jsonCache.values {
        return Success(jsonCache.values[url]), 0;
      }
      var a := RequestWithRetry(network);
      requests := a.attempts;
      if a.result.Failure? {
        return Failure(a.result.error), requests;
      }
      match parse(a.result.value) {
        case Failure(e) =>
          r := Failure(ParseFailed + ": " + e);
        case Success(data) =>
          PruneThenInsertBounded(jsonCache, HttpCacheSize, url, data);
          jsonCache := jsonCache.PruneOldest(HttpCacheSize).Set(url, data);
          r := Success(data);
      }
    }

    /** `clear_cache`: both caches end up empty. */
    method ClearCache()
      modifies this
      ensures Valid()
      ensures textCache.Size() == 0 && jsonCache.Size() == 0
    {
      textCache := Empty();
      jsonCache := Empty();
    }
  }

  /** The result of `get_json` on a fetched response: the request's failure,
      the parse-failed text with the parser's error, or the parsed document. */
  function ParsedResponse<J>(fetched: Result<string, string>, parse: string -> Result<J, string>): (r: Result<J, string>)
    ensures r.Success? <==> fetched.Success? && parse(fetched.value).Success?
    ensures fetched.Failure? ==> r == Failure(fetched.error)
  {
    match fetched
    case Failure(e) => Failure(e)
    case Success(body) =>
      match parse(body)
      case Failure(e) => Failure(ParseFailed + ": " + e)
      case Success(data) => Success(data)
  }
}
