/**
 * The request executor of pkg/client/client.go: client construction with
 * defaults, one HTTP exchange (doRequest), the classification of error
 * responses (parseError) and the retry loop (Do).
 *
 * The network is abstract: attempt k of a call receives net.reply(k), and
 * net.cancelled(k) says whether the caller's context is cancelled while the
 * loop waits before attempt k. Library code the executor calls (JSON
 * decoding, http.StatusText, url.Parse) is a parameter of type Library.
 */
module Client {
  import opened Wrappers
  import opened Decimal

  /** The Ahrefs API v3 base URL, used when the configuration leaves it empty. */
  const BaseURL: string := "https://api.ahrefs.com/v3"
  /** One second as a time.Duration, which counts nanoseconds. */
  const Second: int := 1_000_000_000
  const DefaultTimeout: int := 60 * Second
  const DefaultMaxRetries: int := 3
  const UserAgent: string := "ahrefs-cli/0.1.0"
  /** net/http keys received headers canonically: this is X-API-Units-Consumed. */
  const UnitsHeader: string := "X-Api-Units-Consumed"

  // ---------------------------------------------------------------- data

  /** Caller-supplied settings; a timeout is a time.Duration in nanoseconds. */
  datatype Config = Config(apiKey: string, baseURL: string, timeout: int, maxRetries: int)

  /** A constructed client; the timeout is the one its http.Client uses. */
  datatype Client = Client(baseURL: string, apiKey: string, timeout: int, maxRetries: int)

  /** verb is the HTTP method; params only shape the query string. */
  datatype Request = Request(verb: string, endpoint: string, params: seq<(string, seq<string>)>)

  /** http.Header with canonical keys. */
  type Header = map<string, seq<string>>

  datatype ResponseMeta = ResponseMeta(unitsConsumed: int, rateLimitRemaining: int, responseTimeMs: int)

  datatype Response = Response(statusCode: int, body: string, headers: Header, meta: ResponseMeta)

  datatype APIError = APIError(statusCode: int, code: string, message: string, suggestion: string, docsURL: string)

  /** Go error values the executor produces. */
  datatype Error =
    | Api(api: APIError)
      /** an error known only by its text: errors.New, fmt.Errorf without %w, a library error */
    | Text(message: string)
      /** fmt.Errorf(context + ": %w", inner); None is a nil inner error */
    | Wrapped(context: string, inner: Option<Error>)

  /** The {"error":{"code","message"}} shape an error body may decode to. */
  datatype ErrorBody = ErrorBody(code: string, message: string)

  /** Library behaviour the model does not interpret. */
  datatype Library = Library(
    /** json.Unmarshal of a body into the error shape; None when decoding fails */
    decodeErrorBody: string -> Option<ErrorBody>,
    /** http.StatusText */
    statusText: int -> string,
    /** url.Parse: the error text when it rejects a URL, None when it accepts it */
    urlError: string -> Option<string>)

  /** What one attempt meets on the wire. */
  datatype Attempt =
      /** http.Client.Do failed: no response at all */
    | NoResponse(cause: string)
      /** a response arrived but its body could not be read */
    | BodyUnreadable(cause: string)
      /** a complete response, and the milliseconds the attempt took */
    | Answered(status: int, header: Header, body: string, elapsedMs: int)

  /** The environment of one call to Do. */
  datatype Network = Network(reply: nat -> Attempt, cancelled: nat -> bool, contextError: string)

  /** doRequest's two results: Go's (*Response, error). */
  datatype Exchange = Exchange(resp: Option<Response>, err: Option<Error>)

  /** An exchange as doRequest returns it: without an error, there is a response. */
  type Settled = x: Exchange | x.err.Some? || x.resp.Some? witness Exchange(None, Some(Text("")))

  /** Do's result: a response, or an error and no response. */
  datatype Outcome = Ok(resp: Response) | Err(err: Error)

  /** A call to Do as observed: its outcome, the HTTP attempts it made and the backoffs it waited. */
  datatype Trace = Trace(outcome: Outcome, attempts: nat, waits: seq<int>)

  // ---------------------------------------------------------- NewClient

  function NewClient(cfg: Config): (c: Client)
    ensures c.apiKey == cfg.apiKey
    ensures c.baseURL != "" && c.timeout != 0 && c.maxRetries != 0
    ensures cfg.baseURL != "" ==> c.baseURL == cfg.baseURL
    ensures cfg.baseURL == "" ==> c.baseURL == BaseURL
    ensures cfg.timeout != 0 ==> c.timeout == cfg.timeout
    ensures cfg.timeout == 0 ==> c.timeout == DefaultTimeout
    ensures cfg.maxRetries != 0 ==> c.maxRetries == cfg.maxRetries
    ensures cfg.maxRetries == 0 ==> c.maxRetries == DefaultMaxRetries
  {
    Client(
      if cfg.baseURL == "" then BaseURL else cfg.baseURL,
      cfg.apiKey,
      if cfg.timeout == 0 then DefaultTimeout else cfg.timeout,
      if cfg.maxRetries == 0 then DefaultMaxRetries else cfg.maxRetries)
  }

  /** The settings a client runs with. */
  function ConfigOf(c: Client): Config {
    Config(c.apiKey, c.baseURL, c.timeout, c.maxRetries)
  }

  /** Defaulting is idempotent: a client rebuilt from its own settings is the same client. */
  lemma NewClientIdempotent(cfg: Config)
    ensures NewClient(ConfigOf(NewClient(cfg))) == NewClient(cfg)
  {
  }

  // ------------------------------------------------------------ errors

  /** (*APIError).Error: "API error (<status>): <message>". */
  function APIErrorText(e: APIError): (s: string)
    ensures "API error (" <= s
    ensures |s| >= |e.message| && s[|s| - |e.message|..] == e.message
  {
    "API error (" + FormatInt(e.statusCode) + "): " + e.message
  }

  /** The status code can be read back from the error text. */
  lemma StatusFromAPIErrorText(e: APIError)
    requires Int64Min <= e.statusCode <= Int64Max
    ensures ScanInt(APIErrorText(e)[|"API error ("|..]) == Some(e.statusCode)
  {
    var s := APIErrorText(e);
    assert s[|"API error ("|..] == FormatInt(e.statusCode) + ("): " + e.message);
    ScanFormatInt(e.statusCode, "): " + e.message);
  }

  /** err.Error() for each kind of error. */
  function ErrorText(e: Error): string {
    match e
    case Api(a) => APIErrorText(a)
    case Text(m) => m
    case Wrapped(ctx, Some(inner)) => ctx + ": " + ErrorText(inner)
    case Wrapped(ctx, None) => ctx + ": %!w(<nil>)"
  }

  const AuthSuggestion: string := "Check your API key. Run 'ahrefs config set-key <your-key>' to configure"
  const AuthDocs: string := "https://docs.ahrefs.com/docs/api/reference/api-keys-creation-and-management"
  const RateLimitSuggestion: string := "Rate limit exceeded. Wait before retrying or check your subscription limits"
  const RateLimitDocs: string := "https://docs.ahrefs.com/docs/api/reference/limits-consumption"
  const ValidationSuggestion: string := "Check request parameters. Use --describe flag to see valid options"
  const NotFoundSuggestion: string := "Endpoint or resource not found. Verify the target and endpoint"

  /** The statuses parseError gives a fixed code, suggestion and documentation link. */
  predicate Classified(status: int) {
    status == 400 || status == 401 || status == 403 || status == 404 || status == 429
  }

  /** parseError: the message from the body, then the fixed advice for known statuses. */
  function ParseError(lib: Library, status: int, body: string): (e: APIError)
    ensures e.statusCode == status
    // message selection
    ensures lib.decodeErrorBody(body).Some? && lib.decodeErrorBody(body).value.message != "" ==>
              e.message == lib.decodeErrorBody(body).value.message
    ensures (lib.decodeErrorBody(body).None? || lib.decodeErrorBody(body).value.message == "") ==>
              e.message == (if body != "" then body else lib.statusText(status))
    ensures e.message == "" ==> body == "" && lib.statusText(status) == ""
    // the status table
    ensures status == 401 || status == 403 ==>
              e.code == "AUTH_ERROR" && e.suggestion == AuthSuggestion && e.docsURL == AuthDocs
    ensures status == 429 ==>
              e.code == "RATE_LIMIT_ERROR" && e.suggestion == RateLimitSuggestion && e.docsURL == RateLimitDocs
    ensures status == 400 ==> e.code == "VALIDATION_ERROR" && e.suggestion == ValidationSuggestion && e.docsURL == ""
    ensures status == 404 ==> e.code == "NOT_FOUND" && e.suggestion == NotFoundSuggestion && e.docsURL == ""
    ensures Classified(status) <==> e.suggestion != ""
    ensures !Classified(status) ==> e.suggestion == "" && e.docsURL == ""
    ensures !Classified(status) ==>
              e.code == (if lib.decodeErrorBody(body).Some? && lib.decodeErrorBody(body).value.message != ""
                         then lib.decodeErrorBody(body).value.code else "")
  {
    var decoded := lib.decodeErrorBody(body);
    var fromBody := decoded.Some? && decoded.value.message != "";
    var code := if fromBody then decoded.value.code else "";
    var message := if fromBody then decoded.value.message
                   else if |body| == 0 then lib.statusText(status) else body;
    if status == 401 || status == 403 then APIError(status, "AUTH_ERROR", message, AuthSuggestion, AuthDocs)
    else if status == 429 then APIError(status, "RATE_LIMIT_ERROR", message, RateLimitSuggestion, RateLimitDocs)
    else if status == 400 then APIError(status, "VALIDATION_ERROR", message, ValidationSuggestion, "")
    else if status == 404 then APIError(status, "NOT_FOUND", message, NotFoundSuggestion, "")
    else APIError(status, code, message, "", "")
  }

  /** For a classified status the code depends on the status alone, never on the body. */
  lemma ClassifiedCodeIgnoresBody(lib: Library, status: int, body1: string, body2: string)
    requires Classified(status)
    ensures ParseError(lib, status, body1).code == ParseError(lib, status, body2).code
    ensures ParseError(lib, status, body1).suggestion == ParseError(lib, status, body2).suggestion
  {
  }

  // --------------------------------------------------------- doRequest

  /** Header.Get: the first value under a key, or "" when there is none. */
  function HeaderGet(h: Header, key: string): (v: string)
    ensures v != "" ==> key in h && |h[key]| > 0 && v == h[key][0]
    ensures key in h && |h[key]| > 0 ==> v == h[key][0]
    ensures key !in h || |h[key]| == 0 ==> v == ""
  {
    if key in h && |h[key]| > 0 then h[key][0] else ""
  }

  /**
   * The headers doRequest sets on every attempt. The model's network answers
   * independently of the request, so DoRequest does not take these headers:
   * this function only records what each request carries.
   */
  function RequestHeaders(c: Client): (h: Header)
    ensures HeaderGet(h, "Authorization") == "Bearer " + c.apiKey
    ensures HeaderGet(h, "Accept") == "application/json"
    ensures HeaderGet(h, "User-Agent") == UserAgent
  {
    map["Authorization" := ["Bearer " + c.apiKey], "Accept" := ["application/json"], "User-Agent" := [UserAgent]]
  }

  /** Units consumed: the header scanned with %d, or 0 when it is missing or does not scan. */
  function UnitsConsumed(h: Header): (n: int)
    ensures HeaderGet(h, UnitsHeader) == "" ==> n == 0
    ensures ScanInt(HeaderGet(h, UnitsHeader)).None? ==> n == 0
    ensures ScanInt(HeaderGet(h, UnitsHeader)).Some? ==> n == ScanInt(HeaderGet(h, UnitsHeader)).value
  {
    var units := HeaderGet(h, UnitsHeader);
    if units != "" then
      match ScanInt(units)
      case Some(v) => v
      case None => 0
    else 0
  }

  /** A units header that carries a number in decimal yields that number. */
  lemma UnitsHeaderRoundTrip(h: Header, n: int)
    requires Int64Min <= n <= Int64Max
    requires HeaderGet(h, UnitsHeader) == FormatInt(n)
    ensures UnitsConsumed(h) == n
  {
    ScanFormatInt(n, "");
    assert FormatInt(n) + "" == FormatInt(n);
  }

  /** A units header holding a number outside the 64-bit range leaves the count at 0. */
  lemma UnitsOutOfRange(h: Header, ds: string, t: string)
    requires ds != [] && AllDigits(ds)
    requires t == [] || !IsDigit(t[0])
    requires || (HeaderGet(h, UnitsHeader) == ds + t && ValueOf(ds) > Int64Max)
             || (HeaderGet(h, UnitsHeader) == "-" + ds + t && -(ValueOf(ds) as int) < Int64Min)
    ensures UnitsConsumed(h) == 0
  {
    if HeaderGet(h, UnitsHeader) == ds + t && ValueOf(ds) > Int64Max {
      ScanOutOfRange(ds, t);
    } else {
      ScanNegativeOutOfRange(ds, t);
    }
  }

  /** doRequest on what an attempt meets. */
  function DoRequest(lib: Library, a: Attempt): (x: Settled)
    ensures x.resp.None? <==> !a.Answered?
    ensures x.resp.None? ==> x.err.Some? && x.err.value.Wrapped?
    ensures a.Answered? ==>
              && x.resp.value.statusCode == a.status && x.resp.value.body == a.body
              && x.resp.value.headers == a.header
              && x.resp.value.meta.responseTimeMs == a.elapsedMs
              && x.resp.value.meta.unitsConsumed == UnitsConsumed(a.header)
              && x.resp.value.meta.rateLimitRemaining == 0
    ensures a.Answered? ==> (x.err.Some? <==> a.status >= 400)
    ensures a.Answered? && a.status >= 400 ==> x.err == Some(Api(ParseError(lib, a.status, a.body)))
  {
    match a
    case NoResponse(cause) => Exchange(None, Some(Wrapped("HTTP request failed", Some(Text(cause)))))
    case BodyUnreadable(cause) => Exchange(None, Some(Wrapped("failed to read response body", Some(Text(cause)))))
    case Answered(status, header, body, ms) =>
      var resp := Response(status, body, header, ResponseMeta(UnitsConsumed(header), 0, ms));
      if status >= 400 then Exchange(Some(resp), Some(Api(ParseError(lib, status, body))))
      else Exchange(Some(resp), None)
  }

  // ---------------------------------------------------------------- Do

  /** A failed response the loop does not retry: a 4xx other than 429. */
  predicate Permanent(x: Exchange) {
    x.resp.Some? && 400 <= x.resp.value.statusCode < 500 && x.resp.value.statusCode != 429
  }

  /** The error Do returns once the loop ends without a response. */
  function Exhausted(maxRetries: int, last: Option<Error>): (e: Error)
    ensures e.Wrapped? && e.inner == last
    ensures last.Some? ==>
              ErrorText(e) == "request failed after " + FormatInt(maxRetries) + " retries: " + ErrorText(last.value)
  {
    Wrapped("request failed after " + FormatInt(maxRetries) + " retries", last)
  }

  /** The wait before attempt k > 0 is k seconds. */
  function Backoff(attempt: nat): int {
    attempt * Second
  }

  /** What each attempt of Do gets from doRequest. */
  function Exchanges(lib: Library, net: Network): nat -> Settled {
    (k: nat) => DoRequest(lib, net.reply(k))
  }

  /**
   * The retry loop from attempt k on, lastErr being the error of attempt k-1,
   * attempt j getting ex(j): the reference definition Do is proved against.
   */
  function Retry(c: Client, ex: nat -> Settled, net: Network, k: nat, lastErr: Option<Error>): (t: Trace)
    decreases c.maxRetries + 1 - k
  {
    if k > c.maxRetries then Trace(Err(Exhausted(c.maxRetries, lastErr)), 0, [])
    else if k > 0 && net.cancelled(k) then Trace(Err(Text(net.contextError)), 0, [Backoff(k)])
    else
      var wait := if k > 0 then [Backoff(k)] else [];
      var x := ex(k);
      if x.err.None? then Trace(Ok(x.resp.value), 1, wait)
      else if Permanent(x) then Trace(Err(Exhausted(c.maxRetries, x.err)), 1, wait)
      else
        var rest := Retry(c, ex, net, k + 1, x.err);
        Trace(rest.outcome, 1 + rest.attempts, wait + rest.waits)
  }

  /** A whole call of Do: the API key check, the URL check, then the loop. */
  function DoSpec(c: Client, lib: Library, req: Request, net: Network): Trace {
    if c.apiKey == "" then Trace(Err(Text("API key is required")), 0, [])
    else
      match lib.urlError(c.baseURL + req.endpoint)
      case Some(cause) => Trace(Err(Wrapped("invalid endpoint", Some(Text(cause)))), 0, [])
      case None => Retry(c, Exchanges(lib, net), net, 0, None)
  }

  /** Trace t preceded by attempts already made and waits already done. */
  function After(attempts: nat, waits: seq<int>, t: Trace): Trace {
    Trace(t.outcome, attempts + t.attempts, waits + t.waits)
  }

  lemma AfterStep(attempts: nat, before: seq<int>, wait: seq<int>, rest: Trace)
    ensures After(attempts, before, Trace(rest.outcome, 1 + rest.attempts, wait + rest.waits))
            == After(attempts + 1, before + wait, rest)
  {
    assert before + (wait + rest.waits) == (before + wait) + rest.waits;
  }

  /** Do: the API key check, URL building, then attempts with backoff until one gets a response. */
  method Do(c: Client, lib: Library, req: Request, net: Network) returns (outcome: Outcome, attempts: nat, waits: seq<int>)
    ensures c.apiKey == "" ==> outcome == Err(Text("API key is required")) && attempts == 0 && waits == []
    ensures Trace(outcome, attempts, waits) == DoSpec(c, lib, req, net)
  {
    attempts, waits := 0, [];
    if c.apiKey == "" {
      return Err(Text("API key is required")), attempts, waits;
    }
    var urlError := lib.urlError(c.baseURL + req.endpoint);
    if urlError.Some? {
      return Err(Wrapped("invalid endpoint", Some(Text(urlError.value)))), attempts, waits;
    }

    var lastErr: Option<Error> := None;
    var attempt: nat := 0;
    ghost var ex := Exchanges(lib, net);
    while attempt <= c.maxRetries
      invariant attempts == attempt
      invariant DoSpec(c, lib, req, net) == After(attempts, waits, Retry(c, ex, net, attempt, lastErr))
      decreases c.maxRetries + 1 - attempt
    {
      ghost var before := waits;
      ghost var wait := if attempt > 0 then [Backoff(attempt)] else [];
      if attempt > 0 {
        var backoff := Backoff(attempt);
        waits := waits + [backoff];
        if net.cancelled(attempt) {
          assert Retry(c, ex, net, attempt, lastErr) == Trace(Err(Text(net.contextError)), 0, [Backoff(attempt)]);
          return Err(Text(net.contextError)), attempts, waits;
        }
      }
      assert waits == before + wait;

      var x := DoRequest(lib, net.reply(attempt));
      assert x == ex(attempt);
      attempts := attempts + 1;
      if x.err.None? {
        assert Retry(c, ex, net, attempt, lastErr) == Trace(Ok(x.resp.value), 1, wait);
        return Ok(x.resp.value), attempts, waits;
      }

      ghost var previous := lastErr;
      lastErr := x.err;

      if Permanent(x) {
        assert Retry(c, ex, net, attempt, previous) == Trace(Err(Exhausted(c.maxRetries, x.err)), 1, wait);
        assert DoSpec(c, lib, req, net) == Trace(Err(Exhausted(c.maxRetries, lastErr)), attempts, waits);
        return Err(Exhausted(c.maxRetries, lastErr)), attempts, waits;
      }
      ghost var rest := Retry(c, ex, net, attempt + 1, x.err);
      assert Retry(c, ex, net, attempt, previous) == Trace(rest.outcome, 1 + rest.attempts, wait + rest.waits);
      AfterStep(attempts - 1, before, wait, rest);
      attempt := attempt + 1;
    }

    outcome := Err(Exhausted(c.maxRetries, lastErr));
  }

  // ------------------------------------------------- properties of Do

  /** Attempt k was made (the wait before it was not cancelled) and asks for another. */
  predicate Proceeds(ex: nat -> Settled, net: Network, k: nat) {
    !(k > 0 && net.cancelled(k)) && ex(k).err.Some? && !Permanent(ex(k))
  }

  /**
   * Which failures the loop retries: no answer, an unreadable body, a 429
   * and any 5xx all fail without being permanent; any other 4xx is permanent.
   */
  lemma RetriedFailures(lib: Library, a: Attempt)
    ensures a.NoResponse? || a.BodyUnreadable? || (a.Answered? && (a.status == 429 || a.status >= 500)) ==>
              DoRequest(lib, a).err.Some? && !Permanent(DoRequest(lib, a))
    ensures a.Answered? && 400 <= a.status < 500 && a.status != 429 ==>
              DoRequest(lib, a).err.Some? && Permanent(DoRequest(lib, a))
    ensures a.Answered? && a.status < 400 ==> DoRequest(lib, a).err.None?
  {
  }

  /** The backoffs waited before attempts k .. n-1; attempt 0 has none. */
  function Waits(k: nat, n: nat): seq<int>
    requires k <= n
    decreases n - k
  {
    if k == n then [] else (if k > 0 then [Backoff(k)] else []) + Waits(k + 1, n)
  }

  /** The backoff schedule of n waits: 1s, 2s, ..., n s. */
  function Schedule(n: nat): (s: seq<int>)
    ensures |s| == n
  {
    seq(n, i => (i + 1) * Second)
  }

  lemma {:induction false} WaitsFrom(k: nat, n: nat)
    requires 1 <= k <= n
    ensures |Waits(k, n)| == n - k
    ensures forall i :: 0 <= i < n - k ==> Waits(k, n)[i] == (k + i) * Second
    decreases n - k
  {
    if k < n {
      WaitsFrom(k + 1, n);
    }
  }

  /** Attempts 0 .. n wait 1, 2, ..., n seconds between them. */
  lemma {:induction false} WaitsAreSchedule(n: nat)
    ensures Waits(0, n + 1) == Schedule(n)
  {
    assert Waits(0, n + 1) == Waits(1, n + 1);
    WaitsFrom(1, n + 1);
  }

  /** The error the loop carries into attempt n after attempts k .. n-1. */
  function LastError(ex: nat -> Settled, k: nat, n: nat, e: Option<Error>): Option<Error> {
    if n > k then ex(n - 1).err else e
  }

  /** Attempts k .. n-1 that all ask for another leave the loop at attempt n. */
  lemma {:induction false} RetryUnrolls(c: Client, ex: nat -> Settled, net: Network, k: nat, n: nat, e: Option<Error>)
    requires k <= n <= c.maxRetries + 1
    requires forall j :: k <= j < n ==> Proceeds(ex, net, j)
    ensures Retry(c, ex, net, k, e) == After(n - k, Waits(k, n), Retry(c, ex, net, n, LastError(ex, k, n, e)))
    decreases n - k
  {
    if k < n {
      var wait := if k > 0 then [Backoff(k)] else [];
      var rest := Retry(c, ex, net, k + 1, ex(k).err);
      var last := Retry(c, ex, net, n, LastError(ex, k, n, e));
      var later := Waits(k + 1, n);
      assert Retry(c, ex, net, k, e) == Trace(rest.outcome, 1 + rest.attempts, wait + rest.waits) by {
        assert Proceeds(ex, net, k);
      }
      assert rest == After(n - k - 1, later, last) by {
        RetryUnrolls(c, ex, net, k + 1, n, ex(k).err);
        assert LastError(ex, k + 1, n, ex(k).err) == LastError(ex, k, n, e);
      }
      assert wait + rest.waits == Waits(k, n) + last.waits by {
        assert Waits(k, n) == wait + later;
        assert rest.waits == later + last.waits;
        assert wait + (later + last.waits) == (wait + later) + last.waits;
      }
    }
  }

  /** Do reaches attempt n having made n attempts and waited the schedule's first n - 1 backoffs. */
  lemma ReachesAttempt(c: Client, lib: Library, req: Request, net: Network, n: nat)
    requires c.apiKey != "" && lib.urlError(c.baseURL + req.endpoint).None?
    requires n <= c.maxRetries
    requires forall j :: 0 <= j < n ==> Proceeds(Exchanges(lib, net), net, j)
    ensures DoSpec(c, lib, req, net) ==
              After(n, Waits(0, n), Retry(c, Exchanges(lib, net), net, n, LastError(Exchanges(lib, net), 0, n, None)))
    ensures Waits(0, n) + (if n > 0 then [Backoff(n)] else []) == Schedule(n)
  {
    RetryUnrolls(c, Exchanges(lib, net), net, 0, n, None);
    ScheduleGrows(n);
  }

  /** The waits before attempt n, followed by the backoff before it, are the schedule's first n entries. */
  lemma ScheduleGrows(n: nat)
    ensures Waits(0, n) + (if n > 0 then [Backoff(n)] else []) == Schedule(n)
  {
    if n > 0 {
      WaitsAreSchedule(n - 1);
      assert Waits(0, n) == Schedule(n - 1);
      assert Schedule(n - 1) + [Backoff(n)] == Schedule(n);
    } else {
      assert Waits(0, 0) == [];
    }
  }

  /**
   * When attempts 0 .. n-1 all ask for another and attempt n gets a response
   * below 400, Do returns that response after exactly n + 1 attempts, having
   * waited 1s, ..., n s.
   */
  lemma StopsAtFirstSuccess(c: Client, lib: Library, req: Request, net: Network, n: nat)
    requires c.apiKey != "" && lib.urlError(c.baseURL + req.endpoint).None?
    requires n <= c.maxRetries
    requires forall j :: 0 <= j < n ==> Proceeds(Exchanges(lib, net), net, j)
    requires !(n > 0 && net.cancelled(n))
    requires DoRequest(lib, net.reply(n)).err.None?
    ensures DoSpec(c, lib, req, net) == Trace(Ok(DoRequest(lib, net.reply(n)).resp.value), n + 1, Schedule(n))
  {
    ReachesAttempt(c, lib, req, net, n);
  }

  /**
   * A 4xx other than 429 ends the loop: Do fails after exactly n + 1
   * attempts, wrapping that attempt's API error.
   */
  lemma StopsOnClientError(c: Client, lib: Library, req: Request, net: Network, n: nat)
    requires c.apiKey != "" && lib.urlError(c.baseURL + req.endpoint).None?
    requires n <= c.maxRetries
    requires forall j :: 0 <= j < n ==> Proceeds(Exchanges(lib, net), net, j)
    requires !(n > 0 && net.cancelled(n))
    requires Permanent(DoRequest(lib, net.reply(n)))
    ensures DoSpec(c, lib, req, net) ==
              Trace(Err(Exhausted(c.maxRetries, DoRequest(lib, net.reply(n)).err)), n + 1, Schedule(n))
    ensures DoSpec(c, lib, req, net).outcome.err.inner.value.Api?
  {
    ReachesAttempt(c, lib, req, net, n);
  }

  /** Cancellation during the wait before attempt n returns the context's error at once. */
  lemma CancelledDuringBackoff(c: Client, lib: Library, req: Request, net: Network, n: nat)
    requires c.apiKey != "" && lib.urlError(c.baseURL + req.endpoint).None?
    requires 0 < n <= c.maxRetries
    requires forall j :: 0 <= j < n ==> Proceeds(Exchanges(lib, net), net, j)
    requires net.cancelled(n)
    ensures DoSpec(c, lib, req, net) == Trace(Err(Text(net.contextError)), n, Schedule(n))
  {
    RetryUnrolls(c, Exchanges(lib, net), net, 0, n, None);
    WaitsAreSchedule(n - 1);
    assert Schedule(n - 1) + [Backoff(n)] == Schedule(n);
  }

  /**
   * When every attempt asks for another, Do makes maxRetries + 1 attempts and
   * fails with an error that wraps the last attempt's error.
   */
  lemma ExhaustsRetries(c: Client, lib: Library, req: Request, net: Network)
    requires c.apiKey != "" && lib.urlError(c.baseURL + req.endpoint).None?
    requires c.maxRetries >= 0
    requires forall j :: 0 <= j <= c.maxRetries ==> Proceeds(Exchanges(lib, net), net, j)
    ensures DoSpec(c, lib, req, net) ==
              Trace(Err(Exhausted(c.maxRetries, DoRequest(lib, net.reply(c.maxRetries)).err)),
                    c.maxRetries + 1, Schedule(c.maxRetries))
  {
    RetryUnrolls(c, Exchanges(lib, net), net, 0, c.maxRetries + 1, None);
    WaitsAreSchedule(c.maxRetries);
  }

  lemma {:induction false} RetryAttemptsBound(c: Client, ex: nat -> Settled, net: Network, k: nat, e: Option<Error>)
    requires k <= c.maxRetries + 1
    ensures Retry(c, ex, net, k, e).attempts <= c.maxRetries + 1 - k
    decreases c.maxRetries + 1 - k
  {
    if k <= c.maxRetries && Proceeds(ex, net, k) {
      RetryAttemptsBound(c, ex, net, k + 1, ex(k).err);
    }
  }

  /** Do never makes more than maxRetries + 1 attempts, and none when maxRetries is negative. */
  lemma AttemptsBounded(c: Client, lib: Library, req: Request, net: Network)
    ensures DoSpec(c, lib, req, net).attempts <= (if c.maxRetries >= 0 then c.maxRetries + 1 else 0)
  {
    if c.maxRetries >= 0 {
      RetryAttemptsBound(c, Exchanges(lib, net), net, 0, None);
    }
  }

  lemma {:induction false} RetryErrorIsWrapped(c: Client, ex: nat -> Settled, net: Network, k: nat, e: Option<Error>)
    ensures Retry(c, ex, net, k, e).outcome.Err? ==> !Retry(c, ex, net, k, e).outcome.err.Api?
    decreases c.maxRetries + 1 - k
  {
    if k <= c.maxRetries && Proceeds(ex, net, k) {
      RetryErrorIsWrapped(c, ex, net, k + 1, ex(k).err);
    }
  }

  /** Do never returns a bare *APIError: an API failure always reaches the caller wrapped. */
  lemma DoErrorIsNeverBareAPIError(c: Client, lib: Library, req: Request, net: Network)
    ensures DoSpec(c, lib, req, net).outcome.Err? ==> !DoSpec(c, lib, req, net).outcome.err.Api?
  {
    RetryErrorIsWrapped(c, Exchanges(lib, net), net, 0, None);
  }

  lemma {:induction false} RetrySuccessIsAnExchange(c: Client, ex: nat -> Settled, net: Network, k: nat, e: Option<Error>)
    ensures var t := Retry(c, ex, net, k, e);
            t.outcome.Ok? ==> exists j: nat :: k <= j && ex(j).err.None? && ex(j).resp == Some(t.outcome.resp)
    decreases c.maxRetries + 1 - k
  {
    if k <= c.maxRetries && Proceeds(ex, net, k) {
      RetrySuccessIsAnExchange(c, ex, net, k + 1, ex(k).err);
    }
  }

  /**
   * A response Do returns is one the server answered with a status below
   * 400, and its meta never carries a remaining rate limit: doRequest
   * never sets that field.
   */
  lemma DoSuccessIsAnswered(c: Client, lib: Library, req: Request, net: Network)
    requires DoSpec(c, lib, req, net).outcome.Ok?
    ensures var r := DoSpec(c, lib, req, net).outcome.resp;
            r.statusCode < 400 && r.meta.rateLimitRemaining == 0
  {
    var ex := Exchanges(lib, net);
    var r := DoSpec(c, lib, req, net).outcome.resp;
    RetrySuccessIsAnExchange(c, ex, net, 0, None);
    var j: nat :| ex(j).err.None? && ex(j).resp == Some(r);
    var a := net.reply(j);
    assert ex(j) == DoRequest(lib, a);
  }

  /** Two 500s then a 200, with maxRetries 3: exactly three attempts and the 200 response. */
  lemma TwoServerErrorsThenSuccess(c: Client, lib: Library, req: Request, net: Network)
    requires c.apiKey != "" && lib.urlError(c.baseURL + req.endpoint).None?
    requires c.maxRetries == 3
    requires !net.cancelled(1) && !net.cancelled(2)
    requires net.reply(0).Answered? && net.reply(0).status == 500
    requires net.reply(1).Answered? && net.reply(1).status == 500
    requires net.reply(2).Answered? && net.reply(2).status == 200
    ensures DoSpec(c, lib, req, net).attempts == 3
    ensures DoSpec(c, lib, req, net).outcome.Ok? && DoSpec(c, lib, req, net).outcome.resp.statusCode == 200
  {
    var ex := Exchanges(lib, net);
    forall j | 0 <= j < 2
      ensures Proceeds(ex, net, j)
    {
      RetriedFailures(lib, net.reply(j));
      assert ex(j) == DoRequest(lib, net.reply(j));
    }
    assert DoRequest(lib, net.reply(2)).err.None? by {
      RetriedFailures(lib, net.reply(2));
    }
    StopsAtFirstSuccess(c, lib, req, net, 2);
  }

  /**
   * With maxRetries 3, the exhausted-retries error (after three retried 503s,
   * say) reads "request failed after 3 retries: " and then the last error.
   */
  lemma ThreeRetriesText(last: Error)
    ensures "request failed after 3 retries: " <= ErrorText(Exhausted(3, Some(last)))
  {
    FormatDigit(3);
    var prefix := "request failed after 3 retries: ";
    assert ErrorText(Exhausted(3, Some(last))) == prefix + ErrorText(last);
    assert prefix <= prefix + ErrorText(last);
  }

  /**
   * A 400 on the first attempt: one attempt, no wait, and an error whose text
   * still speaks of maxRetries retries.
   */
  lemma FirstAttemptBadRequest(c: Client, lib: Library, req: Request, net: Network)
    requires c.apiKey != "" && lib.urlError(c.baseURL + req.endpoint).None?
    requires c.maxRetries == 3
    requires net.reply(0).Answered? && net.reply(0).status == 400
    ensures DoSpec(c, lib, req, net).attempts == 1 && DoSpec(c, lib, req, net).waits == []
    ensures DoSpec(c, lib, req, net).outcome.Err?
    ensures "request failed after 3 retries: " <= ErrorText(DoSpec(c, lib, req, net).outcome.err)
  {
    var x := DoRequest(lib, net.reply(0));
    assert Permanent(x) && x.err.Some?;
    assert DoSpec(c, lib, req, net) == Trace(Err(Exhausted(3, x.err)), 1, Schedule(0)) by {
      StopsOnClientError(c, lib, req, net, 0);
    }
    ThreeRetriesText(x.err.value);
  }

  /** A negative maxRetries, which NewClient keeps, makes no attempt at all. */
  lemma NegativeMaxRetriesMakesNoAttempt(c: Client, lib: Library, req: Request, net: Network)
    requires c.apiKey != "" && lib.urlError(c.baseURL + req.endpoint).None?
    requires c.maxRetries < 0
    ensures DoSpec(c, lib, req, net) == Trace(Err(Exhausted(c.maxRetries, None)), 0, [])
  {
  }
}
