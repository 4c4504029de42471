/**
  EsiRequestHandler: sends ESI requests, turns HTTP responses into EsiResults and keeps
  the ESI error budget (the remaining error count and the time it is refreshed).
  The HTTP transport and JSON deserialisation are inputs: a response is a status code,
  header value lists, an ETag, a Date, and content whose parse outcome is given.
*/
module EsiRequestHandler {
  import opened Common
  import opened ExtensionMethods
  import opened EsiCacheInfo
  import opened EsiResult
  import opened EsiEndpoints
  import opened EsiRequestHeaders

  /** Below this many remaining errors the doc comment says requests stop; the code tests `>=`. */
  const ERROR_THRESHOLD: int32 := 8
  /** The refresh time is at most this many seconds after the response was received. */
  const MAX_RESET_SECONDS: int32 := 120
  /** HttpClient's default timeout, 100 seconds. */
  const DEFAULT_TIMEOUT: Time := 100 * TICKS_PER_SECOND

  const ERROR_LIMIT_REMAIN: string := "X-Esi-Error-Limit-Remain"
  const ERROR_LIMIT_RESET: string := "X-Esi-Error-Limit-Reset"
  const X_PAGES: string := "X-Pages"

  // ---------------------------------------------------------------------------------
  // Status codes

  /**
    ToEsiStatusCode: each ESI status and the HTTP codes that map to it; 420, which is not
    a standard code, is the error-limit status, and every unlisted code is Error.
  */
  function ToEsiStatusCode(code: int): (status: EsiResultStatus)
    ensures status == OK <==> code == 200
    ensures status == NoNewData <==> code == 204 || code == 304
    ensures status == ServerError <==> code == 500 || code == 502 || code == 503 || code == 504
    ensures status == NotFoundError <==> code == 404 || code == 410
    ensures status == AccessError <==> code == 401 || code == 403
    ensures status == ErrorCount <==> code == 420
    ensures status != NetworkError
    ensures status == Error <==> code !in {200, 204, 304, 500, 502, 503, 504, 404, 410, 401, 403, 420}
  {
    match code
    case 200 => OK
    case 204 => NoNewData
    case 304 => NoNewData
    case 500 => ServerError
    case 502 => ServerError
    case 503 => ServerError
    case 504 => ServerError
    case 410 => NotFoundError
    case 404 => NotFoundError
    case 403 => AccessError
    case 401 => AccessError
    case _ => if code == 420 then ErrorCount else Error
  }

  // ---------------------------------------------------------------------------------
  // Integer headers

  /** The response headers: each name with its list of values. */
  type Headers = map<string, seq<string>>

  /** A header value counts when, trimmed, it parses as an Int32 that is not negative. */
  function HeaderInt(v: string): (r: Option<int32>)
    ensures r.Some? ==> r.value >= 0
  {
    var parsed := TryParseInt(Some(Trim(v)));
    if parsed.value.0 && parsed.value.1 >= 0 then Some(parsed.value.1) else None
  }

  /**
    The value of the last element of the list that counts, or none; `count` says whether
    and to what an element counts (HeaderInt for GetIntParam).
  */
  function LastValid(vs: seq<string>, count: string -> Option<int32>): Option<int32> {
    if vs == [] then None
    else if count(vs[|vs| - 1]).Some? then count(vs[|vs| - 1])
    else LastValid(vs[..|vs| - 1], count)
  }

  /**
    LastValid is the value of the last counting element: none exactly when no element
    counts, and otherwise the value of an element after which none counts.
  */
  lemma {:induction false} LastValidIsLast(vs: seq<string>, count: string -> Option<int32>)
    ensures LastValid(vs, count).None? <==> forall i :: 0 <= i < |vs| ==> count(vs[i]).None?
    ensures LastValid(vs, count).Some? ==> exists i :: 0 <= i < |vs| && count(vs[i]) == LastValid(vs, count) &&
                                             forall j :: i < j < |vs| ==> count(vs[j]).None?
  {
    LastValidNone(vs, count);
    if LastValid(vs, count).Some? {
      var i := LastValidIndex(vs, count);
    }
  }

  lemma {:induction false} LastValidNone(vs: seq<string>, count: string -> Option<int32>)
    ensures LastValid(vs, count).None? <==> forall i :: 0 <= i < |vs| ==> count(vs[i]).None?
  {
    if vs != [] {
      var n := |vs| - 1;
      LastValidNone(vs[..n], count);
      assert forall i :: 0 <= i < n ==> vs[..n][i] == vs[i];
    }
  }

  /** Where the last counting element is. */
  lemma {:induction false} LastValidIndex(vs: seq<string>, count: string -> Option<int32>) returns (i: int)
    requires LastValid(vs, count).Some?
    ensures 0 <= i < |vs| && count(vs[i]) == LastValid(vs, count)
    ensures forall j :: i < j < |vs| ==> count(vs[j]).None?
  {
    var n := |vs| - 1;
    if count(vs[n]).Some? {
      i := n;
    } else {
      var init := vs[..n];
      i := LastValidIndex(init, count);
      assert vs[i] == init[i];
      forall j | i < j < |vs|
        ensures count(vs[j]).None?
      {
        if j < n {
          assert vs[j] == init[j];
        }
      }
    }
  }

  lemma LastValidSnoc(vs: seq<string>, v: string, count: string -> Option<int32>)
    ensures LastValid(vs + [v], count) == if count(v).Some? then count(v) else LastValid(vs, count)
  {
    assert (vs + [v])[..|vs|] == vs;
  }

  /** GetIntParam as a value: a missing header yields none. */
  function IntParam(headers: Headers, name: string): Option<int32> {
    if name in headers then LastValid(headers[name], HeaderInt) else None
  }

  /** What GetIntParam yields is never negative. */
  lemma IntParamNonNegative(headers: Headers, name: string)
    ensures IntParam(headers, name).Some? ==> IntParam(headers, name).value >= 0
  {
    if name in headers {
      LastValidIsLast(headers[name], HeaderInt);
    }
  }

  /** One more element of a prefix: LastValid takes it when it counts and keeps the old value otherwise. */
  lemma LastValidExtend(vs: seq<string>, i: nat, count: string -> Option<int32>)
    requires i < |vs|
    ensures LastValid(vs[..i + 1], count) == if count(vs[i]).Some? then count(vs[i]) else LastValid(vs[..i], count)
  {
    assert vs[..i + 1] == vs[..i] + [vs[i]];
    LastValidSnoc(vs[..i], vs[i], count);
  }

  /** GetIntParam: scans the header's values in order, keeping the last one that counts. */
  method GetIntParam(headers: Headers, name: string) returns (ret: Option<int32>)
    ensures ret == IntParam(headers, name)
  {
    ret := None;
    if name in headers {
      var values := headers[name];
      for i := 0 to |values|
        invariant ret == LastValid(values[..i], HeaderInt)
      {
        var counted := HeaderInt(values[i]);
        LastValidExtend(values, i, HeaderInt);
        if counted.Some? {
          ret := counted;
        }
      }
      assert values[..|values|] == values;
    }
  }

  // ---------------------------------------------------------------------------------
  // The error budget

  /** The last error count returned and when it is refreshed. */
  datatype ErrorBudget = ErrorBudget(errorCount: int32, refresh: Time)

  /** The budget of a new handler: the threshold itself, refreshed at DateTime.MinValue. */
  function InitialBudget(): (b: ErrorBudget)
    ensures b.errorCount == ERROR_THRESHOLD && b.refresh == MIN_TIME
    ensures forall now :: now > MIN_TIME ==> !ErrorCountExceeded(b, now)
  {
    ErrorBudget(ERROR_THRESHOLD, MIN_TIME)
  }

  /** IsErrorCountExceeded, as written: the count is at least the threshold and the refresh time has not passed. */
  predicate ErrorCountExceeded(b: ErrorBudget, now: Time) {
    b.errorCount >= ERROR_THRESHOLD && b.refresh >= now
  }

  /**
    The block is a window in time: a budget that blocks at some moment blocks at every
    earlier moment, blocks nothing after its refresh time, and a count below the
    threshold blocks nothing at all.
  */
  lemma ErrorWindow(b: ErrorBudget, now: Time, earlier: Time)
    requires earlier <= now
    ensures ErrorCountExceeded(b, now) ==> ErrorCountExceeded(b, earlier)
    ensures now > b.refresh ==> !ErrorCountExceeded(b, now)
    ensures b.errorCount < ERROR_THRESHOLD ==> !ErrorCountExceeded(b, now)
  {
  }

  /**
    The budget after a response's headers: the Remain header, when it yields a value,
    replaces the count; the Reset header, when it yields a value, sets the refresh time to
    that many seconds after reception, at most 120.
  */
  function BudgetAfter(b: ErrorBudget, headers: Headers, received: Time): ErrorBudget {
    var remain := IntParam(headers, ERROR_LIMIT_REMAIN);
    var reset := IntParam(headers, ERROR_LIMIT_RESET);
    ErrorBudget(
      if remain.Some? then remain.value else b.errorCount,
      if reset.Some? then received + Min(reset.value, MAX_RESET_SECONDS) * TICKS_PER_SECOND else b.refresh)
  }

  function Min(a: int, b: int): int {
    if a < b then a else b
  }

  /**
    What a response does to the budget: each field changes only when its header yields a
    value; the count is then non-negative and the refresh time lies within 120 seconds
    after reception.
  */
  lemma BudgetRules(b: ErrorBudget, headers: Headers, received: Time)
    ensures var b' := BudgetAfter(b, headers, received);
      && (IntParam(headers, ERROR_LIMIT_REMAIN).None? ==> b'.errorCount == b.errorCount)
      && (IntParam(headers, ERROR_LIMIT_REMAIN).Some? ==> b'.errorCount == IntParam(headers, ERROR_LIMIT_REMAIN).value >= 0)
      && (IntParam(headers, ERROR_LIMIT_RESET).None? ==> b'.refresh == b.refresh)
      && (IntParam(headers, ERROR_LIMIT_RESET).Some? ==>
            received <= b'.refresh <= received + MAX_RESET_SECONDS * TICKS_PER_SECOND &&
            (b'.refresh - received) % TICKS_PER_SECOND == 0)
  {
    IntParamNonNegative(headers, ERROR_LIMIT_REMAIN);
    IntParamNonNegative(headers, ERROR_LIMIT_RESET);
    var reset := IntParam(headers, ERROR_LIMIT_RESET);
    if reset.Some? {
      var secs := Min(reset.value, MAX_RESET_SECONDS);
      assert (secs * TICKS_PER_SECOND) % TICKS_PER_SECOND == 0;
    }
  }

  /**
    A response that sets both budget headers blocks requests exactly while the count is
    at least the threshold and the clamped refresh time has not passed; in particular it
    blocks nothing more than 120 seconds after reception.
  */
  lemma BudgetWindow(b: ErrorBudget, headers: Headers, received: Time, now: Time)
    requires IntParam(headers, ERROR_LIMIT_REMAIN).Some? && IntParam(headers, ERROR_LIMIT_RESET).Some?
    ensures ErrorCountExceeded(BudgetAfter(b, headers, received), now) <==>
      IntParam(headers, ERROR_LIMIT_REMAIN).value >= ERROR_THRESHOLD &&
      now <= received + Min(IntParam(headers, ERROR_LIMIT_RESET).value, MAX_RESET_SECONDS) * TICKS_PER_SECOND
    ensures now > received + MAX_RESET_SECONDS * TICKS_PER_SECOND ==> !ErrorCountExceeded(BudgetAfter(b, headers, received), now)
  {
    BudgetRules(b, headers, received);
  }

  // ---------------------------------------------------------------------------------
  // Responses

  /** The JSON payload: deserialised (possibly to null), a JsonException, or a read failure. */
  datatype Body<T> = Parsed(value: Option<T>) | JsonError(message: string) | ReadFailed(failure: Exn)

  /** The response content: its Expires header and its body. */
  datatype Content<T> = Content(expires: Option<Time>, body: Body<T>)

  /** An HTTP response as HandleResponseAsync sees it. */
  datatype Response<T> = Response(
    headers: Option<Headers>,
    statusCode: int,
    eTag: Option<string>,
    date: Option<Time>,
    content: Option<Content<T>>)

  /** The X-Pages value, floored at one page. */
  function PageCount(headers: Headers): (pages: int32)
    ensures pages >= 1
    ensures IntParam(headers, X_PAGES).Some? && IntParam(headers, X_PAGES).value >= 1 ==> pages == IntParam(headers, X_PAGES).value
    ensures (IntParam(headers, X_PAGES).None? || IntParam(headers, X_PAGES).value < 1) ==> pages == 1
  {
    var pages := IntParam(headers, X_PAGES).GetOr(0);
    if pages < 1 then 1 else pages
  }

  /**
    HandleResponseAsync as a value, with `received` the time the response was handled and
    `created` the time the result object was made.
  */
  function ResponseOutcome<T>(resp: Response<T>, received: Time, created: Time): Outcome<ResultView<T>> {
    match resp.headers
    case None => Throw(ArgumentNull("headers", NULL_MESSAGE))
    case Some(headers) =>
      var status := ToEsiStatusCode(resp.statusCode);
      if status != OK then Ok(Fresh(status, None, None, created))
      else match resp.content
        case None => Throw(ArgumentNull("content", NULL_MESSAGE))
        case Some(content) =>
          match content.body
          case ReadFailed(e) => Throw(e)
          case JsonError(m) => Ok(Fresh(Error, None, Some(JsonFailure(m)), created))
          case Parsed(v) =>
            Ok(ResultView(OK, v, None, Some(CacheView(resp.eTag.GetOr(""), content.expires.GetOr(received))),
                          PageCount(headers), resp.date.GetOr(created)))
  }

  /**
    The results of a response: a non-OK status gives that status with no payload, no
    exception, no cache info and one page; a parsed OK body gives its payload with the
    ETag (or "") and Expires (or the reception time) as cache info and the floored page
    count; a JsonException gives Error with that exception and no cache info. Only a
    parsed OK body carries cache info, and every result has at least one page.
  */
  lemma ResponseResults<T>(resp: Response<T>, received: Time, created: Time)
    requires resp.headers.Some?
    ensures var r := ResponseOutcome(resp, received, created);
      && (ToEsiStatusCode(resp.statusCode) != OK ==>
            r.Ok? && r.value.status == ToEsiStatusCode(resp.statusCode) && r.value.result.None? &&
            r.value.exception.None? && r.value.cacheInfo.None? && r.value.pages == 1)
      && (r.Ok? ==> r.value.pages >= 1)
      && (r.Ok? ==> (r.value.cacheInfo.Some? <==> r.value.status == OK))
      && (r.Ok? && r.value.status == OK ==>
            r.value.pages == PageCount(resp.headers.value) &&
            r.value.cacheInfo.value == CacheView(resp.eTag.GetOr(""), resp.content.value.expires.GetOr(received)))
      && (r.Ok? && r.value.exception.Some? <==>
            resp.statusCode == 200 && resp.content.Some? && resp.content.value.body.JsonError?)
  {
  }

  /** An OK response raises only for missing content or a failed read; the others never raise. */
  lemma ResponseErrors<T>(resp: Response<T>, received: Time, created: Time)
    ensures var r := ResponseOutcome(resp, received, created);
      r.Throw? <==>
        resp.headers.None? ||
        (resp.statusCode == 200 && (resp.content.None? || resp.content.value.body.ReadFailed?))
  {
  }

  // ---------------------------------------------------------------------------------
  // Queries

  datatype HttpMethod = Get | Post | Put | Delete

  /** What the transport did with the request: a response, or the exception SendAsync raised. */
  datatype Transport<T> = Delivered(response: Response<T>) | SendFailed(failure: Exn)

  /** The exceptions QueryEsiAsync catches: IOException, TimeoutException and OperationCanceledException (with TaskCanceledException). */
  predicate IsNetworkFailure(e: Exn) {
    e.IOFailure? || e.TimeoutFailure? || e.OperationCanceled? || e.TaskCanceled?
  }

  /** The catch clauses: a network failure becomes a NetworkError result carrying it; anything else propagates. */
  function Caught<T>(e: Exn, created: Time): (r: Outcome<ResultView<T>>)
    ensures IsNetworkFailure(e) <==> r.Ok?
    ensures r.Ok? ==> r.value.status == NetworkError && r.value.exception == Some(e) && r.value.result.None?
    ensures r.Throw? ==> r.error == e
  {
    if IsNetworkFailure(e) then Ok(Fresh(NetworkError, None, Some(e), created)) else Throw(e)
  }

  /** The request's settings that GetESIUrlAsync reads. */
  datatype RequestView = RequestView(endpoint: EsiEndpoint, path: Option<string>, dataSource: EsiDataSource,
                                     parameters: seq<(string, string)>)

  function RequestUrl(req: RequestView, language: EsiLanguage, host: string): Outcome<Url> {
    EsiUrl(req.endpoint, req.path, req.dataSource, req.parameters, language, host)
  }

  /**
    The public query methods and QueryEsiAsync as a value: the null checks on the request
    and (for POST and PUT) the content, the URL, the send on a client that may be disposed,
    and the classification of the exceptions raised while sending or handling.
  */
  function QueryOutcome<T>(m: HttpMethod, req: Option<RequestView>, hasContent: bool, language: EsiLanguage,
                           host: string, disposed: bool, send: (HttpMethod, Url) -> Transport<T>,
                           received: Time, created: Time): Outcome<ResultView<T>>
  {
    if req.None? then Throw(ArgumentNull("request", NULL_MESSAGE))
    else if (m == Post || m == Put) && !hasContent then Throw(ArgumentNull("content", NULL_MESSAGE))
    else match RequestUrl(req.value, language, host)
      case Throw(e) => Throw(e)
      case Ok(url) =>
        if disposed then Throw(ObjectDisposed)
        else SentOutcome(send(m, url), received, created)
  }

  /**
    The try block of QueryEsiAsync once the URL is built: a failed send and an exception
    of the response handling both go to the catch clauses.
  */
  function SentOutcome<T>(sent: Transport<T>, received: Time, created: Time): Outcome<ResultView<T>> {
    match sent
    case SendFailed(e) => Caught(e, created)
    case Delivered(resp) =>
      match ResponseOutcome(resp, received, created)
      case Throw(e) => Caught(e, created)
      case Ok(v) => Ok(v)
  }

  /** The response HandleResponseAsync is given, if the query gets that far. */
  function HandledResponse<T>(m: HttpMethod, req: Option<RequestView>, hasContent: bool, language: EsiLanguage,
                              host: string, disposed: bool, send: (HttpMethod, Url) -> Transport<T>): Option<Response<T>>
  {
    if req.None? || ((m == Post || m == Put) && !hasContent) then None
    else match RequestUrl(req.value, language, host)
      case Throw(_) => None
      case Ok(url) =>
        if disposed then None
        else match send(m, url)
          case SendFailed(_) => None
          case Delivered(resp) => Some(resp)
  }

  /**
    A query that stops before sending hands no response to HandleResponseAsync and raises
    the exception of the first check that fails.
  */
  lemma QueryStopsEarly<T>(m: HttpMethod, req: Option<RequestView>, hasContent: bool, language: EsiLanguage,
                           host: string, disposed: bool, send: (HttpMethod, Url) -> Transport<T>,
                           received: Time, created: Time, e: Exn)
    requires e == if req.None? then ArgumentNull("request", NULL_MESSAGE)
                  else if (m == Post || m == Put) && !hasContent then ArgumentNull("content", NULL_MESSAGE)
                  else if RequestUrl(req.value, language, host).Throw? then RequestUrl(req.value, language, host).error
                  else ObjectDisposed
    requires req.Some? && !((m == Post || m == Put) && !hasContent) && RequestUrl(req.value, language, host).Ok? ==> disposed
    ensures HandledResponse(m, req, hasContent, language, host, disposed, send) == None
    ensures QueryOutcome(m, req, hasContent, language, host, disposed, send, received, created) == Throw(e)
  {
  }

  /** Once the URL is built on a live client, the query is the send and, if it delivers, the response handling. */
  lemma QueryAfterUrl<T>(m: HttpMethod, req: RequestView, hasContent: bool, language: EsiLanguage,
                         host: string, disposed: bool, send: (HttpMethod, Url) -> Transport<T>,
                         received: Time, created: Time)
    requires !((m == Post || m == Put) && !hasContent)
    requires RequestUrl(req, language, host).Ok? && !disposed
    ensures var sent := send(m, RequestUrl(req, language, host).value);
      && HandledResponse(m, Some(req), hasContent, language, host, disposed, send)
         == (if sent.Delivered? then Some(sent.response) else None)
      && QueryOutcome(m, Some(req), hasContent, language, host, disposed, send, received, created)
         == SentOutcome(sent, received, created)
  {
  }

  /**
    No network failure escapes a query: whatever it raises is a null argument, a URL error
    (missing endpoint URL or duplicate parameter), a disposed client or an exception the
    catch clauses do not cover.
  */
  lemma NoNetworkFailureEscapes<T>(m: HttpMethod, req: Option<RequestView>, hasContent: bool, language: EsiLanguage,
                                   host: string, disposed: bool, send: (HttpMethod, Url) -> Transport<T>,
                                   received: Time, created: Time)
    ensures var r := QueryOutcome(m, req, hasContent, language, host, disposed, send, received, created);
      r.Throw? ==> !IsNetworkFailure(r.error)
    ensures var r := QueryOutcome(m, req, hasContent, language, host, disposed, send, received, created);
      r.Ok? && r.value.status == NetworkError ==> r.value.exception.Some? && IsNetworkFailure(r.value.exception.value)
  {
    var r := QueryOutcome(m, req, hasContent, language, host, disposed, send, received, created);
    if req.Some? && !((m == Post || m == Put) && !hasContent) {
      var u := RequestUrl(req.value, language, host);
      UrlErrors(req.value, language, host);
      if u.Ok? && !disposed {
        match send(m, u.value)
        case SendFailed(e) =>
          assert r == Caught(e, created);
        case Delivered(resp) =>
          var h := ResponseOutcome(resp, received, created);
          assert r == if h.Throw? then Caught(h.error, created) else h;
          if h.Ok? && h.value.status == NetworkError {
            ResponseNeverNetworkError(resp, received, created);
          }
      }
    }
  }

  /** Handling a response never produces a NetworkError: only the catch clauses do. */
  lemma ResponseNeverNetworkError<T>(resp: Response<T>, received: Time, created: Time)
    ensures ResponseOutcome(resp, received, created).Ok? ==> ResponseOutcome(resp, received, created).value.status != NetworkError
  {
  }

  /** Building the URL raises only InvalidOperationException or a duplicate-key ArgumentException. */
  lemma UrlErrors(req: RequestView, language: EsiLanguage, host: string)
    ensures RequestUrl(req, language, host).Throw? ==>
      RequestUrl(req, language, host).error.InvalidOperation? || RequestUrl(req, language, host).error.DuplicateKey?
  {
    if req.endpoint.Declared() {
      var attr := AttributeOf(req.endpoint).value;
      AddAllErrors(FixedParams(attr.lingualResponse, req.dataSource, language), req.parameters);
    }
  }

  /** A GET of a well-formed request on a live client returns what the response handling gives, or a NetworkError for a failed send. */
  lemma GetDelivered<T>(req: RequestView, language: EsiLanguage, host: string,
                        send: (HttpMethod, Url) -> Transport<T>, received: Time, created: Time)
    requires RequestUrl(req, language, host).Ok?
    requires send(Get, RequestUrl(req, language, host).value).Delivered? ||
             IsNetworkFailure(send(Get, RequestUrl(req, language, host).value).failure)
    ensures var r := QueryOutcome(Get, Some(req), false, language, host, false, send, received, created);
      var t := send(Get, RequestUrl(req, language, host).value);
      && (t.SendFailed? ==> r.Ok? && r.value.status == NetworkError && r.value.exception == Some(t.failure))
      && (t.Delivered? && ResponseOutcome(t.response, received, created).Ok? ==>
            r == ResponseOutcome(t.response, received, created))
  {
  }

  // ---------------------------------------------------------------------------------
  // The handler

  class EsiRequestHandler {
    var errorCount: int32
    var errorCountRefresh: Time
    var language: EsiLanguage
    /** The client's Timeout, in ticks. */
    var timeout: Time
    var disposed: bool
    /** How many times the HTTP client was cancelled and disposed. */
    var clientDisposals: nat

    ghost predicate Valid()
      reads this
    {
      timeout > 0 && clientDisposals == (if disposed then 1 else 0)
    }

    function Budget(): ErrorBudget
      reads this
    {
      ErrorBudget(errorCount, errorCountRefresh)
    }

    /** The constructor: the initial budget, English, the client's default timeout. */
    constructor ()
      ensures Valid()
      ensures Budget() == InitialBudget()
      ensures language == English && timeout == DEFAULT_TIMEOUT && !disposed
    {
      errorCount := ERROR_THRESHOLD;
      errorCountRefresh := MIN_TIME;
      language := English;
      timeout := DEFAULT_TIMEOUT;
      disposed := false;
      clientDisposals := 0;
    }

    predicate IsErrorCountExceeded(now: Time)
      reads this
    {
      ErrorCountExceeded(Budget(), now)
    }

    /** The Timeout setter: a value that is not positive is ignored. */
    method SetTimeout(value: Time)
      requires Valid()
      modifies this`timeout
      ensures Valid()
      ensures timeout == if value > 0 then value else old(timeout)
    {
      if value > 0 {
        timeout := value;
      }
    }

    /**
      HandleResponseAsync: updates the budget from the headers (when there are headers)
      and builds the result; `received` stands for the time the response is handled and
      `created` for the time the result object is made.
    */
    method HandleResponse<T>(resp: Response<T>, received: Time, created: Time) returns (r: Outcome<EsiResult<T>>)
      requires Valid()
      modifies this`errorCount, this`errorCountRefresh
      ensures Valid()
      ensures Budget() == if resp.headers.None? then old(Budget()) else BudgetAfter(old(Budget()), resp.headers.value, received)
      ensures r.Ok? <==> ResponseOutcome(resp, received, created).Ok?
      ensures r.Throw? ==> r.error == ResponseOutcome(resp, received, created).error
      ensures r.Ok? ==> fresh(r.value) && r.value.View() == ResponseOutcome(resp, received, created).value
    {
      if resp.headers.None? {
        return Throw(ArgumentNull("headers", NULL_MESSAGE));
      }
      var headers := resp.headers.value;
      UpdateBudget(headers, received);
      var status := ToEsiStatusCode(resp.statusCode);
      var pagesParam := GetIntParam(headers, X_PAGES);
      var pages := pagesParam.GetOr(0);
      if pages < 1 {
        pages := 1;
      }
      assert pages == PageCount(headers);
      if status == OK {
        if resp.content.None? {
          return Throw(ArgumentNull("content", NULL_MESSAGE));
        }
        var content := resp.content.value;
        match content.body {
          case ReadFailed(e) =>
            return Throw(e);
          case JsonError(m) =>
            var result := new EsiResult<T>(Error, None, Some(JsonFailure(m)), created);
            return Ok(result);
          case Parsed(v) =>
            var result := ParsedResult(v, resp.eTag, content.expires.GetOr(received), pages, resp.date, created);
            return Ok(result);
        }
      }
      var result := new EsiResult<T>(status, None, None, created);
      return Ok(result);
    }

    /** The updates of errorCount and errorCountRefresh from a response's headers. */
    method UpdateBudget(headers: Headers, received: Time)
      modifies this`errorCount, this`errorCountRefresh
      ensures Budget() == BudgetAfter(old(Budget()), headers, received)
    {
      var ec := GetIntParam(headers, ERROR_LIMIT_REMAIN);
      if ec.Some? {
        errorCount := ec.value;
      }
      var ecReset := GetIntParam(headers, ERROR_LIMIT_RESET);
      if ecReset.Some? {
        errorCountRefresh := received + Min(ecReset.value, MAX_RESET_SECONDS) * TICKS_PER_SECOND;
      }
    }

    /**
      The four public query methods: `m` is the HTTP method, `request` the request headers
      object, `content` whether content was given, `send` the transport, `host` the ESI
      base host.
    */
    method Query<T>(m: HttpMethod, request: EsiRequestHeaders?, content: bool, host: string,
                    send: (HttpMethod, Url) -> Transport<T>, received: Time, created: Time)
      returns (r: Outcome<EsiResult<T>>)
      requires Valid()
      modifies this`errorCount, this`errorCountRefresh
      ensures Valid()
      ensures var req := if request == null then None
                         else Some(RequestView(request.endpoint, request.path, request.dataSource, request.parameters));
        var handled := HandledResponse(m, req, content, language, host, disposed, send);
        && (Budget() == if handled.None? || handled.value.headers.None? then old(Budget())
                        else BudgetAfter(old(Budget()), handled.value.headers.value, received))
        && (r.Ok? <==> QueryOutcome(m, req, content, language, host, disposed, send, received, created).Ok?)
        && (r.Throw? ==> r.error == QueryOutcome(m, req, content, language, host, disposed, send, received, created).error)
        && (r.Ok? ==> fresh(r.value) &&
                      r.value.View() == QueryOutcome(m, req, content, language, host, disposed, send, received, created).value)
    {
      if request == null {
        QueryStopsEarly(m, None, content, language, host, disposed, send, received, created,
                        ArgumentNull("request", NULL_MESSAGE));
        return Throw(ArgumentNull("request", NULL_MESSAGE));
      }
      ghost var req := RequestView(request.endpoint, request.path, request.dataSource, request.parameters);
      if (m == Post || m == Put) && !content {
        QueryStopsEarly(m, Some(req), content, language, host, disposed, send, received, created,
                        ArgumentNull("content", NULL_MESSAGE));
        return Throw(ArgumentNull("content", NULL_MESSAGE));
      }
      var url := request.GetEsiUrl(language, host);
      if url.Throw? {
        QueryStopsEarly(m, Some(req), content, language, host, disposed, send, received, created, url.error);
        return Throw(url.error);
      }
      if disposed {
        QueryStopsEarly(m, Some(req), content, language, host, disposed, send, received, created, ObjectDisposed);
        return Throw(ObjectDisposed);
      }
      QueryAfterUrl(m, req, content, language, host, disposed, send, received, created);
      r := SendAndHandle(send(m, url.value), received, created);
    }

    /**
      The try block of QueryEsiAsync: the budget changes only when a response with headers
      is handled, and the result is SentOutcome, a new result object when there is one.
    */
    method SendAndHandle<T>(sent: Transport<T>, received: Time, created: Time) returns (r: Outcome<EsiResult<T>>)
      requires Valid()
      modifies this`errorCount, this`errorCountRefresh
      ensures Valid()
      ensures Budget() == if sent.SendFailed? || sent.response.headers.None? then old(Budget())
                          else BudgetAfter(old(Budget()), sent.response.headers.value, received)
      ensures r.Ok? <==> SentOutcome(sent, received, created).Ok?
      ensures r.Throw? ==> r.error == SentOutcome(sent, received, created).error
      ensures r.Ok? ==> fresh(r.value) && r.value.View() == SentOutcome(sent, received, created).value
    {
      if sent.SendFailed? {
        r := CaughtResult(sent.failure, created);
        return;
      }
      var handled := HandleResponse(sent.response, received, created);
      if handled.Throw? {
        r := CaughtResult(handled.error, created);
        return;
      }
      return handled;
    }

    /** Dispose: cancels and disposes the client on the first call only. */
    method Dispose()
      requires Valid()
      modifies this`disposed, this`clientDisposals
      ensures Valid() && disposed
      ensures clientDisposals == old(clientDisposals) + (if old(disposed) then 0 else 1)
    {
      if !disposed {
        clientDisposals := clientDisposals + 1;
        disposed := true;
      }
    }
  }

  /**
    The result of an OK response whose body was deserialised: the payload, cache info
    from the ETag and the expiry time, the page count and, if the response has a Date,
    that date as the server time.
  */
  method ParsedResult<T>(v: Option<T>, eTag: Option<string>, expires: Time, pages: int32, date: Option<Time>,
                         created: Time) returns (result: EsiResult<T>)
    ensures fresh(result)
    ensures result.View() == ResultView(OK, v, None, Some(CacheView(eTag.GetOr(""), expires)), pages, date.GetOr(created))
  {
    result := new EsiResult<T>(OK, v, None, created);
    var info := new EsiCacheInfo(eTag, expires);
    result.SetCacheInfo(info);
    result.SetPages(pages);
    if date.Some? {
      result.SetServerTime(date.value);
    }
  }

  /** The catch clauses of QueryEsiAsync, building the NetworkError result object. */
  method CaughtResult<T>(e: Exn, created: Time) returns (r: Outcome<EsiResult<T>>)
    ensures r.Ok? <==> Caught<T>(e, created).Ok?
    ensures r.Throw? ==> r.error == Caught<T>(e, created).error
    ensures r.Ok? ==> fresh(r.value) && r.value.View() == Caught<T>(e, created).value
  {
    if IsNetworkFailure(e) {
      var result := new EsiResult<T>(NetworkError, None, Some(e), created);
      return Ok(result);
    }
    return Throw(e);
  }
}
