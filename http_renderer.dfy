/**
 * The production renderer of `@astrostory/core` (`renderer/renderer.ts`):
 * it posts the render request to the standalone rendering server over
 * HTTP, with an optional bearer token, under a timeout, and turns the ways
 * the server can be out of reach into one named error.
 *
 * The settings read from `import.meta.env` and from `globalThis` are
 * inputs, and so are the fresh id (`crypto.randomUUID`) and the way
 * `fetch` settles (a response, or the error it rejects with).
 */
module HttpRenderer {
  import opened Wrappers
  import opened Text
  import opened Records
  import opened Values
  import Correlation

  /** `STORYBOOK_ASTRO_SERVER_URL` and `STORYBOOK_ASTRO_AUTH_TOKEN`, from the build environment and from the page. */
  datatype Settings = Settings(
    envServerUrl: Option<string>,
    globalServerUrl: Option<string>,
    envAuthToken: Option<string>,
    globalAuthToken: Option<string>)

  /** A `string | undefined` setting that is truthy: set and non-empty. */
  predicate IsSet(s: Option<string>)
  {
    s.Some? && s.value != ""
  }

  const DefaultServerUrl := "http://localhost:3000"

  /** `getServerUrl`: the build environment's URL, else the page's, else the local default. */
  function ServerUrl(settings: Settings): (r: string)
    ensures IsSet(settings.envServerUrl) ==> r == settings.envServerUrl.value
    ensures !IsSet(settings.envServerUrl) && IsSet(settings.globalServerUrl) ==> r == settings.globalServerUrl.value
    ensures !IsSet(settings.envServerUrl) && !IsSet(settings.globalServerUrl) ==> r == DefaultServerUrl
    ensures r != ""
  {
    if IsSet(settings.envServerUrl) then settings.envServerUrl.value
    else if IsSet(settings.globalServerUrl) then settings.globalServerUrl.value
    else DefaultServerUrl
  }

  /** `getAuthToken`: the build environment's token, else the page's, else none. */
  function AuthToken(settings: Settings): (r: Option<string>)
    ensures r.Some? <==> IsSet(settings.envAuthToken) || IsSet(settings.globalAuthToken)
    ensures IsSet(settings.envAuthToken) ==> r == settings.envAuthToken
    ensures !IsSet(settings.envAuthToken) ==> r.Some? ==> r == settings.globalAuthToken
    ensures r.Some? ==> r.value != ""
  {
    if IsSet(settings.envAuthToken) then settings.envAuthToken
    else if IsSet(settings.globalAuthToken) then settings.globalAuthToken
    else None
  }

  /** The request headers: always the JSON content type, and a bearer token exactly when one is configured. */
  function Headers(token: Option<string>): (r: seq<Entry<string>>)
    ensures UniqueKeys(r)
    ensures Lookup(r, "content-type") == Some("application/json")
    ensures HasKey(r, "authorization") <==> IsSet(token)
    ensures IsSet(token) ==> Lookup(r, "authorization") == Some("Bearer " + token.value)
    ensures forall k :: HasKey(r, k) ==> k == "content-type" || k == "authorization"
  {
    var base := [Entry("content-type", "application/json")];
    assert Keys(base) == ["content-type"];
    if IsSet(token) then Assign(base, "authorization", "Bearer " + token.value) else base
  }

  /** How `response.text()` settles: with the body, or by rejecting with an error (`instanceof TypeError` or not). */
  datatype BodyOutcome =
    | Read(text: string)
    | ReadFailed(error: Error, isTypeError: bool)

  /** A response of `fetch`, reduced to what the renderer reads. */
  datatype HttpResponse = HttpResponse(ok: bool, status: nat, statusText: string, body: BodyOutcome)

  /** How `fetch` settles: with a response, or by rejecting with an error (`instanceof TypeError` or not). */
  datatype FetchOutcome =
    | Responded(response: HttpResponse)
    | Rejected(error: Error, isTypeError: bool)

  /** The POST request to `<server>/render`; `body` is `JSON.stringify(data)`. */
  datatype Request = Request(url: string, headers: seq<Entry<string>>, body: Option<string>)

  /** `setTimeout` arming the abort, and `clearTimeout`. */
  datatype TimerEvent = Armed(ms: nat) | Cleared

  /** The `data` of a render response: the request's id and the html. */
  datatype RenderData = RenderData(id: string, html: string)

  const UnavailablePrefix := "Unable to reach Astro rendering server at "
  const NotReachable := "not reachable over HTTP"
  /** `The Astro rendering server is not reachable over HTTP.` */
  const UnreachableReason := "The Astro rendering server is " + NotReachable + "."

  function TimedOutReason(timeoutMs: nat): string
  {
    "Request timed out after " + (NatToString(timeoutMs) + "ms") + " while waiting for a render response."
  }

  /** `createServerUnavailableError`: the named error whose message names the server. */
  function UnavailableError(serverUrl: string, reason: string): (r: Error)
    ensures r.name == Correlation.UnavailableErrorName
    ensures StartsWith(r.message, UnavailablePrefix + serverUrl)
  {
    Error(Correlation.UnavailableErrorName, UnavailablePrefix + serverUrl + ". " + reason)
  }

  /** The error thrown for a response that is not OK. */
  function StatusError(response: HttpResponse): Error
  {
    Fail("Server responded with " + NatToString(response.status) + ": " + response.statusText)
  }

  /**
   * The `catch` block: an abort (the timer fired) and a `TypeError` (the
   * network is unreachable) become the unavailable error; anything else
   * is rethrown as it is.
   */
  function Classify(serverUrl: string, timeoutMs: nat, error: Error, isTypeError: bool): (r: Error)
    ensures error.name == "AbortError" ==> r == UnavailableError(serverUrl, TimedOutReason(timeoutMs))
    ensures error.name != "AbortError" && isTypeError ==> r == UnavailableError(serverUrl, UnreachableReason)
    ensures error.name != "AbortError" && !isTypeError ==> r == error
  {
    if error.name == "AbortError" then UnavailableError(serverUrl, TimedOutReason(timeoutMs))
    else if isTypeError then UnavailableError(serverUrl, UnreachableReason)
    else error
  }

  /** The status error is thrown inside the `try`, reaches the `catch`, and comes out unchanged. */
  lemma StatusErrorRethrown(serverUrl: string, timeoutMs: nat, response: HttpResponse)
    ensures Classify(serverUrl, timeoutMs, StatusError(response), false) == StatusError(response)
    ensures Classify(serverUrl, timeoutMs, StatusError(response), false).name != Correlation.UnavailableErrorName
  {
  }

  /** The unavailable error's message names the server and carries the reason's text. */
  lemma UnavailableMentions(serverUrl: string, reason: string, t: string)
    requires Contains(reason, t)
    ensures Contains(UnavailableError(serverUrl, reason).message, serverUrl)
    ensures Contains(UnavailableError(serverUrl, reason).message, t)
  {
    var m := UnavailableError(serverUrl, reason).message;
    assert m == UnavailablePrefix + serverUrl + (". " + reason);
    ContainsInfix(UnavailablePrefix, serverUrl, ". " + reason);
    assert m == (UnavailablePrefix + serverUrl + ". ") + reason + "";
    ContainsInfix(UnavailablePrefix + serverUrl + ". ", reason, "");
    ContainsTrans(m, reason, t);
  }

  /** The timeout message names the server and the time limit; the unreachable one says so. */
  lemma UnavailableMessages(serverUrl: string, timeoutMs: nat, error: Error, isTypeError: bool)
    requires error.name == "AbortError" || isTypeError
    ensures Contains(Classify(serverUrl, timeoutMs, error, isTypeError).message, serverUrl)
    ensures error.name == "AbortError" ==> Contains(Classify(serverUrl, timeoutMs, error, isTypeError).message, NatToString(timeoutMs) + "ms")
    ensures error.name != "AbortError" ==> Contains(Classify(serverUrl, timeoutMs, error, isTypeError).message, NotReachable)
  {
    if error.name == "AbortError" {
      ContainsInfix("Request timed out after ", NatToString(timeoutMs) + "ms", " while waiting for a render response.");
      UnavailableMentions(serverUrl, TimedOutReason(timeoutMs), NatToString(timeoutMs) + "ms");
    } else {
      ContainsInfix("The Astro rendering server is ", NotReachable, ".");
      UnavailableMentions(serverUrl, UnreachableReason, NotReachable);
    }
  }

  /**
   * `render`: builds the request, arms the abort timer, and settles from
   * the way `fetch` settles and, for an OK response, the way reading its
   * body settles. The timer is cleared on every path (twice on a path
   * that throws after the response arrived: once after `fetch` and once
   * in the `catch`).
   */
  method Render(data: Value, timeoutMs: nat, id: string, settings: Settings, outcome: FetchOutcome)
    returns (request: Request, timer: seq<TimerEvent>, r: Result<RenderData>)
    ensures request.url == ServerUrl(settings) + "/render"
    ensures request.headers == Headers(AuthToken(settings))
    ensures request.body == JsonStringify(data)
    ensures |timer| >= 2 && timer[0] == Armed(timeoutMs)
    ensures forall k :: 1 <= k < |timer| ==> timer[k] == Cleared
    ensures outcome.Responded? && outcome.response.ok && outcome.response.body.Read? ==>
      r == Ok(RenderData(id, outcome.response.body.text)) && timer == [Armed(timeoutMs), Cleared]
    ensures outcome.Responded? && outcome.response.ok && outcome.response.body.ReadFailed? ==>
      r == Err(Classify(ServerUrl(settings), timeoutMs, outcome.response.body.error, outcome.response.body.isTypeError))
      && timer == [Armed(timeoutMs), Cleared, Cleared]
    ensures outcome.Responded? && !outcome.response.ok ==> r == Err(StatusError(outcome.response))
    ensures outcome.Rejected? ==> r == Err(Classify(ServerUrl(settings), timeoutMs, outcome.error, outcome.isTypeError))
  {
    var serverUrl := ServerUrl(settings);
    var authToken := AuthToken(settings);
    var headers := [Entry("content-type", "application/json")];
    if IsSet(authToken) {
      headers := Assign(headers, "authorization", "Bearer " + authToken.value);
    }
    request := Request(serverUrl + "/render", headers, JsonStringify(data));
    timer := [Armed(timeoutMs)];
    var thrown: Option<(Error, bool)> := None;
    match outcome {
      case Responded(response) =>
        timer := timer + [Cleared];
        if !response.ok {
          thrown := Some((StatusError(response), false));
        } else {
          match response.body {
            case Read(html) =>
              r := Ok(RenderData(id, html));
            case ReadFailed(error, isTypeError) =>
              thrown := Some((error, isTypeError));
          }
        }
      case Rejected(error, isTypeError) =>
        thrown := Some((error, isTypeError));
    }
    if thrown.Some? {
      timer := timer + [Cleared];
      r := Err(Classify(serverUrl, timeoutMs, thrown.value.0, thrown.value.1));
    }
    if outcome.Responded? && !outcome.response.ok {
      StatusErrorRethrown(serverUrl, timeoutMs, outcome.response);
    }
  }
}
