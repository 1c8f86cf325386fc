/**
 * Access control of the standalone rendering server of `@astrostory/core`
 * (`server/auth.ts`): the authentication mode read from the environment,
 * the bearer-token form of the `Authorization` header of section 2.1 of
 * RFC 6750, and the allow/deny decision of the middleware. The
 * middleware's effects (recording the auth context, calling the next
 * handler, answering 401) become an outcome value.
 */
module Auth {
  import opened Wrappers
  import opened Text
  import opened Records
  import opened Values
  import HttpRenderer

  /** `AUTH_MODE`, `AUTH_TOKEN`, `AUTH_TOKEN_ID` and `AUTH_TOKEN_EXPIRES_AT`. */
  datatype AuthEnv = AuthEnv(
    mode: Option<string>,
    token: Option<string>,
    tokenId: Option<string>,
    tokenExpiresAt: Option<string>)

  datatype AuthConfig =
    | External
    | SimpleToken(token: string, tokenId: Option<string>, tokenExpiresAt: Option<string>)

  const TokenRequiredError := Fail("AUTH_TOKEN is required when AUTH_MODE is simple-token.")

  function UnsupportedModeError(mode: string): (r: Error)
    ensures Contains(r.message, "\"" + mode + "\"")
  {
    var quoted := "\"" + mode + "\"";
    ContainsInfix("Unsupported AUTH_MODE ", quoted, ". Expected external or simple-token.");
    Fail("Unsupported AUTH_MODE " + quoted + ". Expected external or simple-token.")
  }

  /**
   * `resolveAuthConfig`: an unset mode means external; simple-token needs
   * a token that is not blank and keeps it trimmed, with the id and expiry
   * verbatim; any other mode, the empty one included, is refused.
   */
  function ResolveAuthConfig(env: AuthEnv): (r: Result<AuthConfig>)
    ensures env.mode.None? || env.mode == Some("external") ==> r == Ok(External)
    ensures env.mode == Some("simple-token") && (env.token.None? || IsBlank(env.token.value)) ==> r == Err(TokenRequiredError)
    ensures env.mode == Some("simple-token") && env.token.Some? && !IsBlank(env.token.value) ==>
      r == Ok(SimpleToken(Trim(env.token.value), env.tokenId, env.tokenExpiresAt))
    ensures env.mode.Some? && env.mode.value != "external" && env.mode.value != "simple-token" ==>
      r == Err(UnsupportedModeError(env.mode.value))
  {
    var mode := env.mode.UnwrapOr("external");
    if mode == "external" then Ok(External)
    else if mode == "simple-token" then
      if env.token.None? || Trim(env.token.value) == "" then Err(TokenRequiredError)
      else Ok(SimpleToken(Trim(env.token.value), env.tokenId, env.tokenExpiresAt))
    else Err(UnsupportedModeError(mode))
  }

  /** A configured simple token is never blank and has no white space at either end. */
  lemma ConfiguredTokenTrimmed(env: AuthEnv)
    requires ResolveAuthConfig(env).Ok? && ResolveAuthConfig(env).value.SimpleToken?
    ensures var t := ResolveAuthConfig(env).value.token;
      t != "" && Trim(t) == t && !IsWhiteSpace(t[0]) && !IsWhiteSpace(t[|t| - 1])
  {
    TrimIdempotent(env.token.value);
    TrimFacts(env.token.value);
  }

  /** The number of white-space characters `s` starts with. */
  function LeadingSpace(s: string): (r: nat)
    ensures r <= |s|
    ensures forall k :: 0 <= k < r ==> IsWhiteSpace(s[k])
    ensures r < |s| ==> !IsWhiteSpace(s[r])
  {
    if s != [] && IsWhiteSpace(s[0]) then 1 + LeadingSpace(s[1..]) else 0
  }

  /**
   * `parseBearerToken`: the header must match `^Bearer\s+(.+)$` with the
   * scheme in any case, and the captured rest is returned trimmed. The
   * greedy `\s+` takes every leading white space unless that leaves
   * nothing for `.+`, in which case it gives back one character, and the
   * capture trims to the empty string; `.` does not match a line
   * terminator, so none may follow the white space.
   */
  function ParseBearerToken(header: Option<string>): (r: Option<string>)
    ensures r.Some? ==> header.Some? && |header.value| >= 8
    ensures r.Some? ==> ToLower(header.value[..6]) == "bearer" && IsWhiteSpace(header.value[6])
  {
    if header.None? || header.value == "" then None
    else
      var h := header.value;
      if |h| < 6 || ToLower(h[..6]) != "bearer" then None
      else
        var rest := h[6..];
        var w := LeadingSpace(rest);
        if w == 0 then None
        else if w < |rest| then
          if NoLineTerminator(rest[w..]) then Some(Trim(rest[w..])) else None
        else if |rest| >= 2 && !IsLineTerminator(rest[|rest| - 1]) then Some("")
        else None
  }

  /** A token without surrounding white space or line breaks, sent as `Bearer <token>` in any case, parses back to itself. */
  lemma BearerRoundTrip(scheme: string, token: string)
    requires ToLower(scheme) == "bearer"
    requires token != "" && Trim(token) == token && NoLineTerminator(token)
    ensures ParseBearerToken(Some(scheme + " " + token)) == Some(token)
  {
    TrimFacts(token);
    var h := scheme + " " + token;
    assert |scheme| == 6;
    assert h[..6] == scheme && h[6..] == " " + token;
    OneLeadingSpace(token);
  }

  /** A single space before a text that does not start with white space is one character of leading space. */
  lemma OneLeadingSpace(token: string)
    requires token != [] && !IsWhiteSpace(token[0])
    ensures LeadingSpace(" " + token) == 1 && (" " + token)[1..] == token
  {
    assert (" " + token)[1..] == token;
  }

  /** Without the bearer scheme, or without a space after it, there is no token. */
  lemma NoSchemeNoToken(header: string)
    requires |header| < 7 || ToLower(header[..6]) != "bearer" || !IsWhiteSpace(header[6])
    ensures ParseBearerToken(Some(header)) == None
  {
  }

  /** What the middleware records for an admitted request. */
  datatype AuthContext = AuthContext(mode: string, authenticated: bool, tokenId: Option<string>, tokenExpiresAt: Option<string>)

  /** The middleware's verdict: call the next handler with the context, or answer with a status and JSON body. */
  datatype Decision = Allow(auth: AuthContext) | Deny(status: nat, body: Value)

  const Unauthorized := Deny(401, Obj([Entry("error", Str("Unauthorized"))]))

  /**
   * `createAuthMiddleware`: external mode admits every request; simple-token
   * mode admits a request exactly when its bearer token equals the
   * configured one, and answers 401 otherwise.
   */
  function Authorize(config: AuthConfig, authorization: Option<string>): (r: Decision)
    ensures config.External? ==> r == Allow(AuthContext("external", true, None, None))
    ensures config.SimpleToken? ==> (r.Allow? <==> ParseBearerToken(authorization) == Some(config.token))
    ensures config.SimpleToken? && r.Allow? ==> r.auth == AuthContext("simple-token", true, config.tokenId, config.tokenExpiresAt)
    ensures r.Deny? ==> r == Unauthorized
  {
    match config
    case External => Allow(AuthContext("external", true, None, None))
    case SimpleToken(token, tokenId, tokenExpiresAt) =>
      if ParseBearerToken(authorization) != Some(token) then Unauthorized
      else Allow(AuthContext("simple-token", true, tokenId, tokenExpiresAt))
  }

  /** In simple-token mode a request without an `Authorization` header is refused. */
  lemma MissingHeaderRefused(config: AuthConfig)
    requires config.SimpleToken?
    ensures Authorize(config, None) == Unauthorized
  {
  }

  /**
   * The production renderer and the server agree: when the renderer is
   * configured with the token the server resolved from its environment,
   * the `authorization` header the renderer sends is admitted.
   */
  lemma RendererTokenAdmitted(env: AuthEnv, settings: HttpRenderer.Settings)
    requires ResolveAuthConfig(env).Ok? && ResolveAuthConfig(env).value.SimpleToken?
    requires HttpRenderer.AuthToken(settings) == Some(ResolveAuthConfig(env).value.token)
    requires NoLineTerminator(ResolveAuthConfig(env).value.token)
    ensures Authorize(ResolveAuthConfig(env).value, Lookup(HttpRenderer.Headers(HttpRenderer.AuthToken(settings)), "authorization")).Allow?
  {
    var t := ResolveAuthConfig(env).value.token;
    ConfiguredTokenTrimmed(env);
    assert HttpRenderer.IsSet(Some(t));
    SentBearerRoundTrip(t);
  }

  /** The header the renderer sends, `Bearer <token>`, parses back to the token. */
  lemma SentBearerRoundTrip(token: string)
    requires token != "" && Trim(token) == token && NoLineTerminator(token)
    ensures ParseBearerToken(Some("Bearer " + token)) == Some(token)
  {
    assert "Bearer " + token == "Bearer" + " " + token;
    BearerRoundTrip("Bearer", token);
  }
}
