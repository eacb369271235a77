/**
 * Runtime configuration (server/utility/config.py): reading the settings from
 * an environment map, the review URL, and the API-key gate that every tool
 * call passes before it touches the registry.
 */
module Config {
  import opened Wrappers
  import opened Text

  const DEFAULT_TTL_SECONDS: int := 300
  const DEFAULT_POLL_INTERVAL: int := 30
  const DEFAULT_FALLBACK: string := "Sorry, no human could be reached. Please use your best judgment."
  const DEFAULT_SERVER_URL: string := "http://localhost:8000"
  const DEFAULT_HOST: string := "0.0.0.0"
  const DEFAULT_FLASK_PORT: int := 8000
  const DEFAULT_MCP_PORT: int := 8765
  const DEFAULT_TRANSPORT: string := "streamable-http"

  /** The message of the PermissionError raised by a failed API-key check. */
  const API_KEY_ERROR: string := "Invalid or missing X-API-Key header"

  datatype Config = Config(
    pushoverToken: Option<string>,
    pushoverUser: Option<string>,
    serverUrl: string,
    mcpApiKey: string,
    questionTtlSeconds: int,
    pollIntervalSeconds: int,
    fallbackAnswer: string,
    flaskHost: string,
    flaskPort: int,
    mcpHost: string,
    mcpPort: int,
    mcpTransport: string)

  /** The process environment: variable name to value. */
  type Environment = map<string, string>

  /** `os.getenv(name)`. */
  function GetEnv(env: Environment, name: string): Option<string> {
    if name in env then Some(env[name]) else None
  }

  /** `os.getenv(name, default)`. */
  function GetEnvOr(env: Environment, name: string, default: string): string {
    if name in env then env[name] else default
  }

  /**
   * `int(os.getenv(name, str(default)))`, falling back to `default` when
   * `int()` raises ValueError.
   */
  function IntSetting(env: Environment, name: string, default: int): (v: int)
    ensures name !in env ==> v == default
    ensures name in env && ParseInt(env[name]).Some? ==> v == ParseInt(env[name]).value
    ensures name in env && ParseInt(env[name]).None? ==> v == default
  {
    ParseIntRoundTrip(default);
    match ParseInt(GetEnvOr(env, name, IntToString(default)))
    case Some(n) => n
    case None => default
  }

  /** `get_config()` without the cache: every setting read from `env`, with its default. */
  function GetConfig(env: Environment): (c: Config)
    ensures c.serverUrl == RStripChar(GetEnvOr(env, "SERVER_URL", DEFAULT_SERVER_URL), '/')
    ensures c.serverUrl == [] || c.serverUrl[|c.serverUrl| - 1] != '/'
    ensures c.mcpApiKey == GetEnvOr(env, "MCP_API_KEY", "")
    ensures c.pushoverToken == GetEnv(env, "PUSHOVER_TOKEN")
    ensures c.pushoverUser == GetEnv(env, "PUSHOVER_USER")
    ensures c.fallbackAnswer == GetEnvOr(env, "FALLBACK_ANSWER", DEFAULT_FALLBACK)
    ensures c.questionTtlSeconds == IntSetting(env, "QUESTION_TTL_SECONDS", DEFAULT_TTL_SECONDS)
    ensures c.pollIntervalSeconds == IntSetting(env, "POLL_INTERVAL_SECONDS", DEFAULT_POLL_INTERVAL)
    ensures c.flaskPort == IntSetting(env, "FLASK_PORT", DEFAULT_FLASK_PORT)
    ensures c.mcpPort == IntSetting(env, "MCP_PORT", DEFAULT_MCP_PORT)
    ensures c.flaskHost == GetEnvOr(env, "FLASK_HOST", DEFAULT_HOST)
    ensures c.mcpHost == GetEnvOr(env, "MCP_HOST", DEFAULT_HOST)
    ensures c.mcpTransport == GetEnvOr(env, "MCP_TRANSPORT", DEFAULT_TRANSPORT)
  {
    Config(
      pushoverToken := GetEnv(env, "PUSHOVER_TOKEN"),
      pushoverUser := GetEnv(env, "PUSHOVER_USER"),
      serverUrl := RStripChar(GetEnvOr(env, "SERVER_URL", DEFAULT_SERVER_URL), '/'),
      mcpApiKey := GetEnvOr(env, "MCP_API_KEY", ""),
      questionTtlSeconds := IntSetting(env, "QUESTION_TTL_SECONDS", DEFAULT_TTL_SECONDS),
      pollIntervalSeconds := IntSetting(env, "POLL_INTERVAL_SECONDS", DEFAULT_POLL_INTERVAL),
      fallbackAnswer := GetEnvOr(env, "FALLBACK_ANSWER", DEFAULT_FALLBACK),
      flaskHost := GetEnvOr(env, "FLASK_HOST", DEFAULT_HOST),
      flaskPort := IntSetting(env, "FLASK_PORT", DEFAULT_FLASK_PORT),
      mcpHost := GetEnvOr(env, "MCP_HOST", DEFAULT_HOST),
      mcpPort := IntSetting(env, "MCP_PORT", DEFAULT_MCP_PORT),
      mcpTransport := GetEnvOr(env, "MCP_TRANSPORT", DEFAULT_TRANSPORT))
  }

  /** With an empty environment every setting takes its documented default. */
  lemma EmptyEnvironmentDefaults()
    ensures var c := GetConfig(map[]);
      && c.serverUrl == DEFAULT_SERVER_URL
      && c.mcpApiKey == ""
      && c.pushoverToken == None && c.pushoverUser == None
      && c.questionTtlSeconds == DEFAULT_TTL_SECONDS
      && c.pollIntervalSeconds == DEFAULT_POLL_INTERVAL
      && c.fallbackAnswer == DEFAULT_FALLBACK
      && c.flaskPort == DEFAULT_FLASK_PORT && c.mcpPort == DEFAULT_MCP_PORT
      && c.flaskHost == DEFAULT_HOST && c.mcpHost == DEFAULT_HOST
      && c.mcpTransport == DEFAULT_TRANSPORT
  {
    assert DEFAULT_SERVER_URL[|DEFAULT_SERVER_URL| - 1] != '/';
  }

  /** Trailing slashes of SERVER_URL are dropped, and an already clean URL is kept as it is. */
  lemma ServerUrlTrailingSlashes(env: Environment, url: string, slashes: nat)
    requires url == [] || url[|url| - 1] != '/'
    requires GetEnvOr(env, "SERVER_URL", DEFAULT_SERVER_URL) == url + seq(slashes, _ => '/')
    ensures GetConfig(env).serverUrl == url
  {
    RStripCharPadded(url, '/', slashes);
  }

  /** The path of the review route, before its two segments. */
  const ROUTE_PREFIX: string := "/answer_question/"

  /** The path part of a review URL. */
  function ReviewPath(authKey: string, questionId: string): string {
    ROUTE_PREFIX + authKey + "/" + questionId
  }

  /**
   * `build_review_url(auth_key, question_id)`: the link the human opens to
   * answer, the configured server URL followed by the review path.
   */
  function BuildReviewUrl(config: Config, authKey: string, questionId: string): (url: string)
    ensures config.serverUrl <= url
    ensures url[|config.serverUrl|..] == ReviewPath(authKey, questionId)
  {
    config.serverUrl + "/answer_question/" + authKey + "/" + questionId
  }

  /** A mapping type's headers: `.get` may work, raise TypeError, or be missing. */
  datatype Headers =
    | HeaderMapping(entries: map<string, string>)
    | GetRaisesTypeError
    | NoGetMethod

  /** The `request` attribute of a request context: an object with `headers`, or a dict. */
  datatype Request =
    | RequestObject(headers: Option<Headers>)
    | RequestDict(headersEntry: Option<Headers>)

  datatype RequestContext = RequestContext(request: Option<Request>)

  /** The MCP context object; a missing attribute and an attribute that is None are the same here. */
  datatype Context = Context(requestContext: Option<RequestContext>)

  /** `_extract_header(headers, name)`. */
  function ExtractHeader(headers: Option<Headers>, name: string): (r: Option<string>)
    ensures r.Some? <==> headers.Some? && headers.value.HeaderMapping? && name in headers.value.entries
    ensures r.Some? ==> r.value == headers.value.entries[name]
  {
    match headers
    case None => None
    case Some(HeaderMapping(entries)) => if name in entries then Some(entries[name]) else None
    case Some(GetRaisesTypeError) => None
    case Some(NoGetMethod) => None
  }

  /** The headers found under a request: the `headers` attribute, or for a dict its "headers" entry. */
  function RequestHeaders(request: Request): Option<Headers> {
    match request
    case RequestObject(h) => h
    case RequestDict(h) => h
  }

  /** `extract_api_key_from_context(ctx)`. */
  function ExtractApiKeyFromContext(ctx: Option<Context>): (r: Option<string>)
    ensures ctx.None? || ctx.value.requestContext.None? || ctx.value.requestContext.value.request.None? ==> r.None?
    ensures ctx.Some? && ctx.value.requestContext.Some? && ctx.value.requestContext.value.request.Some? ==>
      var h := RequestHeaders(ctx.value.requestContext.value.request.value);
      && (h.None? ==> r.None?)
      && r == (if Truthy(ExtractHeader(h, "X-API-Key")) then ExtractHeader(h, "X-API-Key") else ExtractHeader(h, "x-api-key"))
  {
    match ctx
    case None => None
    case Some(Context(rc)) =>
      match rc
      case None => None
      case Some(RequestContext(request)) =>
        match request
        case None => None
        case Some(req) =>
          var headers := RequestHeaders(req);
          if headers.None? then None
          else Or(ExtractHeader(headers, "X-API-Key"), ExtractHeader(headers, "x-api-key"))
  }

  /** The credential `require_api_key` compares: an explicit non-empty key, else the context's header. */
  function CandidateKey(ctx: Option<Context>, providedKey: Option<string>): Option<string> {
    Or(providedKey, ExtractApiKeyFromContext(ctx))
  }

  /** `require_api_key(ctx, provided_key)`: Err stands for the PermissionError it raises. */
  function RequireApiKey(config: Config, ctx: Option<Context>, providedKey: Option<string>): (r: Result<(), string>)
    ensures config.mcpApiKey == "" ==> r.Ok?
    ensures config.mcpApiKey != "" ==> (r.Ok? <==> CandidateKey(ctx, providedKey) == Some(config.mcpApiKey))
    ensures r.Err? ==> r.error == API_KEY_ERROR
  {
    if config.mcpApiKey == "" then Ok(())
    else if CandidateKey(ctx, providedKey) != Some(config.mcpApiKey) then Err(API_KEY_ERROR)
    else Ok(())
  }

  /** A non-empty explicit key decides alone: the context is not consulted. */
  lemma ProvidedKeyTakesPrecedence(config: Config, ctx: Option<Context>, key: string)
    requires key != ""
    ensures RequireApiKey(config, ctx, Some(key)).Ok? <==> config.mcpApiKey == "" || key == config.mcpApiKey
  {
  }

  /** The context of the test fixture: request_context.request.headers == {name: value}. */
  function HeaderContext(name: string, value: string): Context {
    Context(Some(RequestContext(Some(RequestObject(Some(HeaderMapping(map[name := value])))))))
  }

  /** The fixture's key is found; headers without either spelling give None; the lower-case spelling is the fallback. */
  lemma ExtractApiKeyExamples()
    ensures ExtractApiKeyFromContext(Some(HeaderContext("X-API-Key", "test-key"))) == Some("test-key")
    ensures ExtractApiKeyFromContext(Some(Context(Some(RequestContext(Some(RequestObject(Some(HeaderMapping(map[]))))))))) == None
    ensures ExtractApiKeyFromContext(Some(HeaderContext("x-api-key", "k"))) == Some("k")
  {
  }
}
