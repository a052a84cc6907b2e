/** The server's request gate and start-up switch: the `onRequest` API-key check
    (open when no key is configured, and always open for `/health`) and the
    condition under which rate limiting is switched on. */
module ApiKeyGate {
  import opened Wrappers
  import opened JsString

  /** The `x-api-key` header value: absent, a string, or a `string[]`. Node joins a
      repeated header into one string, so the list shape is the code's defensive case. */
  datatype HeaderValue = NoHeader | SingleValue(value: string) | ValueList(values: seq<string>)

  datatype GateOutcome = Continue | Rejected(status: nat, error: string, message: string)

  /** `(request.raw.url || '').split('?')[0]`: the URL up to its first '?'. */
  function RequestPath(url: Option<string>): (path: string)
    ensures '?' !in path && path <= url.GetOr("")
    ensures |path| < |url.GetOr("")| ==> url.GetOr("")[|path|] == '?'
  {
    var raw := OrElse(url, Some("")).GetOr("");
    SplitHead(raw, '?');
    Split(raw, '?')[0]
  }

  /** The values a header delivers, a single value as a one-element list. */
  function HeaderValues(header: HeaderValue): seq<string> {
    match header
    case NoHeader => []
    case SingleValue(v) => [v]
    case ValueList(vs) => vs
  }

  /** The key a request presents: a header value that arrives as an array is judged
      by its first element. */
  function ProvidedKey(header: HeaderValue): (key: Option<string>)
    ensures key.None? <==> |HeaderValues(header)| == 0
    ensures key.Some? ==> key.value == HeaderValues(header)[0]
  {
    match header
    case NoHeader => None
    case SingleValue(v) => Some(v)
    case ValueList(vs) => if |vs| > 0 then Some(vs[0]) else None
  }

  const Unauthorized: GateOutcome := Rejected(401, "UNAUTHORIZED", "invalid or missing X-API-Key")

  /** The `onRequest` hook with the configured `X_API_KEY`. Once a key is
      configured, the "missing or empty" test is subsumed by the equality test:
      a request is rejected exactly when it presents anything but the key. */
  function OnRequest(configuredKey: Option<string>, url: Option<string>, header: HeaderValue): (outcome: GateOutcome)
    ensures outcome == Continue || outcome == Unauthorized
    ensures !Truthy(configuredKey) ==> outcome == Continue
    ensures Truthy(configuredKey) ==>
              (outcome == Unauthorized <==> RequestPath(url) != "/health" && ProvidedKey(header) != configuredKey)
  {
    if !Truthy(configuredKey) then Continue
    else if RequestPath(url) == "/health" then Continue
    else
      var provided := ProvidedKey(header);
      if !Truthy(provided) || provided.value != configuredKey.value then Unauthorized
      else Continue
  }

  /** The `rateLimitEnabled` switch: only the exact text "true" turns it on. */
  predicate RateLimitEnabled(setting: Option<string>): (enabled: bool)
    ensures setting.None? ==> !enabled
    ensures setting.Some? && setting.value != "true" ==> !enabled
    ensures setting == Some("true") ==> enabled
  {
    setting == Some("true")
  }

  // ---------------------------------------------------------------------------
  // Properties
  // ---------------------------------------------------------------------------

  /** A query string does not change the path. */
  lemma PathIgnoresQuery(path: string, query: string)
    requires '?' !in path
    ensures RequestPath(Some(path + "?" + query)) == path
  {
    var url := path + "?" + query;
    assert url == path + ['?'] + query;
    BeforeAfterSeparated(path, query, '?');
    SplitHead(url, '?');
  }

  /** The health URL, with or without a query string, has the path `/health`. */
  lemma HealthPath(query: string)
    ensures RequestPath(Some("/health")) == "/health"
    ensures RequestPath(Some("/health?" + query)) == "/health"
  {
    var health := "/health";
    assert '?' !in health;
    BeforeAbsent(health, '?');
    SplitHead(health, '?');
    PathIgnoresQuery(health, query);
    assert "/health?" + query == health + "?" + query;
  }

  /** `/health` is open with or without a query string and whatever the header. */
  lemma HealthIsOpen(configuredKey: Option<string>, query: string, header: HeaderValue)
    ensures OnRequest(configuredKey, Some("/health"), header) == Continue
    ensures OnRequest(configuredKey, Some("/health?" + query), header) == Continue
  {
    HealthPath(query);
  }

  /** Presenting the configured key passes the gate, on any path. */
  lemma ConfiguredKeyPasses(configuredKey: string, url: Option<string>)
    ensures OnRequest(Some(configuredKey), url, SingleValue(configuredKey)) == Continue
  {
  }

  /** A header value that arrives as an array is judged by its first element. */
  lemma FirstListedKeyDecides(configuredKey: Option<string>, url: Option<string>, first: string, others: seq<string>)
    ensures OnRequest(configuredKey, url, ValueList([first] + others))
            == OnRequest(configuredKey, url, SingleValue(first))
  {
  }

  /** Example: a header sent twice reaches the gate joined as "k, x", which is not the
      key "k", so the request is rejected. */
  lemma JoinedHeaderRejected()
    ensures OnRequest(Some("k"), Some("/validate-address"), SingleValue("k, x")) == Unauthorized
  {
  }

  /** Lookalikes of "true" leave rate limiting off. */
  lemma RateLimitNeedsExactTrue()
    ensures RateLimitEnabled(Some("true"))
    ensures !RateLimitEnabled(None) && !RateLimitEnabled(Some("TRUE"))
    ensures !RateLimitEnabled(Some("True")) && !RateLimitEnabled(Some("1"))
  {
  }
}
