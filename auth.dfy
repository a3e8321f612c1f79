/**
 * The API-key gate run on every request: with a key configured, any path
 * other than the public ones must carry that key in the `x-api-key` header.
 */
module Auth {
  import opened Wrappers
  import JsString

  /** Paths served without a key; compared after the query string is cut off. */
  const PublicPaths: set<string> := {"/health"}

  /** Status and error body of a refused request. */
  const UnauthorizedStatus: nat := 401
  const UnauthorizedError: string := "Unauthorized"

  datatype Decision = Admit | Reject(status: nat, error: string)

  /** `request.url.split('?')[0] ?? request.url`. */
  function RequestPath(url: string): (path: string)
    ensures path <= url && '?' !in path
    ensures |path| < |url| ==> url[|path|] == '?'
  {
    JsString.SplitFirst(url, '?');
    var parts := JsString.Split(url, '?');
    if |parts| > 0 then parts[0] else url
  }

  /**
   * The hook's decision. `apiKey` is the configured key (`undefined` when
   * unset); an empty key is falsy in JavaScript and switches the gate off too.
   * `header` is the `x-api-key` header, absent when the request has none.
   */
  function OnRequest(apiKey: Option<string>, url: string, header: Option<string>): (d: Decision)
    ensures d.Reject? ==> d == Reject(UnauthorizedStatus, UnauthorizedError)
    ensures d.Reject? ==> apiKey.Some? && header != apiKey
  {
    if apiKey == None || apiKey.value == "" then Admit
    else if RequestPath(url) in PublicPaths then Admit
    else if header != Some(apiKey.value) then Reject(UnauthorizedStatus, UnauthorizedError)
    else Admit
  }

  /** The key the configuration accepts: optional, at least eight characters. */
  predicate ValidConfiguredKey(apiKey: Option<string>) {
    apiKey.Some? ==> JsString.Utf16Length(apiKey.value) >= 8
  }

  /** Without a configured key every request is admitted. */
  lemma NoKeyAdmitsAll(url: string, header: Option<string>)
    ensures OnRequest(None, url, header) == Admit
  {
  }

  /** The path is the whole URL when it has no query string. */
  lemma PathWithoutQuery(path: string)
    requires '?' !in path
    ensures RequestPath(path) == path
  {
  }

  /** The path is what comes before the first `?`. */
  lemma {:induction false} PathBeforeQuery(path: string, query: string)
    requires '?' !in path
    ensures RequestPath(path + "?" + query) == path
  {
    var url := path + "?" + query;
    var p := RequestPath(url);
    assert url[|path|] == '?';
    assert p == url[..|p|];
    assert path == url[..|path|];
  }

  /** `/health` is admitted whatever key the request carries, with or without a query. */
  lemma HealthIsPublic(apiKey: Option<string>, header: Option<string>, query: string)
    ensures OnRequest(apiKey, "/health", header) == Admit
    ensures OnRequest(apiKey, "/health?" + query, header) == Admit
  {
    PathWithoutQuery("/health");
    PathBeforeQuery("/health", query);
    assert "/health?" + query == "/health" + "?" + query;
  }

  /**
   * With a key configured and a non-public path, the request is admitted
   * exactly when the header equals the key; otherwise it gets 401 Unauthorized.
   */
  lemma KeyRequired(key: string, url: string, header: Option<string>)
    requires key != ""
    requires RequestPath(url) != "/health"
    ensures OnRequest(Some(key), url, header) == Admit <==> header == Some(key)
    ensures header != Some(key) ==> OnRequest(Some(key), url, header) == Reject(401, "Unauthorized")
  {
  }

  /**
   * Any key the configuration accepts switches the gate on: on a non-public
   * path the request is admitted exactly when the header carries that key.
   */
  lemma ConfiguredKeyIsEnforced(key: string, url: string, header: Option<string>)
    requires ValidConfiguredKey(Some(key))
    requires RequestPath(url) != "/health"
    ensures OnRequest(Some(key), url, header) == Admit <==> header == Some(key)
  {
    assert key != "";
    KeyRequired(key, url, header);
  }

  /** `/healthz`, `/health/` and `/jobs` are not public: without the key they are refused. */
  lemma NearMissesAreGuarded(key: string, header: Option<string>)
    requires key != "" && header != Some(key)
    ensures OnRequest(Some(key), "/healthz", header) == Reject(401, "Unauthorized")
    ensures OnRequest(Some(key), "/health/", header) == Reject(401, "Unauthorized")
    ensures OnRequest(Some(key), "/jobs", header) == Reject(401, "Unauthorized")
  {
    PathWithoutQuery("/healthz");
    PathWithoutQuery("/health/");
    PathWithoutQuery("/jobs");
  }

  /** The first piece of the split always exists, so the `?? request.url` fallback is never taken. */
  lemma SplitFallbackUnreachable(url: string)
    ensures |JsString.Split(url, '?')| >= 1
    ensures RequestPath(url) == JsString.Split(url, '?')[0]
  {
  }
}
