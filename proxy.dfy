/** The development proxy `ProxyHandler` (proxy-server.py): which GET
    requests are forwarded to the Limitless API, the upstream URL they are
    forwarded to, the status and body sent back, the headers every response
    carries, and which access-log lines are printed. Sockets, `urllib`,
    `print` and file serving stay outside: the upstream answer is a
    parameter and static serving is an outcome, not a computation. */
module ProxyServer {
  import opened Wrappers

  type byte = b: int | 0 <= b < 256

  /** Python's `s.startswith(prefix)`. */
  predicate StartsWith(s: string, prefix: string)
  {
    prefix <= s
  }

  /** `t` occurs in `s` starting at index `i`. */
  predicate OccursAt(s: string, t: string, i: nat)
  {
    i + |t| <= |s| && s[i..i + |t|] == t
  }

  /** Python's substring test `t in s`, as that test is usually defined:
      there is a position at which `t` occurs in `s`. */
  ghost predicate Mentions(s: string, t: string)
  {
    exists i: nat :: OccursAt(s, t, i)
  }

  /** The same test, computed by trying each starting position in turn. */
  function Contains(s: string, t: string): bool
    decreases |s|
  {
    if t <= s then true else if |s| == 0 then false else Contains(s[1..], t)
  }

  /** An occurrence in the tail is an occurrence one position later. */
  lemma OccursInTail(s: string, t: string, i: nat)
    requires |s| > 0
    ensures OccursAt(s[1..], t, i) <==> OccursAt(s, t, i + 1)
  {
    if i + 1 + |t| <= |s| {
      assert s[1..][i..i + |t|] == s[i + 1..i + 1 + |t|];
    }
  }

  lemma {:induction false} ContainsIffMentions(s: string, t: string)
    ensures Contains(s, t) <==> Mentions(s, t)
    decreases |s|
  {
    if t <= s {
      assert OccursAt(s, t, 0);
    } else if |s| == 0 {
      assert |t| > 0;
    } else {
      ContainsIffMentions(s[1..], t);
      if Mentions(s[1..], t) {
        var i: nat :| OccursAt(s[1..], t, i);
        OccursInTail(s, t, i);
      }
      if Mentions(s, t) {
        var i: nat :| OccursAt(s, t, i);
        if i > 0 {
          OccursInTail(s, t, i - 1);
        }
      }
    }
  }

  // ----- Routing and the upstream URL -----

  const ApiPrefix: string := "/api/"
  const ApiBase: string := "https://api.limitless.exchange"

  /** Where `do_GET` sends a request. */
  datatype Route = Proxy | Static

  /** `do_GET`: forward anything under `/api/`, serve everything else from
      the working directory. */
  function RouteGet(path: string): (r: Route)
    ensures r == Proxy <==> |path| >= 5 && path[..5] == ApiPrefix
  {
    if StartsWith(path, ApiPrefix) then Proxy else Static
  }

  /** Every path below `/api/` is forwarded, whatever follows the slash. */
  lemma ApiSubpathsAreProxied(rest: string)
    ensures RouteGet(ApiPrefix + rest) == Proxy
  {
    assert (ApiPrefix + rest)[..5] == ApiPrefix;
  }

  /** `/api` itself, and `/apix`, are not under `/api/` and are served
      statically. */
  lemma BareApiIsStatic()
    ensures RouteGet("/api") == Static
    ensures RouteGet("/apix") == Static
  {
    assert "/apix"[4] != ApiPrefix[4];
  }

  /** `self.path[4:]`: the path without its first four characters (empty
      when the path is shorter, as Python's slicing gives). */
  function ForwardedPath(path: string): (s: string)
    ensures |path| >= 4 ==> path[..4] + s == path
    ensures |path| < 4 ==> s == []
  {
    if |path| >= 4 then path[4..] else []
  }

  /** The URL `proxy_api_request` fetches. */
  function UpstreamUrl(path: string): (url: string)
    ensures ApiBase <= url
    ensures url[|ApiBase|..] == ForwardedPath(path)
  {
    ApiBase + ForwardedPath(path)
  }

  /** For a forwarded path the rewrite removes exactly the leading `/api`:
      the part sent upstream starts with `/` and is the rest of the path,
      query string included, character for character. */
  lemma {:induction false} ForwardedPathOfProxied(path: string)
    requires RouteGet(path) == Proxy
    ensures |ForwardedPath(path)| > 0 && ForwardedPath(path)[0] == '/'
    ensures "/api" + ForwardedPath(path) == path
    ensures UpstreamUrl(path) == ApiBase + "/" + path[5..]
  {
    assert path[..4] == "/api" && path[4] == '/';
    assert path[4..] == "/" + path[5..];
  }

  /** The path a forwarded URL came from. */
  function ApiPathOf(url: string): string
    requires ApiBase <= url
  {
    "/api" + url[|ApiBase|..]
  }

  /** The rewrite can be undone, so two forwarded paths never reach the same
      upstream URL. */
  lemma ProxiedRoundTrip(path: string)
    requires RouteGet(path) == Proxy
    ensures ApiPathOf(UpstreamUrl(path)) == path
  {
    ForwardedPathOfProxied(path);
  }

  lemma UpstreamUrlInjective(p: string, q: string)
    requires RouteGet(p) == Proxy && RouteGet(q) == Proxy
    requires UpstreamUrl(p) == UpstreamUrl(q)
    ensures p == q
  {
    ProxiedRoundTrip(p);
    ProxiedRoundTrip(q);
  }

  // ----- Requests and responses -----

  datatype Header = Header(name: string, value: string)

  /** The headers `end_headers` adds to every response. */
  const CorsHeaders: seq<Header> := [
    Header("Access-Control-Allow-Origin", "*"),
    Header("Access-Control-Allow-Methods", "GET, OPTIONS"),
    Header("Access-Control-Allow-Headers", "*"),
    Header("Cache-Control", "no-cache")
  ]

  const JsonContentType: Header := Header("Content-Type", "application/json")

  /** The request `proxy_api_request` builds for the upstream API. */
  datatype UpstreamRequest = UpstreamRequest(url: string, headers: seq<Header>, timeoutSeconds: nat)

  /** What the upstream fetch gave: the body bytes, or the text `str(e)` of
      the exception it raised. */
  datatype Upstream = Fetched(data: seq<byte>) | Raised(error: string)

  /** A response body: bytes relayed verbatim, the JSON object
      `{"error": message}`, or nothing. */
  datatype Body = Bytes(data: seq<byte>) | ErrorJson(error: string) | Empty

  datatype Response = Response(status: int, headers: seq<Header>, body: Body)

  /** The overridden `end_headers`: whatever headers were sent, followed by
      the CORS and caching headers. */
  function EndHeaders(sent: seq<Header>): (hs: seq<Header>)
    ensures |hs| == |sent| + |CorsHeaders|
    ensures hs[..|sent|] == sent && hs[|sent|..] == CorsHeaders
  {
    sent + CorsHeaders
  }

  /** The response carries the four headers that let any page call the
      proxy and keep browsers from caching it. */
  predicate HasCors(hs: seq<Header>)
  {
    forall h :: h in CorsHeaders ==> h in hs
  }

  lemma EndHeadersAddsCors(sent: seq<Header>)
    ensures HasCors(EndHeaders(sent))
  {
    var hs := EndHeaders(sent);
    forall h | h in CorsHeaders ensures h in hs {
      var k :| 0 <= k < |CorsHeaders| && CorsHeaders[k] == h;
      assert hs[|sent| + k] == h;
    }
  }

  /** `do_OPTIONS`: every preflight request is answered 200. */
  function OptionsResponse(): (resp: Response)
    ensures resp.status == 200 && HasCors(resp.headers) && resp.body == Empty
  {
    EndHeadersAddsCors([]);
    Response(200, EndHeaders([]), Empty)
  }

  function UpstreamRequestFor(path: string): (req: UpstreamRequest)
    ensures req.url == UpstreamUrl(path) && req.timeoutSeconds == 10
    ensures req.headers == [Header("User-Agent", "Limitless-Ticker/1.0"), Header("Accept", "application/json")]
  {
    UpstreamRequest(UpstreamUrl(path), [Header("User-Agent", "Limitless-Ticker/1.0"), Header("Accept", "application/json")], 10)
  }

  /** The answer `proxy_api_request` sends for what the upstream gave:
      200 with the upstream bytes unchanged, or 500 with a JSON object whose
      only field is the error text; JSON in both cases, with the CORS
      headers. */
  function ProxyApiResponse(upstream: Upstream): (resp: Response)
    ensures upstream.Fetched? <==> resp.status == 200
    ensures upstream.Raised? <==> resp.status == 500
    ensures upstream.Fetched? ==> resp.body == Bytes(upstream.data)
    ensures upstream.Raised? ==> resp.body == ErrorJson(upstream.error)
    ensures JsonContentType in resp.headers && HasCors(resp.headers)
  {
    var hs := EndHeaders([JsonContentType]);
    EndHeadersAddsCors([JsonContentType]);
    assert hs[0] == JsonContentType;
    match upstream
    case Fetched(data) => Response(200, hs, Bytes(data))
    case Raised(e) => Response(500, hs, ErrorJson(e))
  }

  /** What `do_GET` does with a request. */
  datatype GetOutcome = Forwarded(request: UpstreamRequest, response: Response) | ServedStatically

  /** `do_GET`, given how the upstream API answers each request. */
  function DoGet(path: string, fetch: UpstreamRequest -> Upstream): (out: GetOutcome)
    ensures out.Forwarded? <==> RouteGet(path) == Proxy
    ensures out.Forwarded? ==> out.request == UpstreamRequestFor(path)
    ensures out.Forwarded? ==> out.request.url == ApiBase + "/" + path[5..]
    ensures out.Forwarded? ==> out.response == ProxyApiResponse(fetch(out.request))
  {
    if RouteGet(path) == Proxy then
      ForwardedPathOfProxied(path);
      var req := UpstreamRequestFor(path);
      Forwarded(req, ProxyApiResponse(fetch(req)))
    else
      ServedStatically
  }

  // ----- The access log -----

  const LogMarker: string := "\U{1F4C4} "

  /** `log_message`: the line printed for a log call, if any. The message
      is the text of the first argument, or empty without arguments
      (arguments are given as their `str()` text). Messages mentioning
      `/api/` are suppressed; otherwise those mentioning `.html`, `.js` or
      `.css` are printed; all others are dropped. */
  function LogMessage(args: seq<string>): (line: Option<string>)
    ensures var msg := if |args| > 0 then args[0] else "";
      && (line.Some? <==> !Mentions(msg, "/api/") && (Mentions(msg, ".html") || Mentions(msg, ".js") || Mentions(msg, ".css")))
      && (line.Some? ==> line.value == LogMarker + msg)
  {
    var msg := if |args| > 0 then args[0] else "";
    ContainsIffMentions(msg, "/api/");
    ContainsIffMentions(msg, ".html");
    ContainsIffMentions(msg, ".js");
    ContainsIffMentions(msg, ".css");
    if Contains(msg, "/api/") then None
    else if Contains(msg, ".html") || Contains(msg, ".js") || Contains(msg, ".css") then Some(LogMarker + msg)
    else None
  }

  /** The access-log line of a forwarded request is never printed, whatever
      arguments (`log_request` passes the code and size) follow it. */
  lemma ProxiedRequestLineSuppressed(path: string, rest: string, args: seq<string>)
    requires RouteGet(path) == Proxy
    requires |args| > 0 && args[0] == "GET " + path + rest
    ensures LogMessage(args) == None
  {
    var msg := args[0];
    assert msg[4..4 + 5] == ApiPrefix;
    assert OccursAt(msg, "/api/", 4);
  }

  /** The log filter looks for `/api/` anywhere in the line and not at the
      start of the path, so a static file whose path merely contains `/api/`
      is served statically and yet its log line is suppressed. */
  lemma StaticFileUnderNestedApiSuppressed()
    ensures RouteGet("/docs/api/app.js") == Static
    ensures LogMessage(["GET /docs/api/app.js HTTP/1.1"]) == None
  {
    assert "/docs/api/app.js"[1] != ApiPrefix[1];
    var msg := "GET /docs/api/app.js HTTP/1.1";
    assert msg[9..14] == "/api/";
    assert OccursAt(msg, "/api/", 9);
  }

  /** `.js` also matches `.json`, so the line of a static JSON file (or of
      any line mentioning `.json` and not `/api/`) is printed. */
  lemma JsonLinePrinted(msg: string)
    requires Mentions(msg, ".json") && !Mentions(msg, "/api/")
    ensures LogMessage([msg]) == Some(LogMarker + msg)
  {
    var i: nat :| OccursAt(msg, ".json", i);
    assert msg[i..i + 3] == msg[i..i + 5][..3] == ".js";
    assert OccursAt(msg, ".js", i);
  }
}
