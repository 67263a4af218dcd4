# Limitless market detail page and proxy: a Dafny model

This project models the two pieces of logic in the Limitless ticker
repository that have rules worth stating.

- **The trading panels of the market detail page**
  (`limitless-market-detail-component.tsx`). This covers four things:
  - the probability bar: each side's width is `price * 100` and its label is
    `Math.round(price * 100)`;
  - the payout rule `calculateWinnings`, which is `amount / price`, since each
    share pays $1;
  - the per-panel order entry: a stake set by presets (10, 50, 100) or by
    typing, and a loading flag that allows one simulated trade in flight;
  - the page wiring: the YES panel uses the YES price and reports `('YES',
    amount)`, and the NO panel does the same for NO.
- **The development proxy** (`proxy-server.py`). This covers:
  - which GET paths are forwarded to `https://api.limitless.exchange`;
  - the URL they are rewritten to;
  - the 200/500 response built from the upstream answer;
  - the CORS headers on every response;
  - which access-log lines are printed.

Modules:

- `Wrappers`: an `Option` type.
- `Pricing`: `Market`, `Round`, `DisplayPercent`, `BarWidth`, `MarketInfo`,
  `CalculateWinnings` and their lemmas.
- `TradingPanel`: the specification `Panel`/`Step`/`Run`, the event-trace
  lemmas, and the class `TradingCard`. Its constants `side` and `price` are
  the component's props. Its mutable fields `selectedAmount` and `isLoading`
  are the component's `useState` hooks. `inFlight` is the stake the
  `handleTrade` closure captured at the click, and `reported` records the
  `onTrade` calls. Each of its methods is proved to perform one `Step`.
- `MarketPage`: the class `MarketDetailPage`, which owns two distinct
  `TradingCard`s and the log of trades its `handleTrade` receives. It also
  holds a client walk-through, `ScenarioYesFifty`.
- `ProxyServer`: routing, the URL rewrite, Python's substring test, the
  header set, the responses and the log filter. These are all pure functions.

Modelling choices:

- Prices and stakes are `real`.
- Division by a price of 0 yields `None`. In JavaScript it yields `Infinity`
  (positive stake), `-Infinity` (negative stake) or `NaN` (zero stake).
- `handleTrade`'s 1000 ms wait is split into two events:
  - `Submit`: the click. It captures the stake and sets loading.
  - `Settle`: the timer firing. It calls `onTrade` with the captured stake
    and clears loading.

The model follows the code where a hardened design might differ:

- Percentages are not clamped to [0, 100].
- A typed stake is not validated. Zero, negative and non-preset values are
  all accepted.
- The source has no guard against a zero price. The model's `None` only stands for the non-finite number JavaScript's division then gives.
- There is no failure path for a trade.
- The log filter tests for `/api/` anywhere in the log message, not at the
  start of the path. So a static file under a nested `api/` directory has
  its line suppressed too (`StaticFileUnderNestedApiSuppressed`). Because
  `.js` is a substring of `.json`, JSON files are logged
  (`JsonLinePrinted`).

The click on a disabled trade button is modelled as a `Submit` that does
nothing. A `Settle` with nothing in flight also does nothing. The source
never arms the timer in that state, so this case never occurs there.

## Model

| member | source | states |
|---|---|---|
| Pricing.Round | limitless-market-detail-component.tsx:112 | `Math.round`: the result lies in (x - 1/2, x + 1/2], so it is the nearest integer with halves rounded up |
| Pricing.RoundUnique | limitless-market-detail-component.tsx:112 | no other integer satisfies Round's window, so the contract determines the rounding |
| Pricing.RoundMonotone | limitless-market-detail-component.tsx:112 | rounding preserves order |
| Pricing.DisplayPercent | limitless-market-detail-component.tsx:112 | the label is within one half of `price * 100`, ties up |
| Pricing.PercentInRange | limitless-market-detail-component.tsx:112 | a price in [0, 1] gets a label in [0, 100] |
| Pricing.PercentsOfComplementaryPrices | limitless-market-detail-component.tsx:112 | if yes + no = 1, the two independently rounded labels sum to 100 or 101 |
| Pricing.PercentsSumTo101Iff | limitless-market-detail-component.tsx:120 | with complementary prices, the labels sum to 101 exactly when `yesPrice * 100` has fractional part 1/2; otherwise they sum to 100 |
| Pricing.BarWidth | limitless-market-detail-component.tsx:109 | a side's width is its price scaled to percent (width / 100 is the price); a price in [0, 1] gives a width in [0, 100]. The same expression sizes the NO side at :117 |
| Pricing.BarWidthsFill | limitless-market-detail-component.tsx:109 | the two bar regions total 100% if and only if yes + no = 1 |
| Pricing.MarketInfo | limitless-market-detail-component.tsx:105-123 | the bar: each side's width is its own price scaled to percent and its label is that price's `DisplayPercent`; widths fill it iff the prices are complementary; labels sum to 100 or 101 then; each label lies in [0, 100] for a price in [0, 1] and within 1/2 of its width |
| Pricing.CalculateWinnings | limitless-market-detail-component.tsx:50-52 | a finite payout exists iff the price is nonzero, and payout × price = stake (stake / price shares at $1 each) |
| Pricing.WinningsAgainstStake | limitless-market-detail-component.tsx:50-52 | for a positive stake and price: payout > stake iff price < 1, and payout = stake iff price = 1 |
| Pricing.WinningsDecreaseWithPrice | limitless-market-detail-component.tsx:50-52 | a cheaper side pays more for the same positive stake |
| TradingPanel.PresetsListed | limitless-market-detail-component.tsx:141 | the preset list `amounts` offers each of 10, 50 and 100 once, in increasing order |
| TradingPanel.Step | limitless-market-detail-component.tsx:145-214 | one event of the handlers at :145-151, :180, :204 and :214: loading afterwards iff the event was a click, or it was already loading and the timer did not fire; the stake changes only by an edit, to the edited value; only the timer firing reports, and it reports exactly the trade in flight |
| TradingPanel.Run | limitless-market-detail-component.tsx:145-214 | a run of events reports at most one trade per event and never removes a report; a run ending in a click leaves the panel loading |
| TradingPanel.StakeEditKeepsSubmission | limitless-market-detail-component.tsx:180 | a preset click or typed amount sets the stake to that value and leaves the loading flag, the trade in flight and the reports unchanged |
| TradingPanel.PresetIdempotent | limitless-market-detail-component.tsx:180 | choosing the same preset twice equals choosing it once |
| TradingPanel.LastWriteWins | limitless-market-detail-component.tsx:204 | after any non-empty run of preset and typed edits, the stake is the last one written; nothing else changes |
| TradingPanel.EditsKeepSubmission | limitless-market-detail-component.tsx:204-206 | stake edits never touch the submission state: the handlers at :180 and :204 call only `setSelectedAmount` |
| TradingPanel.SubmitWhileLoadingIgnored | limitless-market-detail-component.tsx:214 | while loading, a click on the disabled trade button changes nothing |
| TradingPanel.DoubleSubmitIsSingle | limitless-market-detail-component.tsx:214 | two clicks in a row act as one |
| TradingPanel.SnapshotIsolation | limitless-market-detail-component.tsx:145-151 | submit from idle, then any stake edits, then settle: exactly the stake at the click is reported, the panel is idle, and the new stake is kept |
| TradingPanel.ReportsAreCaptures | limitless-market-detail-component.tsx:145-151 | over any event sequence, reports plus the trade in flight equal the earlier ones plus the stakes captured by accepted clicks, in order: each accepted click is reported exactly once |
| TradingPanel.CapturesBoundedBySubmits | limitless-market-detail-component.tsx:214 | no more trades are accepted than there were clicks |
| TradingPanel.ReportsOnlyGrow | limitless-market-detail-component.tsx:149 | earlier reports are never removed or altered |
| TradingPanel.TradingCard.constructor | limitless-market-detail-component.tsx:137-138 | a fresh panel has stake 10, is not loading and has reported nothing |
| TradingPanel.TradingCard.PotentialWinnings | limitless-market-detail-component.tsx:143 | the shown payout times the panel's price equals the current stake, and it exists iff the price is nonzero |
| TradingPanel.TradingCard.SelectPreset | limitless-market-detail-component.tsx:180 | sets the stake to the preset; the loading flag, capture and reports are unchanged; matches `Step` |
| TradingPanel.TradingCard.SetCustom | limitless-market-detail-component.tsx:204 | overwrites the stake with the parsed value, unvalidated (`min={1}` at :206 is only a hint); nothing else changes; matches `Step` |
| TradingPanel.TradingCard.Submit | limitless-market-detail-component.tsx:145-146 | accepted iff not loading; if accepted, captures the stake; loading afterwards; matches `Step` |
| TradingPanel.TradingCard.Settle | limitless-market-detail-component.tsx:148-150 | if loading, calls `onTrade` once with the captured stake and appends it to the reports; not loading afterwards; stake unchanged; matches `Step` |
| MarketPage.MarketDetailPage.constructor | limitless-market-detail-component.tsx:349-358 | two distinct fresh panels: YES priced with `yesPrice`, NO priced with `noPrice`, both in the initial state, and an empty log |
| MarketPage.MarketDetailPage.SelectPreset | limitless-market-detail-component.tsx:349-358 | a preset on one side steps that panel only; the other panel is unchanged |
| MarketPage.MarketDetailPage.SetCustom | limitless-market-detail-component.tsx:349-358 | a typed amount on one side steps that panel only; the other panel is unchanged |
| MarketPage.MarketDetailPage.Submit | limitless-market-detail-component.tsx:349-358 | a click on one side steps that panel only; the other panel is unchanged |
| MarketPage.MarketDetailPage.Settle | limitless-market-detail-component.tsx:335-338 | a settled trade reaches `handleTrade` as (that side, captured amount) and is appended to the log; the log stays equal, side by side, to each panel's reports; the other panel is unchanged |
| ProxyServer.ContainsIffMentions | proxy-server.py:60-62 | the computed substring test is true exactly when the needle occurs at some position |
| ProxyServer.RouteGet | proxy-server.py:24-28 | a path is proxied iff its first five characters are `/api/`; otherwise it is served statically |
| ProxyServer.ApiSubpathsAreProxied | proxy-server.py:25-26 | every path `/api/` + anything is proxied |
| ProxyServer.BareApiIsStatic | proxy-server.py:25-28 | `/api` and `/apix` are served statically |
| ProxyServer.ForwardedPath | proxy-server.py:31 | `path[4:]`: the first four characters plus the result give back the path; shorter paths give the empty string |
| ProxyServer.UpstreamUrl | proxy-server.py:32 | the URL is the API base followed by the forwarded part |
| ProxyServer.ForwardedPathOfProxied | proxy-server.py:31-32 | for a proxied path, the forwarded part starts with `/`, `/api` + it is the path, and the URL is base + `/` + the path after `/api/`, query string verbatim |
| ProxyServer.ProxiedRoundTrip | proxy-server.py:31-32 | the path can be recovered from the upstream URL |
| ProxyServer.UpstreamUrlInjective | proxy-server.py:31-32 | two proxied paths never map to the same upstream URL |
| ProxyServer.EndHeaders | proxy-server.py:13-18 | the headers already sent come first, then the four CORS/caching headers |
| ProxyServer.EndHeadersAddsCors | proxy-server.py:13-18 | every response passing through `end_headers` carries all four headers |
| ProxyServer.OptionsResponse | proxy-server.py:20-22 | OPTIONS is always answered 200, with the CORS headers and no body |
| ProxyServer.UpstreamRequestFor | proxy-server.py:35-41 | the upstream request goes to the rewritten URL with a 10 s timeout, and its headers are exactly `User-Agent: Limitless-Ticker/1.0` then `Accept: application/json` |
| ProxyServer.ProxyApiResponse | proxy-server.py:41-54 | status 200 iff the fetch succeeded, with the upstream bytes unchanged; status 500 iff it raised, with a JSON body whose only field is `error` holding the exception text; always JSON content type plus the CORS headers |
| ProxyServer.DoGet | proxy-server.py:24-32 | forwarded iff routed to the proxy; then the request is `UpstreamRequestFor(path)` (the two headers, the 10 s timeout), its URL is base + `/` + the path after `/api/`, and the response is the one built from the upstream answer |
| ProxyServer.LogMessage | proxy-server.py:56-65 | the message is the first argument or empty; it is printed, with the page marker, iff it does not mention `/api/` and mentions `.html`, `.js` or `.css`; otherwise it is dropped |
| ProxyServer.ProxiedRequestLineSuppressed | proxy-server.py:59-61 | the access-log line of every proxied GET is suppressed, whatever other arguments (code, size) follow the request line |
| ProxyServer.StaticFileUnderNestedApiSuppressed | proxy-server.py:25-61 | `/docs/api/app.js` is served statically (the route test at :25-28), yet its log line is suppressed (the filter at :60-61) |
| ProxyServer.JsonLinePrinted | proxy-server.py:62-63 | a message mentioning `.json` and not `/api/` is printed, because `.js` matches |

## Left out

- Rendering: JSX, CSS classes, SVG icons, the highlighting of the selected preset button, and the header and social-proof blocks. They have no behaviour to state.
- `formatCurrency`: a call into `Intl.NumberFormat`. Also left out are `toFixed(2)`, `toLocaleString` and the text of the `console.log` line. The page's log keeps the (side, amount) pair instead.
- `formatTimeRemaining`: it reads the wall clock (`Date.now()`).
- The `HowItWorks` disclosure: a UI-only open/closed flag.
- `sampleMarket` and the market's display fields (question, category, volume, traders, closing time, trending rank). Prices are taken as parameters.
- The 1000 ms `setTimeout` and async scheduling. Settlement is an explicit event, not concurrency.
- CalculateWinnings: does not model IEEE-754 rounding of `amount / price` or `price * 100`. At price 0 it returns `None` and does not distinguish `Infinity` (positive stake), `-Infinity` (negative stake) and `NaN` (zero stake).
- TradingPanel.TradingCard.SetCustom: takes the number that `Number(e.target.value)` produced. The parsing of the field's text, and the `NaN` it can produce, are not modelled.
- `HTTPServer`, `serve_forever` and the `__main__` banner: network plumbing, not modelled.
- `urllib.request.urlopen`: the upstream answer for a request is a parameter (`fetch`). `urlopen` raises `HTTPError` on an upstream 4xx or 5xx status, so such an answer is `Raised`: the client gets the proxy's 500 with the error text, not the upstream status.
- `wfile.write` and the `print` lines of `proxy_api_request` (proxying, success and error): I/O, not modelled.
- The status line plus the `Server` and `Date` headers that `send_response` adds: library behaviour, not modelled.
- `json.dumps` encoding details: library behaviour. The error body is modelled as an object with a single `error` field.
- `SimpleHTTPRequestHandler.do_GET` static file serving: library code. It is the outcome `ServedStatically`.
- A failure that happens after the 200 headers are sent: the handler would then send a second status line. This is not modelled.
- LogMessage: the surrounding `try`/`except` that swallows errors from `str` or `print` is not modelled. Arguments are given as their `str()` text.
