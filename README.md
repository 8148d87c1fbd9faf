# Momentum PWA — a verified model in Dafny

The system has three parts:

- **Producer** (`googletrend_momentum.py`). A script that runs once before the Indian market opens. It:
  - reads the Google Trends daily RSS feed;
  - reads the NSE pre-open snapshot;
  - keeps the usable pre-open rows and sorts them by pre-open change, largest first;
  - flags each symbol that occurs in a trend term;
  - waits until 09:20 IST;
  - fetches a live quote for each of the top 200 movers;
  - writes `data/trending.json`.
- **Page** (`app.js`). It fetches that JSON with a cache-busting query and renders at most 50 cards.
- **Offline cache gateway** (`service-worker.js`). It pre-caches the app shell at install and drops old cache generations at activate. On fetch it serves the data file network-first and everything else cache-first.

The model is organised by module, one file each:

| file | module | models |
|---|---|---|
| `wrappers.dfy` | `Wrappers` | `Option` (JavaScript `undefined`, Python `None`) and `Min`, the length `slice(0, n)` and `head(n)` keep |
| `strings.dfy` | `Strings` | substring search, ASCII `lower`, Python `strip`, decimal rendering of `Date.now()` |
| `cache_api.dfy` | `CacheApi` | the browser's CacheStorage as a class: ordered bucket names and a map of maps, with `open`, `put`, `addAll`, `match` and `delete` |
| `service_worker.dfy` | `ServiceWorker` | the install, activate and fetch handlers as methods on that storage |
| `app.dfy` | `App` | `render`/`loadData`: a pure view model, plus a `Page` class holding `#updatedAt` and the children of `#list` |
| `trends.dfy` | `Trends` | `<title>(.*?)</title>` extraction and `get_google_trending_terms` |
| `preopen.dfy` | `PreOpen` | the row loop, the descending sort and `fetch_nse_preopen` |
| `momentum.dfy` | `Momentum` | `matched`, `fetch_live_quote`, `%FromOpen`, the 09:20 IST wait, the quote loop and `main` |
| `pipeline.dfy` | `Pipeline` | the JSON `main` writes, as the page's `render` reads it |

Outside effects become inputs:

- **Network.**
  - At install, the worker's fetches are an oracle `string -> NetResult` giving each shell URL's answer (a rejection or a response with any status). A fetch event's `HandleFetch` takes one `NetResult`: the answer to its one network request.
  - Each Python request is a reply value (it raised, or it answered with a status and a body).
  - The quote requests are an oracle indexed by row.
- **Clocks.**
  - `Date.now()` is a `nat`.
  - `datetime.utcnow()` is whole seconds (for the wait) and ISO strings (for the written stamps).
- **Floats.** The rounded percentages are oracles `(int, int) -> int`, and prices are whole numbers.

Two behaviours come from the platform rather than the scripts, and are stated here:

- The worker never tests the request method, and it stores every response that resolves. The Cache API itself refuses to `put` a non-GET request or a 206 response. Its `match` finds nothing for a non-GET request, and `addAll` rejects unless every response is 200–299 and not 206. `CacheApi` writes these rules out.
- `caches.match` searches every bucket in creation order, not only the current one.

Points where the code behaves in a way that is easy to misread:

- **Classification.** The worker's data test is a substring test anywhere in the URL, query included (`service-worker.js:29`), not a suffix match on the path.
- **Request method.** Non-GET requests are intercepted and classified like any other. Only the Cache API keeps them out of the cache.
- **Offline fallback.** The network-first fallback and the cache-first lookup use `caches.match`, which searches all buckets. The model lets `HandleFetch` run in any storage state. In the browser a bucket other than the current one reaches the handler only when an activation deletion failed or another page or worker of the same origin created it (CacheStorage is shared by everything on the origin). `MatchAfterActivation` shows that after a completed activation only the current bucket can answer.
- **Offline data.** `FILES_TO_CACHE` (service-worker.js:2-8) does not hold the data file, so install never pre-caches it (`ShellExcludesDataPath`, `DataUrlNotInShell`). Each load also asks for a new `?v=` URL. So an offline load finds only a response stored under its exact URL, which in practice is none (`OfflineReloadMisses`).
- **No qualifying pre-open row.** The "No NSE pre-open data" branch of `main` (googletrend_momentum.py:136-145) is never reached in this case. `pd.DataFrame([]).sort_values("%Change")` raises `KeyError`, so `fetch_nse_preopen` never returns and `main` ends with nothing written (`Momentum.Output.Raised`).

## Model

| member | source | states |
|---|---|---|
| Strings.Contains | googletrend_momentum.py:152 | the search holds exactly when `t` occurs at some index of `s` (Python `in`, JavaScript `includes`) |
| Strings.Lower | googletrend_momentum.py:131 | `lower` keeps the length, maps each character by the ASCII rule, and leaves no upper-case letter |
| Strings.Trim | googletrend_momentum.py:51 | a non-empty stripped term starts and ends with a non-whitespace character |
| Strings.TrimRemovesOnlyEndSpaces | googletrend_momentum.py:51 | `strip` removes only whitespace, only at the two ends, and keeps the middle as it was |
| Strings.Decimal | app.js:13 | the rendering of a time stamp is a non-empty run of digits |
| Strings.DecimalRoundTrip | app.js:13 | reading the rendered time stamp back gives the time stamp |
| Strings.DecimalInjective | app.js:13 | distinct time stamps render to distinct strings |
| CacheApi.Lookup | service-worker.js:43 | `caches.match` finds nothing exactly when no bucket holds the URL; otherwise it finds the entry of the first bucket, in creation order, that holds it |
| CacheApi.FirstMatch | service-worker.js:37 | a non-GET request never matches; a GET request matches by its exact URL |
| CacheApi.LookupSeesOnlyItsUrl | service-worker.js:37 | a lookup depends only on the entries stored under its own URL |
| CacheApi.LookupAfterPutElsewhere | service-worker.js:34 | storing under one URL (such as `?v=a`) never changes what another URL (such as `?v=b`) finds |
| CacheApi.Stored | service-worker.js:12 | after `addAll` every requested URL holds its fetched response, only those keys are added, and other entries are untouched |
| CacheApi.Without | service-worker.js:20 | the names left after deleting one name are the old names except that one |
| CacheApi.CacheStorage.Match | service-worker.js:37 | `caches.match` on the storage: nothing for a non-GET request; for a GET request nothing exactly when no bucket holds the URL, else the entry of the earliest-created bucket that holds it |
| CacheApi.CacheStorage.constructor | service-worker.js:12 | an origin starts with no buckets |
| CacheApi.CacheStorage.Open | service-worker.js:12 | `caches.open` creates an empty bucket at the end of the name list only when the name is new, else changes nothing |
| CacheApi.CacheStorage.Put | service-worker.js:34 | `put` overwrites exactly the one entry of the one bucket when the request is GET and the status is not 206, else changes nothing |
| CacheApi.CacheStorage.Delete | service-worker.js:20 | `caches.delete` removes that bucket and its name and reports whether it existed |
| CacheApi.CacheStorage.AddAll | service-worker.js:12 | `addAll` succeeds exactly when every URL's response is acceptable; then it stores them all, else it stores nothing |
| ServiceWorker.ShellUrls | service-worker.js:2-8 | install requests exactly the five shell paths, in order, on the worker's origin |
| ServiceWorker.IsNetworkFirst | service-worker.js:29 | a request is network-first exactly when its URL contains `/data/trending.json` anywhere |
| ServiceWorker.NetworkFirstAnywhere | service-worker.js:29 | a prefix or a suffix (a query string) around the data path does not change the classification |
| App.DataUrlNotInShell | service-worker.js:2-12 | no URL the page requests for data is among the URLs `addAll` pre-caches at install |
| ServiceWorker.ShellExcludesDataPath | service-worker.js:2-8 | no shell path is classified network-first, so the data file is never pre-cached |
| ServiceWorker.Install | service-worker.js:10-15 | install succeeds exactly when all five shell fetches are acceptable. On success each shell URL holds its response in `momentum-cache-v2` and nothing else changes. On failure the bucket exists (created if new) and nothing was added |
| ServiceWorker.KeptNames | service-worker.js:20 | the names activation spares are exactly those equal to `CACHE_NAME` |
| ServiceWorker.KeptIsCurrentAlone | service-worker.js:19-21 | with distinct names, activation spares the current name alone, or nothing |
| ServiceWorker.Activate | service-worker.js:17-24 | afterwards the only bucket that can remain is `momentum-cache-v2`; it remains exactly when it existed, with its contents unchanged |
| ServiceWorker.Refreshed | service-worker.js:33-34 | the network-first `put` stores the fresh response under the request's URL exactly when the Cache API accepts it, and keeps every other entry |
| ServiceWorker.HandleFetch | service-worker.js:26-45 | network-first: a resolved response is returned and refreshes the current bucket (nothing else changes); a network error returns what `match` finds and changes nothing. Cache-first: a hit is returned with no network call, a miss returns the network result; the cache is not changed |
| ServiceWorker.RefreshedIsFoundAgain | service-worker.js:31-37 | once no other bucket holds the URL, a refreshed data response is what a later offline request for that URL gets |
| ServiceWorker.MatchAfterActivation | service-worker.js:37 | after activation a GET request finds exactly the current bucket's entry under its exact URL, and nothing else |
| App.RequestUrl | app.js:13 | the request URL is the data path followed by a `v` query made only of digits, which read back as the time stamp |
| App.RequestIsNetworkFirst | app.js:13 | every data request the page makes is classified network-first by the worker, whatever its time stamp |
| App.RequestUrlsDistinct | app.js:13 | loads at different milliseconds use different URLs, hence different cache keys |
| App.StampOf | app.js:24-25 | the label uses the IST stamp if truthy, else the UTC stamp if truthy, else `generated_at` if truthy, else "(no timestamp)" |
| App.OrDash | app.js:42-50 | `?? '-'` shows a dash exactly for null and undefined; any other value, 0 included, is shown as is |
| App.CardOf | app.js:37-53 | a card shows the record's symbol, the Google tag exactly when `Matched` is truthy, and each of %ChangePreOpen, Open, PrevClose, LTP, Volume and %FromOpen through `?? '-'` (a dash exactly when null or undefined, else the value) |
| App.ResultsArray | app.js:27 | `arr` is the records when `results` is an array, the empty array when it is falsy, and fails exactly when it is a truthy non-array |
| App.ViewOf | app.js:27-34 | a falsy or empty `results` gives the "no data" card; a truthy non-array makes `render` throw |
| App.CardsAreFirstFifty | app.js:33-34 | a non-empty array gives min(n, 50) cards: card i shows record i, in order |
| App.FalsyResultsMeanNoData | app.js:27-31 | a missing, null or otherwise falsy `results` is treated as the empty array |
| App.Loaded | app.js:13-16 | `render` gets a document exactly when the fetch resolved, the response is ok and the body parses |
| App.FinalList | app.js:12-19 | the list is the error card alone exactly when the fetch failed, the status was not ok, the body did not parse, or `render` threw; otherwise it is what `render` wrote |
| App.Elements | app.js:28-34 | a `render` that completes never leaves the error card or the loading card in the list |
| App.FinalListShape | app.js:8-21 | after a load the list is the error card alone, the "no data" card alone, or 1 to 50 item cards |
| App.OfflineReloadMisses | app.js:13 | after an online load at one time has refreshed the cache, an offline load at another time finds nothing cached for its URL and shows the error card, unless a bucket already held that URL |
| App.OnlineThenOffline | service-worker.js:29-38 | an online data load at one time is served the network's response; an offline load at another time is refused, and the page shows the error card |
| App.Page.Render | app.js:23-56 | `render` writes the label, then the list of the view model; it throws exactly when `results` is a truthy non-array |
| App.Page.LoadData | app.js:8-21 | after `loadData` the list is the final list (no loading card survives), and the label changes only when `render` was reached |
| Trends.CloseFrom | googletrend_momentum.py:50 | the lazy `(.*?)` stops at the first `</title>` reachable without crossing a newline, and fails when there is none |
| Trends.OneTitleDelimited | googletrend_momentum.py:50 | one matched title holds no newline and no `</title>`, and appears wrapped in the tags |
| Trends.TitlesFrom | googletrend_momentum.py:50 | every title found from a position on holds no newline and no `</title>`, and appears wrapped in the tags in the text |
| Trends.FindTitles | googletrend_momentum.py:50 | every title `re.findall` returns holds no newline and no `</title>`, and appears wrapped in the tags in the text |
| Trends.FeedRoundTrip | googletrend_momentum.py:50 | reading back a feed of plain titles gives exactly those titles, in document order |
| Trends.GoogleTerms | googletrend_momentum.py:41-60 | an exception, a non-200 status or an empty body gives no terms; otherwise every title after the first, stripped, in order |
| Trends.TermsOfFeed | googletrend_momentum.py:50-51 | for a feed of plain titles the terms are the item titles, stripped, in order, with the feed's own title dropped |
| PreOpen.KeptExactly | googletrend_momentum.py:84-90 | a row is kept exactly when some item has a truthy symbol, previous close and `iep`, with previous close > 0, and produces it |
| PreOpen.Kept | googletrend_momentum.py:84-97 | the loop keeps at most one row per item, and every kept row has a symbol, a positive previous close and a non-zero open price |
| PreOpen.CollectRows | googletrend_momentum.py:84-97 | the loop appends the qualifying items' rows, in item order |
| PreOpen.Insert | googletrend_momentum.py:99 | inserting into a non-increasing list keeps it non-increasing and adds exactly the one row |
| PreOpen.SortDesc | googletrend_momentum.py:99 | the sorted rows are non-increasing by change and a permutation of the kept rows |
| PreOpen.SortDescSameRows | googletrend_momentum.py:99 | sorting neither adds nor drops a row |
| PreOpen.FetchPreOpen | googletrend_momentum.py:62-101 | an exception, a non-200 status or an unparsable body gives the empty frame. With no qualifying row the sort raises KeyError. Otherwise the result is the sorted, non-empty rows |
| Momentum.AnyContains | googletrend_momentum.py:152 | `any(s in t for t in ts)` holds exactly when `s` occurs in some term |
| Momentum.LowerAll | googletrend_momentum.py:131 | `trends_lower` lowers each term, in order |
| Momentum.Matched | googletrend_momentum.py:148-152 | `matched(s)` holds exactly when lower(s) occurs in some lowered trend term |
| Momentum.MatchFlags | googletrend_momentum.py:154-157 | the `Matched` column has one flag per row, each equal to `matched` of its symbol |
| Momentum.NoTrendsNoMatches | googletrend_momentum.py:156-157 | with no trends every row is unmatched |
| Momentum.PyOr | googletrend_momentum.py:112-113 | Python `a or b` gives `a` when it is truthy, else `b`; `x or x` is `x` |
| Momentum.FetchLiveQuote | googletrend_momentum.py:103-122 | a raised, non-200, empty or unparsable answer gives LTP and Volume None. Otherwise LTP is `lastPrice` and Volume is the metadata volume if truthy, else the price-info volume |
| Momentum.FromOpen | googletrend_momentum.py:188-193 | `%FromOpen` is present exactly when LTP and the open price are both truthy and the float division does not overflow (the bare `except`), and is then the percentage of those two |
| Momentum.FloatDivisionLimitValue | googletrend_momentum.py:191 | the overflow bound is 2^1024 - 2^970: from there a correctly rounded quotient rounds past the largest float, 2^1024 - 2^971 |
| Momentum.OrdinaryLtpNeverOverflows | googletrend_momentum.py:191 | the division can overflow only for an LTP beyond about 2^1024; every smaller LTP gets a `%FromOpen` |
| Momentum.HugeLtpGivesNoFromOpen | googletrend_momentum.py:190-193 | an LTP of about 10^309 against an open price of 5 makes the division raise, and `%FromOpen` is None |
| Momentum.ItemOf | googletrend_momentum.py:185-204 | an item repeats its row's symbol, prices and change, and carries its flag, its quote's LTP and Volume, and the `%FromOpen` of that LTP and the row's open price |
| Momentum.BuildResults | googletrend_momentum.py:182-205 | the loop produces one item per top row, in order, item i from row i, flag i and quote i |
| Momentum.FromOpenOfKeptRow | googletrend_momentum.py:189-193 | for a kept row, `%FromOpen` is present exactly when the quote's LTP is truthy and the division does not overflow |
| Momentum.FailedQuoteGivesNothing | googletrend_momentum.py:118-122 | a failed quote leaves LTP, Volume and `%FromOpen` all None |
| Momentum.TargetOfDay | googletrend_momentum.py:169 | the target is 09:20:00 of the IST day that holds the instant: it lies 9 h 20 min after a midnight at or before the instant, less than a day before it |
| Momentum.WaitSeconds | googletrend_momentum.py:166-174 | the wait runs from UTC+05:30 to 09:20:00 of that IST day. It is 0 exactly when that time is reached or past, otherwise it ends exactly at 09:20, and it never exceeds 9 h 20 min |
| Momentum.SleepSeconds | googletrend_momentum.py:176-178 | the script sleeps exactly when the wait is positive, and then until 09:20:02 IST, two seconds past the target; otherwise it does not sleep |
| Momentum.ResultsFor | googletrend_momentum.py:162 | the output list has min(n, 200) items |
| Momentum.ResultItem | googletrend_momentum.py:182-205 | output item i is built from sorted row i, its `matched` flag and quote i |
| Momentum.Run | googletrend_momentum.py:124-218 | `main`: with no qualifying row it raises. A failed pre-open fetch gives the error document with the start time and the trends. Otherwise the result document lists the top 200 sorted rows with their flags and quotes, after the 09:20 sleep |
| Momentum.ResultsAreTopMovers | googletrend_momentum.py:162 | the results are min(n, 200) items ordered by pre-open change, largest first |
| Momentum.ResultsAreBiggest | googletrend_momentum.py:99-162 | a kept row that is none of the first m results (m up to 200) moved no more than any of them: the results are the biggest movers |
| Momentum.ResultsComeFromKeptRows | googletrend_momentum.py:195-199 | each result repeats the symbol, previous close, open price and change of one kept row |
| Momentum.ResultsFlagTrends | googletrend_momentum.py:200 | each result is flagged exactly when its lowered symbol occurs in a lowered trend term |
| Pipeline.NumOrNull | googletrend_momentum.py:218 | None is written as JSON null and a number as itself |
| Pipeline.RecordOf | googletrend_momentum.py:195-204 | an item reaches the page with its symbol, truthy `Matched` exactly when matched, its pre-open numbers, and null exactly where LTP, Volume or `%FromOpen` is None |
| Pipeline.DataOf | googletrend_momentum.py:136-145 | a run that raised writes no document |
| Pipeline.ErrorDocumentShowsNoData | googletrend_momentum.py:138-142 | the error document shows the "no data" card, stamped with `generated_at` when it is non-empty |
| Pipeline.ResultDocumentCards | googletrend_momentum.py:195-205 | the page shows min(n, 50) cards of the result items, in order. A card carries the Google tag exactly when matched, a dash for LTP, Volume or `%FromOpen` exactly when None, and always the pre-open change |
| Pipeline.ResultDocumentStamp | googletrend_momentum.py:210-215 | the page stamps a result document with its IST time, else its UTC time |
| Pipeline.PageShowsTopMovers | googletrend_momentum.py:162 | the page shows min(n, 50) cards, largest pre-open change first, and a kept row without a card moved no more than any row with one; the 200-row cut never hides a card |

## Left out

- Network traffic (`fetch`, `requests`, sessions, cookies, headers, timeouts) is not modelled. Every answer is a parameter.
- `self.skipWaiting()` and `self.clients.claim()` (service-worker.js:14, 23) change only which pages the worker controls. They have no result that can be stated.
- Promise scheduling is not modelled.
- ServiceWorker.HandleFetch: the network-first branch does not await `cache.put`, and the model takes the put to complete before the handler returns. A racing read is not modelled.
- ServiceWorker.Activate: the deletions run one after another, not concurrently. The end state is the same.
- The Cache API's `Vary` handling, request headers, `ignoreSearch`-style options, opaque responses and URL schemes are not modelled. Keys are whole URL strings.
- Floating-point arithmetic and `round(..., 2)` for `%Change` and `%FromOpen` are not modelled. They are oracle parameters, and prices, LTP and volumes are whole numbers. NaN and infinities are absent. Of the cases in which the `except` around the `%FromOpen` division (googletrend_momentum.py:190-193) fires, only the OverflowError of a whole-number quotient past the float range is modelled (`DivisionOverflows`). The TypeError of a value that is not a number cannot arise, because every value is a number.
- Momentum.FromOpen: the overflow bound is that of Python's correctly rounded integer true division. An LTP that is a float is not modelled; mixed with a huge whole open price, the open price's conversion to float would overflow instead.
- PreOpen.RowOf: the `%Change` division (googletrend_momentum.py:91) has no `try`. For prices whose quotient is past the float range, it would raise out of `fetch_nse_preopen` and end `main` with nothing written. The model gives the oracle's value instead.
- PreOpen.SortDesc: pandas' default quicksort is not stable. The contract promises only order and permutation, and the body fixes one order among equal changes.
- A pre-open `data` that is not a list, and items or `metadata` that are not objects, are not modelled. `body` is the list of items. A missing key and a null both read as None.
- Strings.Lower: only ASCII letters are lowered. Python's Unicode case mapping is not modelled.
- Strings.Trim: strips ASCII whitespace, including the separators 0x1C–0x1F. Python's other Unicode whitespace is not stripped here.
- Momentum.WaitSeconds: works in whole seconds. Microseconds, `total_seconds()`'s fraction, and the printed `int(wait)` are dropped.
- `time.sleep`, the 0.6 s pause between quotes, `datetime.utcnow().isoformat()` and `toLocaleString('en-IN', …)` formatting are not modelled. Time stamps are strings passed in, and the label keeps the stamp value.
- No file is written: neither the JSON (`json.dump`) nor the Excel file (`to_excel`). The quote's `raw` field is never output.
- Console logging is not modelled.
- The DOM and HTML strings are not modelled. Each card is kept as the values it displays.
- The refresh button's disable, label text and 600 ms timer (app.js:58-67) are user interface and not modelled.
- App.Loaded: a body that parses to JSON `null` makes `render` throw on `data.generated_at_ist` before the label is written. The model treats that body as unparsable (`Invalid`), which leaves the same end state: the error card and an unchanged label.
- App.ViewOf: JSON values are whole numbers, strings, booleans, null, arrays of records and an opaque truthy `Composite`. An object with a `length` property is not modelled, nor is a `null` array item, on which `render` throws at `item.Symbol`. Any other non-object item reads as a record of undefined fields, which a `Record` of `Undefined` values represents.
