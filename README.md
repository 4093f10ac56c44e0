# LinkedIn company enrichment: a Dafny model

The server enriches a Google Sheet of company names with each company's
LinkedIn URL, numeric company id and location. For every row that lacks one
of the three output cells, it finds the company's LinkedIn page. To do so it
scrapes a web search: up to three attempts, stopping at the first result page
that has a `linkedin.com/company` link. When scraping finds nothing, it falls
back to the custom search API. It then fetches the profile page and pulls the
id and the location out of its HTML with three regular expressions. Finally
it writes the missing values back into the row. A standalone scraper in
`server/index.js` runs the same search loop, but it rotates a proxy from a
pool, a user agent and a random pause on every attempt.

The model covers four parts:

- **Field extractor** (`patterns.dfy`, `extractor.dfy`). The regular
  expressions are hand-written leftmost-match scanners. Each is proved
  against a declarative definition of "the leftmost match and its capture"
  (`Patterns.IsLeftmost`, `Patterns.OptionalGroupAt`).
- **Link filter and search** (`links.dfy`, `rotation.dfy`, `retry.dfy`,
  `search.dfy`).
  - The retry loops are methods. Each is proved against the functions
    `Retry.FirstFound` (the links of the first page that has any) and
    `Retry.AttemptsUsed` (how many requests are made).
  - Every attempt is recorded as an `Attempt`: the pause before it, and the
    query, user agent and proxy of its request.
- **Proxy pool** (`scraper.dfy`). The module-level `proxies` list is the one
  field of the class `Scraper.ProxyPool`.
- **Sheet reconciliation** (`reconcile.dfy`). The route handler is a method
  that returns its HTTP response and a trace of events. The events are reads
  and writes of the sheet, enrichments of a company name, and pauses. The
  method is proved against the reference trace `Reconcile.Plan`.

The outside world is an input throughout:

- A search result page is `None` when the request threw. Otherwise it is the
  `href` attributes of the page's anchors, in document order.
- A custom search reply, the proxy service's reply and the sheet's replies
  are values of their own datatypes.
- A value of `Math.random()` is a real number in [0, 1).
- `isNumeric` is a parameter of type `string -> bool`.

## Model

| member | source | states |
|---|---|---|
| Patterns.Leftmost | server/controllers/googleSheetsController.js:168-170 | `exec` finds the leftmost match: a match from the scan start, with no match before it, or `None` exactly when nothing matches from there on |
| Patterns.Exec | server/controllers/googleSheetsController.js:168-170 | `exec(...)[1]` is `None` exactly when the expression matches nowhere; otherwise it is the capture of the leftmost match |
| Patterns.LeftmostUnique | server/controllers/googleSheetsController.js:168-170 | the leftmost match is unique: its start and its capture length are determined |
| Patterns.ExecCaptureInClass | server/controllers/googleSheetsController.js:164-165 | a capture of `(\d+)` is non-empty and made of digits; a capture of `([^"]*)` has no quote |
| Patterns.MatchNeedsOpen | server/controllers/googleSheetsController.js:164-166 | an expression matches only in a text that contains its opening literal |
| Patterns.ExecAtHead | server/controllers/googleSheetsController.js:164-165 | round trip: on a text that starts with `open + capture + close`, `exec` returns that capture, whatever follows |
| Patterns.ExecGroupAt | server/controllers/googleSheetsController.js:166 | the greedy optional group `(?:...)?` has exactly one outcome at a position: its capture when it matches there, else absent |
| Patterns.ExecOptionalPair | server/controllers/googleSheetsController.js:166-170 | the location expression yields `None` exactly when it matches nowhere; otherwise it yields the locality of the leftmost match and the optional region right after it |
| Patterns.ExecOptionalPairAtHead | server/controllers/googleSheetsController.js:166-170 | round trip: a text that starts with a locality fragment followed by a region fragment yields both captures |
| Extractor.ExpressionsWellFormed | server/controllers/googleSheetsController.js:164-166 | the three expressions of the source have the shapes the extractor relies on |
| Extractor.IdFrom | server/controllers/googleSheetsController.js:172-177 | the id is the URN capture whenever the URN expression matches; else it is the `currentCompany` capture; else `''`; it is always `''` or a digit string |
| Extractor.JoinLocation | server/controllers/googleSheetsController.js:186-193 | the location is `''` exactly when both parts are empty; with one part empty it is the other part; with both present it is `locality + ', ' + region` |
| Extractor.LocationFrom | server/controllers/googleSheetsController.js:179-193 | the location is `''` when the address expression does not match; otherwise it joins the leftmost match's locality and region, each filtered by `isNumeric` |
| Extractor.ExtractDataFromHtml | server/controllers/googleSheetsController.js:162-200 | the id is `''` or digits: the URN capture when the URN expression matches, else the `currentCompany` capture, else `''`; the location is `''` when the address expression does not match |
| Extractor.NumericPartDropped | server/controllers/googleSheetsController.js:182-193 | a part judged numeric never reaches the location; only the other part can |
| Extractor.UnmarkedPageIsEmpty | server/controllers/googleSheetsController.js:172-195 | a page without any of the opening literals yields an empty id and an empty location |
| Extractor.PrimaryIdRoundTrip | server/controllers/googleSheetsController.js:164-174 | a page that starts with a URN fragment yields that fragment's digits as id |
| Extractor.FallbackIdRoundTrip | server/controllers/googleSheetsController.js:165-176 | a page with no URN literal that starts with a `currentCompany` fragment yields that fragment's digits |
| Extractor.AddressRoundTrip | server/controllers/googleSheetsController.js:166-193 | a page that starts with an address fragment yields that fragment's locality and region, filtered and joined |
| Extractor.NewYorkExample | server/controllers/googleSheetsController.js:182-193 | locality "New York" with the numeric region "94105" gives the location "New York" |
| Links.ExtractLinkedInUrlsFromHtml | server/controllers/googleSheetsController.js:125-135 | the loop that pushes every `href` containing the marker returns the filter `CompanyLinks` of the anchors |
| Links.CompanyLinksMembership | server/index.js:83-93 | a string is returned exactly when it is an anchor's `href` and contains `linkedin.com/company` |
| Links.CompanyLinksAppend | server/controllers/googleSheetsController.js:128-133 | the filter distributes over concatenation, so it keeps the document order of the links |
| Links.CompanyLinksIdempotent | server/controllers/googleSheetsController.js:130-131 | filtering the filter's own output again changes nothing |
| Links.CustomSearchLinks | server/controllers/googleSheetsController.js:112-122 | a failed request, a reply without `items`, and an item without `link` (where `includes` throws) all give `[]` |
| Links.CustomSearchMembership | server/controllers/googleSheetsController.js:115-116 | a string is in the custom search result exactly when every item has a link, it is one of them, and it contains the marker |
| Rotation.RandomIndex | server/index.js:25 | `Math.floor(Math.random() * n)` is a valid index into a non-empty list, and it is the floor: `k <= r * n < k + 1` |
| Rotation.RandomIndexCovers | server/index.js:40 | every index can be drawn |
| Rotation.RandomUserAgent | server/controllers/googleSheetsController.js:137-146 | the user agent is one of the five catalog browsers (every `Browser` value is); which one is stated by `Rotation.UserAgentBand` |
| Rotation.UserAgentBand | server/controllers/googleSheetsController.js:137-146 | the catalog browser at position `k` is sent exactly for the draws in [k/5, (k+1)/5) |
| Rotation.EveryUserAgentDrawn | server/index.js:30-42 | every browser of the catalog is sent for some draw |
| Retry.TryPage | server/controllers/googleSheetsController.js:90-99 | one attempt yields the company links of the page, or none when the request threw |
| Retry.AttemptsUsed | server/controllers/googleSheetsController.js:88-100 | at most as many requests as there are attempts, and at least one |
| Retry.FoundAt | server/controllers/googleSheetsController.js:94-96 | when attempt `n` is the first with links, the loop makes `n + 1` requests and returns that page's links |
| Retry.NoneFound | server/controllers/googleSheetsController.js:100-103 | when no page has links, every attempt is made and the result is `[]` |
| Retry.FirstFoundIsLastAttempt | server/controllers/googleSheetsController.js:88-103 | the result is `[]` exactly when no page has links; otherwise it is the links of the last page requested, and every earlier page had none |
| Retry.FirstFoundAreCompanyLinks | server/controllers/googleSheetsController.js:93-95 | every link the loop returns contains `linkedin.com/company` |
| Scraper.FormatProxies | server/index.js:14 | one `protocols[0]://ip:port` string per entry, in entry order |
| Scraper.ProxyUrl | server/index.js:14 | a proxy URL is the first protocol (or `undefined` when the list is empty), then `://`, the ip, `:` and the port |
| Scraper.ProxyUrlNonEmpty | server/index.js:60 | a formatted proxy is never empty, so `if (proxy)` only tests whether one was drawn |
| Scraper.RandomPause | server/index.js:64 | the pause before each attempt lies in [5000, 10000) ms |
| Scraper.RandomProxy | server/index.js:21-27 | `null` exactly when the pool is empty; otherwise a member of the pool |
| Scraper.AttemptOf | server/index.js:51-64 | an attempt pauses 5 to 10 s and sends the query; it carries a proxy exactly when the pool is not empty, and that proxy is from the pool |
| Scraper.AttemptsForAt | server/index.js:51-53 | attempt `k` uses the `k`-th fresh draws of proxy, user agent and pause |
| Scraper.NextAttempt | server/index.js:52-64 | the imperative construction of the request options, with the proxy agent attached only when a proxy was drawn, equals `AttemptOf` |
| Scraper.ProxyPool.constructor | server/index.js:8 | the pool starts empty |
| Scraper.ProxyPool.FetchProxies | server/index.js:11-18 | a successful fetch replaces the pool with the formatted entries; a failed request, a body without an entry list, or an entry without `protocols` (which makes `map` throw) leaves it unchanged |
| Scraper.ProxyPool.FetchAndExtractData | server/index.js:48-80 | returns the links of the first page that has any, else `[]`; makes exactly `AttemptsUsed` attempts, each with fresh draws |
| Search.Query | server/controllers/googleSheetsController.js:72 | the query is the company name followed by ` company linkedin profile url` |
| Search.QueryInjective | server/controllers/googleSheetsController.js:72 | distinct company names give distinct queries |
| Search.RepeatAt | server/controllers/googleSheetsController.js:82-89 | every attempt of the controller's loop is the same pause and the same request |
| Search.RetryRequest | server/controllers/googleSheetsController.js:88-103 | the loop returns `FirstFound` of the pages and makes `AttemptsUsed` identical attempts |
| Search.FetchAndExtractData | server/controllers/googleSheetsController.js:80-104 | one user agent is drawn before the loop; every attempt waits 10 s and sends no proxy; the result is `FirstFound` |
| Search.GetCompanyUrl | server/controllers/googleSheetsController.js:71-78 | custom search is consulted exactly when scraping found nothing; the URL is `None` exactly when both lists are empty; a URL always contains the marker |
| Search.GetCompanyDetails | server/controllers/googleSheetsController.js:148-160 | a failed request gives the all-empty details; otherwise the page's extracted details; the id is `''` or digits |
| Search.GetIdAndLocation | server/controllers/googleSheetsController.js:208-215 | with no URL: all-empty and no profile request; otherwise one profile request for the resolved URL, which is returned with its details; the scraping attempts and the custom-search fallback are those of `getCompanyUrl` |
| Reconcile.IndexOf | server/routes/googleSheetsRoutes.js:45 | `indexOf` gives -1 exactly when the value is absent; otherwise its first position |
| Reconcile.AllocateOutputColumns | server/routes/googleSheetsRoutes.js:50-66 | the imperative allocation equals the reference `OutputColumns` |
| Reconcile.AbsentMembers | server/routes/googleSheetsRoutes.js:54-66 | the appended headers are exactly the output headers that the header row lacks |
| Reconcile.OutputColumnsPlaced | server/routes/googleSheetsRoutes.js:50-69 | in the updated header row the originals are a prefix; each output index holds its name; the three indices are distinct; a present column keeps its `indexOf` |
| Reconcile.SlotPlaced | server/routes/googleSheetsRoutes.js:55-66 | an output column lives at its allocated index of the updated header row |
| Reconcile.SlotsInOrder | server/routes/googleSheetsRoutes.js:54-66 | missing output columns get increasing indices in ID, Location, URL order, all within the appended part of the header row |
| Reconcile.AppendedInOrder | server/routes/googleSheetsRoutes.js:54-66 | when all three are missing they are appended as ID, Location, URL at `headers.length`, `+1` and `+2` |
| Reconcile.UpdateHeader | server/routes/googleSheetsRoutes.js:68-78 | the header row is written, whole, only when a column was added |
| Reconcile.HeaderWrittenOnce | server/routes/googleSheetsRoutes.js:68-78 | the header row is written exactly once when an output column was missing, and never otherwise |
| Reconcile.Filled | server/routes/googleSheetsRoutes.js:106 | a cell past the end of the column is missing; a present cell is filled exactly when it is not `''` |
| Reconcile.Blanks | server/routes/googleSheetsRoutes.js:106 | a row has no missing output cell exactly when it is complete |
| Reconcile.RowUpdate | server/routes/googleSheetsRoutes.js:108-111 | `rowUpdate` has one value per missing cell |
| Reconcile.BuildRowUpdate | server/routes/googleSheetsRoutes.js:108-111 | the pushes build `RowUpdate` |
| Reconcile.RowUpdateCells | server/routes/googleSheetsRoutes.js:108-111 | `rowUpdate` is empty exactly for a complete row; the id comes first, then the location, and the URL last |
| Reconcile.RowEnrichedIff | server/routes/googleSheetsRoutes.js:106-107 | a row is enriched exactly when one of its output cells is empty or absent; a complete row gets no enrichment, no write and no pause |
| Reconcile.LocationLandsInIdColumn | server/routes/googleSheetsRoutes.js:108-115 | as written, when only the location is missing, the new location is written into the id column |
| Reconcile.ProcessRow | server/routes/googleSheetsRoutes.js:106-123 | one loop iteration produces the events `RowOps` of the row |
| Reconcile.ProcessRows | server/routes/googleSheetsRoutes.js:105-124 | the row loop produces the events of every row, in row order |
| Reconcile.RowsOpsLength | server/routes/googleSheetsRoutes.js:105-123 | three events per incomplete row and none per complete row |
| Reconcile.RowsOpsTriples | server/routes/googleSheetsRoutes.js:107-122 | the row events come as triples: enrichment, write, then a 10000 ms pause |
| Reconcile.RowsOpsWrites | server/routes/googleSheetsRoutes.js:113-120 | every row write targets sheet row `index + 2` in [2, n + 2), from the id column to the URL column; writes go in strictly increasing row order |
| Reconcile.RowsNoHeaderWrites | server/routes/googleSheetsRoutes.js:105-124 | the row loop never writes the header row |
| Reconcile.Flat | server/routes/googleSheetsRoutes.js:86 | `.flat()` of an empty reply is empty |
| Reconcile.FlatAppend | server/routes/googleSheetsRoutes.js:86 | `.flat()` distributes over concatenation: the cells of `a + b` are those of `a`, then those of `b` |
| Reconcile.ColumnValues | server/routes/googleSheetsRoutes.js:101-103 | without `values` the column is `[]`; with one cell per returned row, row `k`'s cell is at position `k` |
| Reconcile.FlatSingleCells | server/routes/googleSheetsRoutes.js:101-103 | when every returned row holds one cell, flattening keeps row `k` at position `k` |
| Reconcile.BlankRowShifts | server/routes/googleSheetsRoutes.js:86 | as written, a blank row in the middle of a column shifts every later value up by one row |
| Reconcile.Plan | server/routes/googleSheetsRoutes.js:45-124 | the trace starts with the header read, then the header write exactly when a column was added, then the last-row lookup |
| Reconcile.PlanLength | server/routes/googleSheetsRoutes.js:68-124 | the trace holds six front events, seven with the header write, plus three per incomplete row |
| Reconcile.GenerateCompanyIdsLocation | server/routes/googleSheetsRoutes.js:33-131 | missing parameters give 400 before any sheet access; an unknown column gives 400 after only the header read; otherwise 200 after exactly the trace `Plan` |
| Reconcile.A1Column | server/routes/googleSheetsRoutes.js:84 | A1 column names have one letter up to Z and at least two after it |
| Reconcile.ColumnLetters | server/routes/googleSheetsRoutes.js:84-98 | `fromCharCode(65 + i)` names the 0-based column `i`, and `fromCharCode(64 + k)` the 1-based column `k`, exactly up to Z |
| Reconcile.SourceColumnRead | server/routes/googleSheetsRoutes.js:45-85 | the source column is read under the letter `65` plus its header's 0-based position |

## Left out

- The OAuth client, the googleapis wrappers (`listAllSpreadsheets`, `getSheetDetails`, `getSheetHeaders`, `getLastRow`) and authentication are not modelled. The handler receives the header row and the last row as inputs.
- HTTP requests, `cheerio` and the JS regular-expression engine are replaced by oracles and by hand-written scanners. URL strings and `encodeURIComponent` are not built; an attempt records the query it sends.
- The 500 responses are not modelled: they come from a thrown googleapis call. A sheet with no header row gives `[]` headers and so the 400 for an unknown column.
- Range strings (`Sheet!A2:A{lastRow}`) are not built. A read records the column's code unit and the last row. The sheet name only guards the 400.
- `isNumeric` is a parameter, because its floating-point coercion is out of scope.
- `Math.random()` draws are parameters. `setTimeout` delays are recorded as pause events.
- Logging, `process.env` and the demo IIFE at the end of `server/index.js` are not modelled.
- The `catch` of `extractDataFromHtml` is not modelled. Its result would be the all-empty details, and no string makes the scanners fail.
- Rotation.RandomUserAgent: returns a `Browser` whose `Signature` is the header string, rather than the string itself.
- Scraper.RandomProxy: takes the pool as a parameter. Scraper.ProxyPool.FetchAndExtractData passes it its own `proxies`.
- Reconcile.GenerateCompanyIdsLocation: the outcome of `getIdAndLocation` for each row is the parameter `enrich`. That operation itself is Search.GetIdAndLocation.
- Links.CompanyLinks and Retry.FirstFound: that their links contain the marker is stated by the membership lemmas, not in their own contracts.
- A request body field that is not a string is not modelled. A field is `None` (absent) or a string, and the empty string counts as missing, as in JavaScript.

## Behaviour as written

- The handler writes `rowUpdate` from the id column onward, so a shorter
  update lands on populated cells (`Reconcile.LocationLandsInIdColumn`).
- Only the missing values are pushed into `rowUpdate`
  (`Reconcile.RowUpdateCells`).
