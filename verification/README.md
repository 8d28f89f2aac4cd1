# Daily runners: messaging pipeline model

A Dafny model of the daily-runners service: a set of TypeScript scripts
that render a "trending tokens" image and send it as an in-app message to
the contacts of an Intercom workspace.

The model covers the following parts of the service:

- **The Intercom client** (`IntercomApi`). It covers:
  - construction with defaults;
  - the cursor-paginated contact listing and contact search, under a page budget;
  - the filter that keeps only contacts with role "user";
  - the rule that normalises the continuation cursor;
  - the lookup of the "active" segment;
  - the fallback chain that resolves the active audience.
- **The active-user senders**. `ActiveUserSender` is the library entry point and `ActiveUsersScript` the command-line runner. They cover:
  - option defaults;
  - the credential check;
  - the recipient cap;
  - a one-at-a-time send loop that records a failure and moves on.
- **The daily broadcaster** (`DailyMessage`, with `WorkerPool`). It covers:
  - waiting for the image;
  - the message body;
  - chunks of 25 recipients;
  - a sliding-window pool of five concurrent sends.
- **The daily runner** (`DailyRunner`). It covers:
  - render, then upload with a fallback URL, then send to every contact;
  - chunks of 25, each sent in fixed groups of five that are awaited together.
- **The image host client** (`ImgbbUploader`). It always resolves to a URL.
- **The token feed** (`TrendingTokens`). It covers:
  - the liquidity filter;
  - shaping each pool into a record with field fallbacks;
  - the DEX name table;
  - the per-address token-info cache, in batches of five.
- **The image selection** (`GenerateImage`). It covers:
  - the eligibility filter;
  - de-duplication by lower-cased name;
  - the first five tokens whose image loads;
  - the vertical layout of the rows;
  - the market-cap unit.
- **The scheduler service** (`Scheduler`). It covers:
  - parsing the test recipient list;
  - the test run;
  - when the last run time is recorded;
  - when the next run is due.

`Common`, `Strings` and `Batching` hold shared helpers:
- options and results;
- JavaScript string operations (split, trim, lower-case, `parseInt`);
- the slicing of a list into fixed-size chunks.

## How the environment is modelled

The model does no I/O. Each effect becomes a parameter:

- **HTTP listings**: a script of page responses. The k-th page request is answered by the k-th page of the script: a page of contacts with its cursor, a non-2xx status with its response text, or a request that throws (the fetch rejects, or the body cannot be read) with its error message. A listing that would go on past the script ends as `Unfinished`.
- **A single send**: an oracle from recipient id to `Delivered` or `SendFailed(error)`. The order in which concurrent sends settle is a schedule.
- **The token-info endpoint**: an oracle from address to reply. The same goes for "does this image URL load" and for JavaScript's `Number(...)`, whose `NaN` is `None`.
- **The clock, the formatted date, environment variables, command-line arguments and the file system** are all inputs.

### Behaviours of the code worth knowing

- **Pagination on an empty page.** A listing stops only on an empty cursor or a spent page budget. A page with no items but a live cursor is followed (`IntercomApi.EmptyPageDoesNotStop`).
- **Active-audience fallback.** The `last_seen_at` search is used when no "active" segment exists, when listing segments fails, and also when the segment search throws, because one `try` wraps both calls (`IntercomApi.ListActiveUsers`).
- **The daily runner's concurrency.** The daily runner sends fixed groups of five and waits for each group in full (`DailyRunner.ProcessGroups`). Only sendDailyMessage.ts uses a sliding window (`WorkerPool`). The active-user senders send one recipient at a time.
- **The runner's upload fallback.** The daily runner's own fallback on upload failure is never taken, because the uploader catches every error itself and returns its fallback URL. Both use the same URL (`DailyRunner.RunnerImageAlwaysSet`).
- **Wiring of index.ts.** index.ts imports `runDailyProcess`, `generateImage` and `getMessageContent` from dailyRunner.ts, which exports none of them. The preparation step of a test run is therefore an input: `Scheduler.WiringFailure` is the error it throws as written, and `Scheduler.RunTestProcessAsWired` is the test run with that step. The production run's completion is an input too.

## Model

| member | source | states |
|---|---|---|
| IntercomApi.NewClient | intercom-api.ts:32-45 | Construction succeeds exactly when token and admin id are both non-empty, with the token checked first. Every option that is given, even 0 or false, replaces its default (delay 50, batch 150, pages 0, debug off). |
| IntercomApi.ExplicitZeroIsKept | intercom-api.ts:40-45 | Explicit zero options are kept as zeros; no options at all gives the documented defaults |
| IntercomApi.ToUser | intercom-api.ts:133-139 | The listed user keeps the contact's id, email, name and last-seen time; a missing type becomes "contact" |
| IntercomApi.UsersOf | intercom-api.ts:131-139 | Every contact with role "user" appears as a user, and every user comes from such a contact |
| IntercomApi.UsersOfAppend | intercom-api.ts:131-141 | The role filter distributes over concatenation of pages, so page order is kept |
| IntercomApi.NormalizeNext | intercom-api.ts:149-171 | The next URL is empty (stop) or absolute. A missing cursor, or an object without a url, stops the listing. |
| IntercomApi.NormalizeNextRule | intercom-api.ts:152-166 | Shape by shape: a string starting with "http" is kept, one starting with "/" gets the base URL in front, any other string stops. An object's empty url stops, an absolute url is kept, and any other url value gets the base URL in front. |
| IntercomApi.NormalizeNextIdempotent | intercom-api.ts:152-166 | A normalised URL handed back as a string cursor normalises to itself |
| IntercomApi.CursorShapesAgree | intercom-api.ts:152-166 | A root-relative path, its absolute URL, and either of them wrapped in an object all normalise to the same absolute URL |
| IntercomApi.RelativeWithoutSlash | intercom-api.ts:156-166 | Text that is neither absolute nor root-relative stops the listing when it is a string. When it is an object's url, it is glued to the base URL. |
| IntercomApi.PageLoop | intercom-api.ts:110-181 | The loop makes no more requests than there are scripted responses; a negative (NaN) budget fetches nothing |
| IntercomApi.ApiErrorMessage | intercom-api.ts:123-126 | A failed page's error text starts with "Intercom API error (", the status reads back from what follows as a base-ten number, and the response text ends the message |
| IntercomApi.PageLoopRequests | intercom-api.ts:110-171 | Each request is made with a live cursor inside the page budget. Every request after the first is a GET on the normalised cursor of the previous page. |
| IntercomApi.PageLoopAllOrNothing | intercom-api.ts:110-181 | A completed listing returns the filtered users of exactly the pages it fetched, in order. The first non-2xx or throwing page fails the whole listing with that page's error. |
| IntercomApi.PageLoopStops | intercom-api.ts:110-171 | A listing ends only after a page whose cursor is empty or once the page budget is spent |
| IntercomApi.LaterRequestsAreCursorGets | intercom-api.ts:231-260 | Every request after the first is a body-less GET on an absolute URL; a positive budget bounds the number of requests |
| IntercomApi.Paginate | intercom-api.ts:101-188 | A listing starts with its own first request and respects the page budget, and its later requests follow cursors |
| IntercomApi.PaginateFacts | intercom-api.ts:101-188 | Listing-level summary: the users are the in-order filtered pages, a failure ends at the first error page, and a completed listing ended on an empty cursor or a spent budget |
| IntercomApi.ThrownPageEndsListing | intercom-api.ts:109-181 | A request that throws ends the listing at once, failing it with the thrown message, and no request follows it |
| IntercomApi.EmptyPageDoesNotStop | intercom-api.ts:128-171 | A page with no contacts but a live cursor is followed by another request whenever the budget allows |
| IntercomApi.ListAllUsers | intercom-api.ts:101-121 | The contact listing issues only GETs, starting at /contacts?per_page=<batch size>, within the page budget |
| IntercomApi.SearchContacts | intercom-api.ts:373-407 | A search's first request is a POST to /contacts/search carrying the query and page size. Every later request is a body-less GET. |
| IntercomApi.FirstActiveSegment | intercom-api.ts:358-364 | A segment is found exactly when some segment's name lower-cases to "active", and the id returned is that of the first such segment |
| IntercomApi.ActiveSegmentId | intercom-api.ts:344-368 | A failed segments call gives no id; otherwise the id is that of the first "active" segment |
| IntercomApi.CutoffValue | intercom-api.ts:198-200 | The cutoff is the current Unix time in whole seconds minus days × 86400; a NaN day count is sent as null |
| IntercomApi.ListActiveUsers | intercom-api.ts:193-339 | The segment search is used exactly when an "active" segment with a non-empty id exists and its search does not fail. Otherwise the last_seen_at search with the computed cutoff is used. |
| IntercomApi.SegmentSearchThrowFallsBack | intercom-api.ts:209-226 | When an "active" segment exists but its search fails on the first page, whether by status or by a thrown request, the last_seen_at search is used |
| IntercomApi.NoFallbackToAllUsers | intercom-api.ts:209-338 | The active audience always comes from a search (its first request is a POST to the search URL). A failure can only come from the last-seen search, and exactly when that search fails. |
| ActiveUserSender.OrDefault | active-user-sender.ts:28-33 | A numeric option that is missing, NaN or zero takes the default; any other value is kept |
| ActiveUserSender.ResolveSettings | active-user-sender.ts:27-33 | Window defaults to 30, batch size to 150, and both are never zero; caps default to 0; dry run and debug are on only when given as true |
| ActiveUserSender.ZeroMeansDefault | active-user-sender.ts:28-33 | Explicit zeros for window, cap, pages and batch size resolve to the defaults, unlike the client constructor |
| ActiveUserSender.ClientOptions | active-user-sender.ts:52-57 | The client gets a 300 ms delay and the resolved batch size, page budget and debug flag |
| ActiveUserSender.Truncate | active-user-sender.ts:84-86 | The recipients are a prefix of the audience, of length maxUsers when 0 < maxUsers < audience size and the whole audience otherwise |
| ActiveUserSender.TruncateNoLimit | active-user-sender.ts:84-86 | A cap that is non-positive or not below the audience size keeps everyone |
| ActiveUserSender.FailuresOf | active-user-sender.ts:135-159 | A dry run records no failures. Otherwise there is one entry, with id, email and error, for exactly the recipients whose send failed, and never more entries than recipients. |
| ActiveUserSender.SendAll | active-user-sender.ts:116-160 | Every recipient is attempted exactly once, in order. Successes plus failures equal the recipient count, and the failures are exactly the failed sends. A dry run sends nothing and counts everyone as a success. The loop writes one detailed log line per recipient the detailed-log rule selects. |
| ActiveUserSender.DetailedLogBound | active-user-sender.ts:123 | The detailed progress log covers at most the first five recipients, one per ten after that, and the last one |
| ActiveUserSender.FailureSample | active-user-sender.ts:175-184 | The summary shows the first min(5, n) failures and reports the rest as a count that adds up to n |
| ActiveUserSender.SenderClient | active-user-sender.ts:52-63 | The client built from the environment has the 300 ms delay and the resolved batch size and page budget |
| ActiveUserSender.SendMessagesToActiveUsers | active-user-sender.ts:23-197 | Missing credentials throw. A failed listing is passed on with its error (a status and text, or a thrown message), and an unfinished one is passed on too. Otherwise the total is the capped audience size, the counts add up, and the failure count is the number of failure entries. The failures and ids sent to are those of the send loop. A dry run counts everyone as a success with no failures. |
| ActiveUsersScript.FindWithPrefix | send-messages-to-active-users.ts:33 | Returns the first argument with the prefix, and none exactly when no argument has it |
| ActiveUsersScript.ValueAfterEquals | send-messages-to-active-users.ts:35 | An argument without "=" has no value (NaN) |
| ActiveUsersScript.EnvNumber | send-messages-to-active-users.ts:36-38 | An unset or empty variable gives the fallback; otherwise its base-ten parse |
| ActiveUsersScript.ResolveCli | send-messages-to-active-users.ts:17-56 | A numeric first argument sets the window, else ACTIVITY_DAYS, else 30. --max-users=N sets the cap, else MAX_USERS, else 0. --all-pages forces a zero page budget, else --max-pages=N, else MAX_PAGES, else 5. Debug and dry run come from flag or environment. The message is MESSAGE_CONTENT when set and non-empty, and the default text otherwise. |
| ActiveUsersScript.FlagValueRoundTrip | send-messages-to-active-users.ts:33-35 | A flag written as prefix=N reads back N |
| ActiveUsersScript.ActivityDaysPrecedence | send-messages-to-active-users.ts:20-24 | The window comes from a numeric first argument, then ACTIVITY_DAYS, then 30. A first argument that is a "--" flag does not count as numeric. |
| ActiveUsersScript.MaxPagesPrecedence | send-messages-to-active-users.ts:41-54 | --all-pages beats --max-pages=N, which gives N; without flags MAX_PAGES=M gives M, and with nothing set the budget is 5 |
| ActiveUsersScript.MaxUsersFromFlag | send-messages-to-active-users.ts:33-38 | --max-users=N sets the cap to N |
| ActiveUsersScript.PageBudget | send-messages-to-active-users.ts:65-70 | A parsed budget is passed on unchanged; a NaN budget becomes one that fails the loop guard |
| ActiveUsersScript.NaNBudgetFetchesNothing | intercom-api.ts:110 | With a NaN page budget the loop never runs and the audience is empty |
| ActiveUsersScript.ScriptClient | send-messages-to-active-users.ts:65-76 | The script's client has batch size 150, delay 300, the resolved page budget and the debug flag |
| ActiveUsersScript.RunScript | send-messages-to-active-users.ts:7-170 | Missing credentials exit with the error. A failed listing exits with the listing's error message: the "Intercom API error" text of a non-2xx page, or the message a request threw. A listing that runs past the script stays unfinished, and an empty audience ends without sending. Otherwise the capped audience is attempted: the counts add up, the failure count is the number of failure entries, and a dry run counts everyone as a success. |
| WorkerPool.ProcessNext | sendDailyMessage.ts:139-150 | Starts the next recipient exactly when one is left and a slot is free. Resolves exactly when everything is dispatched and nothing is in flight. Leaves the counts alone. |
| WorkerPool.ProcessNextInv | sendDailyMessage.ts:139-150 | Starting a recipient or resolving keeps every recipient counted exactly once; filling the last free slot leaves the pool full |
| WorkerPool.LaunchInv | sendDailyMessage.ts:166-169 | The start-up loop fills slots until the pool is full or every recipient is dispatched |
| WorkerPool.StartInv | sendDailyMessage.ts:166-169 | After start-up, min(concurrency, n) sends are in flight and nothing has resolved; with concurrency below one nothing starts |
| WorkerPool.FinishInv | sendDailyMessage.ts:152-163 | A settling send is counted once, frees its slot and admits the next recipient, keeping the invariant |
| WorkerPool.RunDrains | sendDailyMessage.ts:152-163 | Each settle removes one unit of remaining work; once it reaches zero the pool resolves with the true counts |
| WorkerPool.PoolDrains | sendDailyMessage.ts:126-171 | Whatever order the sends settle in, a non-empty batch resolves with exactly its successes and failures |
| WorkerPool.NeverResolvesWithoutWork | sendDailyMessage.ts:137-170 | An empty batch, or a concurrency below one, never resolves |
| WorkerPool.BoundedConcurrency | sendDailyMessage.ts:140 | At most `concurrency` sends are ever in flight |
| DailyMessage.WaitForImage | sendDailyMessage.ts:14-35 | Reports ready exactly when the file is non-empty at one of the 30 one-second polls, stopping at the first such poll; otherwise all 30 polls run |
| DailyMessage.ImageHtml | sendDailyMessage.ts:108-116 | With IMAGE_URL the block starts with an img tag on that URL; without it, the placeholder paragraph |
| DailyMessage.MessageShowsImage | sendDailyMessage.ts:100-124 | The body contains the date and the image block: the img tag on IMAGE_URL, or the placeholder |
| DailyMessage.ProcessBatch | sendDailyMessage.ts:126-171 | Given a settle event per recipient, a non-empty chunk yields its true success and error counts; an empty chunk never resolves |
| DailyMessage.DailyClient | sendDailyMessage.ts:48 | The client is built without options, so every page is fetched at the default batch size |
| DailyMessage.SendChunks | sendDailyMessage.ts:66-94 | Totals are the true counts over all contacts, with a pause between consecutive chunks and none after the last |
| DailyMessage.ChunkStep | sendDailyMessage.ts:83-85 | Adding a chunk's counts to the running totals gives the counts of the contacts sent so far |
| DailyMessage.SendDailyMessages | sendDailyMessage.ts:37-98 | Missing token, then missing admin id, then image timeout are fatal, in that order. A listing error, from a non-2xx page or a thrown request, is fatal with its message. Otherwise the totals, chunk count and pauses follow the listed contacts. |
| DailyMessage.TotalsAddUp | sendDailyMessage.ts:97 | Successes and errors add up to the number of contacts |
| Batching.Chunks | sendDailyMessage.ts:67-70 | Chunks concatenate back to the list; each is non-empty and at most the chunk size; all but the last are full; there are none only for an empty list |
| Batching.ChunkCount | sendDailyMessage.ts:67-70 | There are ceil(n / size) chunks |
| Batching.ChunkAt | dailyRunner.ts:92-95 | Chunk i is the slice from i × size up to (i + 1) × size, clipped at the end |
| ImgbbUploader.Upload | imgbb-uploader.ts:19-90 | Missing key, missing file, network error, HTTP error and unusable body each use the fallback. An upload yields a URL exactly on a successful body with a display_url or url, preferring display_url. |
| ImgbbUploader.ResultUrl | imgbb-uploader.ts:85-89 | The resolved URL is never empty, and is the fallback on every failure path |
| ImgbbUploader.UploadAlwaysYieldsUrl | imgbb-uploader.ts:19-90 | The uploader always resolves to a non-empty URL, either the fallback or one the host returned |
| ImgbbUploader.DisplayUrlPreferred | imgbb-uploader.ts:67-78 | display_url wins over url when both are present |
| DailyRunner.RunnerMessageEmbedsImage | dailyRunner.ts:125-141 | The runner's body contains the date and an img tag on exactly the given URL |
| DailyRunner.SettleAll | dailyRunner.ts:159-168 | One success per fulfilled send and one error per rejected send in a group |
| DailyRunner.ProcessGroups | dailyRunner.ts:144-177 | Counts are the true counts of the chunk; there is a pause between consecutive groups only |
| DailyRunner.SendToAll | dailyRunner.ts:70-123 | Totals over all chunks are the true success and error counts of all contacts; the runner pauses once between consecutive chunks and not after the last |
| Scheduler.RunTestProcessAsWired | index.ts:76-139 | A test run as index.ts is wired never reaches the send loop: with at least one valid test id it fails with "generateImage is not a function", and otherwise it returns early |
| DailyRunner.RunDailyProcess | dailyRunner.ts:19-50 | A failed render exits with its error, and a missing output file exits with its own message. Credentials are checked after the upload. A listing error, from a non-2xx page or a thrown request, exits with its message. Otherwise every contact is messaged with the uploaded (or fallback) URL embedded. |
| DailyRunner.RunnerImageAlwaysSet | dailyRunner.ts:30-38 | The runner's fallback URL is the uploader's. The URL used is never empty and always appears in the message. |
| TrendingTokens.DexName | trending-tokens.ts:222-260 | A known DEX id maps to its display name; an empty or unknown id gives "Unknown" |
| TrendingTokens.DexAliases | trending-tokens.ts:226-256 | The versioned ids name the same exchange as the base id; display names are not ids |
| TrendingTokens.FetchTokenInfo | trending-tokens.ts:196-220 | A failed or non-2xx lookup gives an empty image and zero holders; otherwise the image URL, and the holder count or zero |
| TrendingTokens.CoinName | trending-tokens.ts:133-135 | The name is never empty. It is the base token name when there is one, else the part of the pool name before the first "/" when that part is non-empty, else "Unknown". |
| TrendingTokens.CoinNameOfPair | trending-tokens.ts:133-135 | Without a base token name, a pool named "BASE/QUOTE" is called BASE |
| TrendingTokens.MarketCap | trending-tokens.ts:136 | The market cap is market_cap_usd, else fdv_usd, else "0", and never empty |
| TrendingTokens.AddressFromRelationship | trending-tokens.ts:139-140 | Without base_token_address, the relationship id "solana_<mint>" gives the address <mint> |
| TrendingTokens.ProcessPool | trending-tokens.ts:115-194 | A pool without attributes gives the all-unknown record. Name, market cap and DEX are always kept. Without an address nothing is fetched and the other fields are zero. With one, info comes from the cache or exactly one fresh lookup. |
| TrendingTokens.FetchOfIsLookup | trending-tokens.ts:158-165 | Shaping a pool looks up its token address exactly when the pool has attributes and a non-empty address that is not yet cached, and then looks up that address |
| TrendingTokens.CacheIsTransparent | trending-tokens.ts:158-165 | With a cache consistent with the endpoint, a record equals the one a cold lookup gives |
| TrendingTokens.ShapeBatch | trending-tokens.ts:102-106 | A batch yields one record per pool, in order. It fetches only addresses it asks for that are not cached, and every address it asks for is cached or fetched. |
| TrendingTokens.ShapeBatchIsFresh | trending-tokens.ts:102-106 | With a consistent cache a batch's records equal those of cold lookups |
| TrendingTokens.Remember | trending-tokens.ts:160-164 | The cache gains exactly the fetched addresses and stays consistent with the endpoint |
| TrendingTokens.RememberBatch | trending-tokens.ts:158-165 | After a batch the cache holds its old keys plus every address the batch asked for |
| TrendingTokens.ShapeAll | trending-tokens.ts:102-108 | One record per liquid pool. The cache ends with every address asked for. Nothing already cached is fetched. With a consistent cache, the records are the cold-lookup records in order. |
| TrendingTokens.GetTrendingPools | trending-tokens.ts:74-113 | A failed request, a non-2xx status (with its status and text) and a body without a data array are errors that leave the cache alone. Otherwise one record per liquid pool, in order. |
| TrendingTokens.WarmCacheFetchesNothing | trending-tokens.ts:158-165 | A batch whose addresses are all cached makes no lookups |
| GenerateImage.FindIndex | generateImage.ts:47 | Returns the first position whose lower-cased name matches the key, or the length when none does |
| GenerateImage.DedupeKeepsFirsts | generateImage.ts:46-48 | Every kept token is the first token of its lower-cased name |
| GenerateImage.DedupeDistinct | generateImage.ts:46-48 | No two kept tokens share a lower-cased name |
| GenerateImage.DedupeCovers | generateImage.ts:46-48 | Every name of the input is represented among the kept tokens |
| GenerateImage.DedupeOrdered | generateImage.ts:46-48 | The kept tokens come in the order of their first occurrence in the input |
| GenerateImage.Dedupe | generateImage.ts:46-48 | Keeps the first token of each lower-cased name and no other, covering every name, in the order of first occurrence |
| GenerateImage.FirstUniqueOrdered | generateImage.ts:37-49 | The first unique eligible tokens have distinct names and keep the feed's order |
| GenerateImage.FirstUniqueNonEmpty | generateImage.ts:37-49 | A feed with an eligible token yields at least one candidate |
| GenerateImage.Candidates | generateImage.ts:37-49 | The candidates are the first min(20, n) tokens of the de-duplicated eligible feed, where n is its length. Each is an eligible token of the feed, no two share a lower-cased name, they keep the feed's order, and there is at least one whenever the feed has an eligible token. |
| GenerateImage.CollectLoadable | generateImage.ts:52-60 | The collected tokens are the first five of the candidates whose image loads, in order |
| GenerateImage.CollectedTokens | generateImage.ts:52-60 | At most five tokens, each a loading candidate. Fewer than five only when every loading candidate was taken. |
| GenerateImage.FilterKeepsDistinct | generateImage.ts:46-60 | Dropping tokens that do not load keeps the names distinct |
| GenerateImage.RowsFitTheBox | generateImage.ts:62-64 | With at most five rows of 140 pixels, the list lies inside the box and is vertically centred |
| GenerateImage.RowsDoNotOverlap | generateImage.ts:67-68 | Consecutive rows are at least one row height apart |
| GenerateImage.NameRightOfImage | generateImage.ts:15-17 | The name column starts at x = 292, right of the token image |
| GenerateImage.CapMagnitude | generateImage.ts:103-108 | Caps of a million or more are shown in millions, caps from a thousand in thousands, and the rest (and NaN) in units |
| GenerateImage.MagnitudeMonotone | generateImage.ts:103-108 | A larger cap never gets a smaller unit |
| GenerateImage.EligibleCapsAreLarge | generateImage.ts:38-39 | A cap over the eligibility bound of 100000 (so every drawn token's cap) never shows in units |
| GenerateImage.Layout | generateImage.ts:62-68 | Row i shows the i-th collected token at its computed height with its cap unit |
| GenerateImage.LayoutIsPlaced | generateImage.ts:62-68 | At most five rows are all inside the box, in order, without overlap |
| GenerateImage.SelectedTokens | generateImage.ts:37-60 | The drawn tokens are at most five eligible tokens of the feed whose images load, with distinct names |
| GenerateImage.SelectionIsDrawable | generateImage.ts:24-114 | The selected tokens laid out form a drawable picture |
| GenerateImage.DrawTrendingTokensImage | generateImage.ts:24-132 | A failed feed is rethrown. Otherwise the picture is the layout of the selected tokens; its rows are drawable, and their number is five or every candidate whose image loads, whichever is smaller. |
| Scheduler.ParseTestUserIds | index.ts:85 | Every parsed id is non-empty, trimmed and free of commas |
| Scheduler.ParseJoinRoundTrip | index.ts:85 | Ids that are non-empty, trimmed and comma-free, written comma-separated, parse back to themselves in order |
| Scheduler.SendToTestUsers | index.ts:123-134 | Every test id is attempted once, in order, and the success count is the number of delivered sends |
| Scheduler.RunTestProcess | index.ts:76-139 | An unset id list returns early, as does a list with no valid ids. A failed preparation and a client that cannot be built are rethrown. Otherwise every id is attempted. |
| Scheduler.AfterScheduledRun | index.ts:54-73 | The last run time becomes now exactly when the run returned without throwing, and is unchanged otherwise |
| Scheduler.NextRunTest | index.ts:39-42 | In test mode the next run is a minute after the last run, or after now when there was none |
| Scheduler.NextRunProduction | index.ts:44-49 | In production the next run is a midnight UTC later than now by at most a day |
| Scheduler.NextRunProductionUnique | index.ts:44-49 | Exactly one instant is a UTC midnight later than now by at most a day |

## Left out

- Sending one message (intercom-api.ts:59-96): the POST to /messages is an oracle from recipient id to outcome, as are its error text and rethrow.
- Timers and pacing: the rate-limit delays between pages, the 200 ms and 1 s pauses between sends and chunks, the image wait's extra second, and wall-clock timing. Pauses are counted where the contract is about them.
- Console output, debug logging, progress percentages and estimated times: observability only. The one exception is which recipients get a detailed progress line in the active-user sender (`ActiveUserSender.SendAll`'s `detailed`, bounded by `ActiveUserSender.DetailedLogBound`).
- Floating point and formatting: `parseFloat(reserve_in_usd) >= 1000` and `Number(...)` are oracles. The `toFixed` texts of volume, change and market cap are not built; only the unit of the market cap is modelled.
- Rendering: reading the template, fonts, masks, compositing and writing output.png (Jimp), and whether an image URL loads (an oracle).
- Running the render script (`execSync`) and the file system checks: inputs to the runner.
- The test message of index.ts (the test-mode banner with a timestamp around the runner's body): the message text is not part of the test run's contract.
- The Express health page, the cron schedules and `toLocaleString` formatting in index.ts: the schedule is modelled as the next-run instant only.
- Locale dates: the formatted date is a parameter.
- Case folding and trimming: ASCII lower-casing and the common whitespace characters, not full Unicode.
- TrendingTokens.DexName: an id that names a property of every JavaScript object (such as "constructor") is treated as unknown. In the source it returns that property, which is not a string.
- DailyRunner.ProcessGroups: requires a group size of at least one. With zero the source loops forever, and the only caller passes five.
- DailyRunner.RunDailyProcess: `process.exit(1)` is the `ExitFailure` outcome; the runner's catch around the upload is not modelled as a path, because the uploader never throws.
- TrendingTokens.ProcessPool: the catch block of `processPool` (trending-tokens.ts:179-193) is not modelled as a path, because every access in its body is guarded and the token-info lookup never throws.
- Scheduler.RunTestProcess: the image generation and upload before the client is built are one input step, because of the wiring of index.ts described above.
