# RBZ rates pipeline, modelled in Dafny

This project models the core of a daily scraper for the Reserve Bank of Zimbabwe's rates. The scraper does the following:
- It reads the USD/ZWG exchange quotation and the Mosi-oa-Tunya gold-coin prices from the bank's home page.
- When the page has no gold prices, it falls back to the bank's gold-coin PDF for the day.
- It stores both in a local SQLite database.
- It pushes a new snapshot document to a MongoDB `fx-rates` collection.
- After a successful push, it evicts the Redis cache keys for the day.
- It logs every run.
- It runs only on Zimbabwean business days, read from a cached public-holiday calendar.

The modules follow the repository's files:

- `Wrappers`: `Option`, and the `Outcome` of a step that may raise (`AttributeError`, `IntegrityError`, `KeyError`).
- `Text`, `Dates`: Python's string operations and `datetime.date` (ISO text, weekday) as far as the core uses them.
- `Quotes` (lib/scraper.py): the exchange and gold dictionaries passed between steps; a field is `None` when its key is absent.
- `Extract` (lib/scraper.py): `_parse_dd_mm_yyyy`, the row scans of the two DOM extractors, the PDF address, and the PDF date and line scan.
- `Scraper` (lib/scraper.py): `_scrape_from_webpage`, `scrape_rates` and `run`, as methods of `RateScraper` over the shared store.
- `LocalStore` (lib/db.py): `RatesDatabase` as a class whose tables are maps and a sequence.
- `Holidays` (lib/holidays.py): `ZimbabweHolidays`: the weekend rule, the cached holiday dates, and the fetch-on-demand.
- `Remote` (lib/mongo.py): `MongoStorage`: the URI rules, the suffix rule, and `update_fx_rates` over a sequence of documents.
- `Cache` (lib/cache.py): `RedisCache`: the pattern rules, `_is_date_relevant` over `urlparse`/`parse_qs`, and the eviction loop.

Code that changes state becomes a method that changes a class's fields:
- the store's tables;
- the MongoDB collection, held as a `seq` of documents;
- the Redis key space, held as a `set`.

Each such method's contract ties the new state to the old one. The decisions themselves are functions with lemmas about them:
- which row wins;
- which date a quotation carries;
- whether MongoDB skips or inserts;
- whether a key is relevant to a date.

The outside world comes in as parameters: the browser session's outcome, the PDF response and its text, the environment variables, the servers' answers, the clock and Python's `float()`.

Some behaviour of the source is modelled as written:
- An exchange row whose bid parses but whose ask or avg does not still yields a quotation, and `scrape_rates` then raises `KeyError` before anything is stored (`Scraper.IncompleteRowRaises`).
- An exchange quotation without a header date is stored under the run's own day, but MongoDB declines it, so no eviction follows (`Scraper.UndatedExchangeIsNotSynced`).
- The PDF path stores only USD, ZWG and ZAR, and the upsert writes NULL into the other price columns of that day's row.
- A header date alone is enough to make a gold quotation, on the page and in the PDF.
- Cache eviction is keyed on the run's day, not on the quotation's date.
- On the page the first row per currency wins. In the PDF the last label wins.

## Model

| member | source | states |
|---|---|---|
| `Extract.FirstDmy` | lib/scraper.py:98 | the search finds the first position holding a `DD[-/]MM[-/]YYYY` token, and none exists before it; None when no position holds one |
| `Extract.DmyText` | lib/scraper.py:97-104 | the text written for a date is a ten-character token the parser recognises at position 0 |
| `Extract.DmyTextValue` | lib/scraper.py:99-101 | a token written for a date reads back as that date, with either separator |
| `Extract.FoundToken` | lib/scraper.py:98-104 | the parser's answer is decided by the first token alone |
| `Extract.DmyRoundTrip` | lib/scraper.py:97-104 | a date written after digit-free text, followed by anything, is parsed back exactly |
| `Extract.FirstDmyFrom` | lib/scraper.py:98 | a token with no token before it is the one the search returns |
| `Extract.InvalidFirstTokenHidesLater` | lib/scraper.py:98-104 | an invalid first token (31-02-2025) makes the parse None even though a valid token follows |
| `Extract.HeaderRateDate` | lib/scraper.py:113-120 | the header's `rate_date` is present exactly when the captured token parses, and its ISO text reads back as that date |
| `Extract.ApplyPairRow` | lib/scraper.py:125-131 | a USD/ZWG row sets the pair and leaves the date and the source unchanged |
| `Extract.ExtractExchangeRates` | lib/scraper.py:122-135 | the loop with its `break` computes the row-scan specification |
| `Extract.ScanExchangeShape` | lib/scraper.py:122-133 | the scan keeps the date and the source, and sets a bid only together with the pair |
| `Extract.ExchangeQuoteShape` | lib/scraper.py:110-135 | a quotation from the page has the USD/ZWG pair, a bid, the header's date and no source |
| `Extract.NoPairRowNoQuote` | lib/scraper.py:122-135 | without a USD/ZWG row the dictionary is unchanged |
| `Extract.FirstCompleteRowDecides` | lib/scraper.py:122-133 | the first row whose three prices all parse supplies bid, ask and avg; later rows are ignored |
| `Extract.IncompleteRowStillQuotes` | lib/scraper.py:125-135 | a row with a readable bid and an unreadable ask still yields a quotation, holding a bid but no ask and no avg |
| `Extract.WithCoinPrice` | lib/scraper.py:188-192 | setting one coin's price leaves every other key unchanged |
| `Extract.TokenCells` | lib/scraper.py:170-181 | the cells of a digital-token row never touch a standard currency, the date or the source |
| `Extract.TokenLastCellWins` | lib/scraper.py:170-181 | among the cells the row reaches, the USD token price is that of the last cell naming USD with a number, and the ZiG price that of the last cell naming ZIG or ZWG (and not USD) with a number |
| `Extract.TokenUntouched` | lib/scraper.py:170-181 | cells that give no price of a kind leave that kind's price as it was |
| `Extract.TokenRowStops` | lib/scraper.py:176-181 | a number that does not parse ends the row: the cells before it are applied and none after it |
| `Extract.ApplyGoldRow` | lib/scraper.py:155-195 | a row never changes the date, the source or the address |
| `Extract.ApplyGoldRowPrice` | lib/scraper.py:184-193 | a coin row sets its coin's price only when that coin has none yet, to the price the row shows |
| `Extract.ExtractGoldRates` | lib/scraper.py:153-197 | the loop, with its inner loop over the token cells, computes the gold row-scan specification |
| `Extract.CoinPriceSticks` | lib/scraper.py:188 | once a coin has a price, no later row changes it |
| `Extract.FirstCoinRowDecides` | lib/scraper.py:184-193 | a coin's price is that of the first row labelled with the coin |
| `Extract.ScanGoldKeepsHeader` | lib/scraper.py:143-197 | the gold scan keeps the header date, the source and the address |
| `Extract.HeaderDateAloneIsAQuote` | lib/scraper.py:139-197 | a parsable header date alone makes the gold result non-None |
| `Extract.MonthNumber` | lib/scraper.py:251 | a number from 1 to 12 is given exactly to the `%B` name of that month, and 0 exactly to a text that names no month |
| `Extract.MonthNamesDistinct` | lib/scraper.py:251 | each month's `%B` name maps back to its own number |
| `Extract.GoldPdfUrlExample` | lib/scraper.py:249-251 | 9 December 2025 gives `.../Mosi-Rates/2025/December/MOSI_OA_TUNYA_PRICES_9_DECEMBER_2025.pdf` |
| `Extract.GoldPdfUrlInjective` | lib/scraper.py:249-251 | two dates with the same PDF address are the same date |
| `Extract.MonthFromMatches` | lib/scraper.py:269 | the month picked at a position is one whose name is written there, in any case; with none picked, no month name is written there |
| `Extract.DmyWordsAt` | lib/scraper.py:269 | a `d MONTH yyyy` match has a month from 1 to 12, a day of at most two digits and a year of four |
| `Extract.PdfRateDate` | lib/scraper.py:268-276 | the PDF's `rate_date` is present only as the ISO text of a valid date |
| `Extract.PdfDateTextAt` | lib/scraper.py:269-273 | a date printed as `d MONTH yyyy` anywhere in the text is a match of the pattern with that day, month and year |
| `Extract.PdfDateRoundTrip` | lib/scraper.py:268-276 | a date printed as `d MONTH yyyy` after digit-free text is read back as that date |
| `Extract.NumberAfterFirst` | lib/scraper.py:281-290 | the number after a label is that of the first of the next four lines that parses; none is found when none parses |
| `Extract.ScrapeGoldFromPdf` | lib/scraper.py:253-294 | computes the PDF specification `GoldFromPdf`: None unless the answer is a readable PDF and the date, address and line scan give more than two keys |
| `Extract.ScanPdf` | lib/scraper.py:278-291 | the loop over the lines, and the inner loop over the next four lines with its `break`, compute the line-scan specification |
| `Extract.ScanPdfKeeps` | lib/scraper.py:278-291 | the line scan changes only the USD, ZAR and ZWG prices |
| `Extract.PdfQuoteShape` | lib/scraper.py:256-276 | a PDF quotation needs a 200 answer starting with `%PDF`, names source `pdf` and its address, and has no GBP, EUR or token price |
| `Extract.PdfQuoteWhen` | lib/scraper.py:265-293 | a readable PDF gives a quotation exactly when it yields a date or a price |
| `Extract.ApplyPdfLinePrice` | lib/scraper.py:279-290 | a label line with a number after it sets that coin's price; no other line changes it |
| `Extract.PdfPriceUntouched` | lib/scraper.py:278-291 | lines that give a coin no number leave its price alone |
| `Extract.PdfLastLabelWins` | lib/scraper.py:278-291 | a coin's price is the number after the last label line for it that has one |
| `Scraper.WebpageQuoteShape` | lib/scraper.py:199-245 | the page's exchange dictionary has a bid and the header date, and is tagged `webpage` exactly when the gold tab was found; gold exists only behind the tab and is always tagged |
| `Scraper.GoldFromPageShape` | lib/scraper.py:137-197 | the page's gold dictionary carries its header date and no source or address |
| `Scraper.PlanDatesParse` | lib/scraper.py:305-324 | every `rate_date` that `scrape_rates` converts is valid ISO text, so `date.fromisoformat` never raises there |
| `Scraper.PlanGoldSource` | lib/scraper.py:310-324 | stored gold is tagged `webpage`, or else `pdf` with the PDF's address and no GBP or EUR price |
| `Scraper.PdfOnlyAsFallback` | lib/scraper.py:320-324 | the PDF is requested exactly when the page gave no gold, and otherwise its answer is irrelevant |
| `Scraper.IncompleteRowRaises` | lib/scraper.py:304-308 | a USD/ZWG row with a readable bid and an unreadable ask makes `scrape_rates` raise `KeyError` |
| `Scraper.UndatedExchangeIsNotSynced` | lib/scraper.py:304-342 | an undated quotation is stored under the run's day, and MongoDB declines it whatever the latest document |
| `Scraper.RateScraper.constructor` | lib/scraper.py:30-35 | one store, opened over every table `rates.db` already holds, is shared by the holiday calendar, the MongoDB client and the Redis cache |
| `Scraper.RateScraper.ScrapeRates` | lib/scraper.py:298-346 | `KeyError` with nothing written when a price is missing; otherwise the exchange and gold rows are stored under their dates, the push happens only with an exchange quotation, eviction for today follows only a successful push, and one run row records what was found |
| `Scraper.RateScraper.StoreAndPublish` | lib/scraper.py:304-344 | given the page's two dictionaries: `KeyError` with nothing written when the exchange dictionary lacks a price; otherwise the result holds the page's exchange and the page's gold or else the PDF's, and the rows, the push, the eviction and the run row are as for `ScrapeRates` |
| `Scraper.RateScraper.StoreRows` | lib/scraper.py:306-324 | the exchange row is stored under its date with source `webpage`, then the gold row from the page or else from the PDF; the run log and the other tables are untouched |
| `Scraper.RateScraper.StoreGold` | lib/scraper.py:310-324 | the page's gold row is stored with source `webpage`; only without it is the PDF requested, and its row is stored with three prices and source `pdf` |
| `Scraper.RateScraper.Publish` | lib/scraper.py:326-342 | the MongoDB insert happens exactly when `update_fx_rates` decides to insert, and eviction happens only after it |
| `Scraper.RateScraper.PublishAndLog` | lib/scraper.py:326-344 | the push and eviction as above, then one run row appended with a fresh id; the rate tables are untouched |
| `Scraper.RateScraper.Run` | lib/scraper.py:348-376 | over the corrected holiday gate (as written, every weekday raises `AttributeError`: `Holidays.BusinessDayAsWritten`): skipped exactly when the day is not a business day, with weekends always skipped; already scraped exactly when not forced and both of today's rows exist; otherwise the scrape's result, with the rows under their dates, the MongoDB push exactly when `update_fx_rates` inserts, the eviction after it and one run row, as for `ScrapeRates` (`ScrapeWrote`); no rate row, run row, MongoDB document or cache eviction unless it scrapes, though the holiday gate may refresh the year's holiday cache |
| `Scraper.RateScraper.ScrapeUnlessDone` | lib/scraper.py:362-376 | after the gate: already scraped exactly when not forced and both of today's rows exist, and then nothing changes; otherwise the scrape's result and effects, as for `ScrapeRates` |
| `LocalStore.HolidayRows` | lib/db.py:238-252 | `cache_holidays` writes one row per fetched holiday, with its date and the write time |
| `LocalStore.RowDates` | lib/db.py:254-260 | `get_cached_holidays` lists the rows' dates in order |
| `LocalStore.FreshForSevenDays` | lib/db.py:262-281 | a cache written at `t` is fresh exactly while less than seven whole days have passed |
| `LocalStore.RatesDatabase.constructor` | lib/db.py:23-98 | opening the database keeps every row the file already holds: the credentials, both rate tables, the run log with its id counter, and the holiday cache |
| `LocalStore.RatesDatabase.SetCredential` | lib/db.py:103-115 | afterwards the key reads back as the value, and every other key is unchanged |
| `LocalStore.RatesDatabase.GetCredential` | lib/db.py:117-124 | the stored value, or None when the key is absent |
| `LocalStore.RatesDatabase.DeleteCredential` | lib/db.py:126-132 | afterwards the key reads as None, and every other key is kept |
| `LocalStore.RatesDatabase.LogScrapeRun` | lib/db.py:136-150 | one row is appended, with an id above every earlier id; existing rows are unchanged |
| `LocalStore.RatesDatabase.HasSuccessfulGoldScrape` | lib/db.py:152-158 | true exactly when a gold row exists for the date |
| `LocalStore.RatesDatabase.HasSuccessfulExchangeScrape` | lib/db.py:160-166 | true exactly when an exchange row exists for the date |
| `LocalStore.RatesDatabase.SaveGoldRates` | lib/db.py:170-202 | upsert by date, with every price column replaced, so defaults become NULL |
| `LocalStore.RatesDatabase.GetGoldRates` | lib/db.py:204-212 | the row for the date, or None |
| `LocalStore.RatesDatabase.SaveExchangeRates` | lib/db.py:214-226 | upsert by date; the pair stays USD/ZWG |
| `LocalStore.RatesDatabase.GetExchangeRates` | lib/db.py:228-234 | the row for the date, or None |
| `LocalStore.RatesDatabase.CacheHolidays` | lib/db.py:238-252 | replaces exactly that year's rows; a repeated date raises `IntegrityError` and the year's rows are rolled back |
| `LocalStore.RatesDatabase.GetCachedHolidays` | lib/db.py:254-260 | the year's cached dates, or empty |
| `LocalStore.RatesDatabase.HasValidHolidaysCache` | lib/db.py:262-281 | true exactly when the year has rows, the first `fetched_at` parses, and its age in whole days is below 7 |
| `Holidays.FetchedHolidays` | lib/holidays.py:21-33 | the list only on a 200 reply with a JSON body; otherwise empty, so the gate fails open |
| `Holidays.HolidayTextMatchesDate` | lib/holidays.py:44 | the ISO text test is a date test: the text is listed exactly when some entry reads as the date |
| `Holidays.BusinessDayAsWritten` | lib/holidays.py:35-53 | as written, a weekend gives False, and a weekday raises `AttributeError` |
| `Holidays.AsWrittenRaisesOnMonday` | lib/holidays.py:36 | Monday 29 December 2025 raises `AttributeError` instead of answering |
| `Holidays.ZimbabweHolidays.constructor` | lib/holidays.py:16-19 | the calendar uses the given store |
| `Holidays.ZimbabweHolidays.EnsureHolidaysCached` | lib/holidays.py:35-39 | the corrected gate of the Findings row, with the cache check as a parameter: a cache that passes it is left alone; otherwise only a non-empty fetch is written, and a repeated date raises `IntegrityError` |
| `Holidays.ZimbabweHolidays.IsPublicHoliday` | lib/holidays.py:41-47 | over the corrected gate: the date's ISO text is among the cached dates of its own year; it raises only when a fetched list repeats a date |
| `Holidays.ZimbabweHolidays.IsBusinessDay` | lib/holidays.py:49-53 | over the corrected gate: a weekend is never a business day and leaves the cache alone; a weekday is one exactly when it is not a cached holiday |
| `Quotes.GoldQuote.Size` | lib/scraper.py:197 | `len(data)` is at most 10, and zero exactly for the empty dictionary |
| `Remote.Midnight` | lib/mongo.py:17-19 | midnight keeps the date and sorts no later than any other time of that day |
| `Remote.RankIsChronological` | lib/mongo.py:96 | the descending sort on `Date` orders datetimes by date, then by time |
| `Remote.DayKeyIsChronological` | lib/mongo.py:96 | the day key orders dates as the calendar does, and is one-to-one |
| `Remote.RankOfMidnight` | lib/mongo.py:141-149 | a `Date` that sorts like midnight of a day is on that day |
| `Remote.LatestIndex` | lib/mongo.py:92-97 | the first document with the greatest `Date` |
| `Remote.Latest` | lib/mongo.py:92-100 | the latest document, or None when the collection is empty or the read fails |
| `Remote.LatestAfterInsert` | lib/mongo.py:92-97 | after an append, the latest is the new document unless an older one sorts at least as high |
| `Remote.RoundHalfEven` | lib/mongo.py:192 | the nearest integer, to within a half, and on a tie the even one |
| `Remote.Round4` | lib/mongo.py:192 | `round(x, 4)` is within half of the fourth decimal |
| `Remote.WithoutId` | lib/mongo.py:159-163 | the copy holds every field except `_id`, with the same values |
| `Remote.SkipIffSameDay` | lib/mongo.py:141-151 | with a readable exchange date, the sync skips exactly when the latest document is of that day |
| `Remote.NoDateNoInsert` | lib/mongo.py:130-135 | without a readable `rate_date` nothing is inserted |
| `Remote.InsertCarriesFields` | lib/mongo.py:156-171 | the new document has no `_id`, and carries every other field of the latest document unchanged unless overwritten |
| `Remote.GoldUpdateKeeps` | lib/mongo.py:175-209 | the gold step only adds or replaces `Gold` and `eGold` |
| `Remote.InsertStampsDateAndZig` | lib/mongo.py:165-171 | `Date` is midnight of the exchange date, and `ZiG_Bid`/`ZiG_Ask`/`ZiG_Mid` are the bid, ask and avg |
| `Remote.GoldRatioRule` | lib/mongo.py:176-196 | `Gold` is round(zwg/usd, 4) when the gold date matches and both prices are truthy with usd > 0; otherwise the carried-forward value |
| `Remote.EGoldRatioRule` | lib/mongo.py:198-207 | `eGold` follows the same rule for the digital-token prices |
| `Remote.UnreadableGoldDateBlocksSync` | lib/mongo.py:177-179 | a gold `rate_date` that does not parse makes the whole update fail |
| `Remote.RepeatSyncSkips` | lib/mongo.py:141-151 | repeating a sync right after its insert skips, when the exchange date is not older than the latest |
| `Remote.RepeatSyncDuplicatesWhenOlder` | lib/mongo.py:141-166 | for an exchange date older than the latest, a repeat makes the same decision and inserts again |
| `Remote.ResolveMongoUri` | lib/mongo.py:30-58 | `MONGO_URI` wins; nothing stored gives None; with user and password stored, a `user:pwd@` placeholder is replaced and leaves `user:pass@` in the URI, and any other URI with an '@' is rebuilt; without both, or without an '@', the stored URI is returned unchanged; a result is never empty |
| `Remote.InjectCredentials` | lib/mongo.py:44-55 | never empty; with the placeholder, every `user:pwd` is replaced by the credentials; without the placeholder or a `://`, the URI is unchanged |
| `Remote.PlaceholderFilled` | lib/mongo.py:45-46 | after the placeholder's replacement the URI holds the credentials followed by '@' |
| `Remote.ReplaceKeepsFollower` | lib/mongo.py:46 | `replace` turns a non-self-overlapping pattern followed by a character into the replacement followed by that character |
| `Remote.RebuiltUri` | lib/mongo.py:48-52 | without the placeholder, the URI is rebuilt as `scheme://user:pass@` and the text after the last '@' |
| `Remote.RebuiltUriKeepsHost` | lib/mongo.py:51-52 | the rebuilt URI keeps the host part of the stored one |
| `Remote.RebuiltUriCarriesCredentials` | lib/mongo.py:48-52 | the rebuilt URI starts with the scheme and ends with the credentials and the host |
| `Remote.WithDatabase` | lib/mongo.py:69-70 | the result ends with the database name, after any trailing slashes; a URI that already ends with it is kept, and any other has its trailing slashes dropped and `/fx-rates` appended |
| `Remote.WithDatabaseIdempotent` | lib/mongo.py:69-70 | the suffix rule applied twice is the rule applied once |
| `Remote.MongoStorage.constructor` | lib/mongo.py:25-28 | a new client is not connected and sees the server's documents |
| `Remote.MongoStorage.GetMongoUri` | lib/mongo.py:30-58 | the URI resolved from the environment and the stored credentials |
| `Remote.MongoStorage.Connect` | lib/mongo.py:60-83 | succeeds exactly when a URI is configured and the server answers; the client is given the URI with the database suffix, and stays set after a failed ping |
| `Remote.MongoStorage.Disconnect` | lib/mongo.py:85-90 | the client is dropped, and the collection is untouched |
| `Remote.MongoStorage.UpdateFxRates` | lib/mongo.py:102-226 | True exactly when there is a quotation, the connection holds, the plan is to insert and the insert succeeds; then exactly one document is appended, and otherwise nothing changes; an open database stays open with the same client, and a closed one is opened exactly when `connect` succeeds, with the suffixed URI |
| `Remote.MongoStorage.SyncExchange` | lib/mongo.py:126-226 | once a database is open: True exactly when the plan is to insert and the insert succeeds, and then exactly the planned document is appended with a fresh id; otherwise the documents are unchanged |
| `Remote.CopyWithoutId` | lib/mongo.py:159-163 | the copy loop computes the copy without `_id` |
| `Cache.CachePattern` | lib/cache.py:30-44 | the configured pattern is never empty |
| `Cache.PatternPrecedence` | lib/cache.py:30-44 | `CACHE_PATTERN` first, then the stored credential, then `*/api/rates/fx-rates` |
| `Cache.SearchPattern` | lib/cache.py:130 | the pattern with '*' appended unless it already ends in '*' |
| `Cache.SearchPatternCatchesQueries` | lib/cache.py:127-130 | a key matched by the pattern is still matched with a query appended |
| `Cache.DefaultScanFindsEndpoint` | lib/cache.py:42 | the default search matches every key of the fx-rates endpoint, with any prefix and any query |
| `Cache.FirstValue` | lib/cache.py:88 | `params[name][0]` exists exactly when some parameter has that name, and is the value of the first parameter with that name |
| `Cache.OneBoundIsNeverRelevant` | lib/cache.py:83-106 | a key with only one of `from`/`to` and no `day` is relevant to no date |
| `Cache.DayMismatchFallsThrough` | lib/cache.py:87-104 | a `day` that is not the target still lets a covering range make the key relevant |
| `Cache.RelevanceByQuery` | lib/cache.py:79-80 | a key's relevance is decided by its query's parameters |
| `Cache.DayParamsRelevance` | lib/cache.py:87-94 | `day=D` is relevant exactly to D |
| `Cache.RangeParamsRelevance` | lib/cache.py:97-104 | `from=A&to=B` is relevant exactly to the dates from A to B inclusive |
| `Cache.DayKeyRelevance` | lib/cache.py:79-94 | the key `base?day=D` is relevant exactly to D |
| `Cache.EncodedDayKeyRelevance` | lib/cache.py:79-94 | `parse_qs` decodes names, so the key `base?d%61y=D` is relevant exactly to D |
| `Cache.DecodedDayKeyRelevance` | lib/cache.py:79-94 | any key name that decodes to `day`, followed by `=D`, makes the key relevant exactly to D |
| `Cache.PercentDecodeEscape` | lib/cache.py:80 | `unquote` turns an escape `%XX` into the byte it spells and goes on decoding after it |
| `Cache.PercentDecodeExample` | lib/cache.py:80 | `unquote('d%61y')` is `day` |
| `Cache.RangeKeyRelevance` | lib/cache.py:79-104 | the key `base?from=A&to=B` is relevant exactly to the dates from A to B inclusive |
| `Cache.UndatedQueryAlwaysRelevant` | lib/cache.py:83-84 | a query naming none of `day`, `from` and `to` is relevant to every date |
| `Cache.BareKeyAlwaysRelevant` | lib/cache.py:83-84 | a key with no query is relevant to every date |
| `Cache.RedisCache.constructor` | lib/cache.py:26-28 | a new cache has no client, over the given key space |
| `Cache.RedisCache.GetCachePattern` | lib/cache.py:30-44 | the pattern from the environment, the store or the default |
| `Cache.RedisCache.Connect` | lib/cache.py:46-67 | succeeds exactly when the library is installed, the port is a number and the server answers |
| `Cache.ScanEvicted` | lib/cache.py:132-140 | the `scan_iter` loop collects exactly the keys that match the search pattern and are relevant to the date, and counts each once |
| `Cache.RedisCache.InvalidateForDate` | lib/cache.py:111-153 | when Redis answers, exactly the matching keys relevant to the date are removed and counted; otherwise 0 and nothing changes |
| `Cache.RedisCache.ClearAllMatching` | lib/cache.py:155-179 | when Redis answers, exactly the keys matching the search pattern are removed and counted; otherwise 0 |
| `Dates.Weekday` | lib/holidays.py:50 | `date.weekday()` lies in 0..6 |
| `Dates.WeekdayExamples` | lib/holidays.py:50 | 29 December 2025 is a Monday (0), and 27 December 2025 a Saturday (5) |
| `Dates.IsoRoundTrip` | lib/scraper.py:117 | `date.fromisoformat(d.isoformat())` is d |
| `Dates.IsoParseCanonical` | lib/scraper.py:308 | text that `fromisoformat` accepts is the ISO text of the date it gives |
| `Text.SplitChar` | lib/scraper.py:278 | `split("\n")` gives pieces with no line break that join back to the text |
| `Text.LStripDropsLeadingSpace` | lib/scraper.py:279 | `strip()` drops exactly the leading whitespace |
| `Text.RStripDropsTrailingSpace` | lib/scraper.py:279 | `strip()` drops exactly the trailing whitespace |
| `Text.KeepDigitsAndDots` | lib/scraper.py:190 | `re.sub(r'[^\d.]', '', s)` keeps a character exactly when it is a digit or a dot of the text |
| `Text.KeepDigitsAndDotsConcat` | lib/scraper.py:190 | the substitution on a concatenation is the concatenation of the two results, so what is kept stays in order |
| `Text.KeepDigitsAndDotsKeepsNumber` | lib/scraper.py:190 | a text made only of digits and dots comes back whole |

## Left out

- The browser session (Playwright launch, stealth, mouse moves, random delays, the tab click) is modelled only by its outcome: a failure, or the header token and table cells with the gold tab missing or present.
- The regular-expression searches over the page HTML for the two header dates are modelled as the captured token (`Option<string>`). The `DD[-/]MM[-/]YYYY` token and the PDF's `d MONTH yyyy` are modelled in full, using ASCII digits and ASCII case folding.
- `float()` is the parameter `NumParser`, and its acceptance rules are not modelled. Binary floating-point division and rounding are not modelled: ratios are real numbers.
- `Remote.Round4`: states only that the result is within half of the fourth decimal, because the decimal rounding of binary floats is not modelled.
- The HTTP requests for the PDF and the holiday calendar are modelled by their answers. PyMuPDF's text extraction is modelled as `Option<string>`, where None means it raised.
- Every `datetime.now()` of one run is the same `now`. Credentials' `updated_at` is not kept.
- MongoDB connection mechanics are not modelled: `ping`, timeouts and pymongo's truth test on a database. Documents are compared by `Date` only among datetimes; other BSON types rank below every datetime.
- `urlsplit`'s checks of bracketed hosts and of NFKC-normalised network locations are not modelled: only the one-bracket `ValueError` is. Redis glob character classes (`[...]`) are not modelled. A percent-decoded byte above 0x7F decodes to U+FFFD.
- Redis `scan_iter` cursors are modelled as a loop over the key set in an arbitrary order, and `unlink` as one set difference.
- ScanEvicted: each key is taken to be returned once. Redis SCAN may return a key more than once, and the source then counts it again, so its count can exceed the number of keys removed; the model's count is the number of distinct keys.
- The `if not pattern` exits of `invalidate_for_date` and `clear_all_matching` are not modelled, because the configured pattern is never empty (`Cache.CachePattern`).
- A calendar reply whose JSON body is not a list is not modelled. Each holiday entry is taken to carry a `date` string (`ApiHoliday.date`): an entry without `date` raises `KeyError` in `cache_holidays` (lib/db.py:250), and a `null` date breaks the NOT NULL column; neither is modelled.
- The e-mail notification after a successful push (lib/email_notify.py is not part of this model), all printing, and the CLI in main.py are not modelled.
- The schema migration in `save_gold_rates` (`ALTER TABLE`) is not modelled.
- constructor (`LocalStore.RatesDatabase.constructor`, `Scraper.RateScraper.constructor`): the file `rates.db` is taken to have been written only by this program, so every run id is within SQLite's AUTOINCREMENT counter and every exchange row has the pair 'USD/ZWG'.
- KindOf, ReadTokenCell, RowPrice: the label and cell tests use ASCII case mapping (`UpperChar`), and the price cleaning keeps ASCII digits only. Python's `upper()` and `\d` are Unicode, so a non-ASCII letter or digit in a cell is not modelled. `upper()` changing a text's length (e.g. 'ß' to 'SS') is not modelled either.
- KeepDigitsAndDots: keeps ASCII digits, where Python's `\d` also keeps other Unicode decimal digits.
- ScrapeRates, Run: the e-mail notification sent after a successful push is assumed not to raise. In the source it reads `int(get_credential("smtp_port") or "587")` outside any `try` (lib/email_notify.py), so a stored non-numeric port would raise `ValueError` after the push, before the eviction and the run row.
- The model follows Python 3.10 from 3.10.12 on: `date.fromisoformat` accepts only `YYYY-MM-DD` (3.11 also accepts forms such as `20251229`, which would make such a `day=` key relevant), and `urlsplit` strips leading C0 control characters and spaces.
- LatestIndex: among documents with the same greatest `Date`, the model picks the earliest inserted; `find_one` with a descending sort leaves the order of such ties to the server.
- GlobMatch: matches characters, where Redis matches the bytes of the UTF-8 key, so `?` against a non-ASCII character of a key is not modelled.

## Findings

| source | as written | input that shows it | evidently intended | confidence | as-written member | corrected member |
|---|---|---|---|---|---|---|
| lib/holidays.py:36 | `_ensure_holidays_cached` calls `self.db.has_holidays_for_year`, which `RatesDatabase` does not define. Every weekday raises `AttributeError` out of `is_business_day`, and `run` fails before it scrapes. | any weekday, e.g. Monday 2025-12-29 | ask the store whether the year's cache is usable, so that a missing year is fetched and a weekday is a business day unless it is a cached holiday; the store's own check is `has_valid_holidays_cache` (lib/db.py:262), while the called name suggests presence only, so the corrected gate takes the check as a parameter (`Holidays.CacheCheck`) | high; not executed | `Holidays.AsWrittenRaisesOnMonday` | `Holidays.ZimbabweHolidays.IsBusinessDay` |
