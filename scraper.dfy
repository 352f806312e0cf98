/**
 * The daily run of `RBZRateScraper` (lib/scraper.py): read the Reserve Bank's
 * home page, fall back to the gold-coin PDF, store what was found, push the
 * exchange quotation to MongoDB, evict the affected Redis keys and log the run.
 *
 * The browser session is given as its outcome (`Page`), the PDF request as
 * its outcome (`PdfFetch`), and the clock, the environment variables and the
 * remote servers' answers as a `World`.
 */
module Scraper {
  import opened Wrappers
  import opened Dates
  import opened Quotes
  import opened LocalStore
  import opened Extract
  import Holidays
  import Remote
  import Cache

  // ---------------------------------------------------------------- inputs

  /** The gold tab once clicked: the date token of its header and the cells of its table rows. */
  datatype GoldTab = GoldTab(header: Option<string>, rows: seq<seq<string>>)

  /**
   * What the browser session showed: it failed somewhere (launch, navigation,
   * the click), or the home page loaded with its exchange table, and the gold
   * tab was missing (None) or was clicked open.
   */
  datatype Page =
    | BrowserFailure
    | Loaded(header: Option<string>, rows: seq<seq<string>>, goldTab: Option<GoldTab>)

  /** Everything a run reads from outside the process. */
  datatype World = World(
    today: CalendarDate, now: Timestamp,
    page: Page, pdf: PdfFetch, parse: NumParser,
    mongo: Remote.MongoEnv, redis: Cache.RedisEnv, cachePattern: Option<string>,
    calendar: Holidays.ApiReply, holidayCheck: Holidays.CacheCheck)

  // ---------------------------------------------------------------- the webpage

  /**
   * `_scrape_from_webpage`: the exchange dictionary and the gold dictionary.
   * A failed session gives neither; a missing gold tab gives the exchange
   * dictionary untagged and no gold; otherwise each dictionary that is not
   * empty is tagged with source "webpage".
   */
  function ScrapeFromWebpage(page: Page, parse: NumParser): (Option<ExchangeQuote>, Option<GoldQuote>) {
    match page
    case BrowserFailure => (None, None)
    case Loaded(header, rows, goldTab) =>
      var exchange := ExchangeFromPage(header, rows, parse);
      match goldTab
      case None => (exchange, None)
      case Some(tab) =>
        var gold := GoldFromPage(tab.header, tab.rows, parse);
        (if exchange.Some? then Some(exchange.value.(source := Some("webpage"))) else None,
         if gold.Some? then Some(gold.value.(source := Some("webpage"))) else None)
  }

  /**
   * Both dictionaries carry the page's header date; the exchange one always
   * holds a bid, and it is tagged "webpage" exactly when the gold tab was
   * found; the gold one exists only behind the tab and is always tagged.
   */
  lemma WebpageQuoteShape(page: Page, parse: NumParser)
    ensures var (exchange, gold) := ScrapeFromWebpage(page, parse);
      && (exchange.Some? ==>
            && page.Loaded?
            && exchange.value.currencyPair == Some(UsdZwg) && exchange.value.bid.Some?
            && exchange.value.rateDate == HeaderRateDate(page.header)
            && exchange.value.source == (if page.goldTab.Some? then Some("webpage") else None))
      && (gold.Some? ==>
            && page.Loaded? && page.goldTab.Some?
            && gold.value.rateDate == HeaderRateDate(page.goldTab.value.header)
            && gold.value.source == Some("webpage") && gold.value.sourceUrl.None?)
  {
    if page.Loaded? {
      if ExchangeFromPage(page.header, page.rows, parse).Some? {
        ExchangeQuoteShape(page.header, page.rows, parse);
      }
      if page.goldTab.Some? && GoldFromPage(page.goldTab.value.header, page.goldTab.value.rows, parse).Some? {
        GoldFromPageShape(page.goldTab.value.header, page.goldTab.value.rows, parse);
      }
    }
  }

  /** The gold dictionary of the page keeps its header date and has no source of its own. */
  lemma GoldFromPageShape(header: Option<string>, rows: seq<seq<string>>, parse: NumParser)
    requires GoldFromPage(header, rows, parse).Some?
    ensures var q := GoldFromPage(header, rows, parse).value;
      q.rateDate == HeaderRateDate(header) && q.source.None? && q.sourceUrl.None?
  {
    ScanGoldKeepsHeader(EmptyGold.(rateDate := HeaderRateDate(header)), rows, parse);
  }

  // ---------------------------------------------------------------- what a scrape decides

  /**
   * The dictionaries `scrape_rates` works with: the page's exchange
   * dictionary, and the page's gold dictionary or, when that is missing, the
   * PDF's (`pdfTried` says the PDF was requested).
   */
  datatype ScrapePlan = ScrapePlan(exchange: Option<ExchangeQuote>, gold: Option<GoldQuote>, pdfTried: bool)

  function PlanScrape(today: CalendarDate, page: Page, pdf: PdfFetch, parse: NumParser): ScrapePlan {
    var (exchange, webGold) := ScrapeFromWebpage(page, parse);
    if webGold.Some? then ScrapePlan(exchange, webGold, false)
    else ScrapePlan(exchange, GoldFromPdf(today, pdf, parse), true)
  }

  /** `exchange["bid"]`, `exchange["ask"]` and `exchange["avg"]` raise KeyError on a missing price. */
  predicate MissingPrice(plan: ScrapePlan) {
    plan.exchange.Some? && (plan.exchange.value.bid.None? || plan.exchange.value.ask.None? || plan.exchange.value.avg.None?)
  }

  /** `date.fromisoformat(d.get("rate_date", today.isoformat()))`; None where it would raise ValueError. */
  function SaveDate(rateDate: Option<string>, today: CalendarDate): Option<CalendarDate> {
    if rateDate.Some? then ParseIsoDate(rateDate.value) else Some(today)
  }

  /** The keyword arguments of the webpage's `save_gold_rates` call. */
  function WebpageGoldPrices(g: GoldQuote): GoldPrices {
    GoldPrices(g.usd, g.zwg, g.zar, g.gbp, g.eur, None, None, None,
               g.digitalTokenUsd, g.digitalTokenZwg, Some("webpage"), None)
  }

  /** The keyword arguments of the PDF's `save_gold_rates` call: three prices and the source, nothing else. */
  function PdfGoldPrices(g: GoldQuote): GoldPrices {
    GoldPrices(g.usd, g.zwg, g.zar, None, None, None, None, None, None, None, Some("pdf"), None)
  }

  /** The gold row a scrape writes, tagged by where its prices came from. */
  function PlannedGoldPrices(plan: ScrapePlan): GoldPrices
    requires plan.gold.Some?
  {
    if plan.pdfTried then PdfGoldPrices(plan.gold.value) else WebpageGoldPrices(plan.gold.value)
  }

  /**
   * Every rate date a scrape stores under is readable: the page's dates come
   * from a parsed DD/MM/YYYY token and the PDF's from a valid day, so
   * `date.fromisoformat` in `scrape_rates` never raises.
   */
  lemma PlanDatesParse(today: CalendarDate, page: Page, pdf: PdfFetch, parse: NumParser)
    ensures var plan := PlanScrape(today, page, pdf, parse);
      && (plan.exchange.Some? ==> SaveDate(plan.exchange.value.rateDate, today).Some?)
      && (plan.gold.Some? ==> SaveDate(plan.gold.value.rateDate, today).Some?)
  {
    var plan := PlanScrape(today, page, pdf, parse);
    WebpageQuoteShape(page, parse);
    if plan.gold.Some? && plan.pdfTried {
      PdfQuoteShape(today, pdf, parse);
    }
  }

  /**
   * The gold dictionary is tagged by its origin: "webpage" unless the page
   * had none, and then "pdf" with the PDF's address; the PDF's carries no
   * GBP, EUR or token prices.
   */
  lemma PlanGoldSource(today: CalendarDate, page: Page, pdf: PdfFetch, parse: NumParser)
    ensures var plan := PlanScrape(today, page, pdf, parse);
      plan.gold.Some? ==>
        if plan.pdfTried
        then plan.gold == GoldFromPdf(today, pdf, parse)
             && plan.gold.value.source == Some("pdf") && plan.gold.value.sourceUrl == Some(BuildGoldPdfUrl(today))
             && plan.gold.value.gbp.None? && plan.gold.value.eur.None?
        else plan.gold.value.source == Some("webpage") && plan.gold.value.sourceUrl.None?
  {
    var plan := PlanScrape(today, page, pdf, parse);
    WebpageQuoteShape(page, parse);
    if plan.gold.Some? && plan.pdfTried {
      PdfQuoteShape(today, pdf, parse);
    }
  }

  /** The PDF is requested exactly when the page gave no gold, and then whatever it answers decides the gold. */
  lemma PdfOnlyAsFallback(today: CalendarDate, page: Page, pdf1: PdfFetch, pdf2: PdfFetch, parse: NumParser)
    ensures PlanScrape(today, page, pdf1, parse).pdfTried <==> ScrapeFromWebpage(page, parse).1.None?
    ensures !PlanScrape(today, page, pdf1, parse).pdfTried ==> PlanScrape(today, page, pdf1, parse) == PlanScrape(today, page, pdf2, parse)
    ensures (page.BrowserFailure? || (page.Loaded? && page.goldTab.None?)) ==> PlanScrape(today, page, pdf1, parse).pdfTried
  {
  }

  /**
   * A USD/ZWG row whose bid reads but whose ask does not still yields an
   * exchange dictionary, and `scrape_rates` then fails with KeyError.
   */
  lemma IncompleteRowRaises(today: CalendarDate, header: Option<string>, cells: seq<string>,
                            goldTab: Option<GoldTab>, pdf: PdfFetch, parse: NumParser)
    requires IsUsdZwgRow(cells) && CellNumber(parse, cells[1]).Some? && CellNumber(parse, cells[2]).None?
    ensures MissingPrice(PlanScrape(today, Loaded(header, [cells], goldTab), pdf, parse))
  {
    IncompleteRowStillQuotes(header, cells, parse);
  }

  /**
   * An exchange dictionary without a header date is stored under the run's
   * own day, yet the MongoDB sync declines it whatever the latest document,
   * so no push and no cache eviction follow.
   */
  lemma UndatedExchangeIsNotSynced(today: CalendarDate, page: Page, pdf: PdfFetch, parse: NumParser, latest: Option<Remote.Document>)
    requires PlanScrape(today, page, pdf, parse).exchange.Some?
    requires HeaderRateDate(page.header).None?
    ensures var plan := PlanScrape(today, page, pdf, parse);
      && SaveDate(plan.exchange.value.rateDate, today) == Some(today)
      && !Remote.PlanSync(plan.exchange.value, plan.gold, latest).Insert?
  {
    WebpageQuoteShape(page, parse);
  }

  /** Whether `update_fx_rates` inserts a document, as its own contract decides it. */
  predicate SyncInserts(mongo: Remote.MongoStorage, ex: ExchangeQuote, gold: Option<GoldQuote>, env: Remote.MongoEnv)
    reads mongo, mongo.sqliteDb`credentials
  {
    && ex != EmptyExchange
    && (mongo.dbOpen || mongo.ConnectSucceeds(env))
    && Remote.PlanSync(ex, gold, Remote.Latest(mongo.remote, env.readOk)).Insert?
    && env.insertOk
  }

  /** The document such an insert appends. */
  function SyncedDocument(mongo: Remote.MongoStorage, ex: ExchangeQuote, gold: Option<GoldQuote>, env: Remote.MongoEnv): Remote.Document
    reads mongo
    requires Remote.PlanSync(ex, gold, Remote.Latest(mongo.remote, env.readOk)).Insert?
  {
    Remote.Stored(Remote.PlanSync(ex, gold, Remote.Latest(mongo.remote, env.readOk)).record, mongo.nextObjectId)
  }

  // ---------------------------------------------------------------- the scraper

  /** `scrape_rates`'s dictionary: the day, the time, and the dictionaries it kept; its status is "completed". */
  datatype ScrapeResult = ScrapeResult(
    scrapeDate: string, scrapedAt: Timestamp, exchange: Option<ExchangeQuote>, gold: Option<GoldQuote>)

  /**
   * The start of a scrape as far as its effects go: the rate tables, the
   * run log and its id counter, the MongoDB documents, the Redis keys, and
   * the document `update_fx_rates` inserts for the scrape's result, if any.
   */
  datatype ScrapeStart = ScrapeStart(
    exchangeRates: map<CalendarDate, ExchangeRow>, goldRates: map<CalendarDate, GoldRow>,
    scrapeRuns: seq<RunRow>, lastRunId: nat, remote: seq<Remote.Document>, keys: set<string>,
    pushed: Option<Remote.Document>)

  /** What `run` answers: "skipped" (SkippedDay), "already_scraped", or the scrape's own dictionary. */
  datatype RunStatus = SkippedDay | AlreadyScraped | Completed(result: ScrapeResult)

  /**
   * `RBZRateScraper`: one local store shared by the holiday calendar, the
   * MongoDB client and the Redis cache.
   */
  class RateScraper {
    const db: RatesDatabase
    const holidays: Holidays.ZimbabweHolidays
    const mongo: Remote.MongoStorage
    const cache: Cache.RedisCache

    ghost predicate Valid()
      reads this, db, mongo
    {
      && db.Valid() && mongo.Valid()
      && holidays.db == db && mongo.sqliteDb == db && cache.sqliteDb == db
    }

    /**
     * `RBZRateScraper()`: the store opened over what `rates.db` already holds,
     * with the documents already on the MongoDB server and the keys already
     * in Redis.
     */
    constructor (file: StoredTables, remote: seq<Remote.Document>, nextObjectId: nat, redisKeys: set<string>)
      requires WrittenByProgram(file)
      requires forall i :: 0 <= i < |remote| ==>
                 "_id" in remote[i] && remote[i]["_id"].ObjectId? && remote[i]["_id"].id < nextObjectId
      ensures Valid()
      ensures fresh(db) && fresh(mongo) && fresh(cache)
      ensures db.credentials == file.credentials && db.exchangeRates == file.exchangeRates
      ensures db.goldRates == file.goldRates && db.scrapeRuns == file.scrapeRuns
      ensures db.lastRunId == file.lastRunId && db.holidays == file.holidays
      ensures mongo.remote == remote && !mongo.dbOpen && cache.keys == redisKeys
    {
      var store := new RatesDatabase(file);
      db := store;
      holidays := new Holidays.ZimbabweHolidays(store);
      mongo := new Remote.MongoStorage(store, remote, nextObjectId);
      cache := new Cache.RedisCache(store, redisKeys);
    }

    /** The part of the state a scrape starts from that its effects depend on. */
    ghost function Start(w: World, res: ScrapeResult): ScrapeStart
      reads db`exchangeRates, db`goldRates, db`scrapeRuns, db`lastRunId, mongo, mongo.sqliteDb`credentials, cache`keys
    {
      ScrapeStart(db.exchangeRates, db.goldRates, db.scrapeRuns, db.lastRunId, mongo.remote, cache.keys,
                  if res.exchange.Some? && SyncInserts(mongo, res.exchange.value, res.gold, w.mongo)
                  then Some(SyncedDocument(mongo, res.exchange.value, res.gold, w.mongo))
                  else None)
    }

    /**
     * What a completed scrape leaves behind, from the start state `s`: the
     * exchange row and the gold row (the page's, or else the PDF's) under
     * their dates, one run row with a fresh id, and the MongoDB insert
     * followed by the Redis eviction for the day exactly when
     * `update_fx_rates` inserts.
     */
    ghost predicate ScrapeWrote(s: ScrapeStart, w: World, webGold: Option<GoldQuote>, res: ScrapeResult)
      reads db`exchangeRates, db`goldRates, db`scrapeRuns, mongo`remote, cache`keys, cache.sqliteDb`credentials
    {
      && (res.exchange.None? ==> db.exchangeRates == s.exchangeRates)
      && (res.exchange.Some? ==>
            var q := res.exchange.value;
            && q.bid.Some? && q.ask.Some? && q.avg.Some? && SaveDate(q.rateDate, w.today).Some?
            && db.exchangeRates == s.exchangeRates[SaveDate(q.rateDate, w.today).value :=
                 ExchangeRow(UsdZwg, q.bid.value, q.ask.value, q.avg.value, Some("webpage"), w.now)])
      && (res.gold.None? ==> db.goldRates == s.goldRates)
      && (res.gold.Some? ==>
            && SaveDate(res.gold.value.rateDate, w.today).Some?
            && db.goldRates == s.goldRates[SaveDate(res.gold.value.rateDate, w.today).value :=
                 GoldRow(if webGold.Some? then WebpageGoldPrices(res.gold.value) else PdfGoldPrices(res.gold.value), w.now)])
      && db.scrapeRuns == s.scrapeRuns +
           [RunRow(s.lastRunId + 1, w.today, w.now, res.gold.Some?, res.exchange.Some?, None, None, None)]
      && if s.pushed.Some?
         then
           && mongo.remote == s.remote + [s.pushed.value]
           && cache.keys == (if w.redis.installed && w.redis.portOk && w.redis.serverUp
                             then s.keys - Cache.EvictedKeys(s.keys,
                                    Cache.SearchPattern(cache.ConfiguredPattern(w.cachePattern)), w.today)
                             else s.keys)
         else mongo.remote == s.remote && cache.keys == s.keys
    }

    /**
     * `scrape_rates`. A page exchange dictionary without all three prices
     * raises KeyError before anything is written. Otherwise the exchange
     * row and the gold row (page first, PDF as fallback) are stored under
     * their rate dates, the exchange quotation is pushed to MongoDB, the
     * day's Redis keys are evicted only after a successful push, and exactly
     * one run is logged, recording which dictionaries were found.
     */
    method ScrapeRates(w: World) returns (r: Outcome<ScrapeResult>)
      requires Valid()
      modifies db, mongo, cache
      ensures Valid()
      ensures db.credentials == old(db.credentials) && db.holidays == old(db.holidays)
      ensures var plan := PlanScrape(w.today, w.page, w.pdf, w.parse);
        MissingPrice(plan) ==>
          && r == Raised(KeyError)
          && db.exchangeRates == old(db.exchangeRates) && db.goldRates == old(db.goldRates)
          && db.scrapeRuns == old(db.scrapeRuns) && mongo.remote == old(mongo.remote) && cache.keys == old(cache.keys)
      ensures var plan := PlanScrape(w.today, w.page, w.pdf, w.parse);
        !MissingPrice(plan) ==> r == Returned(ScrapeResult(IsoFormat(w.today), w.now, plan.exchange, plan.gold))
      ensures r.Returned? ==> ScrapeWrote(old(Start(w, r.value)), w, ScrapeFromWebpage(w.page, w.parse).1, r.value)
    {
      var (exchange, webGold) := ScrapeFromWebpage(w.page, w.parse);
      PlanDatesParse(w.today, w.page, w.pdf, w.parse);
      r := StoreAndPublish(exchange, webGold, w);
    }

    /**
     * The body of `scrape_rates` once the page is parsed: the KeyError of an
     * incomplete exchange dictionary, then the rows, the push and the run log.
     */
    method StoreAndPublish(exchange: Option<ExchangeQuote>, webGold: Option<GoldQuote>, w: World)
      returns (r: Outcome<ScrapeResult>)
      requires Valid()
      requires exchange.Some? ==> SaveDate(exchange.value.rateDate, w.today).Some?
      requires webGold.Some? ==> SaveDate(webGold.value.rateDate, w.today).Some?
      modifies db, mongo, cache
      ensures Valid()
      ensures db.credentials == old(db.credentials) && db.holidays == old(db.holidays)
      ensures exchange.Some? && (exchange.value.bid.None? || exchange.value.ask.None? || exchange.value.avg.None?) ==>
        && r == Raised(KeyError)
        && db.exchangeRates == old(db.exchangeRates) && db.goldRates == old(db.goldRates)
        && db.scrapeRuns == old(db.scrapeRuns) && mongo.remote == old(mongo.remote) && cache.keys == old(cache.keys)
      ensures exchange.None? || (exchange.value.bid.Some? && exchange.value.ask.Some? && exchange.value.avg.Some?) ==>
        r == Returned(ScrapeResult(IsoFormat(w.today), w.now, exchange,
                                   if webGold.Some? then webGold else GoldFromPdf(w.today, w.pdf, w.parse)))
      ensures r.Returned? ==> ScrapeWrote(old(Start(w, r.value)), w, webGold, r.value)
    {
      if exchange.Some? && (exchange.value.bid.None? || exchange.value.ask.None? || exchange.value.avg.None?) {
        return Raised(KeyError);
      }
      var gold := StoreRows(exchange, webGold, w);
      var result := ScrapeResult(IsoFormat(w.today), w.now, exchange, gold);
      PublishAndLog(result, w);
      r := Returned(result);
    }

    /** The two `save_*` steps of `scrape_rates`: the exchange row when there is one, then the gold row. */
    method StoreRows(exchange: Option<ExchangeQuote>, webGold: Option<GoldQuote>, w: World) returns (gold: Option<GoldQuote>)
      requires db.Valid()
      requires exchange.Some? ==>
        && exchange.value.bid.Some? && exchange.value.ask.Some? && exchange.value.avg.Some?
        && SaveDate(exchange.value.rateDate, w.today).Some?
      requires webGold.Some? ==> SaveDate(webGold.value.rateDate, w.today).Some?
      modifies db
      ensures db.Valid()
      ensures gold == (if webGold.Some? then webGold else GoldFromPdf(w.today, w.pdf, w.parse))
      ensures exchange.None? ==> db.exchangeRates == old(db.exchangeRates)
      ensures exchange.Some? ==>
        var q := exchange.value;
        db.exchangeRates == old(db.exchangeRates)[SaveDate(q.rateDate, w.today).value :=
          ExchangeRow(UsdZwg, q.bid.value, q.ask.value, q.avg.value, Some("webpage"), w.now)]
      ensures gold.None? ==> db.goldRates == old(db.goldRates)
      ensures gold.Some? ==>
        && SaveDate(gold.value.rateDate, w.today).Some?
        && db.goldRates == old(db.goldRates)[SaveDate(gold.value.rateDate, w.today).value :=
             GoldRow(if webGold.Some? then WebpageGoldPrices(gold.value) else PdfGoldPrices(gold.value), w.now)]
      ensures db.credentials == old(db.credentials) && db.holidays == old(db.holidays)
      ensures db.scrapeRuns == old(db.scrapeRuns) && db.lastRunId == old(db.lastRunId)
    {
      if exchange.Some? {
        var ex := exchange.value;
        db.SaveExchangeRates(SaveDate(ex.rateDate, w.today).value, ex.bid.value, ex.ask.value, ex.avg.value, Some("webpage"), w.now);
      }
      gold := StoreGold(webGold, w);
    }

    /**
     * The end of `scrape_rates`: the MongoDB push when there is an exchange
     * dictionary, the Redis eviction after a successful push, and the run log.
     */
    method PublishAndLog(result: ScrapeResult, w: World)
      requires Valid()
      modifies db, mongo, cache
      ensures Valid()
      ensures db.credentials == old(db.credentials) && db.holidays == old(db.holidays)
      ensures db.exchangeRates == old(db.exchangeRates) && db.goldRates == old(db.goldRates)
      ensures db.scrapeRuns == old(db.scrapeRuns) +
        [RunRow(old(db.lastRunId) + 1, w.today, w.now, result.gold.Some?, result.exchange.Some?, None, None, None)]
      ensures if result.exchange.Some? && old(SyncInserts(mongo, result.exchange.value, result.gold, w.mongo))
        then
          && mongo.remote == old(mongo.remote) + [old(SyncedDocument(mongo, result.exchange.value, result.gold, w.mongo))]
          && cache.keys == (if w.redis.installed && w.redis.portOk && w.redis.serverUp
                            then old(cache.keys) - Cache.EvictedKeys(old(cache.keys),
                                   Cache.SearchPattern(cache.ConfiguredPattern(w.cachePattern)), w.today)
                            else old(cache.keys))
        else mongo.remote == old(mongo.remote) && cache.keys == old(cache.keys)
    {
      Publish(result.exchange, result.gold, w);
      var runId := db.LogScrapeRun(w.today, w.now, result.gold.Some?, result.exchange.Some?, None, None, None);
    }

    /**
     * The `if gold` and `if not gold` steps of `scrape_rates`: store the
     * page's gold row, or else request the PDF and store its row.
     */
    method StoreGold(webGold: Option<GoldQuote>, w: World) returns (gold: Option<GoldQuote>)
      requires db.Valid()
      requires webGold.Some? ==> SaveDate(webGold.value.rateDate, w.today).Some?
      modifies db
      ensures db.Valid()
      ensures gold == (if webGold.Some? then webGold else GoldFromPdf(w.today, w.pdf, w.parse))
      ensures gold.None? ==> db.goldRates == old(db.goldRates)
      ensures gold.Some? ==>
        && SaveDate(gold.value.rateDate, w.today).Some?
        && db.goldRates == old(db.goldRates)[SaveDate(gold.value.rateDate, w.today).value :=
             GoldRow(if webGold.Some? then WebpageGoldPrices(gold.value) else PdfGoldPrices(gold.value), w.now)]
      ensures db.credentials == old(db.credentials) && db.exchangeRates == old(db.exchangeRates)
      ensures db.scrapeRuns == old(db.scrapeRuns) && db.lastRunId == old(db.lastRunId) && db.holidays == old(db.holidays)
    {
      if webGold.Some? {
        gold := webGold;
        db.SaveGoldRates(SaveDate(gold.value.rateDate, w.today).value, WebpageGoldPrices(gold.value), w.now);
      } else {
        gold := ScrapeGoldFromPdf(w.today, w.pdf, w.parse);
        if gold.Some? {
          PdfQuoteShape(w.today, w.pdf, w.parse);
          db.SaveGoldRates(SaveDate(gold.value.rateDate, w.today).value, PdfGoldPrices(gold.value), w.now);
        }
      }
    }

    /**
     * The `if "exchange_rates" in result` step of `scrape_rates`: push the
     * quotation to MongoDB and, only when that inserted a document, evict
     * the day's Redis keys.
     */
    method Publish(exchange: Option<ExchangeQuote>, gold: Option<GoldQuote>, w: World)
      requires mongo.Valid() && mongo.sqliteDb == db && cache.sqliteDb == db
      modifies mongo, cache
      ensures mongo.Valid()
      ensures if exchange.Some? && old(SyncInserts(mongo, exchange.value, gold, w.mongo))
        then
          && mongo.remote == old(mongo.remote) + [old(SyncedDocument(mongo, exchange.value, gold, w.mongo))]
          && cache.keys == (if w.redis.installed && w.redis.portOk && w.redis.serverUp
                            then old(cache.keys) - Cache.EvictedKeys(old(cache.keys),
                                   Cache.SearchPattern(cache.ConfiguredPattern(w.cachePattern)), w.today)
                            else old(cache.keys))
        else mongo.remote == old(mongo.remote) && cache.keys == old(cache.keys)
    {
      if exchange.Some? {
        var synced := mongo.UpdateFxRates(exchange, gold, w.mongo);
        if synced {
          var evicted := cache.InvalidateForDate(w.today, w.cachePattern, w.redis);
        }
      }
    }

    /**
     * `run`: nothing on a day that is not a business day, nothing when both
     * of today's rows are already stored and the run is not forced, and the
     * scrape otherwise. A failure of the holiday cache or of the scrape
     * escapes.
     */
    method Run(force: bool, w: World) returns (r: Outcome<RunStatus>)
      requires Valid()
      modifies db, mongo, cache
      ensures Valid()
      ensures Weekday(w.today) >= 5 ==> r == Returned(SkippedDay) && db.holidays == old(db.holidays)
      ensures r.Raised? ==> r.error == IntegrityError || r.error == KeyError
      ensures r.Returned? ==>
        var business := Holidays.BusinessDay(w.today, db.CachedHolidayDates(w.today.year));
        && (r.value == SkippedDay <==> !business)
        && (r.value == AlreadyScraped <==>
              business && !force && w.today in old(db.goldRates) && w.today in old(db.exchangeRates))
      ensures r.Returned? && r.value.Completed? ==>
        var plan := PlanScrape(w.today, w.page, w.pdf, w.parse);
        r.value.result == ScrapeResult(IsoFormat(w.today), w.now, plan.exchange, plan.gold)
      ensures r.Returned? && r.value.Completed? ==>
        ScrapeWrote(old(Start(w, r.value.result)), w, ScrapeFromWebpage(w.page, w.parse).1, r.value.result)
      ensures r.Returned? && !r.value.Completed? ==>
        && db.exchangeRates == old(db.exchangeRates) && db.goldRates == old(db.goldRates)
        && db.scrapeRuns == old(db.scrapeRuns) && mongo.remote == old(mongo.remote) && cache.keys == old(cache.keys)
    {
      var business := holidays.IsBusinessDay(w.holidayCheck, w.today, w.now, w.calendar);
      if business.Raised? {
        return Raised(business.error);
      }
      if !business.value {
        return Returned(SkippedDay);
      }
      r := ScrapeUnlessDone(force, w);
    }

    /** The part of `run` after the holiday gate: skip a day already scraped unless forced, else scrape. */
    method ScrapeUnlessDone(force: bool, w: World) returns (r: Outcome<RunStatus>)
      requires Valid()
      modifies db, mongo, cache
      ensures Valid()
      ensures db.credentials == old(db.credentials) && db.holidays == old(db.holidays)
      ensures r.Raised? ==> r.error == KeyError
      ensures r.Returned? ==> r.value != SkippedDay
      ensures r.Returned? ==>
        (r.value == AlreadyScraped <==> !force && w.today in old(db.goldRates) && w.today in old(db.exchangeRates))
      ensures r.Returned? && r.value.Completed? ==>
        var plan := PlanScrape(w.today, w.page, w.pdf, w.parse);
        r.value.result == ScrapeResult(IsoFormat(w.today), w.now, plan.exchange, plan.gold)
      ensures r.Returned? && r.value.Completed? ==>
        ScrapeWrote(old(Start(w, r.value.result)), w, ScrapeFromWebpage(w.page, w.parse).1, r.value.result)
      ensures r.Returned? && !r.value.Completed? ==>
        && db.exchangeRates == old(db.exchangeRates) && db.goldRates == old(db.goldRates)
        && db.scrapeRuns == old(db.scrapeRuns) && mongo.remote == old(mongo.remote) && cache.keys == old(cache.keys)
    {
      var haveGold := db.HasSuccessfulGoldScrape(w.today);
      var haveExchange := db.HasSuccessfulExchangeScrape(w.today);
      if !force && haveGold && haveExchange {
        return Returned(AlreadyScraped);
      }
      var scraped := ScrapeRates(w);
      if scraped.Raised? {
        return Raised(scraped.error);
      }
      r := Returned(Completed(scraped.value));
    }
  }
}
