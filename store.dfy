/**
 * The local SQLite store (lib/db.py) as in-memory tables: the credential
 * key-value table, the exchange and gold tables keyed by rate date, the
 * append-only run log and the per-year public-holiday cache.
 */
module LocalStore {
  import opened Wrappers
  import opened Dates

  /** A wall-clock reading, in microseconds, as `datetime.now()` gives it; supplied by the caller. */
  type Timestamp = int

  const MicrosPerDay: int := 86_400_000_000

  /** The one currency pair the exchange table records. */
  const UsdZwg: string := "USD/ZWG"

  datatype ExchangeRow = ExchangeRow(
    currencyPair: string, bid: real, ask: real, avg: real, source: Option<string>, scrapedAt: Timestamp)

  /**
   * The keyword arguments of `save_gold_rates`; a field that is None is an
   * argument left at its default, which the upsert writes as NULL.
   */
  datatype GoldPrices = GoldPrices(
    usd: Option<real>, zwg: Option<real>, zar: Option<real>, gbp: Option<real>, eur: Option<real>,
    bwp: Option<real>, aud: Option<real>, pmFix: Option<real>,
    digitalTokenUsd: Option<real>, digitalTokenZwg: Option<real>,
    source: Option<string>, sourceUrl: Option<string>)

  datatype GoldRow = GoldRow(prices: GoldPrices, scrapedAt: Timestamp)

  datatype RunRow = RunRow(
    id: nat, runDate: CalendarDate, runTime: Timestamp, goldSuccess: bool, exchangeSuccess: bool,
    goldSource: Option<string>, exchangeSource: Option<string>, notes: Option<string>)

  /** One entry of the holiday list the calendar service returns. */
  datatype ApiHoliday = ApiHoliday(date: string, name: Option<string>, localName: Option<string>)

  /**
   * A row of `public_holidays`. `fetchedAt` is None when the stored text is
   * not one `datetime.fromisoformat` accepts (only a foreign writer can leave such a row).
   */
  datatype HolidayRow = HolidayRow(holidayDate: string, name: Option<string>, localName: Option<string>, fetchedAt: Option<Timestamp>)

  /** No two entries share a date: what UNIQUE(holiday_date, year) admits for one year. */
  predicate DistinctHolidayDates(hs: seq<ApiHoliday>) {
    forall i, j :: 0 <= i < j < |hs| ==> hs[i].date != hs[j].date
  }

  /** The rows `cache_holidays` inserts for a fetched list, stamped with the write time. */
  function HolidayRows(hs: seq<ApiHoliday>, now: Timestamp): (rows: seq<HolidayRow>)
    ensures |rows| == |hs|
    ensures forall i :: 0 <= i < |hs| ==> rows[i].holidayDate == hs[i].date && rows[i].fetchedAt == Some(now)
  {
    seq(|hs|, i requires 0 <= i < |hs| => HolidayRow(hs[i].date, hs[i].name, hs[i].localName, Some(now)))
  }

  function RowDates(rows: seq<HolidayRow>): (dates: seq<string>)
    ensures |dates| == |rows| && forall i :: 0 <= i < |rows| ==> dates[i] == rows[i].holidayDate
  {
    seq(|rows|, i requires 0 <= i < |rows| => rows[i].holidayDate)
  }

  /**
   * `has_valid_holidays_cache`: the year has a row, its `fetched_at` parses,
   * and the age in whole days (`timedelta.days`, rounded down) is below 7.
   */
  function CacheFresh(rows: seq<HolidayRow>, now: Timestamp): bool {
    |rows| > 0 && rows[0].fetchedAt.Some? && (now - rows[0].fetchedAt.value) / MicrosPerDay < 7
  }

  /** A cache written at `t` is fresh exactly while less than seven whole days have passed. */
  lemma FreshForSevenDays(hs: seq<ApiHoliday>, t: Timestamp, now: Timestamp)
    requires |hs| > 0
    ensures CacheFresh(HolidayRows(hs, t), now) <==> now < t + 7 * MicrosPerDay
  {
    var age := now - t;
    var q := age / MicrosPerDay;
    assert age == q * MicrosPerDay + age % MicrosPerDay;
    if q < 7 {
      assert q * MicrosPerDay <= 6 * MicrosPerDay;
    } else {
      assert q * MicrosPerDay >= 7 * MicrosPerDay;
    }
  }

  /**
   * The contents of `rates.db` as an earlier run, or the credential tool, left
   * them; every table is empty for a file that does not exist yet.
   */
  datatype StoredTables = StoredTables(
    credentials: map<string, string>,
    exchangeRates: map<CalendarDate, ExchangeRow>,
    goldRates: map<CalendarDate, GoldRow>,
    scrapeRuns: seq<RunRow>,
    lastRunId: nat,
    holidays: map<int, seq<HolidayRow>>)

  /**
   * What a file written only by this program satisfies: SQLite's AUTOINCREMENT
   * never hands out an id above its counter, and `save_exchange_rates` writes
   * every row with the pair 'USD/ZWG'.
   */
  predicate WrittenByProgram(t: StoredTables) {
    && (forall i :: 0 <= i < |t.scrapeRuns| ==> 1 <= t.scrapeRuns[i].id <= t.lastRunId)
    && (forall d :: d in t.exchangeRates ==> t.exchangeRates[d].currencyPair == UsdZwg)
  }

  class RatesDatabase {
    var credentials: map<string, string>
    var exchangeRates: map<CalendarDate, ExchangeRow>
    var goldRates: map<CalendarDate, GoldRow>
    var scrapeRuns: seq<RunRow>
    /** The AUTOINCREMENT counter of `scrape_runs`: the largest id ever handed out. */
    var lastRunId: nat
    /** `public_holidays`, grouped by the `year` column, in insertion order. */
    var holidays: map<int, seq<HolidayRow>>

    ghost predicate Valid()
      reads this
    {
      && (forall i :: 0 <= i < |scrapeRuns| ==> 1 <= scrapeRuns[i].id <= lastRunId)
      && (forall d :: d in exchangeRates ==> exchangeRates[d].currencyPair == UsdZwg)
    }

    /**
     * `RatesDatabase()`: opens `rates.db` and creates each missing table, so
     * every row already in the file is kept.
     */
    constructor (file: StoredTables)
      requires WrittenByProgram(file)
      ensures Valid()
      ensures credentials == file.credentials && exchangeRates == file.exchangeRates && goldRates == file.goldRates
      ensures scrapeRuns == file.scrapeRuns && lastRunId == file.lastRunId && holidays == file.holidays
    {
      credentials, exchangeRates, goldRates := file.credentials, file.exchangeRates, file.goldRates;
      scrapeRuns, lastRunId, holidays := file.scrapeRuns, file.lastRunId, file.holidays;
    }

    function Credential(key: string): (v: Option<string>)
      reads `credentials
      ensures v.Some? <==> key in credentials
    {
      if key in credentials then Some(credentials[key]) else None
    }

    /** The year has cached rows and the first of them is less than seven days old. */
    predicate HasFreshHolidays(year: int, now: Timestamp)
      reads this
    {
      year in holidays && CacheFresh(holidays[year], now)
    }

    function CachedHolidayDates(year: int): seq<string>
      reads this
    {
      if year in holidays then RowDates(holidays[year]) else []
    }

    // ------------------------------------------------------------ credentials

    method SetCredential(key: string, value: string)
      requires Valid()
      modifies this
      ensures Valid()
      ensures Credential(key) == Some(value)
      ensures forall k :: k != key ==> Credential(k) == old(Credential(k))
      ensures credentials == old(credentials)[key := value]
      ensures exchangeRates == old(exchangeRates) && goldRates == old(goldRates)
      ensures scrapeRuns == old(scrapeRuns) && lastRunId == old(lastRunId) && holidays == old(holidays)
    {
      credentials := credentials[key := value];
    }

    method GetCredential(key: string) returns (v: Option<string>)
      ensures v.Some? <==> key in credentials
      ensures v.Some? ==> v.value == credentials[key]
    {
      v := if key in credentials then Some(credentials[key]) else None;
    }

    method DeleteCredential(key: string)
      requires Valid()
      modifies this
      ensures Valid()
      ensures Credential(key) == None
      ensures credentials == old(credentials) - {key}
      ensures exchangeRates == old(exchangeRates) && goldRates == old(goldRates)
      ensures scrapeRuns == old(scrapeRuns) && lastRunId == old(lastRunId) && holidays == old(holidays)
    {
      credentials := credentials - {key};
    }

    // ------------------------------------------------------------ run log

    /** Appends one run record under a fresh id and returns that id. */
    method LogScrapeRun(runDate: CalendarDate, now: Timestamp, goldSuccess: bool, exchangeSuccess: bool,
                        goldSource: Option<string>, exchangeSource: Option<string>, notes: Option<string>)
      returns (id: nat)
      requires Valid()
      modifies this
      ensures Valid()
      ensures forall r :: r in old(scrapeRuns) ==> r.id < id
      ensures scrapeRuns == old(scrapeRuns) + [RunRow(id, runDate, now, goldSuccess, exchangeSuccess, goldSource, exchangeSource, notes)]
      ensures lastRunId == id == old(lastRunId) + 1
      ensures credentials == old(credentials) && exchangeRates == old(exchangeRates)
      ensures goldRates == old(goldRates) && holidays == old(holidays)
    {
      id := lastRunId + 1;
      lastRunId := id;
      scrapeRuns := scrapeRuns + [RunRow(id, runDate, now, goldSuccess, exchangeSuccess, goldSource, exchangeSource, notes)];
    }

    method HasSuccessfulGoldScrape(d: CalendarDate) returns (b: bool)
      ensures b <==> d in goldRates
    {
      b := d in goldRates;
    }

    method HasSuccessfulExchangeScrape(d: CalendarDate) returns (b: bool)
      ensures b <==> d in exchangeRates
    {
      b := d in exchangeRates;
    }

    // ------------------------------------------------------------ rates

    /** Upsert by date: every column of the row is replaced, defaults included. */
    method SaveGoldRates(d: CalendarDate, prices: GoldPrices, now: Timestamp)
      requires Valid()
      modifies this
      ensures Valid()
      ensures goldRates == old(goldRates)[d := GoldRow(prices, now)]
      ensures credentials == old(credentials) && exchangeRates == old(exchangeRates)
      ensures scrapeRuns == old(scrapeRuns) && lastRunId == old(lastRunId) && holidays == old(holidays)
    {
      goldRates := goldRates[d := GoldRow(prices, now)];
    }

    method GetGoldRates(d: CalendarDate) returns (row: Option<GoldRow>)
      ensures row.Some? <==> d in goldRates
      ensures row.Some? ==> row.value == goldRates[d]
    {
      row := if d in goldRates then Some(goldRates[d]) else None;
    }

    /**
     * Upsert by date: an insert writes the pair 'USD/ZWG'; an update replaces
     * bid, ask, avg, source and the time stamp and leaves the pair as it was.
     */
    method SaveExchangeRates(d: CalendarDate, bid: real, ask: real, avg: real, source: Option<string>, now: Timestamp)
      requires Valid()
      modifies this
      ensures Valid()
      ensures exchangeRates == old(exchangeRates)[d := ExchangeRow(UsdZwg, bid, ask, avg, source, now)]
      ensures credentials == old(credentials) && goldRates == old(goldRates)
      ensures scrapeRuns == old(scrapeRuns) && lastRunId == old(lastRunId) && holidays == old(holidays)
    {
      var pair := if d in exchangeRates then exchangeRates[d].currencyPair else UsdZwg;
      exchangeRates := exchangeRates[d := ExchangeRow(pair, bid, ask, avg, source, now)];
    }

    method GetExchangeRates(d: CalendarDate) returns (row: Option<ExchangeRow>)
      ensures row.Some? <==> d in exchangeRates
      ensures row.Some? ==> row.value == exchangeRates[d]
    {
      row := if d in exchangeRates then Some(exchangeRates[d]) else None;
    }

    // ------------------------------------------------------------ holidays

    /**
     * Deletes the year's rows, then inserts one row per fetched holiday, in one
     * transaction. A repeated date violates UNIQUE(holiday_date, year): the
     * insert raises IntegrityError and, the transaction never being committed,
     * the table is as it was.
     */
    method CacheHolidays(year: int, hs: seq<ApiHoliday>, now: Timestamp) returns (err: Option<PyError>)
      requires Valid()
      modifies this
      ensures Valid()
      ensures err == if DistinctHolidayDates(hs) then None else Some(IntegrityError)
      ensures holidays == if err.None? then old(holidays)[year := HolidayRows(hs, now)] else old(holidays)
      ensures credentials == old(credentials) && exchangeRates == old(exchangeRates) && goldRates == old(goldRates)
      ensures scrapeRuns == old(scrapeRuns) && lastRunId == old(lastRunId)
    {
      var committed := holidays;
      holidays := holidays[year := []];
      var i := 0;
      while i < |hs|
        invariant 0 <= i <= |hs|
        invariant holidays == committed[year := HolidayRows(hs[..i], now)]
        invariant DistinctHolidayDates(hs[..i])
        invariant credentials == old(credentials) && exchangeRates == old(exchangeRates) && goldRates == old(goldRates)
        invariant scrapeRuns == old(scrapeRuns) && lastRunId == old(lastRunId)
      {
        var rows := holidays[year];
        var clash := exists k | 0 <= k < |rows| :: rows[k].holidayDate == hs[i].date;
        if clash {
          holidays := committed;
          err := Some(IntegrityError);
          assert !DistinctHolidayDates(hs) by {
            var k :| 0 <= k < i && HolidayRows(hs[..i], now)[k].holidayDate == hs[i].date;
            assert hs[k].date == hs[i].date;
          }
          return;
        }
        var row := HolidayRow(hs[i].date, hs[i].name, hs[i].localName, Some(now));
        holidays := holidays[year := rows + [row]];
        assert hs[..i + 1] == hs[..i] + [hs[i]];
        assert HolidayRows(hs[..i + 1], now) == HolidayRows(hs[..i], now) + [row];
        i := i + 1;
      }
      assert hs[..i] == hs;
      err := None;
    }

    method GetCachedHolidays(year: int) returns (dates: seq<string>)
      ensures year in holidays ==> |dates| == |holidays[year]|
      ensures year in holidays ==> forall i :: 0 <= i < |dates| ==> dates[i] == holidays[year][i].holidayDate
      ensures year !in holidays ==> dates == []
    {
      dates := if year in holidays then RowDates(holidays[year]) else [];
    }

    method HasValidHolidaysCache(year: int, now: Timestamp) returns (b: bool)
      ensures b <==> HasFreshHolidays(year, now)
      ensures b ==> |holidays[year]| > 0
    {
      if year !in holidays {
        return false;
      }
      var rows := holidays[year];
      if |rows| == 0 {
        return false;
      }
      match rows[0].fetchedAt
      case None => b := false;
      case Some(t) =>
        var age := now - t;
        b := age / MicrosPerDay < 7;
    }
  }
}
