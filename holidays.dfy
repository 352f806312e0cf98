/**
 * The business-day gate (lib/holidays.py): weekends are never business
 * days; a weekday is one unless its ISO date is among the public holidays
 * cached for its year, the cache being filled from the calendar service on
 * demand.
 */
module Holidays {
  import opened Wrappers
  import opened Dates
  import opened LocalStore

  /**
   * What the GET to the calendar service gave: no reply at all (a connection
   * error or time-out), or a status with a body that is a holiday list or
   * not JSON (None).
   */
  datatype ApiReply = NoReply | Reply(status: int, body: Option<seq<ApiHoliday>>)

  /** `_fetch_holidays_from_api`: the list on a 200 with a JSON body, otherwise the empty list. */
  function FetchedHolidays(reply: ApiReply): (hs: seq<ApiHoliday>)
    ensures hs != [] ==> reply.Reply? && reply.status == 200 && reply.body == Some(hs)
    ensures reply.Reply? && reply.status == 200 && reply.body.Some? ==> hs == reply.body.value
  {
    match reply
    case NoReply => []
    case Reply(status, body) => if status == 200 && body.Some? then body.value else []
  }

  /** The decision `is_business_day` takes once the year's holiday dates are known. */
  predicate BusinessDay(d: CalendarDate, holidayDates: seq<string>) {
    Weekday(d) < 5 && IsoFormat(d) !in holidayDates
  }

  /**
   * Comparing ISO text is comparing dates: the date's text is in the list
   * exactly when some entry of the list reads as that date.
   */
  lemma HolidayTextMatchesDate(d: CalendarDate, holidayDates: seq<string>)
    ensures IsoFormat(d) in holidayDates <==> exists i :: 0 <= i < |holidayDates| && ParseIsoDate(holidayDates[i]) == Some(d)
  {
    if IsoFormat(d) in holidayDates {
      var i :| 0 <= i < |holidayDates| && holidayDates[i] == IsoFormat(d);
      IsoRoundTrip(d);
      assert ParseIsoDate(holidayDates[i]) == Some(d);
    }
    if i :| 0 <= i < |holidayDates| && ParseIsoDate(holidayDates[i]) == Some(d) {
      IsoParseCanonical(holidayDates[i]);
    }
  }

  /**
   * The gate as written: `_ensure_holidays_cached` asks the store for
   * `has_holidays_for_year`, which RatesDatabase does not define, so every
   * weekday raises AttributeError before the cache is read.
   */
  function BusinessDayAsWritten(d: CalendarDate): (r: Outcome<bool>)
    ensures Weekday(d) >= 5 ==> r == Returned(false)
  {
    if Weekday(d) >= 5 then Returned(false) else Raised(AttributeError)
  }

  /** Monday 29 December 2025: the gate as written raises instead of answering. */
  lemma AsWrittenRaisesOnMonday()
    ensures Weekday(Date(2025, 12, 29)) == 0
    ensures BusinessDayAsWritten(Date(2025, 12, 29)) == Raised(AttributeError)
  {
  }

  /**
   * The cache check `_ensure_holidays_cached` makes. It calls
   * `has_holidays_for_year`, which the store does not define; the store's own
   * check is `has_valid_holidays_cache` (rows fetched less than seven days
   * ago), and the called name reads as a bare "the year has rows".
   */
  datatype CacheCheck = FreshWithinWeek | YearPresent

  class ZimbabweHolidays {
    const db: RatesDatabase

    constructor (db: RatesDatabase)
      ensures this.db == db
    {
      this.db := db;
    }

    /** Whether the store's cache for the year passes the check. */
    predicate HasCachedYear(check: CacheCheck, year: int, now: Timestamp)
      reads db
    {
      match check
      case FreshWithinWeek => db.HasFreshHolidays(year, now)
      case YearPresent => db.CachedHolidayDates(year) != []
    }

    /**
     * Fetches and caches the year's holidays unless the store's cache passes
     * the check; an empty fetch writes nothing.
     */
    method EnsureHolidaysCached(check: CacheCheck, year: int, now: Timestamp, reply: ApiReply) returns (err: Option<PyError>)
      requires db.Valid()
      modifies db
      ensures db.Valid()
      ensures old(HasCachedYear(check, year, now)) ==> err == None && db.holidays == old(db.holidays)
      ensures !old(HasCachedYear(check, year, now)) && FetchedHolidays(reply) == [] ==>
                err == None && db.holidays == old(db.holidays)
      ensures !old(HasCachedYear(check, year, now)) && FetchedHolidays(reply) != [] ==>
                var hs := FetchedHolidays(reply);
                && err == (if DistinctHolidayDates(hs) then None else Some(IntegrityError))
                && db.holidays == (if err == None then old(db.holidays)[year := HolidayRows(hs, now)] else old(db.holidays))
      ensures db.credentials == old(db.credentials) && db.exchangeRates == old(db.exchangeRates)
      ensures db.goldRates == old(db.goldRates) && db.scrapeRuns == old(db.scrapeRuns) && db.lastRunId == old(db.lastRunId)
    {
      err := None;
      var cached: bool;
      if check == FreshWithinWeek {
        cached := db.HasValidHolidaysCache(year, now);
      } else {
        var dates := db.GetCachedHolidays(year);
        cached := dates != [];
      }
      if !cached {
        var hs := FetchedHolidays(reply);
        if hs != [] {
          err := db.CacheHolidays(year, hs, now);
        }
      }
    }

    /** Whether the date's ISO text is among the holidays cached for its year, once the cache is ensured. */
    method IsPublicHoliday(check: CacheCheck, d: CalendarDate, now: Timestamp, reply: ApiReply) returns (r: Outcome<bool>)
      requires db.Valid()
      modifies db
      ensures db.Valid()
      ensures r.Raised? <==> !old(HasCachedYear(check, d.year, now)) && FetchedHolidays(reply) != []
                              && !DistinctHolidayDates(FetchedHolidays(reply))
      ensures r.Returned? ==> r.value == (IsoFormat(d) in db.CachedHolidayDates(d.year))
      ensures r.Raised? ==> r.error == IntegrityError && db.holidays == old(db.holidays)
      ensures db.credentials == old(db.credentials) && db.exchangeRates == old(db.exchangeRates)
      ensures db.goldRates == old(db.goldRates) && db.scrapeRuns == old(db.scrapeRuns) && db.lastRunId == old(db.lastRunId)
    {
      var err := EnsureHolidaysCached(check, d.year, now, reply);
      if err.Some? {
        return Raised(err.value);
      }
      var dates := db.GetCachedHolidays(d.year);
      r := Returned(IsoFormat(d) in dates);
    }

    /** Saturday and Sunday are answered without touching the cache; other days by the holiday list. */
    method IsBusinessDay(check: CacheCheck, d: CalendarDate, now: Timestamp, reply: ApiReply) returns (r: Outcome<bool>)
      requires db.Valid()
      modifies db
      ensures db.Valid()
      ensures Weekday(d) >= 5 ==> r == Returned(false) && db.holidays == old(db.holidays)
      ensures r.Returned? ==> r.value == BusinessDay(d, db.CachedHolidayDates(d.year))
      ensures Weekday(d) < 5 ==> (r.Raised? <==> !old(HasCachedYear(check, d.year, now)) && FetchedHolidays(reply) != []
                                                  && !DistinctHolidayDates(FetchedHolidays(reply)))
      ensures r.Raised? ==> r.error == IntegrityError && db.holidays == old(db.holidays)
      ensures db.credentials == old(db.credentials) && db.exchangeRates == old(db.exchangeRates)
      ensures db.goldRates == old(db.goldRates) && db.scrapeRuns == old(db.scrapeRuns) && db.lastRunId == old(db.lastRunId)
    {
      if Weekday(d) >= 5 {
        return Returned(false);
      }
      var holiday := IsPublicHoliday(check, d, now, reply);
      r := match holiday
        case Returned(h) => Returned(!h)
        case Raised(e) => Raised(e);
    }
  }
}
