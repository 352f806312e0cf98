/**
 * The remote snapshot store (lib/mongo.py): the `fx-rates` collection holds
 * one document per rate date. A sync copies the latest document, re-dates it
 * to midnight of the exchange date, overwrites the ZiG quotation and, when
 * the gold prices are for the same day, the Gold and eGold ratios, then
 * inserts it as a new document.
 */
module Remote {
  import opened Wrappers
  import opened Text
  import opened Dates
  import opened Quotes
  import opened LocalStore

  /** The database the URI must name, and the collection inside it. */
  const MongoDatabase: string := "fx-rates"
  const MongoCollection: string := "fx-rates"

  type TimeOfDay = t: int | 0 <= t < MicrosPerDay

  /** A field value of a stored document, as far as the sync tells them apart. */
  datatype Value =
    | DateTime(date: CalendarDate, time: TimeOfDay)
    | Num(x: real)
    | Str(s: string)
    | Null
    | ObjectId(id: nat)

  type Document = map<string, Value>

  /** `doc.get(key)`. */
  function Get(doc: Document, key: string): Option<Value> {
    if key in doc then Some(doc[key]) else None
  }

  /** A number, or `None` stored as null. */
  function NumOrNull(x: Option<real>): Value {
    if x.Some? then Num(x.value) else Null
  }

  // ---------------------------------------------------------------- dates and order

  /** `date_to_midnight_iso`: the first instant of the day. */
  function Midnight(d: CalendarDate): (v: Value)
    ensures DatePart(Some(v)) == Some(d)
    ensures forall t: TimeOfDay :: Rank(Some(v)) <= Rank(Some(DateTime(d, t)))
  {
    DateTime(d, 0)
  }

  /**
   * What `latest_date_only` compares with the exchange date: the calendar date
   * of a datetime; any other value (or a missing field) equals no date.
   */
  function DatePart(v: Option<Value>): Option<CalendarDate> {
    if v.Some? && v.value.DateTime? then Some(v.value.date) else None
  }

  /** A date as one number, in calendar order: year, then month, then day. */
  function DayKey(d: CalendarDate): nat {
    ((d.year - 1) * 12 + d.month - 1) * 31 + d.day - 1
  }

  /**
   * The position of a `Date` value in the collection's descending sort:
   * datetimes in time order, above every value of another type.
   */
  function Rank(v: Option<Value>): nat {
    if v.Some? && v.value.DateTime? then 1 + DayKey(v.value.date) * MicrosPerDay + v.value.time else 0
  }

  function DateRank(doc: Document): nat {
    Rank(Get(doc, "Date"))
  }

  /** Rank orders datetimes by date, then by time of day. */
  lemma RankIsChronological(a: CalendarDate, s: TimeOfDay, b: CalendarDate, t: TimeOfDay)
    ensures Rank(Some(DateTime(a, s))) < Rank(Some(DateTime(b, t))) <==>
              (NotAfter(a, b) && a != b) || (a == b && s < t)
  {
    DayKeyIsChronological(a, b);
    if DayKey(a) < DayKey(b) {
      assert DayKey(a) * MicrosPerDay + MicrosPerDay <= DayKey(b) * MicrosPerDay;
    } else if DayKey(b) < DayKey(a) {
      assert DayKey(b) * MicrosPerDay + MicrosPerDay <= DayKey(a) * MicrosPerDay;
    }
  }

  lemma DayKeyIsChronological(a: CalendarDate, b: CalendarDate)
    ensures DayKey(a) < DayKey(b) <==> NotAfter(a, b) && a != b
    ensures DayKey(a) == DayKey(b) <==> a == b
  {
  }

  /** Only a datetime on day `d` ranks with midnight of `d`. */
  lemma RankOfMidnight(v: Option<Value>, d: CalendarDate)
    requires Rank(v) == Rank(Some(Midnight(d)))
    ensures DatePart(v) == Some(d)
  {
    var w := v.value;
    RankIsChronological(w.date, w.time, d, 0);
    RankIsChronological(d, 0, w.date, w.time);
  }

  /**
   * `find_one(sort=[("Date", DESCENDING)])`: the position of a document with
   * the highest `Date`, the earliest-inserted one among equals.
   */
  function LatestIndex(docs: seq<Document>): (r: Option<nat>)
    ensures r.Some? <==> |docs| > 0
    ensures r.Some? ==> r.value < |docs|
    ensures r.Some? ==> forall j :: 0 <= j < |docs| ==> DateRank(docs[j]) <= DateRank(docs[r.value])
    ensures r.Some? ==> forall j :: 0 <= j < r.value ==> DateRank(docs[j]) < DateRank(docs[r.value])
  {
    if |docs| == 0 then None
    else
      var prev := LatestIndex(docs[..|docs| - 1]);
      if prev.Some? && DateRank(docs[prev.value]) >= DateRank(docs[|docs| - 1]) then prev
      else Some(|docs| - 1)
  }

  /** `_get_latest_record`: the latest document, or None when the collection is empty or the read fails. */
  function Latest(docs: seq<Document>, readOk: bool): (r: Option<Document>)
    ensures r.Some? <==> readOk && |docs| > 0
    ensures r.Some? ==> r.value in docs && forall j :: 0 <= j < |docs| ==> DateRank(docs[j]) <= DateRank(r.value)
  {
    if !readOk then None
    else match LatestIndex(docs)
      case None => None
      case Some(i) => Some(docs[i])
  }

  /** Appending a document changes the latest one only if it ranks strictly higher. */
  lemma LatestAfterInsert(docs: seq<Document>, doc: Document)
    ensures LatestIndex(docs + [doc]) ==
      if |docs| > 0 && DateRank(doc) <= DateRank(docs[LatestIndex(docs).value]) then LatestIndex(docs) else Some(|docs|)
  {
    assert (docs + [doc])[..|docs|] == docs;
  }

  // ---------------------------------------------------------------- rounding

  /** Python's `round(x)`: the nearest integer, a tie going to the even one. */
  function RoundHalfEven(x: real): (n: int)
    ensures x - 0.5 <= n as real <= x + 0.5
    ensures (x - n as real == 0.5 || n as real - x == 0.5) ==> n % 2 == 0
  {
    var f := x.Floor;
    var frac := x - f as real;
    if frac < 0.5 then f
    else if frac > 0.5 then f + 1
    else if f % 2 == 0 then f
    else f + 1
  }

  /** Python's `round(x, 4)`, on exact decimals. */
  function Round4(x: real): (r: real)
    ensures x - 0.00005 <= r <= x + 0.00005
  {
    RoundHalfEven(x * 10000.0) as real / 10000.0
  }

  // ---------------------------------------------------------------- the new document

  /** The fields a sync writes itself. */
  const Written: set<string> := {"Date", "ZiG_Bid", "ZiG_Ask", "ZiG_Mid", "Gold", "eGold"}

  /** The copy of the latest document: every field except `_id`. */
  function WithoutId(doc: Document): (r: Document)
    ensures r.Keys == doc.Keys - {"_id"}
    ensures forall k :: k in r ==> r[k] == doc[k]
  {
    map k | k in doc.Keys && k != "_id" :: doc[k]
  }

  /** `zwg and usd and usd > 0`: both prices truthy and the divisor positive. */
  predicate RatioGuard(num: Option<real>, den: Option<real>) {
    Truthy(num) && Truthy(den) && den.value > 0.0
  }

  function Ratio(num: Option<real>, den: Option<real>): Value
    requires RatioGuard(num, den)
  {
    Num(Round4(num.value / den.value))
  }

  /**
   * The gold step: None when a truthy gold dictionary carries a `rate_date`
   * that `date.fromisoformat` rejects (the ValueError ends the sync);
   * otherwise the record with Gold and eGold recomputed when the gold date is
   * the exchange date and their guards hold, and left as copied otherwise.
   */
  function GoldUpdate(rec: Document, gold: Option<GoldQuote>, d: CalendarDate): Option<Document> {
    if gold.None? || gold.value.Size() == 0 || !TruthyText(gold.value.rateDate) then Some(rec)
    else
      var g := gold.value;
      match ParseIsoDate(g.rateDate.value)
      case None => None
      case Some(gd) =>
        if gd != d then Some(rec)
        else
          var withGold := if RatioGuard(g.zwg, g.usd) then rec["Gold" := Ratio(g.zwg, g.usd)] else rec;
          var withEGold :=
            if RatioGuard(g.digitalTokenZwg, g.digitalTokenUsd)
            then withGold["eGold" := Ratio(g.digitalTokenZwg, g.digitalTokenUsd)]
            else withGold;
          Some(withEGold)
  }

  /** The gold prices are for day `d`: a truthy dictionary whose `rate_date` reads as `d`. */
  predicate GoldForDay(gold: Option<GoldQuote>, d: CalendarDate) {
    gold.Some? && gold.value.Size() > 0 && TruthyText(gold.value.rateDate)
    && ParseIsoDate(gold.value.rateDate.value) == Some(d)
  }

  /** Why a sync inserted nothing, after the connection was made. */
  datatype Decline = NoRateDate | BadRateDate | AlreadyCurrent | BadGoldDate

  datatype Plan = Declined(reason: Decline) | Insert(record: Document)

  /** A dictionary-valued `latest` is truthy when it has a field. */
  predicate Present(latest: Option<Document>) {
    latest.Some? && latest.value != map[]
  }

  /** The exchange date a quotation names, when `date.fromisoformat` accepts it. */
  function ExchangeDate(ex: ExchangeQuote): Option<CalendarDate> {
    if TruthyText(ex.rateDate) then ParseIsoDate(ex.rateDate.value) else None
  }

  /** What `update_fx_rates` decides once connected, given the latest document. */
  function PlanSync(ex: ExchangeQuote, gold: Option<GoldQuote>, latest: Option<Document>): Plan {
    if !TruthyText(ex.rateDate) then Declined(NoRateDate)
    else match ParseIsoDate(ex.rateDate.value)
      case None => Declined(BadRateDate)
      case Some(d) =>
        if Present(latest) && DatePart(Get(latest.value, "Date")) == Some(d) then Declined(AlreadyCurrent)
        else
          var base := if Present(latest) then WithoutId(latest.value) else map[];
          var rec := base["Date" := Midnight(d)]["ZiG_Bid" := NumOrNull(ex.bid)]
                         ["ZiG_Ask" := NumOrNull(ex.ask)]["ZiG_Mid" := NumOrNull(ex.avg)];
          match GoldUpdate(rec, gold, d)
          case None => Declined(BadGoldDate)
          case Some(r) => Insert(r)
  }

  // ---------------------------------------------------------------- properties of the plan

  /** With a readable exchange date, the sync declines as current exactly when the latest document is of that day. */
  lemma SkipIffSameDay(ex: ExchangeQuote, gold: Option<GoldQuote>, latest: Option<Document>)
    requires ExchangeDate(ex).Some?
    ensures PlanSync(ex, gold, latest) == Declined(AlreadyCurrent) <==>
              Present(latest) && DatePart(Get(latest.value, "Date")) == ExchangeDate(ex)
  {
  }

  /** A sync without a usable exchange date never inserts. */
  lemma NoDateNoInsert(ex: ExchangeQuote, gold: Option<GoldQuote>, latest: Option<Document>)
    requires ExchangeDate(ex).None?
    ensures !PlanSync(ex, gold, latest).Insert?
  {
  }

  /**
   * The new document holds every field of the latest one except `_id`, with
   * its value, unless the sync writes that field; and no field from elsewhere.
   */
  lemma InsertCarriesFields(ex: ExchangeQuote, gold: Option<GoldQuote>, latest: Option<Document>)
    requires PlanSync(ex, gold, latest).Insert?
    ensures var r := PlanSync(ex, gold, latest).record;
      && "_id" !in r
      && (forall k :: k in r ==> k in Written || (Present(latest) && k in latest.value))
      && (Present(latest) ==> forall k :: k in latest.value && k != "_id" ==> k in r)
      && (Present(latest) ==> forall k :: k in latest.value && k !in Written && k != "_id" ==> r[k] == latest.value[k])
  {
    var d := ParseIsoDate(ex.rateDate.value).value;
    var base := if Present(latest) then WithoutId(latest.value) else map[];
    var rec := base["Date" := Midnight(d)]["ZiG_Bid" := NumOrNull(ex.bid)]
                   ["ZiG_Ask" := NumOrNull(ex.ask)]["ZiG_Mid" := NumOrNull(ex.avg)];
    GoldUpdateKeeps(rec, gold, d);
  }

  /** The gold step only writes Gold and eGold. */
  lemma GoldUpdateKeeps(rec: Document, gold: Option<GoldQuote>, d: CalendarDate)
    requires GoldUpdate(rec, gold, d).Some?
    ensures var r := GoldUpdate(rec, gold, d).value;
      && r.Keys <= rec.Keys + {"Gold", "eGold"} && rec.Keys <= r.Keys
      && forall k :: k in rec && k != "Gold" && k != "eGold" ==> r[k] == rec[k]
  {
  }

  /** The new document is dated midnight of the exchange date and carries the exchange quotation. */
  lemma InsertStampsDateAndZig(ex: ExchangeQuote, gold: Option<GoldQuote>, latest: Option<Document>)
    requires PlanSync(ex, gold, latest).Insert?
    ensures ExchangeDate(ex).Some?
    ensures var r := PlanSync(ex, gold, latest).record;
      && r["Date"] == Midnight(ExchangeDate(ex).value)
      && r["ZiG_Bid"] == NumOrNull(ex.bid) && r["ZiG_Ask"] == NumOrNull(ex.ask) && r["ZiG_Mid"] == NumOrNull(ex.avg)
  {
    var d := ParseIsoDate(ex.rateDate.value).value;
    var base := if Present(latest) then WithoutId(latest.value) else map[];
    var rec := base["Date" := Midnight(d)]["ZiG_Bid" := NumOrNull(ex.bid)]
                   ["ZiG_Ask" := NumOrNull(ex.ask)]["ZiG_Mid" := NumOrNull(ex.avg)];
    GoldUpdateKeeps(rec, gold, d);
  }

  /**
   * Gold is recomputed as round(zwg / usd, 4) exactly when the gold prices
   * are for the exchange date and pass the guard; otherwise the copied value
   * (or its absence) stays.
   */
  lemma GoldRatioRule(ex: ExchangeQuote, gold: Option<GoldQuote>, latest: Option<Document>)
    requires PlanSync(ex, gold, latest).Insert?
    ensures ExchangeDate(ex).Some?
    ensures var r := PlanSync(ex, gold, latest).record;
      var d := ExchangeDate(ex).value;
      if GoldForDay(gold, d) && RatioGuard(gold.value.zwg, gold.value.usd)
      then "Gold" in r && r["Gold"] == Ratio(gold.value.zwg, gold.value.usd)
      else Get(r, "Gold") == (if Present(latest) then Get(latest.value, "Gold") else None)
  {
  }

  /** eGold follows the same rule on the digital-token prices, independently of Gold. */
  lemma EGoldRatioRule(ex: ExchangeQuote, gold: Option<GoldQuote>, latest: Option<Document>)
    requires PlanSync(ex, gold, latest).Insert?
    ensures ExchangeDate(ex).Some?
    ensures var r := PlanSync(ex, gold, latest).record;
      var d := ExchangeDate(ex).value;
      if GoldForDay(gold, d) && RatioGuard(gold.value.digitalTokenZwg, gold.value.digitalTokenUsd)
      then "eGold" in r && r["eGold"] == Ratio(gold.value.digitalTokenZwg, gold.value.digitalTokenUsd)
      else Get(r, "eGold") == (if Present(latest) then Get(latest.value, "eGold") else None)
  {
  }

  /**
   * A gold dictionary whose `rate_date` cannot be read stops the sync, even
   * though the exchange quotation alone would have been inserted.
   */
  lemma UnreadableGoldDateBlocksSync(ex: ExchangeQuote, g: GoldQuote, latest: Option<Document>)
    requires PlanSync(ex, None, latest).Insert?
    requires TruthyText(g.rateDate) && ParseIsoDate(g.rateDate.value).None?
    ensures PlanSync(ex, Some(g), latest) == Declined(BadGoldDate)
  {
    assert g.Size() > 0;
  }

  /** The document a successful sync appends: the plan's record under a fresh object id. */
  function Stored(record: Document, id: nat): Document {
    record["_id" := ObjectId(id)]
  }

  /**
   * Running the same sync again right after an insert is a no-op when the
   * exchange date is not older than the latest document: the new document
   * is then the latest, and it is of that day.
   */
  lemma {:induction false} RepeatSyncSkips(docs: seq<Document>, ex: ExchangeQuote, gold: Option<GoldQuote>, id: nat)
    requires PlanSync(ex, gold, Latest(docs, true)).Insert?
    requires |docs| > 0 ==> DateRank(docs[LatestIndex(docs).value]) <= Rank(Some(Midnight(ExchangeDate(ex).value)))
    ensures ExchangeDate(ex).Some?
    ensures PlanSync(ex, gold, Latest(docs + [Stored(PlanSync(ex, gold, Latest(docs, true)).record, id)], true))
            == Declined(AlreadyCurrent)
  {
    InsertStampsDateAndZig(ex, gold, Latest(docs, true));
    var d := ExchangeDate(ex).value;
    var doc := Stored(PlanSync(ex, gold, Latest(docs, true)).record, id);
    assert Get(doc, "Date") == Some(Midnight(d));
    LatestAfterInsert(docs, doc);
    var after := docs + [doc];
    var i := LatestIndex(after).value;
    assert DateRank(after[i]) == Rank(Some(Midnight(d)));
    RankOfMidnight(Get(after[i], "Date"), d);
    assert Latest(after, true) == Some(after[i]);
    assert Present(Some(after[i]));
    SkipIffSameDay(ex, gold, Some(after[i]));
  }

  /**
   * An exchange date older than the latest document still inserts, and the
   * latest document stays the same, so the same sync inserts again on every call.
   */
  lemma {:induction false} RepeatSyncDuplicatesWhenOlder(docs: seq<Document>, ex: ExchangeQuote, id: nat)
    requires ExchangeDate(ex).Some? && |docs| > 0
    requires Rank(Some(Midnight(ExchangeDate(ex).value))) < DateRank(docs[LatestIndex(docs).value])
    requires DatePart(Get(docs[LatestIndex(docs).value], "Date")) != ExchangeDate(ex)
    ensures PlanSync(ex, None, Latest(docs, true)).Insert?
    ensures PlanSync(ex, None, Latest(docs + [Stored(PlanSync(ex, None, Latest(docs, true)).record, id)], true))
            == PlanSync(ex, None, Latest(docs, true))
  {
    var d := ExchangeDate(ex).value;
    InsertStampsDateAndZig(ex, None, Latest(docs, true));
    var doc := Stored(PlanSync(ex, None, Latest(docs, true)).record, id);
    assert Get(doc, "Date") == Some(Midnight(d));
    LatestAfterInsert(docs, doc);
  }

  // ---------------------------------------------------------------- the connection URI

  /**
   * `_get_mongo_uri`: the MONGO_URI variable when set; else the stored
   * `mongo_uri`, with the stored user and password put in when both are set
   * and the URI has an '@' (in place of a `user:pwd` placeholder, or in
   * front of the host part after the last '@'); else None.
   */
  function ResolveMongoUri(uriVariable: Option<string>, baseUri: Option<string>, user: Option<string>, password: Option<string>)
    : (r: Option<string>)
    ensures TruthyText(uriVariable) ==> r == uriVariable
    ensures !TruthyText(uriVariable) && !TruthyText(baseUri) ==> r == None
    ensures !TruthyText(uriVariable) && TruthyText(baseUri) && TruthyText(user) && TruthyText(password) ==>
      var b, cred := baseUri.value, user.value + ":" + password.value;
      && (Contains(b, "user:pwd@") ==> r == Some(ReplaceAll(b, "user:pwd", cred)) && Contains(r.value, cred + "@"))
      && (!Contains(b, "user:pwd@") && Contains(b, "@") ==> r == Some(InjectCredentials(b, cred)))
    ensures !TruthyText(uriVariable) && TruthyText(baseUri) && !(TruthyText(user) && TruthyText(password) && Contains(baseUri.value, "@")) ==>
      r == baseUri
    ensures r.Some? ==> r.value != ""
  {
    if TruthyText(uriVariable) then uriVariable
    else if !TruthyText(baseUri) then None
    else
      var b := baseUri.value;
      PlaceholderHasAt(b);
      if TruthyText(user) && TruthyText(password) && Contains(b, "user:pwd@") then
        PlaceholderFilled(b, user.value + ":" + password.value);
        Some(InjectCredentials(b, user.value + ":" + password.value))
      else
      if TruthyText(user) && TruthyText(password) && Contains(b, "@") then
        Some(InjectCredentials(b, user.value + ":" + password.value))
      else baseUri
  }

  /**
   * The stored URI with the credentials `user:password` put in: in place of
   * every `user:pwd` when the URI has the placeholder `user:pwd@`; else
   * between `scheme://` and the text after the last '@'; else unchanged.
   */
  function InjectCredentials(b: string, cred: string): (r: string)
    requires b != "" && cred != ""
    ensures r != ""
    ensures Contains(b, "user:pwd@") ==> r == ReplaceAll(b, "user:pwd", cred)
    ensures !Contains(b, "user:pwd@") && !Contains(b, "://") ==> r == b
  {
    if Contains(b, "user:pwd@") then
      ReplaceAllNonEmpty(b, "user:pwd", cred);
      ReplaceAll(b, "user:pwd", cred)
    else
      var parts := SplitOnce(b, "://");
      if |parts| == 2 then parts[0] + "://" + cred + "@" + AfterLast(parts[1], '@')
      else b
  }

  /** The placeholder `user:pwd@` holds an '@'. */
  lemma PlaceholderHasAt(b: string)
    ensures Contains(b, "user:pwd@") ==> Contains(b, "@")
  {
    if Contains(b, "user:pwd@") {
      var i :| 0 <= i <= |b| && OccursAt(b, "user:pwd@", i);
      assert b[i + 8..i + 9] == b[i..i + 9][8..9];
      assert OccursAt(b, "@", i + 8);
    }
  }

  /** Where the stored URI has the placeholder, the result names the credentials in front of an '@'. */
  lemma PlaceholderFilled(b: string, cred: string)
    requires b != "" && cred != "" && Contains(b, "user:pwd@")
    ensures Contains(InjectCredentials(b, cred), cred + "@")
  {
    var i :| 0 <= i <= |b| && OccursAt(b, "user:pwd@", i);
    var pat := "user:pwd";
    assert pat + ['@'] == "user:pwd@";
    assert forall j :: 0 < j < |pat| ==> pat[j] != pat[0];
    ReplaceKeepsFollower(b, pat, cred, '@', i);
    assert cred + ['@'] == cred + "@";
  }

  /** Prepending text keeps an occurrence. */
  lemma ContainsAfterPrefix(p: string, t: string, sub: string)
    requires Contains(t, sub)
    ensures Contains(p + t, sub)
  {
    assert (p + t)[|p|..|p + t|] == t;
    ContainsInSlice(p + t, sub, |p|, |p + t|);
  }

  /**
   * `replace(pat, rep)` turns an occurrence of `pat` followed by `c` into
   * `rep` followed by `c`, for a pattern whose first character occurs nowhere
   * else in it (so two occurrences never overlap) and does not equal `c`:
   * the scan from the left cannot skip that occurrence.
   */
  lemma {:induction false} ReplaceKeepsFollower(s: string, pat: string, rep: string, c: char, i: nat)
    requires |pat| > 0 && c != pat[0] && forall j :: 0 < j < |pat| ==> pat[j] != pat[0]
    requires OccursAt(s, pat + [c], i)
    ensures Contains(ReplaceAll(s, pat, rep), rep + [c])
    decreases |s|
  {
    var n := |pat|;
    assert s[i..i + n] == s[i..i + n + 1][..n];
    if s[..n] == pat {
      var rest := s[n..];
      if i == 0 {
        assert s[n] == s[i..i + n + 1][n];
        ReplaceAtFollower(s, pat, rep, c);
      } else {
        PatternNoOverlap(s, pat, i);
        assert rest[i - n..i - n + n + 1] == s[i..i + n + 1];
        ReplaceKeepsFollower(rest, pat, rep, c, i - n);
        ContainsAfterPrefix(rep, ReplaceAll(rest, pat, rep), rep + [c]);
      }
    } else {
      assert i > 0;
      assert s[1..][i - 1..i - 1 + n + 1] == s[i..i + n + 1];
      ReplaceKeepsFollower(s[1..], pat, rep, c, i - 1);
      ContainsAfterPrefix([s[0]], ReplaceAll(s[1..], pat, rep), rep + [c]);
    }
  }

  /** A pattern at the front followed by `c` is replaced by `rep` followed by `c`. */
  lemma ReplaceAtFollower(s: string, pat: string, rep: string, c: char)
    requires |pat| > 0 && c != pat[0] && |pat| < |s| && s[..|pat|] == pat && s[|pat|] == c
    ensures OccursAt(ReplaceAll(s, pat, rep), rep + [c], 0)
  {
    var n := |pat|;
    var rest := s[n..];
    assert rest[0] == c;
    assert |rest| < n || rest[..n] != pat by {
      if |rest| >= n { assert rest[..n][0] == c; }
    }
    var tail := ReplaceAll(rest, pat, rep);
    assert tail[0] == c;
    var r := rep + tail;
    assert r[0..0 + |rep + [c]|] == rep + [c];
  }

  /** A pattern whose first character occurs nowhere else in it cannot occur again before its own end. */
  lemma PatternNoOverlap(s: string, pat: string, i: nat)
    requires |pat| > 0 && forall j :: 0 < j < |pat| ==> pat[j] != pat[0]
    requires |pat| <= |s| && s[..|pat|] == pat && 0 < i && i + |pat| <= |s| && s[i..i + |pat|] == pat
    ensures i >= |pat|
  {
    assert s[i] == s[i..i + |pat|][0];
    assert forall j :: 0 <= j < |pat| ==> s[j] == s[..|pat|][j];
  }

  lemma {:induction false} ReplaceAllNonEmpty(s: string, pat: string, rep: string)
    requires |pat| > 0 && |s| > 0 && |rep| > 0
    ensures ReplaceAll(s, pat, rep) != ""
  {
  }

  /** The URI a rebuild produces: `scheme://`, the credentials, '@', the stored host part. */
  lemma RebuiltUri(b: string, cred: string)
    requires b != "" && cred != ""
    requires !Contains(b, "user:pwd@") && Contains(b, "://")
    ensures var parts := SplitOnce(b, "://");
      InjectCredentials(b, cred) == (parts[0] + "://") + (cred + "@" + AfterLast(parts[1], '@'))
  {
    var parts := SplitOnce(b, "://");
    var host := AfterLast(parts[1], '@');
    var flat := parts[0] + "://" + cred + "@" + host;
    assert InjectCredentials(b, cred) == flat;
    Regroup(parts[0], "://", cred, "@", host);
  }

  /**
   * Where the stored URI is rebuilt, what follows the result's last '@' is
   * the stored host part: the stored URI after its own last '@'.
   */
  lemma RebuiltUriKeepsHost(b: string, cred: string)
    requires b != "" && cred != ""
    requires !Contains(b, "user:pwd@") && Contains(b, "://")
    ensures var parts := SplitOnce(b, "://");
      AfterLast(InjectCredentials(b, cred), '@') == AfterLast(parts[1], '@')
  {
    var parts := SplitOnce(b, "://");
    var host := AfterLast(parts[1], '@');
    RebuiltUri(b, cred);
    Regroup(parts[0], "://", cred, "@", host);
    AfterLastSeparated(parts[0] + "://" + cred, host, '@');
  }

  /**
   * Where the stored URI is rebuilt, the result keeps the stored scheme and
   * ends with the credentials, '@' and the stored host part.
   */
  lemma RebuiltUriCarriesCredentials(b: string, cred: string)
    requires b != "" && cred != ""
    requires !Contains(b, "user:pwd@") && Contains(b, "://")
    ensures var parts := SplitOnce(b, "://");
      var r := InjectCredentials(b, cred);
      StartsWith(r, parts[0] + "://") && EndsWith(r, cred + "@" + AfterLast(parts[1], '@'))
  {
    var parts := SplitOnce(b, "://");
    var head := parts[0] + "://";
    var tail := cred + "@" + AfterLast(parts[1], '@');
    RebuiltUri(b, cred);
    Affixes(head, tail);
  }

  lemma Regroup(a: string, b: string, c: string, d: string, e: string)
    ensures a + b + c + d + e == (a + b) + (c + d + e)
  {
  }

  lemma Affixes(a: string, b: string)
    ensures StartsWith(a + b, a) && EndsWith(a + b, b)
  {
    assert (a + b)[..|a|] == a;
    assert (a + b)[|a + b| - |b|..] == b;
  }

  /** The text after the last `c` of `x + [c] + y`, where `y` has no `c`, is `y`. */
  lemma AfterLastSeparated(x: string, y: string, c: char)
    requires c !in y
    ensures AfterLast(x + [c] + y, c) == y
  {
    var s := x + [c] + y;
    var r := AfterLast(s, c);
    assert s[|s| - |y| - 1] == c;
    assert s[|s| - |y|..] == y;
  }

  /**
   * The database-name rule of `connect`: a URI whose text, trailing slashes
   * removed, does not end in `fx-rates` gets `/fx-rates` appended; any other
   * URI is used as it is.
   */
  function WithDatabase(uri: string): (r: string)
    ensures EndsWith(RStripChar(r, '/'), MongoDatabase)
    ensures EndsWith(RStripChar(uri, '/'), MongoDatabase) ==> r == uri
    ensures !EndsWith(RStripChar(uri, '/'), MongoDatabase) ==> r == RStripChar(uri, '/') + "/" + MongoDatabase
  {
    var trimmed := RStripChar(uri, '/');
    if EndsWith(trimmed, MongoDatabase) then uri
    else
      var r := trimmed + "/" + MongoDatabase;
      assert RStripChar(r, '/') == r;
      assert r[|r| - |MongoDatabase|..] == MongoDatabase;
      r
  }

  /** The rule is idempotent: a URI it produced passes through it unchanged. */
  lemma WithDatabaseIdempotent(uri: string)
    ensures WithDatabase(WithDatabase(uri)) == WithDatabase(uri)
  {
  }

  // ---------------------------------------------------------------- the storage object

  /**
   * The process's view of the remote database: whether MONGO_URI is set,
   * whether a client on the resolved URI answers its ping, and whether the
   * read of the latest document and the insert go through.
   */
  datatype MongoEnv = MongoEnv(uriVariable: Option<string>, reachable: bool, readOk: bool, insertOk: bool)

  class MongoStorage {
    const sqliteDb: RatesDatabase
    /** `_client`, recorded by the URI it was created with. */
    var client: Option<string>
    /** Whether `_db` is set. */
    var dbOpen: bool
    /** The `fx-rates` collection on the server, in insertion order. */
    var remote: seq<Document>
    /** The object ids already handed out are all below this one. */
    var nextObjectId: nat

    ghost predicate Valid()
      reads this
    {
      && (dbOpen ==> client.Some?)
      && forall i :: 0 <= i < |remote| ==>
           "_id" in remote[i] && remote[i]["_id"].ObjectId? && remote[i]["_id"].id < nextObjectId
    }

    constructor (sqliteDb: RatesDatabase, remote: seq<Document>, nextObjectId: nat)
      requires forall i :: 0 <= i < |remote| ==>
                 "_id" in remote[i] && remote[i]["_id"].ObjectId? && remote[i]["_id"].id < nextObjectId
      ensures Valid()
      ensures this.sqliteDb == sqliteDb && client == None && !dbOpen
      ensures this.remote == remote && this.nextObjectId == nextObjectId
    {
      this.sqliteDb := sqliteDb;
      client, dbOpen := None, false;
      this.remote, this.nextObjectId := remote, nextObjectId;
    }

    function StoredUri(uriVariable: Option<string>): Option<string>
      reads sqliteDb`credentials
    {
      ResolveMongoUri(uriVariable, sqliteDb.Credential("mongo_uri"), sqliteDb.Credential("mongo_user"),
                      sqliteDb.Credential("mongo_pass"))
    }

    /** `connect` succeeds: a URI resolves and the server behind it answers. */
    predicate ConnectSucceeds(env: MongoEnv)
      reads sqliteDb`credentials
    {
      StoredUri(env.uriVariable).Some? && env.reachable
    }

    method GetMongoUri(uriVariable: Option<string>) returns (uri: Option<string>)
      ensures uri == StoredUri(uriVariable)
    {
      if TruthyText(uriVariable) {
        return uriVariable;
      }
      var base := sqliteDb.GetCredential("mongo_uri");
      var user := sqliteDb.GetCredential("mongo_user");
      var password := sqliteDb.GetCredential("mongo_pass");
      uri := ResolveMongoUri(uriVariable, base, user, password);
    }

    method Connect(env: MongoEnv) returns (ok: bool)
      requires Valid()
      modifies this
      ensures Valid()
      ensures ok <==> ConnectSucceeds(env)
      ensures ok ==> dbOpen && client == Some(WithDatabase(StoredUri(env.uriVariable).value))
      ensures !ok ==> dbOpen == old(dbOpen)
      ensures remote == old(remote) && nextObjectId == old(nextObjectId)
    {
      var uri := GetMongoUri(env.uriVariable);
      if uri.None? || uri.value == "" {
        return false;
      }
      var named := WithDatabase(uri.value);
      client := Some(named);
      if !env.reachable {
        return false;
      }
      dbOpen := true;
      ok := true;
    }

    method Disconnect()
      requires Valid()
      modifies this
      ensures Valid()
      ensures client == None && (old(client).Some? ==> !dbOpen) && (old(client).None? ==> dbOpen == old(dbOpen))
      ensures remote == old(remote) && nextObjectId == old(nextObjectId)
    {
      if client.Some? {
        client, dbOpen := None, false;
      }
    }

    /**
     * `update_fx_rates`: connects if need be, plans the sync against the
     * latest document and, when the plan is an insert that goes through,
     * appends exactly one document and returns true.
     */
    method UpdateFxRates(exchange: Option<ExchangeQuote>, gold: Option<GoldQuote>, env: MongoEnv) returns (ok: bool)
      requires Valid()
      modifies this
      ensures Valid()
      ensures exchange.None? || exchange == Some(EmptyExchange) ==> !ok && dbOpen == old(dbOpen)
      ensures ok <==> exchange.Some? && exchange != Some(EmptyExchange) && (old(dbOpen) || ConnectSucceeds(env))
                      && PlanSync(exchange.value, gold, Latest(old(remote), env.readOk)).Insert? && env.insertOk
      ensures ok ==> remote == old(remote) + [Stored(PlanSync(exchange.value, gold, Latest(old(remote), env.readOk)).record, old(nextObjectId))]
      ensures !ok ==> remote == old(remote)
      ensures exchange.None? || exchange == Some(EmptyExchange) ==> client == old(client)
      ensures old(dbOpen) ==> dbOpen && client == old(client)
      ensures !old(dbOpen) && exchange.Some? && exchange != Some(EmptyExchange) ==>
        && (dbOpen <==> ConnectSucceeds(env))
        && (dbOpen ==> client == Some(WithDatabase(StoredUri(env.uriVariable).value)))
    {
      if exchange.None? || exchange == Some(EmptyExchange) {
        return false;
      }
      if !dbOpen {
        var connected := Connect(env);
        if !connected {
          return false;
        }
      }
      ok := SyncExchange(exchange.value, gold, env);
    }

    /**
     * The part of `update_fx_rates` once a database is open: read the
     * exchange date, plan the sync against the latest document and insert
     * when the plan says so and the insert goes through.
     */
    method SyncExchange(ex: ExchangeQuote, gold: Option<GoldQuote>, env: MongoEnv) returns (ok: bool)
      requires Valid()
      modifies this`remote, this`nextObjectId
      ensures Valid()
      ensures ok <==> PlanSync(ex, gold, Latest(old(remote), env.readOk)).Insert? && env.insertOk
      ensures ok ==> remote == old(remote) + [Stored(PlanSync(ex, gold, Latest(old(remote), env.readOk)).record, old(nextObjectId))]
      ensures !ok ==> remote == old(remote)
    {
      if !TruthyText(ex.rateDate) {
        return false;
      }
      var parsed := ParseIsoDate(ex.rateDate.value);
      if parsed.None? {
        return false;
      }
      var d := parsed.value;
      var latest := Latest(remote, env.readOk);
      if Present(latest) && DatePart(Get(latest.value, "Date")) == Some(d) {
        return false;
      }
      var rec: Document := map[];
      if Present(latest) {
        rec := CopyWithoutId(latest.value);
      }
      rec := rec["Date" := Midnight(d)];
      rec := rec["ZiG_Bid" := NumOrNull(ex.bid)];
      rec := rec["ZiG_Ask" := NumOrNull(ex.ask)];
      rec := rec["ZiG_Mid" := NumOrNull(ex.avg)];
      var withGold := GoldUpdate(rec, gold, d);
      if withGold.None? || !env.insertOk {
        return false;
      }
      var id := nextObjectId;
      remote := remote + [Stored(withGold.value, id)];
      nextObjectId := nextObjectId + 1;
      ok := true;
    }
  }

  /** The copy loop of `update_fx_rates`: every field of the latest document except `_id`. */
  method CopyWithoutId(src: Document) returns (rec: Document)
    ensures rec == WithoutId(src)
  {
    rec := map[];
    var pending := src.Keys;
    while pending != {}
      invariant pending <= src.Keys
      invariant rec == map k | k in src.Keys - pending && k != "_id" :: src[k]
      decreases pending
    {
      var key :| key in pending;
      if key != "_id" {
        rec := rec[key := src[key]];
      }
      pending := pending - {key};
    }
  }
}
