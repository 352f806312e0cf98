/**
 * What the scraper reads off the central bank's pages (lib/scraper.py): the
 * `DD-MM-YYYY` date token, the USD/ZWG exchange row, the gold-coin price
 * rows, the address of the gold-price PDF and the price lines of that PDF.
 * A page is given as the inner texts of the cells of each table row, and a
 * header search as the date token it captured.
 */
module Extract {
  import opened Wrappers
  import opened Text
  import opened Dates
  import opened Quotes
  import opened LocalStore

  // ---------------------------------------------------------------- DD-MM-YYYY

  predicate IsDateSeparator(c: char) {
    c == '-' || c == '/'
  }

  /** The text from `i` on starts with two digits, a separator, two digits, a separator and four digits. */
  predicate DmyAt(s: string, i: nat) {
    && i + 10 <= |s|
    && IsDigit(s[i]) && IsDigit(s[i + 1]) && IsDateSeparator(s[i + 2])
    && IsDigit(s[i + 3]) && IsDigit(s[i + 4]) && IsDateSeparator(s[i + 5])
    && IsDigit(s[i + 6]) && IsDigit(s[i + 7]) && IsDigit(s[i + 8]) && IsDigit(s[i + 9])
  }

  /** Where `re.search` finds `\d{2}[-/]\d{2}[-/]\d{4}`: the first position from `from` on. */
  function FirstDmy(s: string, from: nat): (r: Option<nat>)
    ensures r.Some? ==> from <= r.value && DmyAt(s, r.value)
    ensures r.Some? ==> forall j :: from <= j < r.value ==> !DmyAt(s, j)
    ensures r.None? ==> forall j :: from <= j ==> !DmyAt(s, j)
    decreases |s| - from
  {
    if from + 10 > |s| then None
    else if DmyAt(s, from) then Some(from)
    else FirstDmy(s, from + 1)
  }

  /**
   * `_parse_dd_mm_yyyy`: the first token shaped like a date, read as day,
   * month and year; None when there is none, and None when that first token
   * is not a calendar date (a later token is not tried).
   */
  function ParseDdMmYyyy(text: string): Option<CalendarDate> {
    match FirstDmy(text, 0)
    case None => None
    case Some(i) => DmyValue(text[i..i + 10])
  }

  /** `date(int(year), int(month), int(day))` on a matched token; None where it raises ValueError. */
  function DmyValue(t: string): Option<CalendarDate>
    requires DmyAt(t, 0)
  {
    assert AllDigits(t[..2]) && AllDigits(t[3..5]) && AllDigits(t[6..10]);
    var d := Date(DigitsValue(t[6..10]), DigitsValue(t[3..5]), DigitsValue(t[..2]));
    if ValidDate(d) then Some(d) else None
  }

  /** A date written `DD-MM-YYYY` (or with '/'), each field zero-padded. */
  function DmyText(d: CalendarDate, sep: char): (s: string)
    requires IsDateSeparator(sep)
    ensures |s| == 10 && DmyAt(s, 0)
  {
    NatToStringWidth(d.day, 2);
    NatToStringWidth(d.month, 2);
    NatToStringWidth(d.year, 4);
    var s := ZeroPad(NatToString(d.day), 2) + [sep] + ZeroPad(NatToString(d.month), 2) + [sep] + ZeroPad(NatToString(d.year), 4);
    assert s[..2] == ZeroPad(NatToString(d.day), 2);
    assert s[3..5] == ZeroPad(NatToString(d.month), 2);
    assert s[6..] == ZeroPad(NatToString(d.year), 4);
    assert IsDigit(s[..2][0]) && IsDigit(s[..2][1]);
    assert IsDigit(s[3..5][0]) && IsDigit(s[3..5][1]);
    assert IsDigit(s[6..][0]) && IsDigit(s[6..][1]) && IsDigit(s[6..][2]) && IsDigit(s[6..][3]);
    s
  }

  /** A `DD-MM-YYYY` text reads back as the date that wrote it. */
  lemma DmyTextValue(d: CalendarDate, sep: char)
    requires IsDateSeparator(sep)
    ensures DmyValue(DmyText(d, sep)) == Some(d)
  {
    var s := DmyText(d, sep);
    NatToStringWidth(d.day, 2);
    NatToStringWidth(d.month, 2);
    NatToStringWidth(d.year, 4);
    assert s[..2] == ZeroPad(NatToString(d.day), 2);
    assert s[3..5] == ZeroPad(NatToString(d.month), 2);
    assert s[6..10] == ZeroPad(NatToString(d.year), 4);
    ZeroPadValue(d.day, 2);
    ZeroPadValue(d.month, 2);
    ZeroPadValue(d.year, 4);
  }

  /** The token at the first match is the one read. */
  lemma FoundToken(s: string, p: nat)
    requires DmyAt(s, p) && forall j :: 0 <= j < p ==> !DmyAt(s, j)
    ensures ParseDdMmYyyy(s) == DmyValue(s[p..p + 10])
  {
    FirstDmyFrom(s, 0, p);
  }

  /**
   * A date token after text without digits is found and read back as the
   * date it spells, whatever follows it.
   */
  lemma DmyRoundTrip(prefix: string, d: CalendarDate, sep: char, suffix: string)
    requires IsDateSeparator(sep)
    requires forall i :: 0 <= i < |prefix| ==> !IsDigit(prefix[i])
    ensures ParseDdMmYyyy(prefix + DmyText(d, sep) + suffix) == Some(d)
  {
    var t := DmyText(d, sep);
    var s := prefix + t + suffix;
    var p := |prefix|;
    forall j | 0 <= j < p ensures !DmyAt(s, j) {
      assert s[j] == prefix[j];
    }
    assert s[p..p + 10] == t;
    assert DmyAt(s, p) by {
      forall k | 0 <= k < 10 ensures s[p + k] == t[k] {
      }
    }
    FoundToken(s, p);
    DmyTextValue(d, sep);
  }

  /** The search finds the first match at or after `from`. */
  lemma {:induction false} FirstDmyFrom(s: string, from: nat, p: nat)
    requires from <= p && DmyAt(s, p)
    requires forall j :: from <= j < p ==> !DmyAt(s, j)
    ensures FirstDmy(s, from) == Some(p)
    decreases p - from
  {
    if from < p {
      FirstDmyFrom(s, from + 1, p);
    }
  }

  /** The first token decides: one that is not a calendar date hides a valid one after it. */
  lemma InvalidFirstTokenHidesLater()
    ensures ParseDdMmYyyy("31-02-2025, 01-03-2025") == None
  {
    var s := "31-02-2025, 01-03-2025";
    assert DmyAt(s, 0);
    assert s[6..10] == "2025" && s[3..5] == "02" && s[..2] == "31";
  }

  /**
   * The `rate_date` a header capture sets: the ISO text of its date. A token
   * that is not a date leaves the key out: `.isoformat()` on None raises
   * AttributeError, which the surrounding bare `except` swallows.
   */
  function HeaderRateDate(token: Option<string>): (r: Option<string>)
    ensures r.Some? <==> token.Some? && ParseDdMmYyyy(token.value).Some?
    ensures r.Some? ==> ParseIsoDate(r.value) == ParseDdMmYyyy(token.value)
  {
    if token.None? then None
    else
      match ParseDdMmYyyy(token.value)
      case None => None
      case Some(d) =>
        IsoRoundTrip(d);
        Some(IsoFormat(d))
  }

  // ---------------------------------------------------------------- exchange rates

  /** `float(cell.replace(',', ''))`: None where `float` raises ValueError. */
  function CellNumber(parse: NumParser, cell: string): Option<real> {
    parse(RemoveChar(cell, ','))
  }

  /** A row the exchange scan takes: at least four cells, the first naming both USD and ZWG. */
  predicate IsUsdZwgRow(cells: seq<string>) {
    |cells| >= 4 && Contains(cells[0], "USD") && Contains(cells[0], "ZWG")
  }

  /** All three numbers of a USD/ZWG row parse. */
  predicate CompleteRow(cells: seq<string>, parse: NumParser) {
    && IsUsdZwgRow(cells)
    && CellNumber(parse, cells[1]).Some? && CellNumber(parse, cells[2]).Some? && CellNumber(parse, cells[3]).Some?
  }

  /**
   * A USD/ZWG row applied to the dictionary: the pair is set, then bid, ask
   * and avg in turn; the first number that does not parse raises
   * ValueError, which ends the row and keeps what was already written.
   */
  function ApplyPairRow(data: ExchangeQuote, cells: seq<string>, parse: NumParser): (r: ExchangeQuote)
    requires IsUsdZwgRow(cells)
    ensures r.rateDate == data.rateDate && r.source == data.source && r.currencyPair == Some(UsdZwg)
  {
    var d1 := data.(currencyPair := Some(UsdZwg));
    var bid := CellNumber(parse, cells[1]);
    if bid.None? then d1
    else
      var d2 := d1.(bid := bid);
      var ask := CellNumber(parse, cells[2]);
      if ask.None? then d2
      else
        var d3 := d2.(ask := ask);
        var avg := CellNumber(parse, cells[3]);
        if avg.None? then d3 else d3.(avg := avg)
  }

  /** The row loop: a complete USD/ZWG row ends it (`break`); every other row is skipped or partly applied. */
  function ScanExchangeRows(data: ExchangeQuote, rows: seq<seq<string>>, parse: NumParser): ExchangeQuote
    decreases |rows|
  {
    if |rows| == 0 then data
    else if CompleteRow(rows[0], parse) then ApplyPairRow(data, rows[0], parse)
    else if IsUsdZwgRow(rows[0]) then ScanExchangeRows(ApplyPairRow(data, rows[0], parse), rows[1..], parse)
    else ScanExchangeRows(data, rows[1..], parse)
  }

  /** `_extract_exchange_rates_dom`: the dictionary, when it came to hold a bid. */
  function ExchangeFromPage(header: Option<string>, rows: seq<seq<string>>, parse: NumParser): Option<ExchangeQuote> {
    var data := ScanExchangeRows(EmptyExchange.(rateDate := HeaderRateDate(header)), rows, parse);
    if data.bid.Some? then Some(data) else None
  }

  /** The row loop of `_extract_exchange_rates_dom`, run over the page's rows. */
  method ExtractExchangeRates(header: Option<string>, rows: seq<seq<string>>, parse: NumParser) returns (r: Option<ExchangeQuote>)
    ensures r == ExchangeFromPage(header, rows, parse)
  {
    var data := EmptyExchange.(rateDate := HeaderRateDate(header));
    ghost var start := data;
    var i := 0;
    while i < |rows|
      invariant 0 <= i <= |rows|
      invariant ScanExchangeRows(data, rows[i..], parse) == ScanExchangeRows(start, rows, parse)
    {
      assert rows[i..][1..] == rows[i + 1..];
      var cells := rows[i];
      if IsUsdZwgRow(cells) {
        data := data.(currencyPair := Some(UsdZwg));
        var bid := CellNumber(parse, cells[1]);
        if bid.Some? {
          data := data.(bid := bid);
          var ask := CellNumber(parse, cells[2]);
          if ask.Some? {
            data := data.(ask := ask);
            var avg := CellNumber(parse, cells[3]);
            if avg.Some? {
              data := data.(avg := avg);
              assert rows[i..][0] == cells;
              return Some(data);
            }
          }
        }
      }
      i := i + 1;
    }
    assert rows[i..] == [];
    r := if data.bid.Some? then Some(data) else None;
  }

  /**
   * What the scan leaves: the header's date, no source, and the USD/ZWG pair
   * whenever a bid was read.
   */
  lemma {:induction false} ScanExchangeShape(data: ExchangeQuote, rows: seq<seq<string>>, parse: NumParser)
    requires data.bid.Some? ==> data.currencyPair == Some(UsdZwg)
    ensures var r := ScanExchangeRows(data, rows, parse);
      r.rateDate == data.rateDate && r.source == data.source && (r.bid.Some? ==> r.currencyPair == Some(UsdZwg))
    decreases |rows|
  {
    if |rows| > 0 && !CompleteRow(rows[0], parse) {
      if IsUsdZwgRow(rows[0]) {
        ScanExchangeShape(ApplyPairRow(data, rows[0], parse), rows[1..], parse);
      } else {
        ScanExchangeShape(data, rows[1..], parse);
      }
    }
  }

  /** An exchange quote always carries the USD/ZWG pair, its bid, the header's date and no source. */
  lemma ExchangeQuoteShape(header: Option<string>, rows: seq<seq<string>>, parse: NumParser)
    requires ExchangeFromPage(header, rows, parse).Some?
    ensures var q := ExchangeFromPage(header, rows, parse).value;
      q.currencyPair == Some(UsdZwg) && q.bid.Some? && q.rateDate == HeaderRateDate(header) && q.source.None?
  {
    ScanExchangeShape(EmptyExchange.(rateDate := HeaderRateDate(header)), rows, parse);
  }

  /** Without a USD/ZWG row the page yields no exchange quote. */
  lemma {:induction false} NoPairRowNoQuote(data: ExchangeQuote, rows: seq<seq<string>>, parse: NumParser)
    requires forall k :: 0 <= k < |rows| ==> !IsUsdZwgRow(rows[k])
    ensures ScanExchangeRows(data, rows, parse) == data
    decreases |rows|
  {
    if |rows| > 0 {
      NoPairRowNoQuote(data, rows[1..], parse);
    }
  }

  /**
   * The first complete USD/ZWG row decides bid, ask and average: rows before
   * it, even partly read, are overwritten, and rows after it are not read.
   */
  lemma {:induction false} FirstCompleteRowDecides(data: ExchangeQuote, rows: seq<seq<string>>, k: nat, parse: NumParser)
    requires k < |rows| && CompleteRow(rows[k], parse)
    requires forall j :: 0 <= j < k ==> !CompleteRow(rows[j], parse)
    ensures var r := ScanExchangeRows(data, rows, parse);
      && r.bid == CellNumber(parse, rows[k][1])
      && r.ask == CellNumber(parse, rows[k][2])
      && r.avg == CellNumber(parse, rows[k][3])
    decreases k
  {
    if k > 0 {
      var next := if IsUsdZwgRow(rows[0]) then ApplyPairRow(data, rows[0], parse) else data;
      FirstCompleteRowDecides(next, rows[1..], k - 1, parse);
    }
  }

  /**
   * A USD/ZWG row whose bid parses but whose ask does not still makes an
   * exchange quote: one without ask and average.
   */
  lemma IncompleteRowStillQuotes(header: Option<string>, cells: seq<string>, parse: NumParser)
    requires IsUsdZwgRow(cells) && CellNumber(parse, cells[1]).Some? && CellNumber(parse, cells[2]).None?
    ensures var r := ExchangeFromPage(header, [cells], parse);
      r.Some? && r.value.bid == CellNumber(parse, cells[1]) && r.value.ask.None? && r.value.avg.None?
  {
    var data := EmptyExchange.(rateDate := HeaderRateDate(header));
    var rows := [cells];
    assert rows[0] == cells && rows[1..] == [];
    assert !CompleteRow(cells, parse);
    assert ScanExchangeRows(data, rows, parse) == ScanExchangeRows(ApplyPairRow(data, cells, parse), [], parse);
  }

  // ---------------------------------------------------------------- gold coin prices

  /** The currencies of the coin-price rows; each fills the dictionary key of its name. */
  datatype Coin = Usd | Zar | Zwg | Gbp | Eur

  /** `currencies[label]` on the web page: the label must be exactly the currency code. */
  function PageCoin(name: string): Option<Coin> {
    if name == "USD" then Some(Usd)
    else if name == "ZAR" then Some(Zar)
    else if name == "ZWG" then Some(Zwg)
    else if name == "GBP" then Some(Gbp)
    else if name == "EUR" then Some(Eur)
    else None
  }

  function CoinPrice(q: GoldQuote, c: Coin): Option<real> {
    match c
    case Usd => q.usd
    case Zar => q.zar
    case Zwg => q.zwg
    case Gbp => q.gbp
    case Eur => q.eur
  }

  function WithCoinPrice(q: GoldQuote, c: Coin, v: real): (r: GoldQuote)
    ensures CoinPrice(r, c) == Some(v)
    ensures forall o :: o != c ==> CoinPrice(r, o) == CoinPrice(q, o)
    ensures r.rateDate == q.rateDate && r.source == q.source && r.sourceUrl == q.sourceUrl
    ensures r.digitalTokenUsd == q.digitalTokenUsd && r.digitalTokenZwg == q.digitalTokenZwg
  {
    match c
    case Usd => q.(usd := Some(v))
    case Zar => q.(zar := Some(v))
    case Zwg => q.(zwg := Some(v))
    case Gbp => q.(gbp := Some(v))
    case Eur => q.(eur := Some(v))
  }

  /** What one cell of a digital-token row does to the dictionary. */
  datatype TokenCell = Ignored | Unreadable | UsdToken(usd: real) | ZigToken(zig: real)

  /**
   * A cell of a digital-token row, stripped and upper-cased: one naming USD
   * gives the USD token price, else one naming ZIG or ZWG the ZiG price, each
   * read from the cell's digits and dots; a cell with no digit or dot, or
   * naming neither, is ignored; a number that does not parse is unreadable
   * (ValueError).
   */
  function ReadTokenCell(cell: string, parse: NumParser): TokenCell {
    var text := Upper(Strip(cell));
    var digits := KeepDigitsAndDots(text);
    var usd := Contains(text, "USD");
    if !(usd || Contains(text, "ZIG") || Contains(text, "ZWG")) || digits == "" then Ignored
    else
      match parse(digits)
      case None => Unreadable
      case Some(v) => if usd then UsdToken(v) else ZigToken(v)
  }

  /** A readable cell's token price written into the dictionary; an ignored cell changes nothing. */
  function ApplyTokenCell(data: GoldQuote, read: TokenCell): GoldQuote {
    match read
    case UsdToken(v) => data.(digitalTokenUsd := Some(v))
    case ZigToken(v) => data.(digitalTokenZwg := Some(v))
    case _ => data
  }

  /**
   * The cells of a digital-token row after its label, in order: a later cell
   * overwrites an earlier one, and an unreadable number raises ValueError,
   * which ends the row.
   */
  function TokenCells(data: GoldQuote, cells: seq<string>, parse: NumParser): (r: GoldQuote)
    ensures r.usd == data.usd && r.zar == data.zar && r.zwg == data.zwg && r.gbp == data.gbp && r.eur == data.eur
    ensures r.rateDate == data.rateDate && r.source == data.source && r.sourceUrl == data.sourceUrl
    decreases |cells|
  {
    if |cells| == 0 then data
    else
      var read := ReadTokenCell(cells[0], parse);
      if read.Unreadable? then data else TokenCells(ApplyTokenCell(data, read), cells[1..], parse)
  }

  /** The USD token price (`usd`) or the ZiG token price (not `usd`) of a dictionary. */
  function TokenPrice(q: GoldQuote, usd: bool): Option<real> {
    if usd then q.digitalTokenUsd else q.digitalTokenZwg
  }

  /** The price of that kind a token cell gives, if it gives one. */
  function CellToken(cell: string, usd: bool, parse: NumParser): Option<real> {
    match ReadTokenCell(cell, parse)
    case UsdToken(v) => if usd then Some(v) else None
    case ZigToken(v) => if usd then None else Some(v)
    case _ => None
  }

  /** Cells that give no price of a kind leave that kind's price alone. */
  lemma {:induction false} TokenUntouched(data: GoldQuote, cells: seq<string>, usd: bool, parse: NumParser)
    requires forall p :: 0 <= p < |cells| ==> CellToken(cells[p], usd, parse).None?
    ensures TokenPrice(TokenCells(data, cells, parse), usd) == TokenPrice(data, usd)
    decreases |cells|
  {
    if |cells| > 0 {
      var read := ReadTokenCell(cells[0], parse);
      if !read.Unreadable? {
        assert CellToken(cells[0], usd, parse).None?;
        TokenUntouched(ApplyTokenCell(data, read), cells[1..], usd, parse);
      }
    }
  }

  /**
   * An unreadable number ends the row: the cells before it have been
   * applied, and none after it is.
   */
  lemma {:induction false} TokenRowStops(data: GoldQuote, cells: seq<string>, u: nat, parse: NumParser)
    requires u < |cells| && ReadTokenCell(cells[u], parse).Unreadable?
    requires forall p :: 0 <= p < u ==> !ReadTokenCell(cells[p], parse).Unreadable?
    ensures TokenCells(data, cells, parse) == TokenCells(data, cells[..u], parse)
    decreases u
  {
    if u > 0 {
      var read := ReadTokenCell(cells[0], parse);
      assert !read.Unreadable?;
      assert cells[..u][1..] == cells[1..][..u - 1];
      TokenRowStops(ApplyTokenCell(data, read), cells[1..], u - 1, parse);
    }
  }

  /**
   * Within the cells the row reaches, a token price is the one given by the
   * last cell that gives a price of that kind.
   */
  lemma {:induction false} TokenLastCellWins(data: GoldQuote, cells: seq<string>, k: nat, usd: bool, parse: NumParser)
    requires k < |cells| && CellToken(cells[k], usd, parse).Some?
    requires forall p :: 0 <= p < k ==> !ReadTokenCell(cells[p], parse).Unreadable?
    requires forall p :: k < p < |cells| ==> CellToken(cells[p], usd, parse).None?
    ensures TokenPrice(TokenCells(data, cells, parse), usd) == CellToken(cells[k], usd, parse)
    decreases k
  {
    var read := ReadTokenCell(cells[0], parse);
    var next := ApplyTokenCell(data, read);
    if k == 0 {
      assert TokenPrice(next, usd) == CellToken(cells[0], usd, parse);
      TokenUntouched(next, cells[1..], usd, parse);
    } else {
      assert !read.Unreadable?;
      TokenLastCellWins(next, cells[1..], k - 1, usd, parse);
    }
  }

  /** How the gold loop treats a row. */
  datatype RowKind = Skipped | TokenRow | CoinRow(coin: Coin)

  /**
   * A row with fewer than two cells, or whose stripped label is neither a
   * digital-token label (containing `DIGITAL TOKEN PRICE` once upper-cased)
   * nor exactly a currency code, changes nothing.
   */
  function KindOf(cells: seq<string>): RowKind {
    if |cells| < 2 then Skipped
    else
      var name := Strip(cells[0]);
      if Contains(Upper(name), "DIGITAL TOKEN PRICE") then TokenRow
      else
        match PageCoin(name)
        case None => Skipped
        case Some(c) => CoinRow(c)
  }

  /** The price text of a coin row: the third cell when there is one, else the second. */
  function PriceText(cells: seq<string>): string
    requires |cells| >= 2
  {
    if |cells| >= 3 then Strip(cells[2]) else Strip(cells[1])
  }

  /** The number in a coin row's price text, once commas and every character but digits and dots are dropped. */
  function RowPrice(cells: seq<string>, parse: NumParser): Option<real>
    requires |cells| >= 2
  {
    var cleaned := KeepDigitsAndDots(RemoveChar(PriceText(cells), ','));
    if cleaned == "" then None else parse(cleaned)
  }

  /**
   * One row of the gold table: a digital-token row sets the token prices; a
   * coin row sets its currency's price unless that price is already there.
   */
  function ApplyGoldRow(data: GoldQuote, cells: seq<string>, parse: NumParser): (r: GoldQuote)
    ensures r.rateDate == data.rateDate && r.source == data.source && r.sourceUrl == data.sourceUrl
  {
    match KindOf(cells)
    case Skipped => data
    case TokenRow => TokenCells(data, cells[1..], parse)
    case CoinRow(c) =>
      if CoinPrice(data, c).Some? then data
      else
        match RowPrice(cells, parse)
        case None => data
        case Some(v) => WithCoinPrice(data, c, v)
  }

  /** A row changes a currency's price only when it is that currency's row and the price was not there. */
  lemma ApplyGoldRowPrice(data: GoldQuote, cells: seq<string>, c: Coin, parse: NumParser)
    ensures CoinPrice(data, c).Some? || KindOf(cells) != CoinRow(c) ==>
      CoinPrice(ApplyGoldRow(data, cells, parse), c) == CoinPrice(data, c)
    ensures CoinPrice(data, c).None? && KindOf(cells) == CoinRow(c) ==>
      CoinPrice(ApplyGoldRow(data, cells, parse), c) == RowPrice(cells, parse)
  {
  }

  function ScanGoldRows(data: GoldQuote, rows: seq<seq<string>>, parse: NumParser): GoldQuote
    decreases |rows|
  {
    if |rows| == 0 then data else ScanGoldRows(ApplyGoldRow(data, rows[0], parse), rows[1..], parse)
  }

  /** `_extract_gold_rates_dom`: the dictionary, when it holds any key. */
  function GoldFromPage(header: Option<string>, rows: seq<seq<string>>, parse: NumParser): Option<GoldQuote> {
    var data := ScanGoldRows(EmptyGold.(rateDate := HeaderRateDate(header)), rows, parse);
    if data.Size() > 0 then Some(data) else None
  }

  /** The row loop of `_extract_gold_rates_dom`, with the inner loop over a digital-token row's cells. */
  method ExtractGoldRates(header: Option<string>, rows: seq<seq<string>>, parse: NumParser) returns (r: Option<GoldQuote>)
    ensures r == GoldFromPage(header, rows, parse)
  {
    var data := EmptyGold.(rateDate := HeaderRateDate(header));
    ghost var start := data;
    for i := 0 to |rows|
      invariant ScanGoldRows(data, rows[i..], parse) == ScanGoldRows(start, rows, parse)
    {
      assert rows[i..][1..] == rows[i + 1..];
      var cells := rows[i];
      ghost var before := data;
      var kind := KindOf(cells);
      if kind.TokenRow? {
        var tokens := cells[1..];
        var j := 0;
        while j < |tokens|
          invariant 0 <= j <= |tokens|
          invariant TokenCells(data, tokens[j..], parse) == TokenCells(before, tokens, parse)
        {
          assert tokens[j..][1..] == tokens[j + 1..];
          var read := ReadTokenCell(tokens[j], parse);
          if read.Unreadable? {
            break;
          } else if read.UsdToken? {
            data := data.(digitalTokenUsd := Some(read.usd));
          } else if read.ZigToken? {
            data := data.(digitalTokenZwg := Some(read.zig));
          }
          j := j + 1;
        }
        assert data == TokenCells(before, tokens, parse) by {
          if j < |tokens| {
            assert TokenCells(data, tokens[j..], parse) == data;
          } else {
            assert tokens[j..] == [];
          }
        }
      } else if kind.CoinRow? && CoinPrice(data, kind.coin).None? {
        var v := RowPrice(cells, parse);
        if v.Some? {
          data := WithCoinPrice(data, kind.coin, v.value);
        }
      }
      assert data == ApplyGoldRow(before, cells, parse);
    }
    assert rows[|rows|..] == [];
    r := if data.Size() > 0 then Some(data) else None;
  }

  /** A currency's price, once read, is never overwritten by a later row. */
  lemma {:induction false} CoinPriceSticks(data: GoldQuote, rows: seq<seq<string>>, c: Coin, parse: NumParser)
    requires CoinPrice(data, c).Some?
    ensures CoinPrice(ScanGoldRows(data, rows, parse), c) == CoinPrice(data, c)
    decreases |rows|
  {
    if |rows| > 0 {
      ApplyGoldRowPrice(data, rows[0], c, parse);
      CoinPriceSticks(ApplyGoldRow(data, rows[0], parse), rows[1..], c, parse);
    }
  }

  /**
   * The first row labelled with a currency decides its price when that row's
   * price text reads as a number; rows of other currencies and token rows
   * before it do not touch it, and later rows of the same currency are ignored.
   */
  lemma {:induction false} FirstCoinRowDecides(data: GoldQuote, rows: seq<seq<string>>, k: nat, c: Coin, parse: NumParser)
    requires CoinPrice(data, c).None?
    requires k < |rows| && KindOf(rows[k]) == CoinRow(c) && RowPrice(rows[k], parse).Some?
    requires forall j :: 0 <= j < k ==> KindOf(rows[j]) != CoinRow(c)
    ensures CoinPrice(ScanGoldRows(data, rows, parse), c) == RowPrice(rows[k], parse)
    decreases k
  {
    var next := ApplyGoldRow(data, rows[0], parse);
    assert ScanGoldRows(data, rows, parse) == ScanGoldRows(next, rows[1..], parse);
    ApplyGoldRowPrice(data, rows[0], c, parse);
    if k == 0 {
      CoinPriceSticks(next, rows[1..], c, parse);
    } else {
      var rest := rows[1..];
      assert rest[k - 1] == rows[k];
      assert forall j :: 0 <= j < k - 1 ==> rest[j] == rows[j + 1];
      FirstCoinRowDecides(next, rest, k - 1, c, parse);
    }
  }

  /** The gold scan keeps the header's date and sets no source. */
  lemma {:induction false} ScanGoldKeepsHeader(data: GoldQuote, rows: seq<seq<string>>, parse: NumParser)
    ensures var r := ScanGoldRows(data, rows, parse);
      r.rateDate == data.rateDate && r.source == data.source && r.sourceUrl == data.sourceUrl
    decreases |rows|
  {
    if |rows| > 0 {
      ScanGoldKeepsHeader(ApplyGoldRow(data, rows[0], parse), rows[1..], parse);
    }
  }

  /**
   * A header date alone makes a gold quote, even when no price was read:
   * the dictionary is not empty, so the caller treats gold as found.
   */
  lemma HeaderDateAloneIsAQuote(header: Option<string>, rows: seq<seq<string>>, parse: NumParser)
    requires HeaderRateDate(header).Some?
    ensures var q := GoldFromPage(header, rows, parse);
      q.Some? && q.value.rateDate == HeaderRateDate(header) && q.value.source.None?
  {
    ScanGoldKeepsHeader(EmptyGold.(rateDate := HeaderRateDate(header)), rows, parse);
  }

  // ---------------------------------------------------------------- the gold-price PDF address

  const PdfBaseUrl: string := "https://www.rbz.co.zw/documents"

  /** `strftime('%B')`: the month's full English name. */
  const MonthNames: seq<string> := [
    "January", "February", "March", "April", "May", "June",
    "July", "August", "September", "October", "November", "December"]

  /** The month a full English name stands for. */
  function MonthNumber(name: string): (m: nat)
    ensures 1 <= m <= 12 ==> name == MonthNames[m - 1]
    ensures m == 0 <==> name !in MonthNames
  {
    if name == "January" then 1 else if name == "February" then 2 else if name == "March" then 3
    else if name == "April" then 4 else if name == "May" then 5 else if name == "June" then 6
    else if name == "July" then 7 else if name == "August" then 8 else if name == "September" then 9
    else if name == "October" then 10 else if name == "November" then 11 else if name == "December" then 12
    else 0
  }

  lemma MonthNamesDistinct(m: int)
    requires 1 <= m <= 12
    ensures MonthNumber(MonthNames[m - 1]) == m
  {
  }

  /** The file name of a day's gold-price PDF: `MOSI_OA_TUNYA_PRICES_<day>_<MONTH>_<year>.pdf`, the day unpadded. */
  function PdfFileName(d: CalendarDate): string {
    "MOSI_OA_TUNYA_PRICES_" + NatToString(d.day) + "_" + Upper(MonthNames[d.month - 1]) + "_" + NatToString(d.year) + ".pdf"
  }

  /** `_build_gold_pdf_url`: `<base>/Mosi-Rates/<year>/<Month>/<file name>`. */
  function BuildGoldPdfUrl(d: CalendarDate): string {
    PdfBaseUrl + "/Mosi-Rates/" + NatToString(d.year) + "/" + MonthNames[d.month - 1] + "/" + PdfFileName(d)
  }

  lemma GoldPdfUrlExample()
    ensures BuildGoldPdfUrl(Date(2025, 12, 9))
      == "https://www.rbz.co.zw/documents" + "/Mosi-Rates/" + "2025" + "/" + "December" + "/"
         + "MOSI_OA_TUNYA_PRICES_" + "9" + "_" + "DECEMBER" + "_" + "2025" + ".pdf"
  {
    YearText2025();
    assert NatToString(9) == "9";
    assert MonthNames[11] == "December";
    UpperDecember();
    assert PdfFileName(Date(2025, 12, 9)) == "MOSI_OA_TUNYA_PRICES_" + "9" + "_" + "DECEMBER" + "_" + "2025" + ".pdf";
  }

  lemma YearText2025()
    ensures NatToString(2025) == "2025"
  {
    assert NatToString(2) == "2" && NatToString(20) == "20";
    assert NatToString(202) == "202";
  }

  lemma UpperDecember()
    ensures Upper("December") == "DECEMBER"
  {
    var u := Upper("December");
    assert forall i :: 0 <= i < 8 ==> u[i] == "DECEMBER"[i];
  }

  /** Where a run of characters of one class, starting at `i`, ends in `t`. */
  function RunEnd(t: string, inClass: char -> bool, i: nat): (j: nat)
    requires i <= |t|
    ensures i <= j <= |t|
    decreases |t| - i
  {
    if i < |t| && inClass(t[i]) then RunEnd(t, inClass, i + 1) else i
  }

  lemma {:induction false} RunEndOf(x: string, r: string, inClass: char -> bool, i: nat)
    requires i <= |x|
    requires forall k :: 0 <= k < |x| ==> inClass(x[k])
    requires |r| > 0 && !inClass(r[0])
    ensures RunEnd(x + r, inClass, i) == |x|
    decreases |x| - i
  {
    if i < |x| {
      assert (x + r)[i] == x[i];
      RunEndOf(x, r, inClass, i + 1);
    } else {
      assert (x + r)[i] == r[0];
    }
  }

  /** Two texts that each start with a run of characters of one class, followed by a character outside it, split the same way when they are equal. */
  lemma SameRun(x: string, r: string, y: string, s: string, inClass: char -> bool)
    requires forall i :: 0 <= i < |x| ==> inClass(x[i])
    requires forall i :: 0 <= i < |y| ==> inClass(y[i])
    requires |r| > 0 && |s| > 0 && !inClass(r[0]) && !inClass(s[0])
    requires x + r == y + s
    ensures x == y && r == s
  {
    RunEndOf(x, r, inClass, 0);
    RunEndOf(y, s, inClass, 0);
    assert x == (x + r)[..|x|] && y == (y + s)[..|y|];
    assert r == (x + r)[|x|..] && s == (y + s)[|y|..];
  }

  lemma DropPrefix(p: string, a: string, b: string)
    requires p + a == p + b
    ensures a == b
  {
    assert a == (p + a)[|p|..] && b == (p + b)[|p|..];
  }

  predicate IsLetter(c: char) {
    'a' <= c <= 'z' || 'A' <= c <= 'Z'
  }

  predicate AllLetters(s: string) {
    forall i :: 0 <= i < |s| ==> IsLetter(s[i])
  }

  /** The address splits into its year, month name and file name. */
  lemma PdfUrlParts(d: CalendarDate)
    ensures BuildGoldPdfUrl(d)
      == (PdfBaseUrl + "/Mosi-Rates/") + (NatToString(d.year) + ("/" + (MonthNames[d.month - 1] + ("/" + PdfFileName(d)))))
  {
  }

  lemma PdfFileNameParts(d: CalendarDate)
    ensures PdfFileName(d)
      == "MOSI_OA_TUNYA_PRICES_" + (NatToString(d.day) + ("_" + Upper(MonthNames[d.month - 1]) + "_" + NatToString(d.year) + ".pdf"))
  {
  }

  /**
   * The directory part of two addresses, a year then a month name, fixes
   * the year, the month name and the file name.
   */
  lemma SameDirectory(ya: string, ma: string, fa: string, yb: string, mb: string, fb: string)
    requires AllDigits(ya) && AllDigits(yb)
    requires AllLetters(ma) && AllLetters(mb)
    requires (PdfBaseUrl + "/Mosi-Rates/") + (ya + ("/" + (ma + ("/" + fa))))
      == (PdfBaseUrl + "/Mosi-Rates/") + (yb + ("/" + (mb + ("/" + fb))))
    ensures ya == yb && ma == mb && fa == fb
  {
    DropPrefix(PdfBaseUrl + "/Mosi-Rates/", ya + ("/" + (ma + ("/" + fa))), yb + ("/" + (mb + ("/" + fb))));
    SameRun(ya, "/" + (ma + ("/" + fa)), yb, "/" + (mb + ("/" + fb)), IsDigit);
    DropPrefix("/", ma + ("/" + fa), mb + ("/" + fb));
    SameRun(ma, "/" + fa, mb, "/" + fb, IsLetter);
    DropPrefix("/", fa, fb);
  }

  /** The file name's leading day number is fixed by the file name. */
  lemma SameFileDay(da: string, ra: string, db: string, rb: string)
    requires AllDigits(da) && AllDigits(db)
    requires |ra| > 0 && |rb| > 0 && ra[0] == '_' && rb[0] == '_'
    requires "MOSI_OA_TUNYA_PRICES_" + (da + ra) == "MOSI_OA_TUNYA_PRICES_" + (db + rb)
    ensures da == db
  {
    DropPrefix("MOSI_OA_TUNYA_PRICES_", da + ra, db + rb);
    SameRun(da, ra, db, rb, IsDigit);
  }

  lemma MonthNameLetters(m: int)
    requires 1 <= m <= 12
    ensures AllLetters(MonthNames[m - 1])
  {
  }

  /** Different days have different PDF addresses: the address names the day, the month and the year. */
  lemma GoldPdfUrlInjective(a: CalendarDate, b: CalendarDate)
    requires BuildGoldPdfUrl(a) == BuildGoldPdfUrl(b)
    ensures a == b
  {
    var ma, mb := MonthNames[a.month - 1], MonthNames[b.month - 1];
    PdfUrlParts(a);
    PdfUrlParts(b);
    MonthNameLetters(a.month);
    MonthNameLetters(b.month);
    SameDirectory(NatToString(a.year), ma, PdfFileName(a), NatToString(b.year), mb, PdfFileName(b));
    NatToStringInjective(a.year, b.year);
    MonthNamesDistinct(a.month);
    MonthNamesDistinct(b.month);
    var ra := "_" + Upper(ma) + "_" + NatToString(a.year) + ".pdf";
    var rb := "_" + Upper(mb) + "_" + NatToString(b.year) + ".pdf";
    PdfFileNameParts(a);
    PdfFileNameParts(b);
    SameFileDay(NatToString(a.day), ra, NatToString(b.day), rb);
    NatToStringInjective(a.day, b.day);
  }

  // ---------------------------------------------------------------- the date in the PDF's text

  /** The month names of the PDF's date pattern, in its order; the pattern ignores case. */
  function PdfMonth(m: int): string {
    if m == 1 then "JANUARY" else if m == 2 then "FEBRUARY" else if m == 3 then "MARCH"
    else if m == 4 then "APRIL" else if m == 5 then "MAY" else if m == 6 then "JUNE"
    else if m == 7 then "JULY" else if m == 8 then "AUGUST" else if m == 9 then "SEPTEMBER"
    else if m == 10 then "OCTOBER" else if m == 11 then "NOVEMBER" else "DECEMBER"
  }

  /** How many letters the name of month `m` has; the scan steps over the name by this much. */
  function MonthNameLength(m: int): nat {
    if m == 1 || m == 10 then 7 else if m == 2 || m == 11 || m == 12 then 8 else if m == 3 || m == 4 then 5
    else if m == 5 then 3 else if m == 6 || m == 7 then 4 else if m == 8 then 6 else 9
  }

  lemma MonthNameLengthOf(m: int)
    requires 1 <= m <= 12
    ensures MonthNameLength(m) == |PdfMonth(m)|
  {
  }

  /** `word` (upper case) occurs at `i`, ignoring the case of ASCII letters. */
  predicate WordAt(s: string, i: nat, word: string) {
    i + |word| <= |s| && forall x :: 0 <= x < |word| ==> UpperChar(s[i + x]) == word[x]
  }

  /** The alternation of month names at `i`, tried from month `k` on: the first that matches. */
  function MonthFrom(s: string, i: nat, k: nat): (m: Option<nat>)
    requires 1 <= k <= 13
    ensures m.Some? ==> k <= m.value <= 12
    decreases 13 - k, s
  {
    if k == 13 then None
    else if WordAt(s, i, PdfMonth(k)) then Some(k)
    else MonthFrom(s, i, k + 1)
  }

  /** The month picked is one whose name matches at `i`; with none picked, no name from month `k` on matches. */
  lemma {:induction false} MonthFromMatches(s: string, i: nat, k: nat)
    requires 1 <= k <= 13
    ensures MonthFrom(s, i, k).Some? ==> WordAt(s, i, PdfMonth(MonthFrom(s, i, k).value))
    ensures MonthFrom(s, i, k).None? ==> forall n :: k <= n <= 12 ==> !WordAt(s, i, PdfMonth(n))
    decreases 13 - k
  {
    if k < 13 && !WordAt(s, i, PdfMonth(k)) {
      MonthFromMatches(s, i, k + 1);
    }
  }

  /** Where the run of whitespace (`\s`) that starts at `i` ends. */
  function SpacesEnd(s: string, i: nat): (j: nat)
    requires i <= |s|
    ensures i <= j <= |s|
    decreases |s| - i
  {
    if i < |s| && IsSpace(s[i]) then SpacesEnd(s, i + 1) else i
  }

  /** The three groups of the PDF's date pattern, as numbers. */
  datatype DayMonthYear = DayMonthYear(day: nat, month: nat, year: nat)

  /**
   * The match of `(\d{1,2})\s+(JANUARY|...|DECEMBER)\s+(\d{4})` starting at
   * `i`, case ignored. The day takes two digits when two are there: a single
   * digit followed by a digit cannot go on with `\s+`. No month name is a
   * prefix of another, and a name is followed by `\s+`, so the first name
   * that matches is the only one that can.
   */
  function DmyWordsAt(s: string, i: nat): (r: Option<DayMonthYear>)
    ensures r.Some? ==> 1 <= r.value.month <= 12 && r.value.day <= 99 && r.value.year <= 9999
  {
    if i >= |s| || !IsDigit(s[i]) then None
    else
      var j := DayEnd(s, i);
      match MonthYearAfter(s, j)
      case None => None
      case Some(my) =>
        DigitsBound(s[i..j]);
        Some(DayMonthYear(DigitsValue(s[i..j]), my.0, my.1))
  }

  /** `\d{1,2}` at a digit: two digits when there are two. */
  function DayEnd(s: string, i: nat): (j: nat)
    requires i < |s| && IsDigit(s[i])
    ensures i < j <= |s| && j <= i + 2 && AllDigits(s[i..j])
  {
    if i + 1 < |s| && IsDigit(s[i + 1]) then i + 2 else i + 1
  }

  /** `\s+(MONTH)\s+(\d{4})` at `j`: the month's number and the year. */
  function MonthYearAfter(s: string, j: nat): (r: Option<(nat, nat)>)
    requires j <= |s|
    ensures r.Some? ==> 1 <= r.value.0 <= 12 && r.value.1 <= 9999
  {
    var k := SpacesEnd(s, j);
    if k == j then None
    else
      match MonthFrom(s, k, 1)
      case None => None
      case Some(m) =>
        MonthFromMatches(s, k, 1);
        MonthNameLengthOf(m);
        match YearAfter(s, k + MonthNameLength(m))
        case None => None
        case Some(y) => Some((m, y))
  }

  /** `\s+(\d{4})` at `l`: the year. */
  function YearAfter(s: string, l: nat): (r: Option<nat>)
    requires l <= |s|
    ensures r.Some? ==> r.value <= 9999
  {
    var n := SpacesEnd(s, l);
    if n == l || n + 4 > |s| || !AllDigits(s[n..n + 4]) then None
    else
      DigitsBound(s[n..n + 4]);
      assert Pow10(4) == 10000;
      Some(DigitsValue(s[n..n + 4]))
  }

  /** `re.search`: the leftmost match at or after `from`. */
  function FirstDmyWords(s: string, from: nat): (r: Option<DayMonthYear>)
    decreases |s| - from
  {
    if from >= |s| then None
    else
      match DmyWordsAt(s, from)
      case Some(w) => Some(w)
      case None => FirstDmyWords(s, from + 1)
  }

  /** The PDF's `rate_date`: the ISO text of the first day-month-year match, when it names a calendar date. */
  function PdfRateDate(text: string): (r: Option<string>)
    ensures r.Some? ==> ParseIsoDate(r.value).Some?
  {
    match FirstDmyWords(text, 0)
    case None => None
    case Some(w) =>
      var d := Date(w.year, w.month, w.day);
      if ValidDate(d) then IsoRoundTrip(d); Some(IsoFormat(d)) else None
  }

  /** A run of `k` digits stays below `10^k`. */
  lemma {:induction false} DigitsBound(s: string)
    requires AllDigits(s)
    ensures DigitsValue(s) < Pow10(|s|)
    decreases |s|
  {
    if |s| > 0 {
      DigitsBound(s[..|s| - 1]);
    }
  }

  /** The date as the PDF prints it: `<day> <MONTH> <year>`, the day unpadded, the year in four digits. */
  function PdfDateText(d: CalendarDate): string {
    NatToString(d.day) + " " + PdfMonth(d.month) + " " + ZeroPad(NatToString(d.year), 4)
  }

  /** The month whose name starts with the letters `a`, `b`, `c`. */
  function MonthOfInitials(a: char, b: char, c: char): (m: nat)
    ensures m <= 12
  {
    if [a, b, c] == "JAN" then 1 else if [a, b, c] == "FEB" then 2 else if [a, b, c] == "MAR" then 3
    else if [a, b, c] == "APR" then 4 else if [a, b, c] == "MAY" then 5 else if [a, b, c] == "JUN" then 6
    else if [a, b, c] == "JUL" then 7 else if [a, b, c] == "AUG" then 8 else if [a, b, c] == "SEP" then 9
    else if [a, b, c] == "OCT" then 10 else if [a, b, c] == "NOV" then 11 else if [a, b, c] == "DEC" then 12
    else 0
  }

  predicate UpperWord(w: string) {
    forall x :: 0 <= x < |w| ==> 'A' <= w[x] <= 'Z'
  }

  /** Each month name is upper-case letters, and its first three letters name it. */
  lemma MonthInitials(m: int)
    requires 1 <= m <= 12
    ensures var w := PdfMonth(m); |w| >= 3 && UpperWord(w) && MonthOfInitials(w[0], w[1], w[2]) == m
  {
  }

  /** Where `w` occurs at `k` as it stands, the case-blind match sees it there. */
  lemma WordAtItself(s: string, k: nat, w: string)
    requires UpperWord(w) && k + |w| <= |s| && s[k..k + |w|] == w
    ensures WordAt(s, k, w)
  {
    forall x | 0 <= x < |w|
      ensures UpperChar(s[k + x]) == w[x]
    {
      assert s[k + x] == s[k..k + |w|][x];
    }
  }

  /** A month name followed by a character that is not a letter is the month the alternation picks there. */
  lemma OnlyMonthAt(s: string, k: nat, m: int, e: nat)
    requires 1 <= m <= 12 && e == k + MonthNameLength(m)
    requires e < |s| && s[k..e] == PdfMonth(m) && !IsLetter(s[e])
    ensures MonthFrom(s, k, 1) == Some(m)
  {
    MonthNameLengthOf(m);
    MonthInitials(m);
    WordAtItself(s, k, PdfMonth(m));
    MonthFromMatches(s, k, 1);
    var r := MonthFrom(s, k, 1);
    assert r.Some?;
    SameMonthAt(s, k, m, e, r.value);
  }

  /** No other month name matches where one stands followed by a character that is not a letter. */
  lemma SameMonthAt(s: string, k: nat, m: int, e: nat, n: int)
    requires 1 <= m <= 12 && 1 <= n <= 12 && e == k + MonthNameLength(m)
    requires e < |s| && s[k..e] == PdfMonth(m) && !IsLetter(s[e])
    requires WordAt(s, k, PdfMonth(n))
    ensures n == m
  {
    var w, v := PdfMonth(m), PdfMonth(n);
    MonthNameLengthOf(m);
    MonthInitials(m);
    MonthInitials(n);
    assert !IsLetter(UpperChar(s[k + |w|]));
    assert s[k] == w[0] && s[k + 1] == w[1] && s[k + 2] == w[2];
    assert UpperChar(s[k]) == v[0] && UpperChar(s[k + 1]) == v[1] && UpperChar(s[k + 2]) == v[2];
  }

  lemma DigitIsNotSpace(c: char)
    requires IsDigit(c)
    ensures !IsSpace(c)
  {
  }

  lemma SpaceIsNotDigit(c: char)
    requires IsSpace(c)
    ensures !IsDigit(c)
  {
  }

  /** A single space followed by something else is a run of one. */
  lemma SpacesEndOne(s: string, j: nat)
    requires j + 1 < |s| && IsSpace(s[j]) && !IsSpace(s[j + 1])
    ensures SpacesEnd(s, j) == j + 1
  {
  }

  /** The search passes over text with no digit in it: a match starts with one. */
  lemma {:induction false} FirstDmyWordsSkip(s: string, from: nat, p: nat)
    requires from <= p <= |s|
    requires forall k :: from <= k < p ==> !IsDigit(s[k])
    ensures FirstDmyWords(s, from) == FirstDmyWords(s, p)
    decreases p - from
  {
    if from < p {
      FirstDmyWordsSkip(s, from + 1, p);
    }
  }

  lemma YearAfterOf(s: string, l: nat, year: string)
    requires |year| == 4 && AllDigits(year)
    requires l + 5 <= |s| && SpacesEnd(s, l) == l + 1 && s[l + 1..l + 5] == year
    ensures YearAfter(s, l) == Some(DigitsValue(year))
  {
  }

  lemma MonthYearAfterOf(s: string, j: nat, m: int, l: nat, y: nat)
    requires j < |s| && SpacesEnd(s, j) == j + 1
    requires MonthFrom(s, j + 1, 1) == Some(m) && l == j + 1 + MonthNameLength(m)
    requires l <= |s| && YearAfter(s, l) == Some(y)
    ensures MonthYearAfter(s, j) == Some((m, y))
  {
    var k := SpacesEnd(s, j);
    assert k != j;
    assert MonthFrom(s, k, 1) == Some(m);
    assert YearAfter(s, k + MonthNameLength(m)) == Some(y);
  }

  lemma DayEndOf(t: string, i: nat, day: string)
    requires 1 <= |day| <= 2 && AllDigits(day)
    requires i + |day| < |t| && t[i..i + |day|] == day && IsSpace(t[i + |day|])
    ensures IsDigit(t[i]) && DayEnd(t, i) == i + |day|
  {
    assert t[i] == day[0];
    if |day| == 2 {
      assert t[i + 1] == day[1];
    } else {
      SpaceIsNotDigit(t[i + 1]);
    }
  }

  /** The month name and the spaces around it, inside `<day> <MONTH> <year>`. */
  lemma MonthWordOf(t: string, j: nat, m: int, l: nat)
    requires 1 <= m <= 12 && l == j + 1 + MonthNameLength(m)
    requires l + 1 < |t| && t[j] == ' ' && t[j + 1..l] == PdfMonth(m) && t[l] == ' ' && IsDigit(t[l + 1])
    ensures MonthFrom(t, j + 1, 1) == Some(m)
    ensures SpacesEnd(t, j) == j + 1 && SpacesEnd(t, l) == l + 1
  {
    MonthNameLengthOf(m);
    MonthInitials(m);
    assert t[j + 1] == t[j + 1..l][0];
    SpacesEndOne(t, j);
    OnlyMonthAt(t, j + 1, m, l);
    DigitIsNotSpace(t[l + 1]);
    SpacesEndOne(t, l);
  }

  /** Where each part of `<day> <MONTH> <year>` sits, when the three stand at `i` in `t`. */
  lemma DateWordsLayout(t: string, i: nat, j: nat, l: nat, day: string, month: string, year: string)
    requires j == i + |day| && l == j + 1 + |month| && |year| == 4
    requires l + 5 <= |t| && t[i..l + 5] == day + " " + month + " " + year
    ensures t[i..j] == day && t[j] == ' ' && t[j + 1..l] == month && t[l] == ' ' && t[l + 1..l + 5] == year
  {
    var u, w := t[i..l + 5], day + " " + month + " " + year;
    assert u == w;
    forall k | 0 <= k < |day| ensures t[i + k] == day[k] {
      assert t[i + k] == u[k] && w[k] == day[k];
    }
    forall k | 0 <= k < |month| ensures t[j + 1 + k] == month[k] {
      assert t[j + 1 + k] == u[|day| + 1 + k] && w[|day| + 1 + k] == month[k];
    }
    forall k | 0 <= k < 4 ensures t[l + 1 + k] == year[k] {
      assert t[l + 1 + k] == u[|day| + |month| + 2 + k] && w[|day| + |month| + 2 + k] == year[k];
    }
    assert t[j] == u[|day|] && t[l] == u[|day| + 1 + |month|];
  }

  /** The `\s+(MONTH)\s+(\d{4})` part of the same layout, at `j`. */
  lemma MonthYearLaidOut(t: string, j: nat, m: int, l: nat, year: string)
    requires 1 <= m <= 12 && |year| == 4 && AllDigits(year)
    requires l == j + 1 + |PdfMonth(m)| && l + 5 <= |t|
    requires t[j] == ' ' && t[j + 1..l] == PdfMonth(m) && t[l] == ' ' && t[l + 1..l + 5] == year
    ensures MonthYearAfter(t, j) == Some((m, DigitsValue(year)))
  {
    assert IsDigit(t[l + 1]) by { assert t[l + 1] == year[0]; }
    MonthNameLengthOf(m);
    MonthWordOf(t, j, m, l);
    YearAfterOf(t, l, year);
    MonthYearAfterOf(t, j, m, l, DigitsValue(year));
  }

  /** A day token followed by a month and a year is a match made of the three. */
  lemma DmyWordsOfParts(t: string, i: nat, j: nat, day: string, my: (nat, nat))
    requires 1 <= |day| <= 2 && AllDigits(day) && j == i + |day|
    requires j < |t| && t[i..j] == day && t[j] == ' '
    requires MonthYearAfter(t, j) == Some(my)
    ensures DmyWordsAt(t, i) == Some(DayMonthYear(DigitsValue(day), my.0, my.1))
  {
    DayEndOf(t, i, day);
  }

  /** The printed date, wherever it stands, is a match of the date pattern with the date's own day, month and year. */
  lemma PdfDateTextAt(t: string, i: nat, d: CalendarDate)
    requires i + |PdfDateText(d)| <= |t| && t[i..i + |PdfDateText(d)|] == PdfDateText(d)
    ensures DmyWordsAt(t, i) == Some(DayMonthYear(d.day, d.month, d.year))
  {
    var day, year := NatToString(d.day), ZeroPad(NatToString(d.year), 4);
    NatToStringWidth(d.year, 4);
    ZeroPadValue(d.year, 4);
    NatToStringValue(d.day);
    NatToStringLength(d.day, 2);
    var m := d.month;
    var w := PdfMonth(m);
    var j := i + |day|;
    var l := j + 1 + |w|;
    assert PdfDateText(d) == day + " " + w + " " + year && i + |PdfDateText(d)| == l + 5;
    DateWordsLayout(t, i, j, l, day, w, year);
    MonthYearLaidOut(t, j, m, l, year);
    DmyWordsOfParts(t, i, j, day, (m, DigitsValue(year)));
  }

  /**
   * A date printed as `<day> <MONTH> <year>` after text with no digit in
   * it is the date the PDF is read as, whatever follows it.
   */
  lemma PdfDateRoundTrip(prefix: string, d: CalendarDate, suffix: string)
    requires forall k :: 0 <= k < |prefix| ==> !IsDigit(prefix[k])
    ensures PdfRateDate(prefix + PdfDateText(d) + suffix) == Some(IsoFormat(d))
  {
    var t := prefix + PdfDateText(d) + suffix;
    assert t[|prefix|..|prefix| + |PdfDateText(d)|] == PdfDateText(d);
    PdfDateTextAt(t, |prefix|, d);
    assert forall k :: 0 <= k < |prefix| ==> t[k] == prefix[k];
    FirstDmyWordsSkip(t, 0, |prefix|);
  }

  // ---------------------------------------------------------------- the prices in the PDF's text

  /** `currencies[line.strip()]` in the PDF: USD, ZAR and ZWG, and nothing else. */
  function PdfCoin(name: string): Option<Coin> {
    if name == "USD" then Some(Usd)
    else if name == "ZAR" then Some(Zar)
    else if name == "ZWG" then Some(Zwg)
    else None
  }

  /**
   * The number on the first line, among the four after line `i` from the
   * `j`-th on, that reads as one once its commas are dropped; lines past the
   * end of the text are passed over.
   */
  function NumberAfter(lines: seq<string>, i: nat, j: nat, parse: NumParser): (r: Option<real>)
    requires 1 <= j <= 5
    decreases 5 - j
  {
    if j == 5 then None
    else if i + j < |lines| && CellNumber(parse, lines[i + j]).Some? then CellNumber(parse, lines[i + j])
    else NumberAfter(lines, i, j + 1, parse)
  }

  /** The number found is that of the first line in reach that reads as one; none is found when none does. */
  lemma {:induction false} NumberAfterFirst(lines: seq<string>, i: nat, j: nat, parse: NumParser)
    requires 1 <= j <= 5
    ensures var r := NumberAfter(lines, i, j, parse);
      && (r.None? ==> forall p :: i + j <= p <= i + 4 && p < |lines| ==> CellNumber(parse, lines[p]).None?)
      && (r.Some? ==> exists p :: (i + j <= p <= i + 4 && p < |lines| && CellNumber(parse, lines[p]) == r
            && forall q :: i + j <= q < p ==> CellNumber(parse, lines[q]).None?))
    decreases 5 - j
  {
    if j < 5 && !(i + j < |lines| && CellNumber(parse, lines[i + j]).Some?) {
      NumberAfterFirst(lines, i, j + 1, parse);
    }
  }

  /** One line of the PDF: a currency label takes the number found after it, replacing any earlier price. */
  function ApplyPdfLine(data: GoldQuote, lines: seq<string>, i: nat, parse: NumParser): GoldQuote
    requires i < |lines|
  {
    match PdfCoin(Strip(lines[i]))
    case None => data
    case Some(c) =>
      match NumberAfter(lines, i, 1, parse)
      case None => data
      case Some(v) => WithCoinPrice(data, c, v)
  }

  function ScanPdfLines(data: GoldQuote, lines: seq<string>, i: nat, parse: NumParser): GoldQuote
    requires i <= |lines|
    decreases |lines| - i
  {
    if i == |lines| then data else ScanPdfLines(ApplyPdfLine(data, lines, i, parse), lines, i + 1, parse)
  }

  /**
   * The answer to the request for the PDF: the request raised, or a status,
   * a body and the text of the body's first page (None where the PDF
   * library cannot open it).
   */
  datatype PdfFetch = FetchFailed | Fetched(status: int, body: seq<bv8>, text: Option<string>)

  /** The body starts with `%PDF`. */
  predicate PdfMagic(body: seq<bv8>) {
    |body| >= 4 && body[..4] == [0x25, 0x50, 0x44, 0x46]
  }

  /** The dictionary built from a PDF's text: source, address, the date found and the prices read. */
  function PdfData(target: CalendarDate, text: string, parse: NumParser): GoldQuote {
    var start := EmptyGold.(rateDate := PdfRateDate(text), source := Some("pdf"), sourceUrl := Some(BuildGoldPdfUrl(target)));
    ScanPdfLines(start, SplitChar(text, '\n'), 0, parse)
  }

  /**
   * `_scrape_gold_from_pdf`: nothing unless the request answered 200 with a
   * body starting `%PDF` whose first page could be read; then the dictionary
   * when it holds more than its two source keys.
   */
  function GoldFromPdf(target: CalendarDate, fetch: PdfFetch, parse: NumParser): Option<GoldQuote> {
    match fetch
    case FetchFailed => None
    case Fetched(status, body, text) =>
      if status != 200 || !PdfMagic(body) || text.None? then None
      else
        var data := PdfData(target, text.value, parse);
        if data.Size() > 2 then Some(data) else None
  }

  /** The PDF fallback, with its loop over lines and its inner loop over the next four lines. */
  method ScrapeGoldFromPdf(target: CalendarDate, fetch: PdfFetch, parse: NumParser) returns (r: Option<GoldQuote>)
    ensures r == GoldFromPdf(target, fetch, parse)
  {
    if !fetch.Fetched? || fetch.status != 200 || !PdfMagic(fetch.body) || fetch.text.None? {
      return None;
    }
    var text := fetch.text.value;
    var data := EmptyGold.(source := Some("pdf"), sourceUrl := Some(BuildGoldPdfUrl(target)));
    data := data.(rateDate := PdfRateDate(text));
    data := ScanPdf(data, SplitChar(text, '\n'), parse);
    r := if data.Size() > 2 then Some(data) else None;
  }

  /**
   * The loop of `_scrape_gold_from_pdf` over the lines of the text, with
   * its inner loop over the next four lines after a currency label.
   */
  method ScanPdf(start: GoldQuote, lines: seq<string>, parse: NumParser) returns (data: GoldQuote)
    ensures data == ScanPdfLines(start, lines, 0, parse)
  {
    data := start;
    for i := 0 to |lines|
      invariant ScanPdfLines(data, lines, i, parse) == ScanPdfLines(start, lines, 0, parse)
    {
      ghost var before := data;
      var coin := PdfCoin(Strip(lines[i]));
      if coin.Some? {
        var j := 1;
        while j < 5
          invariant 1 <= j <= 5 && data == before
          invariant NumberAfter(lines, i, j, parse) == NumberAfter(lines, i, 1, parse)
        {
          if i + j < |lines| {
            var v := CellNumber(parse, lines[i + j]);
            if v.Some? {
              data := WithCoinPrice(data, coin.value, v.value);
              break;
            }
          }
          j := j + 1;
        }
      }
      assert data == ApplyPdfLine(before, lines, i, parse);
    }
  }

  /** The line scan only sets the three coin prices. */
  lemma {:induction false} ScanPdfKeeps(data: GoldQuote, lines: seq<string>, i: nat, parse: NumParser)
    requires i <= |lines|
    ensures var r := ScanPdfLines(data, lines, i, parse);
      && r.rateDate == data.rateDate && r.source == data.source && r.sourceUrl == data.sourceUrl
      && r.gbp == data.gbp && r.eur == data.eur
      && r.digitalTokenUsd == data.digitalTokenUsd && r.digitalTokenZwg == data.digitalTokenZwg
    decreases |lines| - i
  {
    if i < |lines| {
      ScanPdfKeeps(ApplyPdfLine(data, lines, i, parse), lines, i + 1, parse);
    }
  }

  /**
   * A quote from the PDF comes only from a readable PDF answered with 200;
   * it names the PDF as its source and its address, carries the date found
   * in the text, and no GBP, EUR or digital-token price.
   */
  lemma PdfQuoteShape(target: CalendarDate, fetch: PdfFetch, parse: NumParser)
    requires GoldFromPdf(target, fetch, parse).Some?
    ensures fetch.Fetched? && fetch.status == 200 && PdfMagic(fetch.body) && fetch.text.Some?
    ensures var q := GoldFromPdf(target, fetch, parse).value;
      && q.source == Some("pdf") && q.sourceUrl == Some(BuildGoldPdfUrl(target))
      && q.rateDate == PdfRateDate(fetch.text.value)
      && q.gbp.None? && q.eur.None? && q.digitalTokenUsd.None? && q.digitalTokenZwg.None?
  {
    var text := fetch.text.value;
    var start := EmptyGold.(rateDate := PdfRateDate(text), source := Some("pdf"), sourceUrl := Some(BuildGoldPdfUrl(target)));
    ScanPdfKeeps(start, SplitChar(text, '\n'), 0, parse);
  }

  /**
   * A readable PDF gives a quote exactly when its text yields a date or a
   * price: the two source keys alone do not make one.
   */
  lemma PdfQuoteWhen(target: CalendarDate, body: seq<bv8>, text: string, parse: NumParser)
    requires PdfMagic(body)
    ensures var d := PdfData(target, text, parse);
      GoldFromPdf(target, Fetched(200, body, Some(text)), parse).Some?
      <==> d.rateDate.Some? || d.usd.Some? || d.zar.Some? || d.zwg.Some?
  {
    var start := EmptyGold.(rateDate := PdfRateDate(text), source := Some("pdf"), sourceUrl := Some(BuildGoldPdfUrl(target)));
    ScanPdfKeeps(start, SplitChar(text, '\n'), 0, parse);
  }

  /** Line `p` is a label for `c` with a number after it. */
  predicate PricesCoin(lines: seq<string>, p: nat, c: Coin, parse: NumParser)
    requires p < |lines|
  {
    PdfCoin(Strip(lines[p])) == Some(c) && NumberAfter(lines, p, 1, parse).Some?
  }

  /** What one line does to one currency's price. */
  lemma ApplyPdfLinePrice(data: GoldQuote, lines: seq<string>, i: nat, c: Coin, parse: NumParser)
    requires i < |lines|
    ensures !PricesCoin(lines, i, c, parse) ==> CoinPrice(ApplyPdfLine(data, lines, i, parse), c) == CoinPrice(data, c)
    ensures PricesCoin(lines, i, c, parse) ==>
      CoinPrice(ApplyPdfLine(data, lines, i, parse), c) == NumberAfter(lines, i, 1, parse)
  {
  }

  /** Lines from `i` on that give `c` no number leave its price alone. */
  lemma {:induction false} PdfPriceUntouched(data: GoldQuote, lines: seq<string>, i: nat, c: Coin, parse: NumParser)
    requires i <= |lines|
    requires forall p :: i <= p < |lines| ==> !PricesCoin(lines, p, c, parse)
    ensures CoinPrice(ScanPdfLines(data, lines, i, parse), c) == CoinPrice(data, c)
    decreases |lines| - i
  {
    if i < |lines| {
      var next := ApplyPdfLine(data, lines, i, parse);
      assert !PricesCoin(lines, i, c, parse);
      ApplyPdfLinePrice(data, lines, i, c, parse);
      PdfPriceUntouched(next, lines, i + 1, c, parse);
    }
  }

  /**
   * Unlike the web page, the PDF lets a later label win: a currency's price
   * is the number after the last line labelled with it that has one.
   */
  lemma {:induction false} PdfLastLabelWins(data: GoldQuote, lines: seq<string>, i: nat, k: nat, c: Coin, parse: NumParser)
    requires i <= k < |lines|
    requires PricesCoin(lines, k, c, parse)
    requires forall p :: k < p < |lines| ==> !PricesCoin(lines, p, c, parse)
    ensures CoinPrice(ScanPdfLines(data, lines, i, parse), c) == NumberAfter(lines, k, 1, parse)
    decreases k - i
  {
    var next := ApplyPdfLine(data, lines, i, parse);
    assert ScanPdfLines(data, lines, i, parse) == ScanPdfLines(next, lines, i + 1, parse);
    if i == k {
      ApplyPdfLinePrice(data, lines, i, c, parse);
      PdfPriceUntouched(next, lines, i + 1, c, parse);
    } else {
      PdfLastLabelWins(next, lines, i + 1, k, c, parse);
    }
  }
}
