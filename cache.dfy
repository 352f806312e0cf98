/**
 * The HTTP response cache in front of the rates API (lib/cache.py): keys are
 * request URLs; after a sync, the keys whose query selects the day that was
 * just published are evicted, every other key is kept.
 */
module Cache {
  import opened Wrappers
  import opened Text
  import opened Dates
  import opened Quotes
  import opened LocalStore

  const DefaultPattern: string := "*/api/rates/fx-rates"

  /**
   * `_get_cache_pattern`: the CACHE_PATTERN variable when set, else the
   * stored `cache_pattern`, else the default. It is never empty, so the
   * "no pattern configured" branches of the callers cannot be taken.
   */
  function CachePattern(variable: Option<string>, stored: Option<string>): (p: string)
    ensures p != ""
  {
    if TruthyText(variable) then variable.value
    else if TruthyText(stored) then stored.value
    else DefaultPattern
  }

  /** The pattern comes from the first of variable, stored credential and default that is set. */
  lemma PatternPrecedence(variable: Option<string>, stored: Option<string>)
    ensures TruthyText(variable) ==> CachePattern(variable, stored) == variable.value
    ensures !TruthyText(variable) && TruthyText(stored) ==> CachePattern(variable, stored) == stored.value
    ensures !TruthyText(variable) && !TruthyText(stored) ==> CachePattern(variable, stored) == DefaultPattern
  {
  }

  /** The pattern the key scan uses: the configured one, with '*' appended unless it already ends in '*'. */
  function SearchPattern(p: string): (r: string)
    ensures StartsWith(r, p) && EndsWith(r, "*") && |r| <= |p| + 1
    ensures EndsWith(p, "*") ==> r == p
  {
    if EndsWith(p, "*") then p
    else
      var r := p + "*";
      assert r[..|p|] == p;
      r
  }

  // ---------------------------------------------------------------- key patterns

  /**
   * Redis's glob match as SCAN's MATCH option applies it: '*' matches any
   * run of characters, '?' any one character, a backslash makes the next
   * character literal, every other character matches itself.
   */
  predicate GlobMatch(p: string, s: string)
    decreases |p| + |s|
  {
    if |p| == 0 then |s| == 0
    else if p[0] == '*' then GlobMatch(p[1..], s) || (|s| > 0 && GlobMatch(p, s[1..]))
    else if p[0] == '?' then |s| > 0 && GlobMatch(p[1..], s[1..])
    else if p[0] == '\\' && |p| >= 2 then |s| > 0 && s[0] == p[1] && GlobMatch(p[2..], s[1..])
    else |s| > 0 && s[0] == p[0] && GlobMatch(p[1..], s[1..])
  }

  lemma {:induction false} StarMatchesAll(s: string)
    ensures GlobMatch("*", s)
    decreases |s|
  {
    if |s| > 0 {
      StarMatchesAll(s[1..]);
    }
  }

  /** The pattern's last character is a backslash, which would escape an appended '*'. */
  predicate EndsInEscape(p: string) {
    |p| > 0 && p[|p| - 1] == '\\'
  }

  /** A pattern followed by '*' goes on matching whatever is appended to a key it matches. */
  lemma {:induction false} StarSuffixExtends(p: string, k: string, q: string)
    requires !EndsInEscape(p)
    requires GlobMatch(p + "*", k)
    ensures GlobMatch(p + "*", k + q)
    decreases |p| + |k|
  {
    var P := p + "*";
    if |p| == 0 {
      assert P == "*";
      StarMatchesAll(k + q);
    } else {
      assert P[1..] == p[1..] + "*";
      if p[0] == '*' && GlobMatch(P[1..], k) {
        StarSuffixExtends(p[1..], k, q);
      } else {
        assert (k + q)[1..] == k[1..] + q;
        if p[0] == '*' {
          StarSuffixExtends(p, k[1..], q);
        } else if p[0] == '\\' {
          assert |p| >= 2;
          assert P[2..] == p[2..] + "*";
          StarSuffixExtends(p[2..], k[1..], q);
        } else {
          StarSuffixExtends(p[1..], k[1..], q);
        }
      }
    }
  }

  /** Appending '*' to a pattern keeps every match: the star takes the empty rest. */
  lemma {:induction false} StarMatchesEmptyTail(p: string, k: string)
    requires !EndsInEscape(p)
    requires GlobMatch(p, k)
    ensures GlobMatch(p + "*", k)
    decreases |p| + |k|
  {
    var P := p + "*";
    if |p| == 0 {
      assert P == "*";
    } else {
      assert P[1..] == p[1..] + "*";
      if p[0] == '*' {
        if GlobMatch(p[1..], k) {
          StarMatchesEmptyTail(p[1..], k);
        } else {
          StarMatchesEmptyTail(p, k[1..]);
        }
      } else if p[0] == '\\' {
        assert |p| >= 2;
        assert P[2..] == p[2..] + "*";
        StarMatchesEmptyTail(p[2..], k[1..]);
      } else {
        StarMatchesEmptyTail(p[1..], k[1..]);
      }
    }
  }

  /**
   * The search pattern finds every key the configured pattern matches, with
   * any query string appended: the reason the scan adds the wildcard. A
   * pattern ending in an escape is the exception.
   */
  lemma SearchPatternCatchesQueries(p: string, k: string, q: string)
    requires !EndsWith(p, "\\") && !EndsWith(p, "\\*")
    requires GlobMatch(p, k)
    ensures GlobMatch(SearchPattern(p), k + q)
  {
    if EndsWith(p, "*") {
      var p0 := p[..|p| - 1];
      assert p == p0 + "*";
      if |p| >= 2 {
        assert p[|p| - 2..] == [p[|p| - 2], p[|p| - 1]];
      }
      StarSuffixExtends(p0, k, q);
    } else {
      if |p| >= 1 {
        assert p[|p| - 1..] == [p[|p| - 1]];
      }
      StarMatchesEmptyTail(p, k);
      StarSuffixExtends(p, k, q);
    }
  }

  predicate Plain(s: string) {
    forall i :: 0 <= i < |s| ==> s[i] != '*' && s[i] != '?' && s[i] != '\\'
  }

  lemma {:induction false} PlainMatchesItself(s: string)
    requires Plain(s)
    ensures GlobMatch(s, s)
    decreases |s|
  {
    if |s| > 0 {
      PlainMatchesItself(s[1..]);
    }
  }

  /** '*' followed by plain text matches any text that ends with it. */
  lemma {:induction false} StarThenPlain(lit: string, prefix: string)
    requires Plain(lit)
    ensures GlobMatch("*" + lit, prefix + lit)
    decreases |prefix|
  {
    var P := "*" + lit;
    assert P[1..] == lit;
    if |prefix| == 0 {
      PlainMatchesItself(lit);
      assert prefix + lit == lit;
    } else {
      StarThenPlain(lit, prefix[1..]);
      assert (prefix + lit)[1..] == prefix[1..] + lit;
    }
  }

  /** With the default pattern, the scan finds every request to the fx-rates endpoint, whatever its host and query. */
  lemma DefaultScanFindsEndpoint(prefix: string, query: string)
    ensures GlobMatch(SearchPattern(DefaultPattern), prefix + "/api/rates/fx-rates" + query)
  {
    var lit := "/api/rates/fx-rates";
    assert DefaultPattern == "*" + lit;
    StarThenPlain(lit, prefix);
    assert DefaultPattern[|DefaultPattern| - 2..] != "\\*";
    SearchPatternCatchesQueries(DefaultPattern, prefix + lit, query);
  }

  // ---------------------------------------------------------------- URLs

  /** The characters `urlsplit` strips from the front: C0 controls and space. */
  predicate IsControlOrSpace(c: char) {
    c <= ' '
  }

  function LStripControl(s: string): (r: string)
    ensures |r| <= |s| && r == s[|s| - |r|..]
    ensures forall x :: x in r ==> x in s
    ensures r == [] || !IsControlOrSpace(r[0])
  {
    if |s| > 0 && IsControlOrSpace(s[0]) then LStripControl(s[1..]) else s
  }

  /** Tab, carriage return and line feed, which `urlsplit` deletes wherever they are. */
  predicate IsUnsafe(c: char) {
    c == '\t' || c == '\r' || c == '\n'
  }

  function RemoveUnsafe(s: string): (r: string)
    ensures forall x :: x in r ==> x in s && !IsUnsafe(x)
  {
    if |s| == 0 then [] else (if IsUnsafe(s[0]) then [] else [s[0]]) + RemoveUnsafe(s[1..])
  }

  predicate IsAsciiLetter(c: char) {
    'a' <= c <= 'z' || 'A' <= c <= 'Z'
  }

  predicate IsSchemeChar(c: char) {
    IsAsciiLetter(c) || IsDigit(c) || c == '+' || c == '-' || c == '.'
  }

  predicate IsScheme(s: string) {
    |s| > 0 && IsAsciiLetter(s[0]) && forall i :: 0 <= i < |s| ==> IsSchemeChar(s[i])
  }

  /** The URL after its `scheme:`, when the text before the first ':' is a scheme. */
  function AfterScheme(u: string): (r: string)
    ensures |r| <= |u| && r == u[|u| - |r|..]
    ensures forall x :: x in r ==> x in u
  {
    match SplitAtChar(u, ':')
    case None => u
    case Some(parts) =>
      if IsScheme(parts.0) then
        assert u == parts.0 + [':'] + parts.1;
        assert u[|u| - |parts.1|..] == parts.1;
        parts.1
      else u
  }

  /** The network location after `//`: up to the first '/', '?' or '#'. */
  function NetlocOf(s: string): (r: string)
    ensures |r| <= |s| && r == s[..|r|]
    ensures '?' !in r && '#' !in r && '/' !in r
    ensures forall i :: 0 <= i < |r| ==> s[i] != '?'
  {
    if |s| == 0 || s[0] == '/' || s[0] == '?' || s[0] == '#' then [] else [s[0]] + NetlocOf(s[1..])
  }

  /** `urlsplit` raises ValueError ("Invalid IPv6 URL") on a location with one bracket but not the other. */
  predicate BadBrackets(netloc: string) {
    ('[' in netloc) != (']' in netloc)
  }

  /** The text `urlsplit` works on: leading controls and spaces stripped, tabs and line breaks deleted. */
  function Cleaned(url: string): string {
    RemoveUnsafe(LStripControl(url))
  }

  /**
   * The query of what follows the scheme, or None where `urlsplit` raises.
   * Neither the scheme nor the network location can hold '?' or '#', so the
   * query is the text between the first '?' and the first '#'.
   */
  function QueryAfterScheme(rest: string): Option<string> {
    if |rest| >= 2 && rest[..2] == "//" && BadBrackets(NetlocOf(rest[2..])) then None
    else
      match SplitAtChar(BeforeChar(rest, '#'), '?')
      case None => Some("")
      case Some(parts) => Some(parts.1)
  }

  /** `urlparse(url).query` (the query comes from `urlsplit`), or None where `urlsplit` raises. */
  function UrlQuery(url: string): Option<string> {
    QueryAfterScheme(AfterScheme(Cleaned(url)))
  }

  // ---------------------------------------------------------------- query strings

  datatype Param = Param(name: string, value: string)

  predicate IsHexDigit(c: char) {
    IsDigit(c) || 'a' <= c <= 'f' || 'A' <= c <= 'F'
  }

  function HexValue(c: char): (v: nat)
    requires IsHexDigit(c)
    ensures v < 16
  {
    if IsDigit(c) then DigitValue(c)
    else if 'a' <= c <= 'f' then (c as int - 'a' as int + 10) as nat
    else (c as int - 'A' as int + 10) as nat
  }

  /**
   * One percent-decoded byte: an ASCII byte is its character. A byte above
   * 0x7F is part of a UTF-8 sequence and decodes to a non-ASCII character;
   * it stands here as U+FFFD, since the decision below only compares names
   * and dates made of ASCII characters.
   */
  function DecodedByte(b: nat): char {
    if b < 0x80 then b as char else '\U{FFFD}'
  }

  /** `unquote`: each '%' followed by two hex digits becomes the byte they spell; the rest is kept. */
  function PercentDecode(s: string): (r: string)
    ensures '%' !in s ==> r == s
  {
    if |s| == 0 then []
    else if s[0] == '%' && |s| >= 3 && IsHexDigit(s[1]) && IsHexDigit(s[2]) then
      [DecodedByte(HexValue(s[1]) * 16 + HexValue(s[2]))] + PercentDecode(s[3..])
    else [s[0]] + PercentDecode(s[1..])
  }

  function PlusToSpace(s: string): (r: string)
    ensures |r| == |s| && forall i :: 0 <= i < |s| ==> r[i] == if s[i] == '+' then ' ' else s[i]
  {
    seq(|s|, i requires 0 <= i < |s| => if s[i] == '+' then ' ' else s[i])
  }

  /** An escape `%XX` after '%'-free text decodes to the byte it spells, and decoding goes on after it. */
  lemma {:induction false} PercentDecodeEscape(a: string, h1: char, h2: char, rest: string)
    requires '%' !in a && IsHexDigit(h1) && IsHexDigit(h2)
    ensures PercentDecode(a + ['%', h1, h2] + rest)
              == a + [DecodedByte(HexValue(h1) * 16 + HexValue(h2))] + PercentDecode(rest)
  {
    var s, x := a + ['%', h1, h2] + rest, DecodedByte(HexValue(h1) * 16 + HexValue(h2));
    if |a| == 0 {
      assert s == ['%', h1, h2] + rest;
      assert s[3..] == rest;
    } else {
      assert s[0] == a[0] && a[0] != '%';
      assert s[1..] == a[1..] + ['%', h1, h2] + rest;
      PercentDecodeEscape(a[1..], h1, h2, rest);
      assert PercentDecode(s) == [a[0]] + (a[1..] + [x] + PercentDecode(rest));
      assert a == [a[0]] + a[1..];
    }
  }

  /** `unquote('d%61y') == 'day'`. */
  lemma PercentDecodeExample()
    ensures PercentDecode("d%61y") == "day"
  {
    assert "d%61y" == "d" + ['%', '6', '1'] + "y";
    PercentDecodeEscape("d", '6', '1', "y");
    assert DecodedByte(HexValue('6') * 16 + HexValue('1')) == 'a';
  }

  /** How `parse_qsl` decodes a name or a value: '+' is a space, then percent-decoding. */
  function Unquote(s: string): (r: string)
    ensures '+' !in s && '%' !in s ==> r == s
  {
    var t := PlusToSpace(s);
    assert '+' !in s ==> t == s;
    PercentDecode(t)
  }

  /**
   * One '&'-separated field: an empty field, a field without '=' and a
   * field with an empty value are dropped (`keep_blank_values` is false).
   */
  function Field(f: string): seq<Param> {
    match SplitAtChar(f, '=')
    case None => []
    case Some(parts) => if parts.1 == "" then [] else [Param(Unquote(parts.0), Unquote(parts.1))]
  }

  function Fields(fs: seq<string>): seq<Param> {
    if |fs| == 0 then [] else Field(fs[0]) + Fields(fs[1..])
  }

  /** `parse_qs(query)` as its list of name-value pairs, in order. */
  function ParseQs(q: string): seq<Param> {
    Fields(SplitChar(q, '&'))
  }

  /** `params[name][0]`: the first value given for the name. */
  function FirstValue(ps: seq<Param>, name: string): (r: Option<string>)
    ensures r.Some? <==> exists i :: 0 <= i < |ps| && ps[i].name == name
    ensures r.Some? ==> exists i :: 0 <= i < |ps| && ps[i].name == name && ps[i].value == r.value &&
                                    forall j :: 0 <= j < i ==> ps[j].name != name
  {
    if |ps| == 0 then None
    else if ps[0].name == name then Some(ps[0].value)
    else FirstValue(ps[1..], name)
  }

  // ---------------------------------------------------------------- relevance

  /** Both bounds are dates and the target lies between them, ends included. */
  predicate InRange(from: string, to: string, target: CalendarDate) {
    match (ParseIsoDate(from), ParseIsoDate(to))
    case (Some(a), Some(b)) => NotAfter(a, target) && NotAfter(target, b)
    case _ => false
  }

  /**
   * The decision on a key's parameters: without `day`, `from` and `to` the
   * key is relevant to every date; a `day` that is the target makes it
   * relevant; otherwise both `from` and `to` are needed, and the target must
   * lie between them.
   */
  predicate ParamsRelevant(ps: seq<Param>, target: CalendarDate) {
    var day, from, to := FirstValue(ps, "day"), FirstValue(ps, "from"), FirstValue(ps, "to");
    if day.None? && from.None? && to.None? then true
    else if day.Some? && ParseIsoDate(day.value) == Some(target) then true
    else if from.Some? && to.Some? then InRange(from.value, to.value, target)
    else false
  }

  /** `_is_date_relevant`: the decision on the key's query parameters; a URL `urlsplit` rejects is not relevant. */
  predicate IsDateRelevant(url: string, target: CalendarDate) {
    match UrlQuery(url)
    case None => false
    case Some(q) => ParamsRelevant(ParseQs(q), target)
  }

  /** A key with only one bound of a range, and no `day`, is relevant to no date. */
  lemma OneBoundIsNeverRelevant(url: string, target: CalendarDate)
    requires UrlQuery(url).Some?
    requires var ps := ParseQs(UrlQuery(url).value);
      FirstValue(ps, "day").None? && FirstValue(ps, "from").Some? != FirstValue(ps, "to").Some?
    ensures !IsDateRelevant(url, target)
  {
  }

  /** A `day` that is not the target does not end the check: a range that covers the target still makes the key relevant. */
  lemma DayMismatchFallsThrough(url: string, target: CalendarDate)
    requires UrlQuery(url).Some?
    requires var ps := ParseQs(UrlQuery(url).value);
      && FirstValue(ps, "from").Some? && FirstValue(ps, "to").Some?
      && InRange(FirstValue(ps, "from").value, FirstValue(ps, "to").value, target)
    ensures IsDateRelevant(url, target)
  {
  }

  /** Holds none of the characters that end a part of a URL, that bracket a host, or that `urlsplit` deletes. */
  predicate UrlDelimiterFree(s: string) {
    '?' !in s && '#' !in s && '[' !in s && ']' !in s && '\t' !in s && '\r' !in s && '\n' !in s
  }

  lemma {:induction false} LStripAppend(a: string, b: string)
    requires |b| > 0 && !IsControlOrSpace(b[0])
    ensures LStripControl(a + b) == LStripControl(a) + b
    decreases |a|
  {
    if |a| > 0 {
      assert (a + b)[1..] == a[1..] + b;
      LStripAppend(a[1..], b);
    } else {
      assert a + b == b;
    }
  }

  lemma {:induction false} RemoveUnsafeAppend(a: string, b: string)
    ensures RemoveUnsafe(a + b) == RemoveUnsafe(a) + RemoveUnsafe(b)
    decreases |a|
  {
    if |a| > 0 {
      assert (a + b)[1..] == a[1..] + b;
      RemoveUnsafeAppend(a[1..], b);
    } else {
      assert a + b == b;
    }
  }

  lemma {:induction false} RemoveUnsafeNone(s: string)
    requires '\t' !in s && '\r' !in s && '\n' !in s
    ensures RemoveUnsafe(s) == s
    decreases |s|
  {
    if |s| > 0 {
      assert s[0] in s;
      assert forall x :: x in s[1..] ==> x in s;
      RemoveUnsafeNone(s[1..]);
      assert [s[0]] + s[1..] == s;
    }
  }

  lemma {:induction false} SplitAtCharAppend(x: string, y: string, c: char)
    requires c in x
    ensures SplitAtChar(x + y, c) == Some((SplitAtChar(x, c).value.0, SplitAtChar(x, c).value.1 + y))
    decreases |x|
  {
    assert (x + y)[0] == x[0];
    assert (x + y)[1..] == x[1..] + y;
    if x[0] != c {
      SplitAtCharAppend(x[1..], y, c);
    }
  }

  /** Text that holds no ':' passes through the scheme split of what precedes it. */
  lemma AfterSchemeAppend(x: string, y: string)
    requires ':' !in y
    ensures AfterScheme(x + y) == AfterScheme(x) + y
  {
    if ':' in x {
      SplitAtCharAppend(x, y, ':');
    } else {
      assert ':' !in x + y;
    }
  }

  /** Cleaning the URL leaves `?query` as it is after the cleaned base. */
  lemma CleanKey(base: string, query: string)
    requires '\t' !in query && '\r' !in query && '\n' !in query
    ensures Cleaned(base + "?" + query) == Cleaned(base) + "?" + query
  {
    var tail := "?" + query;
    assert base + "?" + query == base + tail;
    assert tail[0] == '?';
    LStripAppend(base, tail);
    var stripped := LStripControl(base);
    assert LStripControl(base + tail) == stripped + tail;
    RemoveUnsafeAppend(stripped, tail);
    assert forall x :: x in tail ==> x == '?' || x in query;
    RemoveUnsafeNone(tail);
    assert RemoveUnsafe(stripped + tail) == RemoveUnsafe(stripped) + tail;
    AppendRegroup(RemoveUnsafe(stripped), "?", query);
  }

  /** Cleaning and dropping the scheme keep a base free of delimiters. */
  lemma CleanBaseDelimiterFree(base: string)
    requires UrlDelimiterFree(base)
    ensures UrlDelimiterFree(AfterScheme(Cleaned(base)))
  {
    var stripped := LStripControl(base);
    assert forall x :: x in stripped ==> x in base;
    var clean := RemoveUnsafe(stripped);
    var b := AfterScheme(clean);
    assert forall x :: x in b ==> x in clean;
  }

  /** The host part of `b?query` lies inside `b`, so it has no bracket. */
  lemma NetlocInBase(b: string, query: string)
    requires UrlDelimiterFree(b)
    ensures var rest := b + "?" + query;
      !(|rest| >= 2 && rest[..2] == "//" && BadBrackets(NetlocOf(rest[2..])))
  {
    var rest := b + "?" + query;
    assert rest[|b|] == '?';
    if |rest| >= 2 && rest[..2] == "//" {
      assert rest[..2][0] == rest[0] && rest[..2][1] == rest[1];
      assert |b| >= 2;
      var s := rest[2..];
      assert s == b[2..] + "?" + query;
      assert s[|b| - 2] == '?';
      var n := NetlocOf(s);
      assert |n| <= |b| - 2;
      assert n == b[2..2 + |n|];
      forall x | x in n ensures x in b {
        var i :| 0 <= i < |n| && n[i] == x;
        assert b[2 + i] == x;
      }
    }
  }

  /** The query of `b?query` is `query`. */
  lemma QueryOfKey(b: string, query: string)
    requires UrlDelimiterFree(b) && '#' !in query
    ensures QueryAfterScheme(b + "?" + query) == Some(query)
  {
    NetlocInBase(b, query);
    var rest := b + "?" + query;
    assert '#' !in rest;
    SplitAtCharOf(b, query, '?');
    assert rest == b + ['?'] + query;
  }

  /** Dropping the scheme of `u?query` leaves `?query` after what is left of `u`. */
  lemma SchemeBeforeQuery(u: string, query: string)
    requires ':' !in query
    ensures AfterScheme(u + "?" + query) == AfterScheme(u) + "?" + query
  {
    var tail := "?" + query;
    assert u + "?" + query == u + tail;
    AfterSchemeAppend(u, tail);
    assert AfterScheme(u) + tail == AfterScheme(u) + "?" + query;
  }

  /** Cleaning `base?query` and dropping its scheme leave `?query` after the base. */
  lemma KeyRest(base: string, query: string)
    requires ':' !in query && '\t' !in query && '\r' !in query && '\n' !in query
    ensures AfterScheme(Cleaned(base + "?" + query)) == AfterScheme(Cleaned(base)) + "?" + query
  {
    CleanKey(base, query);
    SchemeBeforeQuery(Cleaned(base), query);
  }

  /** The URL `base?query` has the query `query`, when the base holds no delimiter. */
  lemma KeyQuery(base: string, query: string)
    requires UrlDelimiterFree(base)
    requires '#' !in query && ':' !in query && '\t' !in query && '\r' !in query && '\n' !in query
    ensures UrlQuery(base + "?" + query) == Some(query)
  {
    KeyRest(base, query);
    CleanBaseDelimiterFree(base);
    QueryOfKey(AfterScheme(Cleaned(base)), query);
  }

  /** The text of an ISO date is digits and dashes. */
  lemma IsoChars(d: CalendarDate)
    ensures forall ch :: ch in IsoFormat(d) ==> IsDigit(ch) || ch == '-'
  {
    var s := IsoFormat(d);
    forall i | 0 <= i < 10 ensures IsDigit(s[i]) || s[i] == '-' {
      if i < 4 {
        assert s[..4][i] == s[i];
      } else if 5 <= i < 7 {
        assert s[5..7][i - 5] == s[i];
      } else if 8 <= i {
        assert s[8..][i - 8] == s[i];
      }
    }
  }

  /** A field `name=value` whose parts need no decoding is the pair itself. */
  lemma PlainField(name: string, value: string)
    requires '=' !in name && '+' !in name && '%' !in name
    requires value != "" && '+' !in value && '%' !in value
    ensures Field(name + "=" + value) == [Param(name, value)]
  {
    SplitAtCharOf(name, value, '=');
    assert name + "=" + value == name + ['='] + value;
  }

  /** A query of one plain field is that one pair. */
  lemma OneFieldQuery(name: string, value: string)
    requires '&' !in name && '=' !in name && '+' !in name && '%' !in name
    requires value != "" && '&' !in value && '+' !in value && '%' !in value
    ensures ParseQs(name + "=" + value) == [Param(name, value)]
  {
    var f := name + "=" + value;
    assert '&' !in f;
    SplitCharAbsent(f, '&');
    PlainField(name, value);
    assert Fields([f]) == Field(f) + Fields([]);
  }

  /** A query of one field whose value needs no decoding is the decoded name with that value. */
  lemma EncodedNameQuery(name: string, value: string)
    requires '&' !in name && '=' !in name
    requires value != "" && '&' !in value && '+' !in value && '%' !in value
    ensures ParseQs(name + "=" + value) == [Param(Unquote(name), value)]
  {
    var f := name + "=" + value;
    assert '&' !in f;
    SplitCharAbsent(f, '&');
    SplitAtCharOf(name, value, '=');
    assert f == name + ['='] + value;
    assert Fields([f]) == Field(f) + Fields([]);
  }

  /** A query of two plain fields is the two pairs, in order. */
  lemma TwoFieldQuery(name1: string, value1: string, name2: string, value2: string)
    requires '&' !in name1 && '=' !in name1 && '+' !in name1 && '%' !in name1
    requires value1 != "" && '&' !in value1 && '+' !in value1 && '%' !in value1
    requires '&' !in name2 && '=' !in name2 && '+' !in name2 && '%' !in name2
    requires value2 != "" && '&' !in value2 && '+' !in value2 && '%' !in value2
    ensures ParseQs(name1 + "=" + value1 + "&" + name2 + "=" + value2)
              == [Param(name1, value1), Param(name2, value2)]
  {
    var first, second := name1 + "=" + value1, name2 + "=" + value2;
    assert name1 + "=" + value1 + "&" + name2 + "=" + value2 == first + ['&'] + second;
    assert '&' !in first && '&' !in second;
    SplitCharFirst(first, second, '&');
    SplitCharAbsent(second, '&');
    PlainField(name1, value1);
    PlainField(name2, value2);
    assert Fields([first, second]) == Field(first) + Fields([second]);
  }

  /** The ISO text of a date needs no decoding and holds no URL delimiter. */
  lemma IsoIsPlain(d: CalendarDate)
    ensures PlainValue(IsoFormat(d))
  {
    IsoChars(d);
  }

  /** A key whose query is known is judged on that query's parameters. */
  lemma RelevanceByQuery(base: string, query: string, target: CalendarDate)
    requires UrlDelimiterFree(base)
    requires '#' !in query && ':' !in query && '\t' !in query && '\r' !in query && '\n' !in query
    ensures IsDateRelevant(base + "?" + query, target) == ParamsRelevant(ParseQs(query), target)
  {
    KeyQuery(base, query);
  }

  /** Non-empty text free of the characters that end a query, that the query parser splits on or decodes, or that `urlsplit` deletes. */
  predicate PlainValue(v: string) {
    && v != "" && '&' !in v && '=' !in v && '+' !in v && '%' !in v
    && '#' !in v && ':' !in v && '\t' !in v && '\r' !in v && '\n' !in v
  }

  lemma DayParamsOf(iso: string, d: CalendarDate, target: CalendarDate)
    requires PlainValue(iso) && ParseIsoDate(iso) == Some(d)
    ensures ParamsRelevant(ParseQs("day=" + iso), target) <==> target == d
  {
    assert "day=" + iso == "day" + "=" + iso;
    OneFieldQuery("day", iso);
    OneDayParam(iso, d, target);
  }

  /** A lone `day` parameter selects exactly its date. */
  lemma OneDayParam(iso: string, d: CalendarDate, target: CalendarDate)
    requires ParseIsoDate(iso) == Some(d)
    ensures ParamsRelevant([Param("day", iso)], target) <==> target == d
  {
    var ps := [Param("day", iso)];
    assert FirstValue(ps, "day") == Some(iso);
  }

  /** The query of a range key, split at its delimiters. */
  lemma RangeQueryText(isoA: string, isoB: string)
    ensures "from=" + isoA + "&to=" + isoB == "from" + "=" + isoA + "&" + "to" + "=" + isoB
  {
  }

  lemma RangeParamsOf(isoA: string, a: CalendarDate, isoB: string, b: CalendarDate, target: CalendarDate)
    requires PlainValue(isoA) && ParseIsoDate(isoA) == Some(a)
    requires PlainValue(isoB) && ParseIsoDate(isoB) == Some(b)
    ensures ParamsRelevant(ParseQs("from=" + isoA + "&to=" + isoB), target)
              == (NotAfter(a, target) && NotAfter(target, b))
  {
    var ps := ParseQs("from=" + isoA + "&to=" + isoB);
    assert ps == [Param("from", isoA), Param("to", isoB)] by {
      RangeQueryText(isoA, isoB);
      TwoFieldQuery("from", isoA, "to", isoB);
    }
    assert FirstValue(ps, "day") == None;
    assert FirstValue(ps, "from") == Some(isoA);
    assert FirstValue(ps, "to") == Some(isoB);
  }

  /** The parameters of a one-day key select exactly that day. */
  lemma DayParamsRelevance(d: CalendarDate, target: CalendarDate)
    ensures ParamsRelevant(ParseQs("day=" + IsoFormat(d)), target) <==> target == d
  {
    IsoIsPlain(d);
    IsoRoundTrip(d);
    DayParamsOf(IsoFormat(d), d, target);
  }

  /** The parameters of a range key select exactly the dates of the range. */
  lemma RangeParamsRelevance(a: CalendarDate, b: CalendarDate, target: CalendarDate)
    ensures ParamsRelevant(ParseQs("from=" + IsoFormat(a) + "&to=" + IsoFormat(b)), target)
              == (NotAfter(a, target) && NotAfter(target, b))
  {
    IsoIsPlain(a);
    IsoIsPlain(b);
    IsoRoundTrip(a);
    IsoRoundTrip(b);
    RangeParamsOf(IsoFormat(a), a, IsoFormat(b), b, target);
  }

  /**
   * A key for one day, `base?day=YYYY-MM-DD`, is relevant to that day and to
   * no other.
   */
  lemma DayKeyRelevance(base: string, d: CalendarDate, target: CalendarDate)
    requires UrlDelimiterFree(base)
    ensures IsDateRelevant(base + "?day=" + IsoFormat(d), target) <==> target == d
  {
    IsoIsPlain(d);
    IsoRoundTrip(d);
    DayKeyOf(base, IsoFormat(d), d, target);
  }

  lemma DayKeyOf(base: string, iso: string, d: CalendarDate, target: CalendarDate)
    requires UrlDelimiterFree(base)
    requires PlainValue(iso) && ParseIsoDate(iso) == Some(d)
    ensures IsDateRelevant(base + "?day=" + iso, target) <==> target == d
  {
    var query := "day=" + iso;
    assert base + "?day=" + iso == base + "?" + query;
    assert '#' !in query && ':' !in query && '\t' !in query && '\r' !in query && '\n' !in query;
    RelevanceByQuery(base, query, target);
    DayParamsOf(iso, d, target);
  }

  /**
   * `parse_qs` decodes names, so a day key whose name is written with an
   * escape, `base?d%61y=YYYY-MM-DD`, is relevant to that day and no other.
   */
  lemma EncodedDayKeyRelevance(base: string, d: CalendarDate, target: CalendarDate)
    requires UrlDelimiterFree(base)
    ensures var name := "d%61y"; IsDateRelevant(base + "?" + name + "=" + IsoFormat(d), target) <==> target == d
  {
    EncodedDayNameOk();
    DecodedDayKeyRelevance(base, "d%61y", d, target);
  }

  lemma EncodedDayNameOk()
    ensures var name := "d%61y";
      && '&' !in name && '=' !in name && Unquote(name) == "day"
      && '#' !in name && ':' !in name && '\t' !in name && '\r' !in name && '\n' !in name
  {
    UnquoteEncodedDay();
  }

  lemma DecodedDayKeyRelevance(base: string, name: string, d: CalendarDate, target: CalendarDate)
    requires UrlDelimiterFree(base)
    requires '&' !in name && '=' !in name && Unquote(name) == "day"
    requires '#' !in name && ':' !in name && '\t' !in name && '\r' !in name && '\n' !in name
    ensures IsDateRelevant(base + "?" + name + "=" + IsoFormat(d), target) <==> target == d
  {
    IsoIsPlain(d);
    IsoRoundTrip(d);
    DecodedDayKeyOf(base, name, IsoFormat(d), d, target);
  }

  /** A day key whose name decodes to `day` is relevant to its day and no other. */
  lemma DecodedDayKeyOf(base: string, name: string, iso: string, d: CalendarDate, target: CalendarDate)
    requires UrlDelimiterFree(base)
    requires '&' !in name && '=' !in name && Unquote(name) == "day"
    requires '#' !in name && ':' !in name && '\t' !in name && '\r' !in name && '\n' !in name
    requires PlainValue(iso) && ParseIsoDate(iso) == Some(d)
    ensures IsDateRelevant(base + "?" + name + "=" + iso, target) <==> target == d
  {
    var query := name + "=" + iso;
    assert base + "?" + name + "=" + iso == base + "?" + query;
    assert '#' !in query && ':' !in query && '\t' !in query && '\r' !in query && '\n' !in query;
    RelevanceByQuery(base, query, target);
    DecodedDayParams(name, iso, d, target);
  }

  lemma DecodedDayParams(name: string, iso: string, d: CalendarDate, target: CalendarDate)
    requires '&' !in name && '=' !in name && Unquote(name) == "day"
    requires PlainValue(iso) && ParseIsoDate(iso) == Some(d)
    ensures ParamsRelevant(ParseQs(name + "=" + iso), target) <==> target == d
  {
    EncodedNameQuery(name, iso);
    OneDayParam(iso, d, target);
  }

  lemma UnquoteEncodedDay()
    ensures Unquote("d%61y") == "day"
  {
    assert PlusToSpace("d%61y") == "d%61y";
    PercentDecodeExample();
  }

  lemma RangeKeyOf(base: string, isoA: string, a: CalendarDate, isoB: string, b: CalendarDate, target: CalendarDate)
    requires UrlDelimiterFree(base)
    requires PlainValue(isoA) && ParseIsoDate(isoA) == Some(a)
    requires PlainValue(isoB) && ParseIsoDate(isoB) == Some(b)
    ensures IsDateRelevant(base + "?from=" + isoA + "&to=" + isoB, target)
              == (NotAfter(a, target) && NotAfter(target, b))
  {
    var query := "from=" + isoA + "&to=" + isoB;
    assert base + "?from=" + isoA + "&to=" + isoB == base + "?" + query;
    assert '#' !in query && ':' !in query && '\t' !in query && '\r' !in query && '\n' !in query;
    RelevanceByQuery(base, query, target);
    RangeParamsOf(isoA, a, isoB, b, target);
  }

  /**
   * A key for a range, `base?from=A&to=B`, is relevant exactly to the dates
   * from A to B, both included.
   */
  lemma RangeKeyRelevance(base: string, a: CalendarDate, b: CalendarDate, target: CalendarDate)
    requires UrlDelimiterFree(base)
    ensures IsDateRelevant(base + "?from=" + IsoFormat(a) + "&to=" + IsoFormat(b), target)
              == (NotAfter(a, target) && NotAfter(target, b))
  {
    IsoIsPlain(a);
    IsoIsPlain(b);
    IsoRoundTrip(a);
    IsoRoundTrip(b);
    RangeKeyOf(base, IsoFormat(a), a, IsoFormat(b), b, target);
  }

  /** A query naming none of `day`, `from` and `to` leaves its key relevant to every date. */
  lemma UndatedQueryAlwaysRelevant(base: string, query: string, target: CalendarDate)
    requires UrlDelimiterFree(base)
    requires '#' !in query && ':' !in query && '\t' !in query && '\r' !in query && '\n' !in query
    requires var ps := ParseQs(query);
      FirstValue(ps, "day").None? && FirstValue(ps, "from").None? && FirstValue(ps, "to").None?
    ensures IsDateRelevant(base + "?" + query, target)
  {
    RelevanceByQuery(base, query, target);
  }

  /** What follows the scheme of a delimiter-free text has an empty query. */
  lemma DelimiterFreeQuery(rest: string)
    requires UrlDelimiterFree(rest)
    ensures QueryAfterScheme(rest) == Some("")
  {
    if |rest| >= 2 && rest[..2] == "//" {
      assert forall x :: x in NetlocOf(rest[2..]) ==> x in rest;
    }
    assert BeforeChar(rest, '#') == rest;
  }

  /** A key with no query at all, such as the bare endpoint, is relevant to every date. */
  lemma BareKeyAlwaysRelevant(base: string, target: CalendarDate)
    requires UrlDelimiterFree(base)
    ensures IsDateRelevant(base, target)
  {
    CleanBaseDelimiterFree(base);
    DelimiterFreeQuery(AfterScheme(Cleaned(base)));
    SplitCharAbsent("", '&');
    assert ParseQs("") == [];
  }

  // ---------------------------------------------------------------- the cache object

  /** A key the invalidation for `target` removes: the scan finds it and its query selects the date. */
  predicate Evicted(search: string, target: CalendarDate, key: string) {
    GlobMatch(search, key) && IsDateRelevant(key, target)
  }

  function EvictedKeys(keys: set<string>, search: string, target: CalendarDate): set<string> {
    set k | k in keys && Evicted(search, target, k)
  }

  function MatchingKeys(keys: set<string>, search: string): set<string> {
    set k | k in keys && GlobMatch(search, k)
  }

  /**
   * The `scan_iter` loop of `invalidate_for_date`: visits every key the
   * search pattern could name and keeps, and counts, the relevant ones.
   */
  method ScanEvicted(keys: set<string>, search: string, target: CalendarDate) returns (marked: set<string>, count: nat)
    ensures marked == EvictedKeys(keys, search, target) && count == |marked|
  {
    marked, count := {}, 0;
    var pending := keys;
    while pending != {}
      invariant pending <= keys
      invariant forall k :: k in marked <==> k in keys && k !in pending && Evicted(search, target, k)
      invariant count == |marked|
      decreases pending
    {
      var key :| key in pending;
      if Evicted(search, target, key) {
        assert key !in marked;
        marked := marked + {key};
        count := count + 1;
      }
      pending := pending - {key};
    }
  }

  /**
   * The process's view of Redis: whether the client library is installed,
   * whether REDIS_PORT (when set) is a number, and whether the server answers.
   */
  datatype RedisEnv = RedisEnv(installed: bool, portOk: bool, serverUp: bool)

  class RedisCache {
    const sqliteDb: RatesDatabase
    /** Whether `_client` is set. */
    var client: bool
    /** The key space of the Redis database. */
    var keys: set<string>

    constructor (sqliteDb: RatesDatabase, keys: set<string>)
      ensures this.sqliteDb == sqliteDb && !client && this.keys == keys
    {
      this.sqliteDb := sqliteDb;
      client := false;
      this.keys := keys;
    }

    function ConfiguredPattern(variable: Option<string>): string
      reads sqliteDb`credentials
    {
      CachePattern(variable, sqliteDb.Credential("cache_pattern"))
    }

    method GetCachePattern(variable: Option<string>) returns (p: string)
      ensures p == ConfiguredPattern(variable)
    {
      if TruthyText(variable) {
        return variable.value;
      }
      var stored := sqliteDb.GetCredential("cache_pattern");
      p := CachePattern(variable, stored);
    }

    /**
     * `connect`: without the library, or with a REDIS_PORT that is not a
     * number, nothing is set; otherwise the client is set and the ping decides.
     */
    method Connect(env: RedisEnv) returns (ok: bool)
      modifies this
      ensures ok <==> env.installed && env.portOk && env.serverUp
      ensures client == (old(client) || (env.installed && env.portOk))
      ensures keys == old(keys)
    {
      if !env.installed || !env.portOk {
        return false;
      }
      client := true;
      ok := env.serverUp;
    }

    /**
     * `invalidate_for_date`: scans the keys matching the search pattern,
     * collects those relevant to the target date, unlinks them and returns
     * how many there were; 0, with every key kept, when Redis is out of reach.
     */
    method InvalidateForDate(target: CalendarDate, variable: Option<string>, env: RedisEnv) returns (count: nat)
      modifies this
      ensures var evicted := EvictedKeys(old(keys), SearchPattern(ConfiguredPattern(variable)), target);
        if env.installed && env.portOk && env.serverUp
        then count == |evicted| && keys == old(keys) - evicted
        else count == 0 && keys == old(keys)
      ensures client == (old(client) || (env.installed && env.portOk))
    {
      // the configured pattern is never empty, so the source's "no pattern" exit is not reachable
      var pattern := GetCachePattern(variable);
      if !client {
        var connected := Connect(env);
        if !connected {
          return 0;
        }
      } else if !env.installed || !env.portOk || !env.serverUp {
        // the client was made earlier; the scan itself fails and is reported as 0
        return 0;
      }
      var marked, n := ScanEvicted(keys, SearchPattern(pattern), target);
      if marked != {} {
        keys := keys - marked;
      }
      count := n;
    }

    /** `clear_all_matching`: unlinks every key the search pattern matches and returns how many. */
    method ClearAllMatching(variable: Option<string>, env: RedisEnv) returns (count: nat)
      modifies this
      ensures var matching := MatchingKeys(old(keys), SearchPattern(ConfiguredPattern(variable)));
        if env.installed && env.portOk && env.serverUp
        then count == |matching| && keys == old(keys) - matching
        else count == 0 && keys == old(keys)
      ensures client == (old(client) || (env.installed && env.portOk))
    {
      // the configured pattern is never empty, so the source's "no pattern" exit is not reachable
      var pattern := GetCachePattern(variable);
      if !client {
        var connected := Connect(env);
        if !connected {
          return 0;
        }
      } else if !env.installed || !env.portOk || !env.serverUp {
        return 0;
      }
      var found := MatchingKeys(keys, SearchPattern(pattern));
      if found != {} {
        keys := keys - found;
      }
      count := |found|;
    }
  }
}
