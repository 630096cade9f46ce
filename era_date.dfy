/**
 * The era-date codec of the petty-cash ledger. Dates are written in the
 * Minguo (Republic of China) era, `era.month.day`, where the calendar year is
 * era + 1911. Parsing is `convert_to_datetime` (app.py:121-131); formatting is
 * the display column of the query page (app.py:177). The import page accepts
 * only dates of the narrower shape checked in `IsImportDate` (app.py:96).
 */
module EraDate {
  import opened Wrappers
  import opened Text

  /** The distance between the era year and the Gregorian year. */
  const EraOffset: nat := 1911

  /** A Python `datetime` reduced to its calendar date. */
  datatype Date = Date(year: int, month: int, day: int)

  // ---------------------------------------------------- Gregorian calendar

  predicate IsLeapYear(y: int) {
    y % 4 == 0 && (y % 100 != 0 || y % 400 == 0)
  }

  function DaysInMonth(y: int, m: int): (n: int)
    requires 1 <= m <= 12
    ensures 28 <= n <= 31
    ensures n == 29 <==> m == 2 && IsLeapYear(y)
  {
    if m == 2 then (if IsLeapYear(y) then 29 else 28)
    else if m == 4 || m == 6 || m == 9 || m == 11 then 30
    else 31
  }

  /** What Python's `datetime(year, month, day)` accepts without raising. */
  predicate IsValidDate(d: Date) {
    1 <= d.year <= 9999 && 1 <= d.month <= 12 && 1 <= d.day <= DaysInMonth(d.year, d.month)
  }

  /** A date Python can hold in a `datetime`. */
  type CalendarDate = d: Date | IsValidDate(d) witness Date(1970, 1, 1)

  /** Chronological order, as pandas compares two timestamps at midnight. */
  predicate DateLeq(a: Date, b: Date) {
    || a.year < b.year
    || (a.year == b.year && a.month < b.month)
    || (a.year == b.year && a.month == b.month && a.day <= b.day)
  }

  // ------------------------------------------------------------ lexing

  /**
   * `s` is `y.m.d` as the parse pattern `^(\d{2,3})\.(\d{1,2})\.(\d{1,2})$`
   * matches it, with `y`, `m`, `d` the three groups.
   */
  ghost predicate ParseShape(s: string, y: string, m: string, d: string) {
    s == y + "." + m + "." + d && FieldsShape(y, m, d)
  }

  /** The three groups of the parse pattern: 2-3, 1-2 and 1-2 digits. */
  predicate FieldsShape(y: string, m: string, d: string) {
    && AllDigits(y) && 2 <= |y| <= 3
    && AllDigits(m) && 1 <= |m| <= 2
    && AllDigits(d) && 1 <= |d| <= 2
  }

  /**
   * Splits `s` after its leading run of digits when a dot follows the run:
   * the run and the text after the dot.
   */
  function TakeField(s: string): (r: Option<(string, string)>)
    ensures r.Some? ==> AllDigits(r.value.0)
  {
    var a := DigitRun(s);
    if a < |s| && s[a] == '.' then Some((s[..a], s[a + 1..])) else None
  }

  lemma TakeFieldSound(s: string)
    requires TakeField(s).Some?
    ensures s == TakeField(s).value.0 + "." + TakeField(s).value.1
  {
    var a := DigitRun(s);
    assert s == s[..a] + [s[a]] + s[a + 1..];
  }

  /** A digit run followed by a dot splits exactly at that dot. */
  lemma TakeFieldComplete(x: string, rest: string)
    requires AllDigits(x)
    ensures TakeField(x + "." + rest) == Some((x, rest))
  {
    var s := x + "." + rest;
    assert s == x + (['.'] + rest);
    DigitRunOfDigits(x, ['.'] + rest);
    assert s[..|x|] == x && s[|x| + 1..] == rest;
  }

  /**
   * The parse pattern, matched character by character: a run of 2-3 digits,
   * a dot, 1-2 digits, a dot, 1-2 digits and the end of the string. A digit
   * run always ends at a non-digit, so no backtracking is ever needed.
   */
  function Lex(s: string): (r: Option<(string, string, string)>)
    ensures r.Some? ==> FieldsShape(r.value.0, r.value.1, r.value.2)
  {
    match TakeField(s)
    case None => None
    case Some((y, rest)) =>
      if !(2 <= |y| <= 3) then None
      else
        match TakeField(rest)
        case None => None
        case Some((m, d)) =>
          if !(1 <= |m| <= 2) || !(1 <= |d| <= 2) || DigitRun(d) != |d| then None
          else
            assert d[..|d|] == d;
            Some((y, m, d))
  }

  /** Every string `Lex` accepts has the parse pattern's shape, with the groups it returns. */
  lemma LexSound(s: string)
    requires Lex(s).Some?
    ensures ParseShape(s, Lex(s).value.0, Lex(s).value.1, Lex(s).value.2)
  {
    TakeFieldSound(s);
    TakeFieldSound(TakeField(s).value.1);
  }

  /** Every string of the parse pattern's shape is recognised, with its groups. */
  lemma LexComplete(s: string, y: string, m: string, d: string)
    requires ParseShape(s, y, m, d)
    ensures Lex(s) == Some((y, m, d))
  {
    var rest := m + "." + d;
    assert s == y + "." + rest;
    TakeFieldComplete(y, rest);
    TakeFieldComplete(m, d);
    assert d + [] == d;
    DigitRunOfDigits(d, []);
  }

  /**
   * The import pattern `^\d{2,3}\.\d{2}\.\d{2}$`: the parse pattern with a
   * two-digit month and a two-digit day.
   */
  predicate IsImportDate(s: string): (b: bool)
    ensures b ==> 8 <= |s| <= 9 && s[|s| - 6] == '.' && s[|s| - 3] == '.'
    ensures b ==> AllDigits(s[..|s| - 6]) && AllDigits(s[|s| - 5..|s| - 3]) && AllDigits(s[|s| - 2..])
  {
    match Lex(s)
    case Some((y, m, d)) =>
      LexSound(s);
      ImportFields(s, y, m, d);
      |m| == 2 && |d| == 2
    case None => false
  }

  lemma ImportFields(s: string, y: string, m: string, d: string)
    requires ParseShape(s, y, m, d)
    ensures |m| == 2 && |d| == 2 ==>
      && |s| == |y| + 6 && s[|s| - 6] == '.' && s[|s| - 3] == '.'
      && s[..|s| - 6] == y && s[|s| - 5..|s| - 3] == m && s[|s| - 2..] == d
  {
  }

  lemma ImportDateShape(s: string)
    ensures IsImportDate(s) <==>
      exists y, m, d :: ParseShape(s, y, m, d) && |m| == 2 && |d| == 2
  {
    if IsImportDate(s) {
      LexSound(s);
    }
    if exists y, m, d :: ParseShape(s, y, m, d) && |m| == 2 && |d| == 2 {
      var y, m, d :| ParseShape(s, y, m, d) && |m| == 2 && |d| == 2;
      LexComplete(s, y, m, d);
    }
  }

  // ----------------------------------------------------- parse and format

  /**
   * `convert_to_datetime`: the date an era-date cell denotes, or `None` (NaT)
   * when the cell is missing, does not have the parse pattern's shape, or
   * names no calendar day. The fallback for an era year of 1911 or more is
   * kept as written, although three digits never reach it.
   */
  function ParseEraDate(cell: Option<string>): (r: Option<CalendarDate>)
    ensures r.Some? ==> EraOffset <= r.value.year <= EraOffset + 999
  {
    match cell
    case None => None
    case Some(s) =>
      match Lex(s)
      case None => None
      case Some(groups) => DateOfGroups(groups.0, groups.1, groups.2)
  }

  /** `int(...)` of the three groups, the era-year adjustment and `datetime(...)`. */
  function DateOfGroups(y: string, m: string, d: string): (r: Option<CalendarDate>)
    requires FieldsShape(y, m, d)
    ensures r.Some? ==> EraOffset <= r.value.year <= EraOffset + 999
  {
    var era := Value(y);
    assert era <= 999 by { DigitsBound(y); }
    var year := if era < EraOffset then era + EraOffset else era;
    var date := Date(year, Value(m), Value(d));
    if IsValidDate(date) then Some(date) else None
  }

  lemma DigitsBound(y: string)
    requires AllDigits(y) && |y| <= 3
    ensures Value(y) <= 999
  {
    if y != [] {
      DigitsBound(y[..|y| - 1]);
      if |y| == 3 {
        DigitsBoundTwo(y[..|y| - 1]);
      }
    }
  }

  lemma DigitsBoundTwo(y: string)
    requires AllDigits(y) && |y| <= 2
    ensures Value(y) <= 99
  {
    if y != [] {
      assert Value(y[..|y| - 1]) <= 9 by {
        if |y| == 2 { assert y[..1][..0] == []; }
      }
    }
  }

  /** The display column: `f"{year - 1911}.{month:02}.{day:02}"`. */
  function FormatEraDate(d: CalendarDate): (r: string)
    ensures |r| >= 7 && r[|r| - 6] == '.' && r[|r| - 3] == '.'
    ensures AllDigits(r[|r| - 5..|r| - 3]) && Value(r[|r| - 5..|r| - 3]) == d.month
    ensures AllDigits(r[|r| - 2..]) && Value(r[|r| - 2..]) == d.day
    ensures d.year >= EraOffset ==> AllDigits(r[..|r| - 6]) && Value(r[..|r| - 6]) == d.year - EraOffset
    ensures d.year >= EraOffset ==> r[..|r| - 6] == NatToString(d.year - EraOffset)
  {
    var y, mm, dd := IntToString(d.year - EraOffset), Pad2(d.month), Pad2(d.day);
    var r := y + "." + mm + "." + dd;
    assert r[..|r| - 6] == y && r[|r| - 5..|r| - 3] == mm && r[|r| - 2..] == dd;
    r
  }

  /** A date of era years 10..999 is displayed in the shape the import accepts. */
  lemma FormatIsImportDate(d: CalendarDate)
    requires EraOffset + 10 <= d.year <= EraOffset + 999
    ensures IsImportDate(FormatEraDate(d))
  {
    var era, mm, dd := NatToString(d.year - EraOffset), Pad2(d.month), Pad2(d.day);
    assert FormatEraDate(d) == era + "." + mm + "." + dd;
    NatToStringWidth(d.year - EraOffset);
    LexComplete(FormatEraDate(d), era, mm, dd);
  }

  // ---------------------------------------------------------------- lemmas

  /**
   * Parsing succeeds exactly on the parse pattern with a real calendar day,
   * and then gives year era + 1911 (the era year has at most three digits,
   * so it is always below 1911).
   */
  lemma ParseAccepts(s: string, y: string, m: string, d: string)
    requires ParseShape(s, y, m, d)
    ensures var date := Date(Value(y) + EraOffset, Value(m), Value(d));
      ParseEraDate(Some(s)) == if IsValidDate(date) then Some(date) else None
  {
    LexComplete(s, y, m, d);
    DigitsBound(y);
    ParseOfLexed(s, y, m, d);
  }

  lemma ParseOfLexed(s: string, y: string, m: string, d: string)
    requires FieldsShape(y, m, d) && Value(y) < EraOffset
    requires Lex(s) == Some((y, m, d))
    ensures var date := Date(Value(y) + EraOffset, Value(m), Value(d));
      ParseEraDate(Some(s)) == if IsValidDate(date) then Some(date) else None
  {
    assert ParseEraDate(Some(s)) == DateOfGroups(y, m, d);
  }

  /**
   * Whatever parses has the parse pattern's shape, and its calendar year is
   * the era year plus 1911.
   */
  lemma ParseSound(s: string, date: Date)
    requires ParseEraDate(Some(s)) == Some(date)
    ensures exists y, m, d :: ParseShape(s, y, m, d) && date == Date(Value(y) + EraOffset, Value(m), Value(d))
  {
    var t := Lex(s).value;
    DigitsBound(t.0);
    LexSound(s);
    assert ParseShape(s, t.0, t.1, t.2) && date == Date(Value(t.0) + EraOffset, Value(t.1), Value(t.2));
  }

  /** A missing cell parses to NaT instead of raising. */
  lemma ParseMissing()
    ensures ParseEraDate(None) == None
  {
  }

  /** A four-digit Gregorian year is not read as a year: the fallback is dead code. */
  lemma ParseGregorianYear()
    ensures ParseEraDate(Some("2024.05.20")) == None
  {
    var s := "2024.05.20";
    assert DigitRun(s) == 4 by { DigitRunOfDigits("2024", ".05.20"); assert s == "2024" + ".05.20"; }
  }

  /** Month 13 and day 40 name no calendar day. */
  lemma ParseInvalidDay()
    ensures ParseEraDate(Some("113.13.40")) == None
  {
    ParseAccepts("113.13.40", "113", "13", "40");
    assert Value("13") == 13;
  }

  lemma ParseNotADate()
    ensures ParseEraDate(Some("abc")) == None
  {
    assert DigitRun("abc") == 0;
  }

  /** Formatting a date of era years 10..999 and parsing it back gives the date. */
  lemma ParseFormat(d: CalendarDate)
    requires EraOffset + 10 <= d.year <= EraOffset + 999
    ensures ParseEraDate(Some(FormatEraDate(d))) == Some(d)
  {
    var era, mm, dd := NatToString(d.year - EraOffset), Pad2(d.month), Pad2(d.day);
    NatToStringWidth(d.year - EraOffset);
    assert FormatEraDate(d) == era + "." + mm + "." + dd;
    assert FieldsShape(era, mm, dd);
    ParseAccepts(FormatEraDate(d), era, mm, dd);
    assert Date(Value(era) + EraOffset, Value(mm), Value(dd)) == d;
  }

  /**
   * An import-shaped date that parses, written without a leading zero in the
   * era year, is displayed exactly as it was stored.
   */
  lemma FormatParse(s: string)
    requires IsImportDate(s) && s[0] != '0'
    requires ParseEraDate(Some(s)).Some?
    ensures FormatEraDate(ParseEraDate(Some(s)).value) == s
  {
    var t := Lex(s).value;
    var y, m, d := t.0, t.1, t.2;
    LexSound(s);
    ParseAccepts(s, y, m, d);
    assert y[0] == s[0];
    NatToStringOfValue(y);
    Pad2OfValue(m);
    Pad2OfValue(d);
  }
}
