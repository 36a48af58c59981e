/**
 * Calendar dates as `java.time.LocalDate` holds them, the two formatters the
 * invoice code parses with, `LocalDate.toString` and `LocalDate.compareTo`.
 */
module Dates {
  import opened Common

  datatype Date = Date(year: int, month: int, day: int)

  const MinYear: int := -999_999_999
  const MaxYear: int := 999_999_999

  /** `Year.isLeap` (Euclidean and truncating remainders agree on a test against zero). */
  predicate IsLeap(y: int) {
    y % 4 == 0 && (y % 100 != 0 || y % 400 == 0)
  }

  function MonthLength(y: int, m: int): (n: int)
    requires 1 <= m <= 12
    ensures 28 <= n <= 31
  {
    if m == 2 then (if IsLeap(y) then 29 else 28)
    else if m == 4 || m == 6 || m == 9 || m == 11 then 30
    else 31
  }

  /** The values a `LocalDate` can hold. */
  predicate Valid(d: Date) {
    MinYear <= d.year <= MaxYear && 1 <= d.month <= 12 && 1 <= d.day <= MonthLength(d.year, d.month)
  }


  function Min(a: int, b: int): int {
    if a < b then a else b
  }

  // ---------------------------------------------------------------- parsing

  /** Two-digit day, '/', two-digit month, '/', four-digit year. */
  predicate DayMonthYearShape(s: string) {
    |s| == 10 && IsDigit(s[0]) && IsDigit(s[1]) && s[2] == '/' && IsDigit(s[3]) && IsDigit(s[4]) && s[5] == '/' &&
    IsDigit(s[6]) && IsDigit(s[7]) && IsDigit(s[8]) && IsDigit(s[9])
  }

  /** Four-digit year, '-', two-digit month, '-', two-digit day. */
  predicate IsoShape(s: string) {
    |s| == 10 && IsDigit(s[0]) && IsDigit(s[1]) && IsDigit(s[2]) && IsDigit(s[3]) && s[4] == '-' &&
    IsDigit(s[5]) && IsDigit(s[6]) && s[7] == '-' && IsDigit(s[8]) && IsDigit(s[9])
  }

  /**
   * `LocalDate.parse(s, DateTimeFormatter.ofPattern("dd/MM/yyyy"))`. The pattern's
   * resolver is SMART: the day must lie in 1..31 and the month in 1..12, a day
   * past the end of the month becomes the month's last day, and the year of era
   * must be at least 1.
   */
  function ParseDayMonthYear(s: string): (r: Option<Date>)
    ensures r.Some? ==> DayMonthYearShape(s) && Valid(r.value) && r.value.year >= 1
    ensures r.Some? ==> r.value.year == 100 * Num2(s, 6) + Num2(s, 8) && r.value.month == Num2(s, 3)
    ensures r.Some? ==> r.value.day == Min(Num2(s, 0), MonthLength(r.value.year, r.value.month))
    ensures (DayMonthYearShape(s) && 1 <= Num2(s, 3) <= 12 && 1 <= Num2(s, 0) <= 31 &&
             100 * Num2(s, 6) + Num2(s, 8) >= 1) ==> r.Some?
  {
    if !DayMonthYearShape(s) then None
    else
      var day, month, year := Num2(s, 0), Num2(s, 3), 100 * Num2(s, 6) + Num2(s, 8);
      if 1 <= month <= 12 && 1 <= day <= 31 && year >= 1 then
        Some(Date(year, month, Min(day, MonthLength(year, month))))
      else None
  }

  /**
   * `LocalDate.parse(s, DateTimeFormatter.ISO_LOCAL_DATE)`. Its resolver is
   * STRICT: a day past the end of the month is an error.
   */
  function ParseIsoLocalDate(s: string): (r: Option<Date>)
    ensures r.Some? ==> IsoShape(s) && Valid(r.value)
    ensures r.Some? ==> r.value == Date(100 * Num2(s, 0) + Num2(s, 2), Num2(s, 5), Num2(s, 8))
    ensures (IsoShape(s) && 1 <= Num2(s, 5) <= 12 &&
             1 <= Num2(s, 8) <= MonthLength(100 * Num2(s, 0) + Num2(s, 2), Num2(s, 5))) ==> r.Some?
  {
    if !IsoShape(s) then None
    else
      var year, month, day := 100 * Num2(s, 0) + Num2(s, 2), Num2(s, 5), Num2(s, 8);
      if 1 <= month <= 12 && 1 <= day <= MonthLength(year, month) then
        Some(Date(year, month, day))
      else None
  }

  /** The two formatters the CSV parser tries, in its order. */
  datatype Formatter = DayMonthYear | IsoLocalDate

  function ParseWith(f: Formatter, s: string): (r: Option<Date>)
    ensures r.Some? ==> Valid(r.value)
  {
    match f
    case DayMonthYear => ParseDayMonthYear(s)
    case IsoLocalDate => ParseIsoLocalDate(s)
  }

  /** A day/month/year text whose day is past the month's end is read as the month's last day. */
  lemma DayMonthYearClampsDay()
    ensures ParseDayMonthYear("31/04/2024") == Some(Date(2024, 4, 30))
    ensures ParseDayMonthYear("29/02/2023") == Some(Date(2023, 2, 28))
  {
  }

  /** A leap year keeps 29 February. */
  lemma DayMonthYearKeepsLeapDay()
    ensures ParseDayMonthYear("29/02/2024") == Some(Date(2024, 2, 29))
  {
  }

  /** The ISO formatter refuses a day past the month's end; both refuse month 13. */
  lemma IsoRejectsOutOfRange()
    ensures ParseIsoLocalDate("2023-02-29") == None
    ensures ParseIsoLocalDate("2024-13-01") == None
    ensures ParseDayMonthYear("01/13/2024") == None
  {
  }

  // ---------------------------------------------------------------- rendering

  /** Two digits for a month or a day, as `LocalDate.toString` writes them. */
  function TwoDigits(n: nat): string {
    if n < 10 then "0" + NatToDigits(n) else NatToDigits(n)
  }

  /** The year as `LocalDate.toString` writes it: at least four digits, a '-' before a
      negative year and a '+' before a year past 9999. */
  function YearText(y: int): string {
    var a := if y < 0 then -y else y;
    if a < 1000 then (if y < 0 then "-" else "") + PadZeros(NatToDigits(a), 4)
    else (if y > 9999 then "+" else if y < 0 then "-" else "") + NatToDigits(a)
  }

  /** `LocalDate.toString`: the ISO-8601 form yyyy-MM-dd. */
  function RenderIso(d: Date): (r: string)
    requires Valid(d)
    ensures |r| >= 7 && r[|r| - 6] == '-' && r[|r| - 3] == '-'
    ensures AllDigits(r[|r| - 5..|r| - 3]) && DigitsValue(r[|r| - 5..|r| - 3]) == d.month
    ensures AllDigits(r[|r| - 2..]) && DigitsValue(r[|r| - 2..]) == d.day
  {
    var y, m, dd := YearText(d.year), TwoDigits(d.month), TwoDigits(d.day);
    YearTextStart(d.year);
    TwoDigitsShape(d.month);
    TwoDigitsShape(d.day);
    var r := y + "-" + m + "-" + dd;
    assert r[|r| - 5..|r| - 3] == m;
    assert r[|r| - 2..] == dd;
    r
  }

  lemma TwoDigitsShape(n: nat)
    requires n < 100
    ensures |TwoDigits(n)| == 2 && AllDigits(TwoDigits(n)) && DigitsValue(TwoDigits(n)) == n
  {
    if n < 10 {
      var s := TwoDigits(n);
      assert s[..1] == "0";
      DigitsValueConcat("0", NatToDigits(n));
    } else {
      NatToDigitsWidth(n, 2);
    }
  }

  /** A four-digit year's text is its four digits. */
  lemma YearTextShape(y: int)
    requires 0 <= y <= 9999
    ensures |YearText(y)| == 4 && AllDigits(YearText(y)) && DigitsValue(YearText(y)) == y
  {
    NatToDigitsWidth(y, 4);
    if y < 1000 {
      PadZerosValue(NatToDigits(y), 4);
      assert YearText(y) == PadZeros(NatToDigits(y), 4);
    } else {
      NatToDigitsMinWidth(y, 3);
      assert YearText(y) == NatToDigits(y);
    }
  }

  /** A date of a four-digit year, written by `toString`, reads back through the ISO formatter
      and is refused by the day/month/year one. */
  lemma RenderIsoRoundTrip(d: Date)
    requires Valid(d) && 0 <= d.year <= 9999
    ensures IsoShape(RenderIso(d))
    ensures ParseIsoLocalDate(RenderIso(d)) == Some(d)
    ensures ParseDayMonthYear(RenderIso(d)) == None
    ensures ',' !in RenderIso(d)
  {
    var y, m, dd := YearText(d.year), TwoDigits(d.month), TwoDigits(d.day);
    YearTextShape(d.year);
    TwoDigitsShape(d.month);
    TwoDigitsShape(d.day);
    DigitsValueFour(y);
    DigitsValueTwo(m);
    DigitsValueTwo(dd);
    var s := RenderIso(d);
    assert s == y + "-" + m + "-" + dd;
    IsoTextFromParts(y, m, dd);
  }

  lemma IsoTextFromParts(y: string, m: string, dd: string)
    requires |y| == 4 && |m| == 2 && |dd| == 2 && AllDigits(y) && AllDigits(m) && AllDigits(dd)
    ensures IsoShape(y + "-" + m + "-" + dd)
    ensures Num2(y + "-" + m + "-" + dd, 0) == Num2(y, 0) && Num2(y + "-" + m + "-" + dd, 2) == Num2(y, 2)
    ensures Num2(y + "-" + m + "-" + dd, 5) == Num2(m, 0) && Num2(y + "-" + m + "-" + dd, 8) == Num2(dd, 0)
    ensures ',' !in y + "-" + m + "-" + dd
  {
    var s := y + "-" + m + "-" + dd;
    assert s[0] == y[0] && s[1] == y[1] && s[2] == y[2] && s[3] == y[3];
    assert s[5] == m[0] && s[6] == m[1] && s[8] == dd[0] && s[9] == dd[1];
    forall k | 0 <= k < |s| ensures s[k] != ',' {
      if k < 4 { assert s[k] == y[k]; }
      else if 5 <= k < 7 { assert s[k] == m[k - 5]; }
      else if 8 <= k { assert s[k] == dd[k - 8]; }
    }
  }

  lemma DigitsHaveNoComma(s: string)
    requires AllDigits(s)
    ensures ',' !in s
  {
    assert forall i | 0 <= i < |s| :: s[i] != ',' by {
      forall i | 0 <= i < |s| ensures s[i] != ',' {
        assert IsDigit(s[i]);
      }
    }
  }

  /** Any date's `toString` is a non-empty text without a comma. */
  lemma RenderIsoHasNoComma(d: Date)
    requires Valid(d)
    ensures RenderIso(d) != [] && ',' !in RenderIso(d)
  {
    YearTextHasNoComma(d.year);
    DigitsHaveNoComma(TwoDigits(d.month));
    DigitsHaveNoComma(TwoDigits(d.day));
    NoCommaJoined(YearText(d.year), TwoDigits(d.month), TwoDigits(d.day));
  }

  /** A year's text is digits with at most a sign in front. */
  lemma YearTextHasNoComma(y: int)
    ensures ',' !in YearText(y)
  {
    var a := if y < 0 then -y else y;
    DigitsHaveNoComma(NatToDigits(a));
    DigitsHaveNoComma(PadZeros(NatToDigits(a), 4));
  }

  /** Joining comma-free parts with '-' adds no comma. */
  lemma NoCommaJoined(y: string, m: string, d: string)
    requires ',' !in y && ',' !in m && ',' !in d
    ensures ',' !in y + "-" + m + "-" + d
  {
  }

  /** A year's text starts with a digit or a sign. */
  lemma YearTextStart(y: int)
    ensures YearText(y) != [] && (IsDigit(YearText(y)[0]) || YearText(y)[0] == '-' || YearText(y)[0] == '+')
  {
    var a := if y < 0 then -y else y;
    if y >= 0 && a < 1000 {
      assert YearText(y) == PadZeros(NatToDigits(a), 4);
    } else if y >= 0 && y <= 9999 {
      assert YearText(y) == NatToDigits(a);
    }
  }

  /** Any date's `toString` starts with a digit or a sign. */
  lemma RenderIsoStart(d: Date)
    requires Valid(d)
    ensures RenderIso(d) != [] && (IsDigit(RenderIso(d)[0]) || RenderIso(d)[0] == '-' || RenderIso(d)[0] == '+')
  {
    YearTextStart(d.year);
    assert RenderIso(d)[0] == YearText(d.year)[0];
  }

  // ---------------------------------------------------------------- ordering

  /** Calendar order: by year, then month, then day. */
  predicate Before(a: Date, b: Date) {
    a.year < b.year || (a.year == b.year && (a.month < b.month || (a.month == b.month && a.day < b.day)))
  }

  /** `LocalDate.compareTo`: the first non-zero difference of year, month and day. */
  function CompareDates(a: Date, b: Date): (c: int)
    ensures c == 0 <==> a == b
    ensures c < 0 <==> Before(a, b)
    ensures c > 0 <==> Before(b, a)
  {
    if a.year != b.year then a.year - b.year
    else if a.month != b.month then a.month - b.month
    else a.day - b.day
  }
}
