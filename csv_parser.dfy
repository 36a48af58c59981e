/**
 * The CSV branch of the upload path (`InvoiceServiceImpl.parseCsv`,
 * `parseDateFlexible` and `parseBigDecimalSafe`): the header line is skipped,
 * blank lines and lines of fewer than five comma-separated parts are dropped,
 * and a leading column that reads as a Java `long` is the user id and shifts
 * the other five columns one place to the right.
 */
module CsvParser {
  import opened Common
  import opened Decimal
  import opened Dates
  import opened Invoice

  // ---------------------------------------------------------------- Long.parseLong

  /** The text after an optional leading '-' or '+'. */
  function Unsigned(s: string): string {
    if |s| > 0 && (s[0] == '-' || s[0] == '+') then s[1..] else s
  }

  /**
   * `Long.parseLong(s)`: an optional '-' or '+', then one or more ASCII digits,
   * whose value must lie in the range of a long. None stands for the
   * NumberFormatException.
   */
  function ParseLong(s: string): (r: Option<Long>)
    ensures r.Some? ==> s != [] && Unsigned(s) != []
    ensures r.Some? && s[0] == '-' ==> r.value <= 0
    ensures r.Some? && s[0] != '-' ==> r.value >= 0
  {
    var negative := |s| > 0 && s[0] == '-';
    var digits := Unsigned(s);
    if digits == [] || !AllDigits(digits) then None
    else
      var v := Signed(negative, DigitsValue(digits));
      if MinLong <= v <= MaxLong then Some(v) else None
  }

  /** What a successful parse has read: digits only after the sign, and their value. */
  lemma ParseLongAccepts(s: string)
    requires ParseLong(s).Some?
    ensures AllDigits(Unsigned(s))
    ensures ParseLong(s).value == Signed(s[0] == '-', DigitsValue(Unsigned(s)))
  {
  }

  /** The decimal numeral of a number reads back as that number exactly when it fits in a long. */
  lemma ParseLongOfNumeral(n: nat)
    ensures n <= MaxLong ==> ParseLong(NatToDigits(n)) == Some(n)
    ensures n > MaxLong ==> ParseLong(NatToDigits(n)) == None
  {
    var s := NatToDigits(n);
    assert IsDigit(s[0]);
  }

  /** A minus sign in front of a numeral negates it; the most negative long is accepted. */
  lemma ParseLongOfNegative(n: nat)
    ensures n <= MaxLong + 1 ==> ParseLong("-" + NatToDigits(n)) == Some(-(n as int))
    ensures n > MaxLong + 1 ==> ParseLong("-" + NatToDigits(n)) == None
  {
    var s := "-" + NatToDigits(n);
    assert s[1..] == NatToDigits(n);
  }

  /** Any character other than a digit, apart from a leading sign, is refused. */
  lemma ParseLongRejects(s: string, k: nat)
    requires k < |s| && !IsDigit(s[k])
    requires k > 0 || (s[k] != '-' && s[k] != '+')
    ensures ParseLong(s) == None
  {
    var u := Unsigned(s);
    if u != s {
      assert u[k - 1] == s[k];
    } else {
      assert u[k] == s[k];
    }
  }

  /** Neither date layout the parser accepts can be taken for a user id. */
  lemma DateIsNotUserId(s: string)
    requires IsoShape(s) || DayMonthYearShape(s)
    ensures ParseLong(s) == None
  {
    if IsoShape(s) {
      ParseLongRejects(s, 4);
    } else {
      ParseLongRejects(s, 2);
    }
  }

  // ---------------------------------------------------------------- parseBigDecimalSafe

  /** The text `parseBigDecimalSafe` hands to `new BigDecimal`: trimmed, every comma deleted. */
  function Cleaned(value: string): (c: string)
    ensures ',' !in c && |c| <= |value|
    ensures IsBlank(value) ==> c == []
  {
    WithoutRemoves(Trim(value), ',');
    Without(Trim(value), ',')
  }

  /**
   * `parseBigDecimalSafe`: null in, null out; a text that is empty once trimmed
   * and stripped of commas gives null; otherwise the BigDecimal literal it
   * spells, or null when it is not one (no currency symbol or letter is
   * tolerated).
   */
  function ParseBigDecimalSafe(value: Option<string>): (r: Option<Dec>)
    ensures value.None? ==> r.None?
    ensures value.Some? && Cleaned(value.value) == [] ==> r.None?
    ensures value.Some? ==> r == ParseLiteral(Cleaned(value.value))
  {
    match value
    case None => None
    case Some(v) =>
      var cleaned := Without(Trim(v), ',');
      if cleaned == [] then None
      else ParseLiteral(cleaned)
  }

  /**
   * A literal with a point, padded with blanks: `trim` drops the padding and the
   * literal is read exactly, so " +5.0 " gives 5.0, "007.50" gives 7.50 and ".5"
   * gives 0.5.
   */
  lemma ParseSafeWithPoint(pre: string, sign: string, ip: string, fp: string, post: string)
    requires forall k | 0 <= k < |pre| :: IsTrimmable(pre[k])
    requires forall k | 0 <= k < |post| :: IsTrimmable(post[k])
    requires sign == "" || sign == "+" || sign == "-"
    requires AllDigits(ip) && AllDigits(fp) && |ip| + |fp| > 0
    ensures AllDigits(ip + fp)
    ensures ParseBigDecimalSafe(Some(pre + (sign + ip + "." + fp) + post)) ==
      Some(Dec(Signed(sign == "-", DigitsValue(ip + fp)), |fp|))
  {
    var lit := sign + ip + "." + fp;
    PointLiteralText(sign, ip, fp);
    CleanedOfPadded(pre, lit, post);
    LiteralWithPoint(sign, ip, fp);
  }

  /** A literal without a point, padded with blanks: " +5 " gives 5, "-007" gives -7. */
  lemma ParseSafeWithoutPoint(pre: string, sign: string, ip: string, post: string)
    requires forall k | 0 <= k < |pre| :: IsTrimmable(pre[k])
    requires forall k | 0 <= k < |post| :: IsTrimmable(post[k])
    requires sign == "" || sign == "+" || sign == "-"
    requires AllDigits(ip) && |ip| > 0
    ensures ParseBigDecimalSafe(Some(pre + (sign + ip) + post)) == Some(Dec(Signed(sign == "-", DigitsValue(ip)), 0))
  {
    var lit := sign + ip;
    IntegerLiteralText(sign, ip);
    CleanedOfPadded(pre, lit, post);
    LiteralWithoutPoint(sign, ip);
  }

  lemma CleanedOfPadded(pre: string, lit: string, post: string)
    requires forall k | 0 <= k < |pre| :: IsTrimmable(pre[k])
    requires forall k | 0 <= k < |post| :: IsTrimmable(post[k])
    requires lit != [] && !IsTrimmable(lit[0]) && !IsTrimmable(lit[|lit| - 1]) && ',' !in lit
    ensures Cleaned(pre + lit + post) == lit
  {
    TrimOfPadded(pre, lit, post);
    WithoutRemoves(lit, ',');
  }

  lemma PointLiteralText(sign: string, ip: string, fp: string)
    requires sign == "" || sign == "+" || sign == "-"
    requires AllDigits(ip) && AllDigits(fp)
    ensures var lit := sign + ip + "." + fp;
      && lit != [] && !IsTrimmable(lit[0]) && !IsTrimmable(lit[|lit| - 1]) && ',' !in lit
  {
    var lit := sign + ip + "." + fp;
    assert lit[|sign| + |ip|] == '.';
    assert lit[0] == (if sign != "" then sign[0] else if ip != [] then ip[0] else '.');
    assert lit[|lit| - 1] == (if fp != [] then fp[|fp| - 1] else '.');
    assert ',' !in ip && ',' !in fp;
  }

  lemma IntegerLiteralText(sign: string, ip: string)
    requires sign == "" || sign == "+" || sign == "-"
    requires AllDigits(ip) && ip != []
    ensures var lit := sign + ip;
      && lit != [] && !IsTrimmable(lit[0]) && !IsTrimmable(lit[|lit| - 1]) && ',' !in lit
  {
    var lit := sign + ip;
    assert lit[0] == (if sign != "" then sign[0] else ip[0]);
    assert lit[|lit| - 1] == ip[|ip| - 1];
    assert ',' !in ip;
  }

  /** Every amount the ledger writes (outside the exponent range) reads back as itself. */
  lemma ParseSafeOfRender(d: Dec)
    requires !UsesExponent(d)
    ensures ParseBigDecimalSafe(Some(Render(d))) == Some(d)
  {
    RenderShape(d);
    TrimOfTrimmed(Render(d));
    WithoutRemoves(Render(d), ',');
    ParseRender(d);
  }

  /** A comma inside an amount is ignored: thousands separators are dropped before the literal is read. */
  lemma ParseSafeIgnoresComma(a: string, b: string)
    requires a != [] && b != [] && !IsTrimmable(a[0]) && !IsTrimmable(b[|b| - 1])
    ensures ParseBigDecimalSafe(Some(a + "," + b)) == ParseBigDecimalSafe(Some(a + b))
  {
    CleanedIgnoresComma(a, b);
    ParseSafeByCleaned(a + "," + b, a + b);
  }

  lemma CleanedIgnoresComma(a: string, b: string)
    requires a != [] && b != [] && !IsTrimmable(a[0]) && !IsTrimmable(b[|b| - 1])
    ensures Cleaned(a + "," + b) == Cleaned(a + b)
  {
    var s := a + [','] + b;
    assert a + "," + b == s;
    TrimOfJoined(a, [','], b);
    TrimOfJoined(a, [], b);
    assert a + [] + b == a + b;
    WithoutOfThree(a, [','], b);
    WithoutOfThree(a, [], b);
    assert Without([','], ',') == [];
  }

  lemma TrimOfJoined(a: string, m: string, b: string)
    requires a != [] && b != [] && !IsTrimmable(a[0]) && !IsTrimmable(b[|b| - 1])
    ensures Trim(a + m + b) == a + m + b
  {
    var s := a + m + b;
    assert s[0] == a[0] && s[|s| - 1] == b[|b| - 1];
    TrimOfTrimmed(s);
  }

  lemma WithoutOfThree(a: string, m: string, b: string)
    ensures Without(a + m + b, ',') == Without(a, ',') + Without(m, ',') + Without(b, ',')
  {
    WithoutConcat(a + m, b, ',');
    WithoutConcat(a, m, ',');
  }

  /** The amount read depends on the cleaned text only. */
  lemma ParseSafeByCleaned(x: string, y: string)
    requires Cleaned(x) == Cleaned(y)
    ensures ParseBigDecimalSafe(Some(x)) == ParseBigDecimalSafe(Some(y))
  {
  }

  /** A currency symbol in front of the digits makes the amount unreadable. */
  lemma ParseSafeRefusesCurrency(sym: char, digits: string)
    requires sym == '\U{20B9}' || sym == '$' || sym == '\U{20AC}' || sym == '\U{00A3}'
    requires AllDigits(digits) && digits != []
    ensures ParseBigDecimalSafe(Some([sym] + digits)) == None
  {
    var s := [sym] + digits;
    assert s[|s| - 1] == digits[|digits| - 1];
    TrimOfTrimmed(s);
    WithoutRemoves(s, ',');
    LiteralRejectsStrayChar(s, 0);
  }

  // ---------------------------------------------------------------- parseDateFlexible

  /** The formatters `parseCsv` tries, in order: dd/MM/yyyy, then ISO_LOCAL_DATE. */
  const CsvFormatters: seq<Formatter> := [DayMonthYear, IsoLocalDate]

  /** The result of the first formatter that accepts the text; None when none does. */
  function FirstParse(value: string, formatters: seq<Formatter>): (r: Option<Date>)
    ensures r.Some? ==> Valid(r.value)
  {
    if formatters == [] then None
    else
      match ParseWith(formatters[0], value)
      case Some(d) => Some(d)
      case None => FirstParse(value, formatters[1..])
  }

  /** `parseDateFlexible`: tries each formatter in turn and returns the first success. */
  method ParseDateFlexible(value: string, formatters: seq<Formatter>) returns (r: Option<Date>)
    ensures r == FirstParse(value, formatters)
  {
    var i := 0;
    while i < |formatters|
      invariant 0 <= i <= |formatters|
      invariant FirstParse(value, formatters) == FirstParse(value, formatters[i..])
    {
      var parsed := ParseWith(formatters[i], value);
      if parsed.Some? {
        return parsed;
      }
      assert formatters[i..][1..] == formatters[i + 1..];
      i := i + 1;
    }
    return None;
  }

  /** The result is the one of the first accepting formatter: no earlier formatter accepts. */
  lemma {:induction false} FirstParseIsFirst(value: string, formatters: seq<Formatter>, i: nat)
    requires i < |formatters| && ParseWith(formatters[i], value).Some?
    requires forall j | 0 <= j < i :: ParseWith(formatters[j], value).None?
    ensures FirstParse(value, formatters) == ParseWith(formatters[i], value)
  {
    if i > 0 {
      assert ParseWith(formatters[0], value).None?;
      assert forall j | 0 <= j < i - 1 :: formatters[1..][j] == formatters[j + 1];
      FirstParseIsFirst(value, formatters[1..], i - 1);
    }
  }

  /** No date exactly when no formatter accepts the text. */
  lemma {:induction false} FirstParseNone(value: string, formatters: seq<Formatter>)
    ensures FirstParse(value, formatters).None? <==>
      forall j | 0 <= j < |formatters| :: ParseWith(formatters[j], value).None?
  {
    if formatters != [] {
      FirstParseNone(value, formatters[1..]);
      assert forall j | 0 < j < |formatters| :: formatters[1..][j - 1] == formatters[j];
    }
  }

  /** The two layouts never overlap, so each text is read by the formatter of its own layout. */
  lemma CsvDateLayouts(value: string)
    ensures DayMonthYearShape(value) ==> FirstParse(value, CsvFormatters) == ParseDayMonthYear(value)
    ensures IsoShape(value) ==> FirstParse(value, CsvFormatters) == ParseIsoLocalDate(value)
    ensures !DayMonthYearShape(value) && !IsoShape(value) ==> FirstParse(value, CsvFormatters) == None
  {
    assert CsvFormatters[1..] == [IsoLocalDate];
    assert [IsoLocalDate][1..] == [];
    assert FirstParse(value, CsvFormatters) ==
      if ParseDayMonthYear(value).Some? then ParseDayMonthYear(value) else FirstParse(value, [IsoLocalDate]);
    assert FirstParse(value, [IsoLocalDate]) ==
      if ParseIsoLocalDate(value).Some? then ParseIsoLocalDate(value) else FirstParse(value, []);
    if IsoShape(value) {
      assert !DayMonthYearShape(value) by { assert IsDigit(value[2]); }
    }
  }

  // ---------------------------------------------------------------- rows

  /** The user id column: the trimmed text read as a long. */
  function UserIdColumn(text: string): Option<Long> {
    ParseLong(Trim(text))
  }

  /** The date column: the trimmed text read by the first formatter that accepts it. */
  function DateColumn(text: string, formatters: seq<Formatter>): Option<Date> {
    FirstParse(Trim(text), formatters)
  }

  /** The metal column: the trimmed text, kept as it is. */
  function MetalColumn(text: string): Option<string> {
    Some(Trim(text))
  }

  /** An amount column. */
  function AmountColumn(text: string): Option<Dec> {
    ParseBigDecimalSafe(Some(text))
  }

  /**
   * The column layout of one data row of at least five parts: when the first
   * part reads as a long it is the user id and the five invoice columns start
   * at index 1, otherwise at index 0. A total column is read only when the row
   * is long enough to have one.
   */
  function RowOf(parts: seq<string>, formatters: seq<Formatter>): (d: Draft)
    requires |parts| >= 5
    ensures d.invoiceDate.Some? ==> Valid(d.invoiceDate.value)
    ensures d.metalType.Some? && (d.metalType.value != [] ==> !IsTrimmable(d.metalType.value[0]))
    ensures d.userId.Some? || ParseLong(Trim(parts[0])).None?
  {
    var userId := UserIdColumn(parts[0]);
    var off := if userId.Some? then 1 else 0;
    Draft(
      userId,
      DateColumn(parts[off], formatters),
      MetalColumn(parts[off + 1]),
      AmountColumn(parts[off + 2]),
      AmountColumn(parts[off + 3]),
      if off + 4 < |parts| then AmountColumn(parts[off + 4]) else None)
  }

  /** The body of the row loop: a fresh request filled column by column behind a moving cursor. */
  method ParseRow(parts: seq<string>, formatters: seq<Formatter>) returns (d: Draft)
    requires |parts| >= 5
    ensures d == RowOf(parts, formatters)
  {
    var dto := new InvoiceRequest();
    var idx := 0;
    var userId := UserIdColumn(parts[0]);
    if userId.Some? {
      idx := 1;
    } else {
      idx := 0;
    }
    if userId.Some? {
      dto.userId := userId;
    }
    ghost var off := idx;
    if idx < |parts| {
      var dateStr := Trim(parts[idx]);
      idx := idx + 1;
      dto.invoiceDate := ParseDateFlexible(dateStr, formatters);
    }
    if idx < |parts| {
      dto.metalType := MetalColumn(parts[idx]);
      idx := idx + 1;
    }
    if idx < |parts| {
      dto.amountWithoutGst := AmountColumn(parts[idx]);
      idx := idx + 1;
    }
    if idx < |parts| {
      dto.gstAmount := AmountColumn(parts[idx]);
      idx := idx + 1;
    }
    assert idx == off + 4;
    ghost var row := RowOf(parts, formatters);
    assert dto.Value() == row.(totalAmount := None);
    if idx < |parts| {
      dto.totalAmount := AmountColumn(parts[idx]);
      assert dto.totalAmount == row.totalAmount;
    } else {
      assert row.totalAmount.None?;
    }
    d := dto.Value();
  }

  /** With a user id column a row needs six parts to carry a total: five leave it absent. */
  lemma FiveColumnsWithUserIdHaveNoTotal(parts: seq<string>)
    requires |parts| == 5 && UserIdColumn(parts[0]).Some?
    ensures RowOf(parts, CsvFormatters).totalAmount.None?
    ensures RowOf(parts, CsvFormatters).gstAmount == AmountColumn(parts[4])
  {
  }

  /** A row whose first column is a date has no user id and reads its five columns in place. */
  lemma RowStartingWithDate(parts: seq<string>)
    requires |parts| >= 5 && (IsoShape(Trim(parts[0])) || DayMonthYearShape(Trim(parts[0])))
    ensures RowOf(parts, CsvFormatters).userId.None?
    ensures RowOf(parts, CsvFormatters).invoiceDate == DateColumn(parts[0], CsvFormatters)
    ensures RowOf(parts, CsvFormatters).metalType == MetalColumn(parts[1])
    ensures RowOf(parts, CsvFormatters).totalAmount == AmountColumn(parts[4])
  {
    DateIsNotUserId(Trim(parts[0]));
  }

  // ---------------------------------------------------------------- files

  /** The drafts one line contributes: none for a blank line or one of fewer than five parts. */
  function LineRecords(line: string): (ds: seq<Draft>)
    ensures |ds| <= 1
    ensures |ds| == 1 <==> !IsBlank(line) && |Split(line)| >= 5
  {
    if IsBlank(line) then []
    else
      var parts := Split(line);
      if |parts| < 5 then [] else [RowOf(parts, CsvFormatters)]
  }

  /** The drafts of a sequence of data lines, in line order. */
  function Records(lines: seq<string>): (ds: seq<Draft>)
    ensures |ds| <= |lines|
    ensures forall k | 0 <= k < |ds| :: ds[k].metalType.Some?
  {
    if lines == [] then [] else Records(lines[..|lines| - 1]) + LineRecords(lines[|lines| - 1])
  }

  /** The drafts of a whole file: its first line is the header and is never read. */
  function CsvRecords(lines: seq<string>): (ds: seq<Draft>)
    ensures lines != [] ==> |ds| < |lines|
  {
    if lines == [] then [] else Records(lines[1..])
  }

  /** `parseCsv`, over the lines the reader yields. */
  method ParseCsv(lines: seq<string>) returns (result: seq<Draft>)
    ensures result == CsvRecords(lines)
  {
    result := [];
    var first := true;
    var i := 0;
    while i < |lines|
      invariant 0 <= i <= |lines|
      invariant first <==> i == 0
      invariant i == 0 ==> result == []
      invariant i > 0 ==> result == Records(lines[1..i])
    {
      var line := lines[i];
      i := i + 1;
      if first {
        first := false;
        assert lines[1..i] == [];
        continue;
      }
      SliceSnoc(lines, 1, i);
      RecordsSnoc(lines[1..i - 1], line);
      var drafts := ParseLine(line);
      result := result + drafts;
    }
    if lines != [] {
      assert lines[1..i] == lines[1..];
    }
  }

  /** One pass of the loop body after the header: skip a blank or short line, else read its row. */
  method ParseLine(line: string) returns (drafts: seq<Draft>)
    ensures drafts == LineRecords(line)
  {
    if IsBlank(line) {
      return [];
    }
    var parts := Split(line);
    if |parts| < 5 {
      return [];
    }
    var dto := ParseRow(parts, CsvFormatters);
    return [dto];
  }

  lemma RecordsSnoc(lines: seq<string>, line: string)
    ensures Records(lines + [line]) == Records(lines) + LineRecords(line)
  {
    assert (lines + [line])[..|lines|] == lines;
  }

  /** The drafts of two blocks of lines are the drafts of each, one after the other. */
  lemma {:induction false} RecordsConcat(a: seq<string>, b: seq<string>)
    ensures Records(a + b) == Records(a) + Records(b)
    decreases |b|
  {
    if b == [] {
      assert a + b == a;
    } else {
      var b' := b[..|b| - 1];
      assert (a + b)[..|a + b| - 1] == a + b';
      RecordsConcat(a, b');
    }
  }

  /** Whatever the first line holds, it contributes nothing: the header is skipped. */
  lemma HeaderIsSkipped(header: string, data: seq<string>)
    ensures CsvRecords([header] + data) == Records(data)
  {
    assert ([header] + data)[1..] == data;
  }
}
