/**
 * The invoice-text field extractor: five independent first-match scanners over
 * the text of an invoice, one per field, and the record they fill.
 *
 * Each regular expression of the extractor is written out as a scanner that
 * tries one starting position (`GstAmountAt`, `TotalValueAt` and the like);
 * `Find` tries the positions from left to right, as `Matcher.find` does.
 * Every pattern here can match in at most one way at a given start (each
 * greedy run stops at a character the next element cannot begin with, so
 * backtracking never finds another match), which is what lets a scanner stand
 * for the pattern. Case-insensitive patterns compare ASCII
 * letters without regard to case (also inside character classes) and every
 * other character exactly.
 */
module TextExtract {
  import opened Common
  import opened Decimal
  import opened Dates
  import opened Invoice

  // ---------------------------------------------------------------- characters

  /** `\s`: space, tab, line feed, vertical tab, form feed, carriage return. */
  predicate IsSpace(c: char) {
    c == ' ' || c == '\t' || c == '\n' || c == '\U{B}' || c == '\U{C}' || c == '\r'
  }

  /** The characters that end a line for `^`, `$` and `.`. */
  predicate IsLineTerminator(c: char) {
    c == '\n' || c == '\r' || c == '\U{85}' || c == '\U{2028}' || c == '\U{2029}'
  }

  predicate IsAsciiLetter(c: char) {
    'A' <= c <= 'Z' || 'a' <= c <= 'z'
  }

  /** The four currency symbols the amount patterns allow: rupee, dollar, euro, pound. */
  predicate IsCurrency(c: char) {
    c == '\U{20B9}' || c == '$' || c == '\U{20AC}' || c == '\U{A3}'
  }

  /** A decimal separator as the patterns accept it: '.' or ','. */
  predicate IsSeparator(c: char) {
    c == '.' || c == ','
  }

  /** The character classes the patterns repeat. */
  datatype CharClass =
    | Space          // white space
    | Digit          // an ASCII digit
    | Word           // a digit or an ASCII letter of either case
    | OnLine         // anything but a line terminator
    | NotCloseParen  // anything but ')'

  predicate InClass(c: char, cls: CharClass) {
    match cls
    case Space => IsSpace(c)
    case Digit => IsDigit(c)
    case Word => IsDigit(c) || IsAsciiLetter(c)
    case OnLine => !IsLineTerminator(c)
    case NotCloseParen => c != ')'
  }

  /** Where the longest run of `cls` characters from `i` ends: a greedy repetition. */
  function RunEnd(t: string, i: nat, cls: CharClass): (j: nat)
    requires i <= |t|
    ensures i <= j <= |t|
    ensures j < |t| ==> !InClass(t[j], cls)
    decreases |t| - i
  {
    if i < |t| && InClass(t[i], cls) then RunEnd(t, i + 1, cls) else i
  }

  lemma {:induction false} RunEndAll(t: string, i: nat, cls: CharClass)
    requires i <= |t|
    ensures forall k | i <= k < RunEnd(t, i, cls) :: InClass(t[k], cls)
    decreases |t| - i
  {
    if i < |t| && InClass(t[i], cls) {
      RunEndAll(t, i + 1, cls);
    }
  }

  /** An optional occurrence of `c` at `i`. */
  function Optional(t: string, i: nat, c: char): (j: nat)
    requires i <= |t|
    ensures i <= j <= |t|
  {
    if i < |t| && t[i] == c then i + 1 else i
  }

  /** From `i`, `t` spells the upper-case word `w` up to ASCII case. (For letters and
      digits, comparing upper-case forms is the same as comparing lower-case forms.) */
  predicate CiAt(t: string, i: nat, w: string)
    decreases |w|
  {
    w == [] || (i < |t| && UpperChar(t[i]) == w[0] && CiAt(t, i + 1, w[1..]))
  }

  /** `^` in multi-line mode: not at the end of the text, and either at its start or just
      after a line terminator, except between '\r' and '\n'. */
  predicate LineStart(t: string, i: nat) {
    i < |t| && (i == 0 || (IsLineTerminator(t[i - 1]) && !(t[i - 1] == '\r' && t[i] == '\n')))
  }

  function UpperChar(c: char): char {
    if 'a' <= c <= 'z' then (c as int - 32) as char else c
  }

  /** `toUpperCase`, on the ASCII letters it is applied to here. */
  function AsciiUpper(s: string): string {
    if s == [] then [] else [UpperChar(s[0])] + AsciiUpper(s[1..])
  }

  // ---------------------------------------------------------------- number groups

  /**
   * The text an amount pattern captures: what precedes the digits (a currency
   * symbol and white space), the integer digits, the separator if there is one,
   * and the digits after it.
   */
  datatype Token = Token(lead: string, whole: string, sep: string, frac: string)

  function TokenText(k: Token): string {
    k.lead + k.whole + k.sep + k.frac
  }

  predicate WellFormed(k: Token) {
    && (forall i | 0 <= i < |k.lead| :: IsSpace(k.lead[i]) || IsCurrency(k.lead[i]))
    && k.whole != [] && AllDigits(k.whole)
    && (k.sep == "" || k.sep == "." || k.sep == ",")
    && AllDigits(k.frac)
    && (k.sep == "" ==> k.frac == [])
  }

  /**
   * From `s`: an optional currency symbol, then (after it) white space, then
   * digits, then either a separator and at least one digit (`strict`) or an
   * optional separator and any digits.
   */
  function NumberAt(t: string, s: nat, strict: bool): (r: Option<Token>)
    requires s <= |t|
    ensures r.Some? ==> s + |TokenText(r.value)| <= |t|
  {
    var u := LeadEnd(t, s);
    if u < |t| && IsDigit(t[u]) then
      var k := RunEnd(t, u, Digit);
      if k < |t| && IsSeparator(t[k]) then
        var m := RunEnd(t, k + 1, Digit);
        if strict && m == k + 1 then None
        else Some(Token(t[s..u], t[u..k], [t[k]], t[k + 1..m]))
      else if strict then None
      else Some(Token(t[s..u], t[u..k], "", ""))
    else None
  }

  /** After an optional currency symbol, the white space that follows it. */
  function LeadEnd(t: string, s: nat): (u: nat)
    requires s <= |t|
    ensures s <= u <= |t|
  {
    if s < |t| && IsCurrency(t[s]) then RunEnd(t, s + 1, Space) else s
  }

  lemma LeadChars(t: string, s: nat)
    requires s <= |t|
    ensures var lead := t[s..LeadEnd(t, s)]; forall i | 0 <= i < |lead| :: IsSpace(lead[i]) || IsCurrency(lead[i])
  {
    if s < |t| && IsCurrency(t[s]) {
      RunEndAll(t, s + 1, Space);
      var u := LeadEnd(t, s);
      assert forall i | 0 <= i < u - s :: t[s..u][i] == t[s + i];
    }
  }

  lemma DigitRun(t: string, u: nat)
    requires u <= |t|
    ensures AllDigits(t[u..RunEnd(t, u, Digit)])
  {
    RunEndAll(t, u, Digit);
    var k := RunEnd(t, u, Digit);
    assert forall i | 0 <= i < k - u :: t[u..k][i] == t[u + i];
  }

  lemma NumberAtShape(t: string, s: nat, strict: bool)
    requires s <= |t|
    ensures NumberAt(t, s, strict).Some? ==> WellFormed(NumberAt(t, s, strict).value)
    ensures NumberAt(t, s, strict).Some? && strict ==>
      NumberAt(t, s, strict).value.sep != "" && NumberAt(t, s, strict).value.frac != []
  {
    var u := LeadEnd(t, s);
    LeadChars(t, s);
    if u < |t| && IsDigit(t[u]) {
      var k := RunEnd(t, u, Digit);
      DigitRun(t, u);
      if k < |t| && IsSeparator(t[k]) {
        DigitRun(t, k + 1);
      }
    }
  }

  /**
   * The value the extractor reads from a token: its separator and everything but
   * digits are deleted before a point is looked for, so a '.' separator makes a
   * fraction and a ',' separator is erased ("29,13" is 2913).
   */
  function TokenValue(k: Token): Dec
    requires WellFormed(k)
  {
    AllDigitsConcat(k.whole, k.frac);
    Dec(DigitsValue(k.whole + k.frac), if k.sep == "." then |k.frac| else 0)
  }

  /** `s` with everything but digits and '.' deleted. */
  function KeepNumeric(s: string): string {
    if s == [] then [] else (if IsDigit(s[0]) || s[0] == '.' then [s[0]] else []) + KeepNumeric(s[1..])
  }

  /**
   * The amount clean-up all three amount extractors share: delete ',', delete
   * everything but digits and '.', then `new BigDecimal`, with None where the
   * constructor would throw.
   */
  function CleanAmount(g: string): Option<Dec> {
    ParseLiteral(KeepNumeric(Without(g, ',')))
  }

  lemma {:induction false} KeepNumericConcat(a: string, b: string)
    ensures KeepNumeric(a + b) == KeepNumeric(a) + KeepNumeric(b)
  {
    if a != [] {
      assert (a + b)[1..] == a[1..] + b;
      KeepNumericConcat(a[1..], b);
    } else {
      assert a + b == b;
    }
  }

  lemma {:induction false} KeepNumericOfDigits(s: string)
    requires AllDigits(s)
    ensures KeepNumeric(s) == s
  {
    if s != [] {
      KeepNumericOfDigits(s[1..]);
    }
  }

  lemma {:induction false} KeepNumericOfLead(s: string)
    requires forall i | 0 <= i < |s| :: IsSpace(s[i]) || IsCurrency(s[i])
    ensures KeepNumeric(s) == [] && ',' !in s
  {
    if s != [] {
      KeepNumericOfLead(s[1..]);
    }
  }

  lemma {:induction false} NoCommaInDigits(s: string)
    requires AllDigits(s)
    ensures ',' !in s
  {
    if s != [] {
      NoCommaInDigits(s[1..]);
      assert s == [s[0]] + s[1..];
    }
  }

  /** The comma deletion leaves a token's text as it is, except for a ',' separator. */
  lemma CommaDeleted(k: Token)
    requires WellFormed(k)
    ensures Without(TokenText(k), ',') == k.lead + k.whole + Without(k.sep, ',') + k.frac
  {
    KeepNumericOfLead(k.lead);
    NoCommaInDigits(k.whole);
    NoCommaInDigits(k.frac);
    WithoutRemoves(k.lead, ',');
    WithoutRemoves(k.whole, ',');
    WithoutRemoves(k.frac, ',');
    WithoutConcat(k.lead + k.whole + k.sep, k.frac, ',');
    WithoutConcat(k.lead + k.whole, k.sep, ',');
    WithoutConcat(k.lead, k.whole, ',');
  }

  /** The digits of a token, with a point between them when its separator is a point. */
  function Numeral(k: Token): string {
    k.whole + (if k.sep == "." then "." else "") + k.frac
  }

  lemma SeparatorKept(sep: string)
    requires sep == "" || sep == "." || sep == ","
    ensures KeepNumeric(Without(sep, ',')) == (if sep == "." then "." else "")
  {
    if sep == "." {
      assert Without(sep, ',') == ".";
    } else if sep == "," {
      assert Without(sep, ',') == "";
    }
  }

  /** What survives the second deletion is the numeral. */
  lemma NumeralKept(k: Token)
    requires WellFormed(k)
    ensures KeepNumeric(k.lead + k.whole + Without(k.sep, ',') + k.frac) == Numeral(k)
  {
    var s1 := Without(k.sep, ',');
    KeepNumericOfFour(k.lead, k.whole, s1, k.frac);
    SeparatorKept(k.sep);
    KeepNumericOfLead(k.lead);
    KeepNumericOfDigits(k.whole);
    KeepNumericOfDigits(k.frac);
    assert [] + k.whole == k.whole;
  }

  lemma KeepNumericOfFour(a: string, b: string, c: string, d: string)
    ensures KeepNumeric(a + b + c + d) == KeepNumeric(a) + KeepNumeric(b) + KeepNumeric(c) + KeepNumeric(d)
  {
    KeepNumericConcat(a + b + c, d);
    KeepNumericConcat(a + b, c);
    KeepNumericConcat(a, b);
  }

  /** The numeral is a valid literal of the token's value. */
  lemma NumeralValue(k: Token)
    requires WellFormed(k)
    ensures ParseLiteral(Numeral(k)) == Some(TokenValue(k))
  {
    if k.sep == "." {
      PointNumeralValue(k);
    } else {
      PlainNumeralValue(k);
    }
  }

  lemma PointNumeralValue(k: Token)
    requires WellFormed(k) && k.sep == "."
    ensures ParseLiteral(Numeral(k)) == Some(TokenValue(k))
  {
    LiteralWithPoint("", k.whole, k.frac);
    assert "" + k.whole + "." + k.frac == Numeral(k);
  }

  lemma PlainNumeralValue(k: Token)
    requires WellFormed(k) && k.sep != "."
    ensures ParseLiteral(Numeral(k)) == Some(TokenValue(k))
  {
    var n := k.whole + k.frac;
    AllDigitsConcat(k.whole, k.frac);
    assert Numeral(k) == k.whole + "" + k.frac;
    assert k.whole + "" == k.whole;
    assert "" + n == n;
    LiteralWithoutPoint("", n);
    assert TokenValue(k) == Dec(DigitsValue(n), 0);
  }

  /** Cleaning a well-formed token never fails, and gives the token's value. */
  lemma TokenAmount(k: Token)
    requires WellFormed(k)
    ensures CleanAmount(TokenText(k)) == Some(TokenValue(k))
  {
    CommaDeleted(k);
    NumeralKept(k);
    NumeralValue(k);
  }

  // ---------------------------------------------------------------- leftmost match

  /**
   * `Matcher.find`: the leftmost start in `from..n` at which the matcher `m`
   * succeeds, with what it captures there.
   */
  function Find<G>(m: nat -> Option<G>, n: nat, from: nat): Option<(nat, G)>
    requires from <= n
    decreases n - from
  {
    match m(from)
    case Some(g) => Some((from, g))
    case None => if from == n then None else Find(m, n, from + 1)
  }

  /** The capture of the first match in `0..n`. */
  function First<G>(m: nat -> Option<G>, n: nat): Option<G> {
    match Find(m, n, 0)
    case Some((_, g)) => Some(g)
    case None => None
  }

  /** `Find` reports the leftmost matching start, and None only when no start matches. */
  lemma {:induction false} FindIsFirst<G>(m: nat -> Option<G>, n: nat, from: nat)
    requires from <= n
    ensures Find(m, n, from).Some? ==>
      var (j, g) := Find(m, n, from).value;
      && from <= j <= n && m(j) == Some(g)
      && forall k | from <= k < j :: m(k).None?
    ensures Find(m, n, from).None? ==> forall k | from <= k <= n :: m(k).None?
    decreases n - from
  {
    if m(from).None? && from < n {
      FindIsFirst(m, n, from + 1);
    }
  }

  /** Conversely, the leftmost matching start is the one `Find` reports. */
  lemma FindOfLeftmost<G>(m: nat -> Option<G>, n: nat, j: nat)
    requires j <= n && m(j).Some?
    requires forall k | 0 <= k < j :: m(k).None?
    ensures Find(m, n, 0) == Some((j, m(j).value))
    ensures First(m, n) == m(j)
  {
    FindIsFirst(m, n, 0);
    if Find(m, n, 0).Some? {
      var (i, _) := Find(m, n, 0).value;
      assert !(i < j) && !(j < i);
    }
  }

  /** Whatever `First` captures, the matcher captures at some start. */
  lemma FirstIsSomeMatch<G>(m: nat -> Option<G>, n: nat) returns (j: nat)
    requires First(m, n).Some?
    ensures j <= n && m(j) == First(m, n)
  {
    FindIsFirst(m, n, 0);
    j := Find(m, n, 0).value.0;
  }

  /** Without a matching start there is no first match. */
  lemma FirstOfNone<G>(m: nat -> Option<G>, n: nat)
    requires forall k | 0 <= k <= n :: m(k).None?
    ensures First(m, n).None?
  {
    FindIsFirst(m, n, 0);
  }

  // ---------------------------------------------------------------- patterns

  /** After a label word that ends at `i`: white space, an optional ':', white space. */
  function AfterLabel(t: string, i: nat): (j: nat)
    requires i <= |t|
    ensures i <= j <= |t|
  {
    RunEnd(t, Optional(t, RunEnd(t, i, Space), ':'), Space)
  }

  /**
   * A case-insensitive "date", white space, an optional ':', white space, then
   * a yyyy-MM-dd or a dd/MM/yyyy text: the capture is those ten characters.
   */
  function LabeledDateAt(t: string, i: nat): Option<string> {
    if i + 4 <= |t| && CiAt(t, i, "DATE") then
      var v := AfterLabel(t, i + 4);
      if v + 10 <= |t| && (IsoShape(t[v..v + 10]) || DayMonthYearShape(t[v..v + 10])) then Some(t[v..v + 10])
      else None
    else None
  }

  /** Any dd/dd/dddd text. */
  function DayMonthYearAt(t: string, i: nat): Option<string> {
    if i + 10 <= |t| && DayMonthYearShape(t[i..i + 10]) then Some(t[i..i + 10]) else None
  }

  /** A case-insensitive "product", white space, an optional ':', white space, then the
      longest run of letters and digits (at least one), which is the capture. */
  function ProductLabelAt(t: string, i: nat): Option<string> {
    if i + 7 <= |t| && CiAt(t, i, "PRODUCT") then
      var v := AfterLabel(t, i + 7);
      var e := RunEnd(t, v, Word);
      if v < e then Some(t[v..e]) else None
    else None
  }

  predicate IsMetalName(s: string) {
    s == "GOLD" || s == "SILVER" || s == "PLATINUM" || s == "PALLADIUM"
  }

  /** The metal name, in the order the alternatives are tried, that `t` spells from `i` in
      any case. */
  function MetalAt(t: string, i: nat): (r: Option<string>)
    ensures r.Some? ==> IsMetalName(r.value) && i + |r.value| <= |t| && CiAt(t, i, r.value)
  {
    if i + 4 <= |t| && CiAt(t, i, "GOLD") then Some("GOLD")
    else if i + 6 <= |t| && CiAt(t, i, "SILVER") then Some("SILVER")
    else if i + 8 <= |t| && CiAt(t, i, "PLATINUM") then Some("PLATINUM")
    else if i + 9 <= |t| && CiAt(t, i, "PALLADIUM") then Some("PALLADIUM")
    else None
  }

  /** A line that begins with gold, silver, platinum or palladium in any case; the
      capture is the metal name as written (the rest of the line always matches). */
  function MetalLineAt(t: string, i: nat): Option<string> {
    if LineStart(t, i) then
      match MetalAt(t, i)
      case Some(w) => Some(t[i..i + |w|])
      case None => None
    else None
  }

  /**
   * A line that begins, optionally after a "product" label, with gold or silver in
   * any case (the "silver24" alternative begins with "silver"). The capture is the
   * whole match: from the line's start to the end of the line the metal name is on.
   * The white space after a label may run over line ends.
   */
  function ProductLineAt(t: string, i: nat): Option<string> {
    if !LineStart(t, i) then None
    else
      var v := if i + 7 <= |t| && CiAt(t, i, "PRODUCT") then AfterLabel(t, i + 7) else i;
      if (v + 4 <= |t| && CiAt(t, v, "GOLD")) || (v + 6 <= |t| && CiAt(t, v, "SILVER")) then
        Some(t[i..RunEnd(t, v, OnLine)])
      else None
  }

  /** Digits, a separator, digits, then nothing but white space to the end of `l`. */
  function LineEndAmountAt(l: string, i: nat): Option<Token> {
    if i < |l| && IsDigit(l[i]) then
      match NumberAt(l, i, true)
      case Some(k) => if RunEnd(l, i + |TokenText(k)|, Space) == |l| then Some(k) else None
      case None => None
    else None
  }

  /** Where a GST amount would start: after a case-insensitive "gst", white space, a
      parenthesised text without ')' and white space. */
  function GstAmountStart(t: string, i: nat): (r: Option<nat>)
    ensures r.Some? ==> r.value <= |t|
  {
    if i + 3 <= |t| && CiAt(t, i, "GST") then
      var o := RunEnd(t, i + 3, Space);
      if o < |t| && t[o] == '(' then
        var c := RunEnd(t, o + 1, NotCloseParen);
        if c < |t| then Some(RunEnd(t, c + 1, Space)) else None
      else None
    else None
  }

  /** A GST label, then an amount with a separator. */
  function GstAmountAt(t: string, i: nat): Option<Token> {
    match GstAmountStart(t, i)
    case Some(s) => NumberAt(t, s, true)
    case None => None
  }

  /** Where a total would start: after a case-insensitive "total invoice value", with at
      least one white space between the words and any after them. */
  function TotalValueStart(t: string, i: nat): (r: Option<nat>)
    ensures r.Some? ==> r.value <= |t|
  {
    if i + 5 <= |t| && CiAt(t, i, "TOTAL") then
      var a := RunEnd(t, i + 5, Space);
      if i + 5 < a && a + 7 <= |t| && CiAt(t, a, "INVOICE") then
        var b := RunEnd(t, a + 7, Space);
        if a + 7 < b && b + 5 <= |t| && CiAt(t, b, "VALUE") then Some(RunEnd(t, b + 5, Space))
        else None
      else None
    else None
  }

  /** A total label, then an amount whose separator is optional. */
  function TotalValueAt(t: string, i: nat): Option<Token> {
    match TotalValueStart(t, i)
    case Some(s) => NumberAt(t, s, false)
    case None => None
  }

  // The matchers the extractors search with.
  function LabeledDates(t: string): nat -> Option<string> { (i: nat) => LabeledDateAt(t, i) }
  function DayMonthYears(t: string): nat -> Option<string> { (i: nat) => DayMonthYearAt(t, i) }
  function ProductLabels(t: string): nat -> Option<string> { (i: nat) => ProductLabelAt(t, i) }
  function MetalLines(t: string): nat -> Option<string> { (i: nat) => MetalLineAt(t, i) }
  function ProductLines(t: string): nat -> Option<string> { (i: nat) => ProductLineAt(t, i) }
  function LineEndAmounts(l: string): nat -> Option<Token> { (i: nat) => LineEndAmountAt(l, i) }
  function GstAmounts(t: string): nat -> Option<Token> { (i: nat) => GstAmountAt(t, i) }
  function TotalValues(t: string): nat -> Option<Token> { (i: nat) => TotalValueAt(t, i) }

  /** The amount patterns capture well-formed tokens, the two strict ones with a separator
      and a digit after it. */
  lemma LineEndToken(l: string, i: nat)
    requires LineEndAmountAt(l, i).Some?
    ensures WellFormed(LineEndAmountAt(l, i).value) && LineEndAmountAt(l, i).value.sep != ""
  {
    NumberAtShape(l, i, true);
  }

  lemma GstToken(t: string, i: nat)
    requires GstAmountAt(t, i).Some?
    ensures WellFormed(GstAmountAt(t, i).value) && GstAmountAt(t, i).value.sep != ""
  {
    NumberAtShape(t, GstAmountStart(t, i).value, true);
  }

  lemma TotalToken(t: string, i: nat)
    requires TotalValueAt(t, i).Some?
    ensures WellFormed(TotalValueAt(t, i).value)
  {
    NumberAtShape(t, TotalValueStart(t, i).value, false);
  }

  // ---------------------------------------------------------------- extractors

  /** The first labelled date, read with the formatter its text calls for. */
  function LabeledDateValue(t: string): Option<Date> {
    match First(LabeledDates(t), |t|)
    case None => None
    case Some(g) =>
      var v := Trim(g);
      if Contains(v, "-") then ParseIsoLocalDate(v) else ParseDayMonthYear(v)
  }

  /** The first dd/dd/dddd text anywhere, read as day/month/year. */
  function FallbackDate(t: string): Option<Date> {
    match First(DayMonthYears(t), |t|)
    case None => None
    case Some(g) => ParseDayMonthYear(g)
  }

  /** `extractDate`: the first labelled date if it reads as a date, else the fallback. */
  function ExtractDate(t: string): (r: Option<Date>)
    ensures r.Some? ==> Valid(r.value)
  {
    var labeled := LabeledDateValue(t);
    if labeled.Some? then labeled else FallbackDate(t)
  }

  /** `extractMetalType`: the first "product" label's token as written, else the metal name
      that begins the first metal line, in upper case. */
  function ExtractMetalType(t: string): Option<string> {
    match First(ProductLabels(t), |t|)
    case Some(g) => Some(Trim(g))
    case None =>
      match First(MetalLines(t), |t|)
      case Some(g) => Some(AsciiUpper(g))
      case None => None
  }

  /** `extractLineAmount`: the amount that ends the first gold or silver line. */
  function ExtractLineAmount(t: string): Option<Dec> {
    match First(ProductLines(t), |t|)
    case None => None
    case Some(line) =>
      match First(LineEndAmounts(line), |line|)
      case None => None
      case Some(k) => CleanAmount(TokenText(k))
  }

  /** `extractGstAmount`. */
  function ExtractGstAmount(t: string): Option<Dec> {
    match First(GstAmounts(t), |t|)
    case None => None
    case Some(k) => CleanAmount(TokenText(k))
  }

  /** `extractTotalInvoiceValue`. */
  function ExtractTotalInvoiceValue(t: string): Option<Dec> {
    match First(TotalValues(t), |t|)
    case None => None
    case Some(k) => CleanAmount(TokenText(k))
  }

  /**
   * `parseText`: a fresh request whose five fields are the five extractors'
   * results, each computed from the text alone. The user id is never set, a date
   * is always a real date and no amount is negative.
   */
  function ParseText(t: string): (r: Draft)
    ensures r.userId.None?
    ensures r.invoiceDate == ExtractDate(t) && r.metalType == ExtractMetalType(t)
    ensures r.amountWithoutGst == ExtractLineAmount(t) && r.gstAmount == ExtractGstAmount(t)
    ensures r.totalAmount == ExtractTotalInvoiceValue(t)
    ensures r.invoiceDate.Some? ==> Valid(r.invoiceDate.value)
    ensures r.amountWithoutGst.Some? ==> r.amountWithoutGst.value.unscaled >= 0
    ensures r.gstAmount.Some? ==> r.gstAmount.value.unscaled >= 0
    ensures r.totalAmount.Some? ==> r.totalAmount.value.unscaled >= 0
  {
    GstFromMatch(t);
    TotalFromMatch(t);
    LineAmountFromMatch(t);
    Draft(None, ExtractDate(t), ExtractMetalType(t), ExtractLineAmount(t), ExtractGstAmount(t),
      ExtractTotalInvoiceValue(t))
  }

  // ---------------------------------------------------------------- properties

  /** The GST amount is present exactly when its pattern matches somewhere, and is then the
      value of the first match's token: the clean-up never fails and never gives a negative. */
  lemma GstFromMatch(t: string)
    ensures ExtractGstAmount(t).Some? <==> First(GstAmounts(t), |t|).Some?
    ensures First(GstAmounts(t), |t|).Some? ==>
      var k := First(GstAmounts(t), |t|).value;
      WellFormed(k) && k.sep != "" && ExtractGstAmount(t) == Some(TokenValue(k))
    ensures ExtractGstAmount(t).Some? ==> ExtractGstAmount(t).value.unscaled >= 0
  {
    if First(GstAmounts(t), |t|).Some? {
      var j := FirstIsSomeMatch(GstAmounts(t), |t|);
      GstToken(t, j);
      TokenAmount(First(GstAmounts(t), |t|).value);
    }
  }

  /** The same for the total invoice value. */
  lemma TotalFromMatch(t: string)
    ensures ExtractTotalInvoiceValue(t).Some? <==> First(TotalValues(t), |t|).Some?
    ensures First(TotalValues(t), |t|).Some? ==>
      var k := First(TotalValues(t), |t|).value;
      WellFormed(k) && ExtractTotalInvoiceValue(t) == Some(TokenValue(k))
    ensures ExtractTotalInvoiceValue(t).Some? ==> ExtractTotalInvoiceValue(t).value.unscaled >= 0
  {
    if First(TotalValues(t), |t|).Some? {
      var j := FirstIsSomeMatch(TotalValues(t), |t|);
      TotalToken(t, j);
      TokenAmount(First(TotalValues(t), |t|).value);
    }
  }

  /** The line amount is present exactly when there is a first gold or silver line and it
      ends in an amount; it is then that amount's value. */
  lemma LineAmountFromMatch(t: string)
    ensures ExtractLineAmount(t).Some? <==>
      && First(ProductLines(t), |t|).Some?
      && var l := First(ProductLines(t), |t|).value; First(LineEndAmounts(l), |l|).Some?
    ensures ExtractLineAmount(t).Some? ==>
      var l := First(ProductLines(t), |t|).value;
      var k := First(LineEndAmounts(l), |l|).value;
      WellFormed(k) && k.sep != "" && ExtractLineAmount(t) == Some(TokenValue(k))
    ensures ExtractLineAmount(t).Some? ==> ExtractLineAmount(t).value.unscaled >= 0
  {
    if First(ProductLines(t), |t|).Some? {
      var l := First(ProductLines(t), |t|).value;
      if First(LineEndAmounts(l), |l|).Some? {
        var j := FirstIsSomeMatch(LineEndAmounts(l), |l|);
        LineEndToken(l, j);
        TokenAmount(First(LineEndAmounts(l), |l|).value);
      }
    }
  }

  /** A labelled date is ten characters of one of the two shapes, and the code's "contains
      '-'" test picks the ISO reading exactly for the ISO shape. */
  lemma LabelShape(t: string, i: nat)
    requires LabeledDateAt(t, i).Some?
    ensures var g := LabeledDateAt(t, i).value;
      && |g| == 10 && (IsoShape(g) || DayMonthYearShape(g)) && Trim(g) == g
      && (Contains(g, "-") <==> IsoShape(g))
  {
    var g := LabeledDateAt(t, i).value;
    TrimOfTrimmed(g);
    ContainsOne(g, '-');
    if DayMonthYearShape(g) {
      assert forall k | 0 <= k < 10 :: g[k] != '-';
    }
  }

  /** The reading of a labelled date: ISO for the ISO shape, day/month/year otherwise. */
  function ReadLabel(g: string): Option<Date> {
    if IsoShape(g) then ParseIsoLocalDate(g) else ParseDayMonthYear(g)
  }

  /**
   * Only the first labelled date is tried. When it reads as a date it is the
   * result; when it does not, the result is the fallback, whatever later labels hold.
   */
  lemma ExtractDateFromFirstLabel(t: string, j: nat)
    requires j <= |t| && LabeledDateAt(t, j).Some?
    requires forall k | 0 <= k < j :: LabeledDateAt(t, k).None?
    ensures var g := LabeledDateAt(t, j).value;
      && (ReadLabel(g).Some? ==> ExtractDate(t) == ReadLabel(g))
      && (ReadLabel(g).None? ==> ExtractDate(t) == FallbackDate(t))
  {
    assert forall k | 0 <= k < j :: LabeledDates(t)(k).None?;
    FindOfLeftmost(LabeledDates(t), |t|, j);
    LabelShape(t, j);
  }

  /** Without a labelled date the result is the fallback. */
  lemma ExtractDateWithoutLabel(t: string)
    requires forall k | 0 <= k <= |t| :: LabeledDateAt(t, k).None?
    ensures ExtractDate(t) == FallbackDate(t)
  {
    assert forall k | 0 <= k <= |t| :: LabeledDates(t)(k).None?;
    FirstOfNone(LabeledDates(t), |t|);
  }

  /** The fallback reads the first dd/dd/dddd text, and is None without one. */
  lemma FallbackFromFirstShape(t: string, j: nat)
    requires j + 10 <= |t| && DayMonthYearShape(t[j..j + 10])
    requires forall k | 0 <= k < j :: DayMonthYearAt(t, k).None?
    ensures FallbackDate(t) == ParseDayMonthYear(t[j..j + 10])
  {
    assert forall k | 0 <= k < j :: DayMonthYears(t)(k).None?;
    FindOfLeftmost(DayMonthYears(t), |t|, j);
  }

  lemma FallbackWithoutShape(t: string)
    requires forall k | 0 <= k <= |t| :: DayMonthYearAt(t, k).None?
    ensures FallbackDate(t) == None
  {
    assert forall k | 0 <= k <= |t| :: DayMonthYears(t)(k).None?;
    FirstOfNone(DayMonthYears(t), |t|);
  }

  /** A "product" label's token is returned as written: non-empty, letters and digits only,
      not upper-cased. */
  lemma ProductTokenAsWritten(t: string)
    requires First(ProductLabels(t), |t|).Some?
    ensures var g := First(ProductLabels(t), |t|).value;
      && ExtractMetalType(t) == Some(g) && g != []
      && forall k | 0 <= k < |g| :: IsDigit(g[k]) || IsAsciiLetter(g[k])
  {
    var i := FirstIsSomeMatch(ProductLabels(t), |t|);
    ProductLabelShape(t, i);
    TrimOfTrimmed(First(ProductLabels(t), |t|).value);
  }

  lemma ProductLabelShape(t: string, i: nat)
    requires ProductLabelAt(t, i).Some?
    ensures var g := ProductLabelAt(t, i).value;
      g != [] && forall k | 0 <= k < |g| :: IsDigit(g[k]) || IsAsciiLetter(g[k])
  {
    var v := AfterLabel(t, i + 7);
    var e := RunEnd(t, v, Word);
    RunEndAll(t, v, Word);
    var g := t[v..e];
    assert forall k | 0 <= k < |g| :: g[k] == t[v + k];
  }

  lemma {:induction false} UpperOfCiMatch(t: string, i: nat, w: string)
    requires i + |w| <= |t| && CiAt(t, i, w)
    ensures AsciiUpper(t[i..i + |w|]) == w
    decreases |w|
  {
    if w != [] {
      UpperOfCiMatch(t, i + 1, w[1..]);
      assert t[i..i + |w|] == [t[i]] + t[i + 1..i + 1 + |w[1..]|];
    }
  }

  /** The metal name a metal line begins with, upper-cased, is the name matched there,
      one of the four names. */
  lemma MetalLineName(t: string, i: nat)
    requires MetalLineAt(t, i).Some?
    ensures MetalAt(t, i).Some? && AsciiUpper(MetalLineAt(t, i).value) == MetalAt(t, i).value
    ensures IsMetalName(AsciiUpper(MetalLineAt(t, i).value))
  {
    UpperOfCiMatch(t, i, MetalAt(t, i).value);
  }

  /** Without a "product" label, the first metal line decides: the metal type is the name
      that line begins with, in upper case. */
  lemma MetalTypeOfFirstLine(t: string, i: nat)
    requires First(ProductLabels(t), |t|).None?
    requires i <= |t| && MetalLineAt(t, i).Some?
    requires forall k | 0 <= k < i :: MetalLineAt(t, k).None?
    ensures ExtractMetalType(t) == MetalAt(t, i)
  {
    FindOfLeftmost(MetalLines(t), |t|, i);
    MetalLineName(t, i);
  }

  /** So a first metal line beginning "silver24", in any letter case, gives "SILVER". */
  lemma SilverLineGivesSilver(t: string, i: nat)
    requires First(ProductLabels(t), |t|).None?
    requires LineStart(t, i) && i + 6 <= |t| && CiAt(t, i, "SILVER")
    requires forall k | 0 <= k < i :: MetalLineAt(t, k).None?
    ensures ExtractMetalType(t) == Some("SILVER")
  {
    assert !CiAt(t, i, "GOLD");
    assert MetalAt(t, i) == Some("SILVER");
    MetalTypeOfFirstLine(t, i);
  }

  /** Without a "product" label, the metal type is the upper-case name of the metal that
      begins the first metal line, so "silver24 ..." gives "SILVER"; with neither, it is
      absent. */
  lemma MetalTypeFromLine(t: string)
    requires First(ProductLabels(t), |t|).None?
    ensures First(MetalLines(t), |t|).Some? ==>
      && ExtractMetalType(t).Some?
      && IsMetalName(ExtractMetalType(t).value)
    ensures First(MetalLines(t), |t|).None? ==> ExtractMetalType(t).None?
  {
    if First(MetalLines(t), |t|).Some? {
      var i := FirstIsSomeMatch(MetalLines(t), |t|);
      MetalLineName(t, i);
    }
  }

  /** A line beginning with platinum or palladium is never taken as the product line. */
  lemma PlatinumLineIsNoProductLine(t: string, i: nat)
    requires CiAt(t, i, "PLATINUM") || CiAt(t, i, "PALLADIUM")
    ensures ProductLineAt(t, i).None?
  {
    assert i + 1 < |t| && UpperChar(t[i]) == 'P' && UpperChar(t[i + 1]) != 'R';
    NoProductLineAtP(t, i);
  }

  lemma NoProductLineAtP(t: string, i: nat)
    requires i + 1 < |t| && UpperChar(t[i]) == 'P' && UpperChar(t[i + 1]) != 'R'
    ensures ProductLineAt(t, i).None?
  {
    assert !CiAt(t, i, "PRODUCT");
    assert !CiAt(t, i, "GOLD") && !CiAt(t, i, "SILVER");
  }

  /** The product line ends before a line terminator, so the end anchor of the amount that
      is looked for in it can only match at its very end. */
  lemma ProductLineEndsOnLine(t: string, i: nat)
    requires ProductLineAt(t, i).Some?
    ensures var l := ProductLineAt(t, i).value; l != [] && !IsLineTerminator(l[|l| - 1])
  {
    var v := if i + 7 <= |t| && CiAt(t, i, "PRODUCT") then AfterLabel(t, i + 7) else i;
    assert CiAt(t, v, "GOLD") || CiAt(t, v, "SILVER");
    assert v < |t| && (UpperChar(t[v]) == 'G' || UpperChar(t[v]) == 'S');
    assert InClass(t[v], OnLine);
    var e := RunEnd(t, v, OnLine);
    RunEndAll(t, v, OnLine);
    assert e > v;
    assert t[i..e][e - 1 - i] == t[e - 1];
  }

  // ---------------------------------------------------------------- examples

  /** A run that stops where the class stops is where `RunEnd` stops. */
  lemma {:induction false} RunEndOfRun(t: string, i: nat, j: nat, cls: CharClass)
    requires i <= j <= |t|
    requires forall k | i <= k < j :: InClass(t[k], cls)
    requires j == |t| || !InClass(t[j], cls)
    ensures RunEnd(t, i, cls) == j
    decreases j - i
  {
    if i < j {
      RunEndOfRun(t, i + 1, j, cls);
    }
  }

  lemma {:induction false} CiAtExtend(a: string, b: string, i: nat, w: string)
    requires CiAt(a, i, w)
    ensures CiAt(a + b, i, w)
    decreases |w|
  {
    if w != [] {
      CiAtExtend(a, b, i + 1, w[1..]);
    }
  }

  /**
   * "GST" in any case, a parenthesised qualifier, a space and an amount: the
   * amount is read with a point separator as a fraction ("GST(3%) 29.13" gives
   * 29.13) and with a comma separator as one integer ("GST(3%) 29,13" gives 2913).
   */
  lemma GstOfLabel(gst: string, q: string, whole: string, sep: char, frac: string)
    requires |gst| == 3 && CiAt(gst, 0, "GST")
    requires ')' !in q && whole != [] && AllDigits(whole) && frac != [] && AllDigits(frac)
    requires sep == '.' || sep == ','
    ensures AllDigits(whole + frac)
    ensures ExtractGstAmount(gst + "(" + q + ") " + (whole + [sep] + frac)) ==
      Some(Dec(DigitsValue(whole + frac), if sep == '.' then |frac| else 0))
  {
    AllDigitsConcat(whole, frac);
    GstOfHead(gst, q, whole, sep, frac);
    TokenAmount(Token("", whole, [sep], frac));
  }

  lemma GstOfHead(gst: string, q: string, whole: string, sep: char, frac: string)
    requires |gst| == 3 && CiAt(gst, 0, "GST")
    requires ')' !in q && whole != [] && AllDigits(whole) && frac != [] && AllDigits(frac)
    requires sep == '.' || sep == ','
    ensures ExtractGstAmount(gst + "(" + q + ") " + (whole + [sep] + frac)) ==
      CleanAmount(TokenText(Token("", whole, [sep], frac)))
  {
    var head := gst + "(" + q + ") ";
    GstStartOf(gst, q, whole + [sep] + frac);
    NumberOfText(head, whole, sep, frac);
    GstAtStart(head + (whole + [sep] + frac), Token("", whole, [sep], frac));
  }

  /** A GST amount at the very start of the text is the first one. */
  lemma GstAtStart(t: string, k: Token)
    requires GstAmountAt(t, 0) == Some(k)
    ensures ExtractGstAmount(t) == CleanAmount(TokenText(k))
  {
    FindOfLeftmost(GstAmounts(t), |t|, 0);
  }

  lemma GstStartOf(gst: string, q: string, amount: string)
    requires |gst| == 3 && CiAt(gst, 0, "GST") && ')' !in q
    requires amount != [] && IsDigit(amount[0])
    ensures GstAmountStart(gst + "(" + q + ") " + amount, 0) == Some(6 + |q|)
  {
    var t := gst + "(" + q + ") " + amount;
    CiAtExtend(gst, "(" + q + ") " + amount, 0, "GST");
    assert t == gst + ("(" + q + ") " + amount);
    GstRunsOf(gst, q, amount);
    GstStartByRuns(t, 4 + |q|);
  }

  lemma GstRunsOf(gst: string, q: string, amount: string)
    requires |gst| == 3 && ')' !in q && amount != [] && IsDigit(amount[0])
    ensures var t := gst + "(" + q + ") " + amount; var c := 4 + |q|;
      && c + 2 < |t| && t[3] == '(' && RunEnd(t, 3, Space) == 3
      && RunEnd(t, 4, NotCloseParen) == c && RunEnd(t, c + 1, Space) == c + 2
  {
    var t := gst + "(" + q + ") " + amount;
    var c := 4 + |q|;
    assert t[3] == '(' && t[c] == ')' && t[c + 1] == ' ' && t[c + 2] == amount[0];
    assert RunEnd(t, 3, Space) == 3;
    assert forall k | 4 <= k < c :: t[k] == q[k - 4];
    RunEndOfRun(t, 4, c, NotCloseParen);
    RunEndOfRun(t, c + 1, c + 2, Space);
  }

  lemma GstStartByRuns(t: string, c: nat)
    requires 4 <= c && c + 2 < |t| && CiAt(t, 0, "GST") && t[3] == '(' && RunEnd(t, 3, Space) == 3
    requires RunEnd(t, 4, NotCloseParen) == c && RunEnd(t, c + 1, Space) == c + 2
    ensures GstAmountStart(t, 0) == Some(c + 2)
  {
  }

  /** Digits, a separator and digits that end the text make one token. */
  lemma NumberOfText(head: string, whole: string, sep: char, frac: string)
    requires whole != [] && AllDigits(whole) && frac != [] && AllDigits(frac) && IsSeparator(sep)
    ensures NumberAt(head + (whole + [sep] + frac), |head|, true) == Some(Token("", whole, [sep], frac))
  {
    var t := head + (whole + [sep] + frac);
    var s := |head|;
    var e := s + |whole|;
    assert t[s..e] == whole && t[e] == sep && t[e + 1..] == frac;
    assert t[s] == whole[0];
    assert LeadEnd(t, s) == s;
    assert forall k | s <= k < e :: t[k] == whole[k - s];
    RunEndOfRun(t, s, e, Digit);
    assert forall k | e + 1 <= k < |t| :: t[k] == frac[k - e - 1];
    RunEndOfRun(t, e + 1, |t|, Digit);
    StrictNumberAtRuns(t, s, e);
  }

  /** Digits from `s` to `e`, a separator, then digits to the end: the strict pattern takes them all. */
  lemma StrictNumberAtRuns(t: string, s: nat, e: nat)
    requires s < e && e + 1 < |t| && LeadEnd(t, s) == s && IsDigit(t[s]) && IsSeparator(t[e])
    requires RunEnd(t, s, Digit) == e && RunEnd(t, e + 1, Digit) == |t|
    ensures NumberAt(t, s, true) == Some(Token("", t[s..e], [t[e]], t[e + 1..]))
  {
    assert t[s..s] == [] && t[e + 1..|t|] == t[e + 1..];
  }

  lemma {:induction false} CiAtShift(a: string, b: string, i: nat, w: string)
    requires CiAt(b, i, w)
    ensures CiAt(a + b, |a| + i, w)
    decreases |w|
  {
    if w != [] {
      assert (a + b)[|a| + i] == b[i];
      CiAtShift(a, b, i + 1, w[1..]);
    }
  }

  /**
   * "total invoice value" in any case, one space between the words and after them,
   * then digits: the total is that whole number ("TOTAL INVOICE VALUE 1000" gives 1000).
   */
  lemma TotalOfLabel(total: string, invoice: string, value: string, whole: string)
    requires |total| == 5 && CiAt(total, 0, "TOTAL")
    requires |invoice| == 7 && CiAt(invoice, 0, "INVOICE")
    requires |value| == 5 && CiAt(value, 0, "VALUE")
    requires whole != [] && AllDigits(whole)
    ensures ExtractTotalInvoiceValue(total + " " + invoice + " " + value + " " + whole) ==
      Some(Dec(DigitsValue(whole), 0))
  {
    var t := total + " " + invoice + " " + value + " " + whole;
    TotalStartOf(total, invoice, value, whole);
    assert t[20..] == whole;
    TotalOfText(t, 20, whole);
  }

  lemma TotalOfText(t: string, s: nat, whole: string)
    requires TotalValueStart(t, 0) == Some(s)
    requires s <= |t| && t[s..] == whole && whole != [] && AllDigits(whole)
    ensures ExtractTotalInvoiceValue(t) == Some(Dec(DigitsValue(whole), 0))
  {
    WholeOfText(t, s, whole);
    var k := Token("", whole, "", "");
    TotalAtStart(t, k);
    TokenAmount(k);
    assert whole + "" == whole;
  }

  lemma TotalAtStart(t: string, k: Token)
    requires TotalValueAt(t, 0) == Some(k)
    ensures ExtractTotalInvoiceValue(t) == CleanAmount(TokenText(k))
  {
    FindOfLeftmost(TotalValues(t), |t|, 0);
  }

  lemma TotalStartOf(total: string, invoice: string, value: string, amount: string)
    requires |total| == 5 && CiAt(total, 0, "TOTAL")
    requires |invoice| == 7 && CiAt(invoice, 0, "INVOICE")
    requires |value| == 5 && CiAt(value, 0, "VALUE")
    requires amount != [] && IsDigit(amount[0])
    ensures TotalValueStart(total + " " + invoice + " " + value + " " + amount, 0) == Some(20)
  {
    TotalWordsAt(total, invoice, value, amount);
    assert UpperChar(invoice[0]) == 'I' && UpperChar(value[0]) == 'V';
    TotalSpacesOf(total, invoice, value, amount);
    TotalStartByWords(total + " " + invoice + " " + value + " " + amount);
  }

  lemma TotalSpacesOf(total: string, invoice: string, value: string, amount: string)
    requires |total| == 5 && |invoice| == 7 && |value| == 5 && amount != [] && IsDigit(amount[0])
    requires UpperChar(invoice[0]) == 'I' && UpperChar(value[0]) == 'V'
    ensures var t := total + " " + invoice + " " + value + " " + amount;
      |t| > 20 && RunEnd(t, 5, Space) == 6 && RunEnd(t, 13, Space) == 14 && RunEnd(t, 19, Space) == 20
  {
    var t := total + " " + invoice + " " + value + " " + amount;
    assert t[5] == ' ' && t[6] == invoice[0] && t[13] == ' ' && t[14] == value[0];
    assert t[19] == ' ' && t[20] == amount[0];
    TotalSpaces(t, amount);
  }

  lemma TotalStartByWords(t: string)
    requires |t| > 20 && CiAt(t, 0, "TOTAL") && CiAt(t, 6, "INVOICE") && CiAt(t, 14, "VALUE")
    requires RunEnd(t, 5, Space) == 6 && RunEnd(t, 13, Space) == 14 && RunEnd(t, 19, Space) == 20
    ensures TotalValueStart(t, 0) == Some(20)
  {
  }

  lemma TotalSpaces(t: string, amount: string)
    requires |t| == 20 + |amount| && amount != [] && IsDigit(amount[0]) && t[20] == amount[0]
    requires t[5] == ' ' && t[13] == ' ' && t[19] == ' '
    requires UpperChar(t[6]) == 'I' && UpperChar(t[14]) == 'V'
    ensures RunEnd(t, 5, Space) == 6 && RunEnd(t, 13, Space) == 14 && RunEnd(t, 19, Space) == 20
  {
    RunEndOfRun(t, 5, 6, Space);
    RunEndOfRun(t, 13, 14, Space);
    RunEndOfRun(t, 19, 20, Space);
  }

  lemma TotalWordsAt(total: string, invoice: string, value: string, amount: string)
    requires |total| == 5 && CiAt(total, 0, "TOTAL")
    requires |invoice| == 7 && CiAt(invoice, 0, "INVOICE")
    requires |value| == 5 && CiAt(value, 0, "VALUE")
    ensures var t := total + " " + invoice + " " + value + " " + amount;
      CiAt(t, 0, "TOTAL") && CiAt(t, 6, "INVOICE") && CiAt(t, 14, "VALUE")
  {
    TwoWordsAt(total, invoice, "TOTAL", "INVOICE");
    ThirdWordAt(total + " " + invoice + " ", value, amount, "TOTAL", "INVOICE", "VALUE");
  }

  lemma TwoWordsAt(x: string, y: string, wx: string, wy: string)
    requires |x| == 5 && CiAt(x, 0, wx) && |y| == 7 && CiAt(y, 0, wy)
    ensures var b := x + " " + y + " "; |b| == 14 && CiAt(b, 0, wx) && CiAt(b, 6, wy)
  {
    var a := x + " ";
    CiAtExtend(x, " ", 0, wx);
    CiAtExtend(a, y, 0, wx);
    CiAtShift(a, y, 0, wy);
    CiAtExtend(a + y, " ", 0, wx);
    CiAtExtend(a + y, " ", 6, wy);
  }

  lemma ThirdWordAt(b: string, z: string, amount: string, wx: string, wy: string, wz: string)
    requires |b| == 14 && CiAt(b, 0, wx) && CiAt(b, 6, wy)
    requires |z| == 5 && CiAt(z, 0, wz)
    ensures var t := b + z + " " + amount; CiAt(t, 0, wx) && CiAt(t, 6, wy) && CiAt(t, 14, wz)
  {
    CiAtExtend(b, z, 0, wx);
    CiAtExtend(b, z, 6, wy);
    CiAtShift(b, z, 0, wz);
    var c := b + z + " ";
    CiAtExtend(b + z, " ", 0, wx);
    CiAtExtend(b + z, " ", 6, wy);
    CiAtExtend(b + z, " ", 14, wz);
    CiAtExtend(c, amount, 0, wx);
    CiAtExtend(c, amount, 6, wy);
    CiAtExtend(c, amount, 14, wz);
  }

  /** Digits that end the text make one token without a separator. */
  lemma WholeOfText(t: string, s: nat, whole: string)
    requires s <= |t| && t[s..] == whole && whole != [] && AllDigits(whole)
    ensures NumberAt(t, s, false) == Some(Token("", whole, "", ""))
  {
    assert t[s] == whole[0];
    assert LeadEnd(t, s) == s;
    assert forall k | s <= k < |t| :: t[k] == whole[k - s];
    RunEndOfRun(t, s, |t|, Digit);
    assert t[s..s] == [] && t[s..|t|] == whole;
  }
}
