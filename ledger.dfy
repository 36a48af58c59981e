/**
 * The ledger file the upload path appends to (`CsvWriterUtil.appendInvoiceToCsv`):
 * a fixed header on the first write into a file that did not exist, then one
 * line per invoice, its five fields joined by commas with nothing escaped.
 * The file is an existence flag and its sequence of complete lines.
 */
module Ledger {
  import opened Common
  import opened Decimal
  import opened Dates
  import opened Invoice
  import opened CsvParser

  /** The header line: the five column names, joined by commas like a data line. */
  const Header: string := Join(["invoiceDate", "metalType", "amountWithoutGst", "gstAmount", "totalAmount"])

  /** A draft whose date, when present, is a calendar date (every draft the parsers produce). */
  predicate Writable(d: Draft) {
    d.invoiceDate.Some? ==> Valid(d.invoiceDate.value)
  }

  predicate AllWritable(ds: seq<Draft>) {
    forall i | 0 <= i < |ds| :: Writable(ds[i])
  }

  // ---------------------------------------------------------------- the data line

  /** `%s` of a date: its `toString`, or "" for null. */
  function DateField(x: Option<Date>): string
    requires x.Some? ==> Valid(x.value)
  {
    if x.Some? then RenderIso(x.value) else ""
  }

  /** `%s` of a string, or "" for null. */
  function TextField(x: Option<string>): string {
    if x.Some? then x.value else ""
  }

  /** `%s` of a BigDecimal: its `toString`, or "" for null. */
  function AmountField(x: Option<Dec>): string {
    if x.Some? then Render(x.value) else ""
  }

  /** The five fields in the order the line lists them: date, metal, net, GST, total. */
  function Fields(d: Draft): (fs: seq<string>)
    requires Writable(d)
    ensures |fs| == 5
  {
    [DateField(d.invoiceDate), TextField(d.metalType), AmountField(d.amountWithoutGst),
     AmountField(d.gstAmount), AmountField(d.totalAmount)]
  }

  /** `String.format("%s,%s,%s,%s,%s", ...)` over the five fields. */
  function DataLine(d: Draft): (line: string)
    requires Writable(d)
    ensures CommaCount(line) == 4 + CommaCount(TextField(d.metalType))
  {
    var fs := Fields(d);
    DateFieldCommaFree(d.invoiceDate);
    AmountFieldCommaFree(d.amountWithoutGst);
    AmountFieldCommaFree(d.gstAmount);
    AmountFieldCommaFree(d.totalAmount);
    JoinFiveCommas(fs);
    Join(fs)
  }

  /** Joining five parts adds four commas to those of the parts, here only the second's. */
  lemma JoinFiveCommas(fs: seq<string>)
    requires |fs| == 5 && ',' !in fs[0] && ',' !in fs[2] && ',' !in fs[3] && ',' !in fs[4]
    ensures CommaCount(Join(fs)) == 4 + CommaCount(fs[1])
  {
    var r3 := fs[3] + "," + fs[4];
    var r2 := fs[2] + "," + r3;
    var r1 := fs[1] + "," + r2;
    assert Join(fs[3..]) == r3 by { assert fs[3..][1..] == [fs[4]]; }
    assert Join(fs[2..]) == r2 by { assert fs[2..][1..] == fs[3..]; }
    assert Join(fs[1..]) == r1 by { assert fs[1..][1..] == fs[2..]; }
    CommaCountConcat(fs[0] + ",", r1);
    CommaCountConcat(fs[0], ",");
    CommaCountConcat(fs[1] + ",", r2);
    CommaCountConcat(fs[1], ",");
    CommaCountConcat(fs[2] + ",", r3);
    CommaCountConcat(fs[2], ",");
    CommaCountConcat(fs[3] + ",", fs[4]);
    CommaCountConcat(fs[3], ",");
    CommaCountNone(fs[0]);
    CommaCountNone(fs[2]);
    CommaCountNone(fs[3]);
    CommaCountNone(fs[4]);
  }

  /** The data lines of several drafts, in order. */
  function DataLines(ds: seq<Draft>): seq<string>
    requires AllWritable(ds)
  {
    if ds == [] then [] else DataLines(ds[..|ds| - 1]) + [DataLine(ds[|ds| - 1])]
  }

  // ---------------------------------------------------------------- the file

  /** The ledger file: whether it exists, and its lines. */
  datatype FileState = FileState(fileExists: bool, lines: seq<string>)

  const Missing: FileState := FileState(false, [])

  /** A file that does not exist holds no lines. */
  predicate Consistent(f: FileState) {
    !f.fileExists ==> f.lines == []
  }

  /**
   * One call: the file exists afterwards; the header is appended exactly when it
   * did not exist before; then exactly one data line is appended.
   */
  function Append(f: FileState, d: Draft): (g: FileState)
    requires Writable(d)
    ensures g.fileExists && Consistent(g)
  {
    FileState(true, f.lines + (if f.fileExists then [] else [Header]) + [DataLine(d)])
  }

  /** A data line never reads as the header: it starts with ',' for an absent date and
      with a digit or a sign otherwise, the header with 'i'. */
  lemma DataLineIsNoHeader(d: Draft)
    requires Writable(d)
    ensures DataLine(d) != Header
  {
    var fs := Fields(d);
    assert DataLine(d) == fs[0] + "," + Join(fs[1..]);
    assert Header == "invoiceDate" + "," + Join(["metalType", "amountWithoutGst", "gstAmount", "totalAmount"]);
    assert Header[0] == 'i';
    if d.invoiceDate.Some? {
      RenderIsoStart(d.invoiceDate.value);
      assert DataLine(d)[0] == RenderIso(d.invoiceDate.value)[0];
    } else {
      assert DataLine(d)[0] == ',';
    }
  }

  /** One call keeps the old lines and adds the header exactly when the file did not
      exist, then one data line. */
  lemma HeaderIffMissing(f: FileState, d: Draft)
    requires Writable(d)
    ensures var g := Append(f, d).lines; |g| >= |f.lines| && g[..|f.lines|] == f.lines
    ensures var added := Append(f, d).lines[|f.lines|..];
      && |added| == (if f.fileExists then 1 else 2)
      && added[|added| - 1] == DataLine(d)
      && (Header in added <==> !f.fileExists)
  {
    var added := Append(f, d).lines[|f.lines|..];
    assert added == (if f.fileExists then [] else [Header]) + [DataLine(d)];
    DataLineIsNoHeader(d);
  }

  /** Several calls in sequence. */
  function AppendEach(f: FileState, ds: seq<Draft>): FileState
    requires AllWritable(ds)
  {
    if ds == [] then f else Append(AppendEach(f, ds[..|ds| - 1]), ds[|ds| - 1])
  }

  /** The ledger as the writer sees it. */
  class LedgerFile {
    var fileExists: bool
    var lines: seq<string>

    function State(): FileState
      reads this
    {
      FileState(fileExists, lines)
    }

    constructor (f: FileState)
      requires Consistent(f)
      ensures State() == f
    {
      fileExists, lines := f.fileExists, f.lines;
    }

    /** `appendInvoiceToCsv(dto)`: opens the file for appending, creating it if needed. */
    method AppendInvoiceToCsv(dto: InvoiceRequest)
      requires Writable(dto.Value())
      modifies this
      ensures State() == Append(old(State()), dto.Value())
    {
      var existed := fileExists;
      fileExists := true;
      if !existed {
        lines := lines + [Header];
      }
      var line := DataLine(dto.Value());
      lines := lines + [line];
    }
  }

  // ---------------------------------------------------------------- append-only

  lemma DataLinesSnoc(ds: seq<Draft>, d: Draft)
    requires AllWritable(ds) && Writable(d)
    ensures AllWritable(ds + [d])
    ensures DataLines(ds + [d]) == DataLines(ds) + [DataLine(d)]
  {
    assert (ds + [d])[..|ds|] == ds;
  }

  /** On a file that exists, calls append their data lines and nothing else. */
  lemma {:induction false} AppendEachExisting(f: FileState, ds: seq<Draft>)
    requires f.fileExists && AllWritable(ds)
    ensures AppendEach(f, ds) == FileState(true, f.lines + DataLines(ds))
  {
    if ds != [] {
      var init, d := ds[..|ds| - 1], ds[|ds| - 1];
      assert init + [d] == ds;
      AppendEachExisting(f, init);
      DataLinesSnoc(init, d);
      var g := AppendEach(f, init);
      LaterAppend(g, d);
      assert g.lines + [DataLine(d)] == f.lines + (DataLines(init) + [DataLine(d)]);
    }
  }

  /** On a missing file, n calls leave the header followed by the n data lines. */
  lemma {:induction false} AppendEachMissing(ds: seq<Draft>)
    requires AllWritable(ds) && ds != []
    ensures AppendEach(Missing, ds) == FileState(true, [Header] + DataLines(ds))
  {
    var init, d := ds[..|ds| - 1], ds[|ds| - 1];
    assert init + [d] == ds;
    DataLinesSnoc(init, d);
    if init == [] {
      assert AppendEach(Missing, init) == Missing;
      FirstAppend(d);
    } else {
      AppendEachMissing(init);
      var g := AppendEach(Missing, init);
      LaterAppend(g, d);
      assert g.lines + [DataLine(d)] == [Header] + (DataLines(init) + [DataLine(d)]);
    }
  }

  lemma FirstAppend(d: Draft)
    requires Writable(d)
    ensures Append(Missing, d) == FileState(true, [Header] + DataLines([d]))
  {
    assert DataLines([d]) == DataLines([]) + [DataLine(d)];
  }

  lemma LaterAppend(g: FileState, d: Draft)
    requires Writable(d) && g.fileExists
    ensures Append(g, d) == FileState(true, g.lines + [DataLine(d)])
  {
  }

  /** Existing lines are never changed: the old content is a prefix of the new. */
  lemma {:induction false} AppendOnly(f: FileState, ds: seq<Draft>)
    requires AllWritable(ds)
    ensures f.lines <= AppendEach(f, ds).lines
    ensures |AppendEach(f, ds).lines| == |f.lines| + |ds| + (if f.fileExists || ds == [] then 0 else 1)
  {
    if ds != [] {
      AppendOnly(f, ds[..|ds| - 1]);
      var g := AppendEach(f, ds[..|ds| - 1]);
      assert g.fileExists == (f.fileExists || |ds| > 1);
    }
  }

  // ---------------------------------------------------------------- columns

  /** The metal type, when present, has no comma. */
  predicate CommaFreeMetal(d: Draft) {
    d.metalType.Some? ==> ',' !in d.metalType.value
  }

  lemma FieldsCommaFree(d: Draft)
    requires Writable(d) && CommaFreeMetal(d)
    ensures forall k | 0 <= k < 5 :: ',' !in Fields(d)[k]
  {
    var fs := Fields(d);
    assert ',' !in fs[0] by { if d.invoiceDate.Some? { RenderIsoHasNoComma(d.invoiceDate.value); } }
    assert ',' !in fs[2] by { AmountFieldCommaFree(d.amountWithoutGst); }
    assert ',' !in fs[3] by { AmountFieldCommaFree(d.gstAmount); }
    assert ',' !in fs[4] by { AmountFieldCommaFree(d.totalAmount); }
  }

  lemma DateFieldCommaFree(x: Option<Date>)
    requires x.Some? ==> Valid(x.value)
    ensures ',' !in DateField(x)
  {
    if x.Some? { RenderIsoHasNoComma(x.value); }
  }

  lemma AmountFieldCommaFree(x: Option<Dec>)
    ensures ',' !in AmountField(x)
  {
    if x.Some? { RenderShape(x.value); }
  }

  /** Nothing is escaped: with a comma-free metal type the line splits back into its five
      fields in order. */
  lemma DataLineColumns(d: Draft)
    requires Writable(d) && CommaFreeMetal(d)
    ensures SplitAll(DataLine(d)) == Fields(d)
  {
    FieldsCommaFree(d);
    SplitJoin(Fields(d));
  }

  lemma {:induction false} CommaCountConcat(a: string, b: string)
    ensures CommaCount(a + b) == CommaCount(a) + CommaCount(b)
    decreases |a|
  {
    if a == [] {
      assert a + b == b;
    } else {
      assert (a + b)[1..] == a[1..] + b;
      CommaCountConcat(a[1..], b);
    }
  }

  lemma {:induction false} CommaCountOfComma(s: string)
    requires ',' in s
    ensures CommaCount(s) >= 1
    decreases |s|
  {
    if s[0] != ',' {
      assert ',' in s[1..] by { assert s == [s[0]] + s[1..]; }
      CommaCountOfComma(s[1..]);
    }
  }

  /** A metal type holding a comma turns the line into more than five raw fields. */
  lemma CommaInMetalAddsFields(d: Draft)
    requires Writable(d) && d.metalType.Some? && ',' in d.metalType.value
    ensures |SplitAll(DataLine(d))| >= 5 + CommaCount(d.metalType.value) > 5
  {
    var fs := Fields(d);
    var line := DataLine(d);
    var r3 := fs[3] + "," + fs[4];
    var r2 := fs[2] + "," + r3;
    var r1 := fs[1] + "," + r2;
    assert Join(fs[3..]) == r3 by { assert fs[3..][1..] == [fs[4]]; }
    assert Join(fs[2..]) == r2 by { assert fs[2..][1..] == fs[3..]; }
    assert Join(fs[1..]) == r1 by { assert fs[1..][1..] == fs[2..]; }
    assert line == fs[0] + "," + r1;
    CommaCountConcat(fs[0] + ",", r1);
    CommaCountConcat(fs[0], ",");
    CommaCountConcat(fs[1] + ",", r2);
    CommaCountConcat(fs[1], ",");
    CommaCountConcat(fs[2] + ",", r3);
    CommaCountConcat(fs[2], ",");
    CommaCountConcat(fs[3] + ",", fs[4]);
    CommaCountConcat(fs[3], ",");
    CommaCountOfComma(d.metalType.value);
    SplitAllLength(line);
  }

  // ---------------------------------------------------------------- reading the ledger back

  /**
   * What the CSV parser can read back exactly: a four-digit year, a metal type
   * without a comma and already trimmed, and amounts `toString` writes without
   * an exponent.
   */
  predicate ReadsBack(d: Draft) {
    && Writable(d)
    && (d.invoiceDate.Some? ==> 0 <= d.invoiceDate.value.year <= 9999)
    && CommaFreeMetal(d)
    && (d.metalType.Some? ==> Trim(d.metalType.value) == d.metalType.value)
    && (d.amountWithoutGst.Some? ==> !UsesExponent(d.amountWithoutGst.value))
    && (d.gstAmount.Some? ==> !UsesExponent(d.gstAmount.value))
    && (d.totalAmount.Some? ==> !UsesExponent(d.totalAmount.value))
  }

  /** The draft the parser reads from a ledger line: the line has no user id, and an
      absent metal type comes back as the empty text. */
  function Reread(d: Draft): Draft {
    d.(userId := None, metalType := Some(TextField(d.metalType)))
  }

  /** The drafts a re-read yields: one per draft with a total, in order. */
  function RereadAll(ds: seq<Draft>): seq<Draft> {
    if ds == [] then []
    else RereadAll(ds[..|ds| - 1]) + (if ds[|ds| - 1].totalAmount.Some? then [Reread(ds[|ds| - 1])] else [])
  }

  lemma AmountFieldReadsBack(x: Option<Dec>)
    requires x.Some? ==> !UsesExponent(x.value)
    ensures AmountColumn(AmountField(x)) == x
  {
    if x.Some? {
      ParseSafeOfRender(x.value);
    } else {
      assert Cleaned("") == [];
    }
  }

  /** The date column of a ledger line is no user id and reads back as the date. */
  lemma DateFieldReadsBack(x: Option<Date>)
    requires x.Some? ==> Valid(x.value) && 0 <= x.value.year <= 9999
    ensures UserIdColumn(DateField(x)).None?
    ensures DateColumn(DateField(x), CsvFormatters) == x
  {
    if x.Some? {
      var s := RenderIso(x.value);
      RenderIsoRoundTrip(x.value);
      assert IsDigit(s[0]) && IsDigit(s[9]);
      TrimOfTrimmed(s);
      DateIsNotUserId(s);
      CsvDateLayouts(s);
    } else {
      assert Trim("") == "";
      CsvDateLayouts("");
    }
  }

  /** Every field of a line with a total is read back into its own place. */
  lemma RowReadsBack(d: Draft)
    requires ReadsBack(d) && d.totalAmount.Some?
    ensures RowOf(Fields(d), CsvFormatters) == Reread(d)
  {
    var fs := Fields(d);
    DateFieldReadsBack(d.invoiceDate);
    assert Trim(fs[1]) == fs[1];
    AmountFieldReadsBack(d.amountWithoutGst);
    AmountFieldReadsBack(d.gstAmount);
    AmountFieldReadsBack(d.totalAmount);
  }

  /**
   * A ledger line fed to the CSV parser yields the draft it was written from
   * (without its user id) when it has a total, and nothing when the total is
   * absent: the line then ends in ',' and splits into fewer than five parts.
   */
  lemma LineReadsBack(d: Draft)
    requires ReadsBack(d)
    ensures LineRecords(DataLine(d)) == if d.totalAmount.Some? then [Reread(d)] else []
  {
    var fs := Fields(d);
    var line := DataLine(d);
    DataLineColumns(d);
    assert line == fs[0] + "," + Join(fs[1..]);
    assert line[|fs[0]|] == ',';
    BlankIffAllTrimmable(line);
    assert !IsBlank(line);
    assert Split(line) == DropTrailingEmpty(fs);
    if d.totalAmount.Some? {
      RenderShape(d.totalAmount.value);
      assert DropTrailingEmpty(fs) == fs;
      RowReadsBack(d);
    } else {
      assert fs[4] == "";
      assert |Split(line)| < 5;
    }
  }

  lemma {:induction false} DataLinesReadBack(ds: seq<Draft>)
    requires forall i | 0 <= i < |ds| :: ReadsBack(ds[i])
    ensures AllWritable(ds)
    ensures Records(DataLines(ds)) == RereadAll(ds)
  {
    if ds != [] {
      var init, d := ds[..|ds| - 1], ds[|ds| - 1];
      DataLinesReadBack(init);
      LineReadsBack(d);
      RecordsSnoc(DataLines(init), DataLine(d));
    }
  }

  /**
   * Round trip: a ledger written from scratch and handed back to `parseCsv` has
   * its header skipped and yields, in order, one draft per written draft that
   * had a total, equal to it but for the user id.
   */
  lemma LedgerReadsBack(ds: seq<Draft>)
    requires ds != [] && forall i | 0 <= i < |ds| :: ReadsBack(ds[i])
    ensures AllWritable(ds)
    ensures CsvRecords(AppendEach(Missing, ds).lines) == RereadAll(ds)
  {
    DataLinesReadBack(ds);
    AppendEachMissing(ds);
    HeaderIsSkipped(Header, DataLines(ds));
  }
}
