/**
 * The orchestration in `InvoiceServiceImpl`: how an upload is classified and
 * which parsed draft is saved and written to the ledger, the revenue summary,
 * and the per-user listing sorted by date with undated invoices last. The
 * repository is replaced by the sequences its queries would return.
 */
module Service {
  import opened Common
  import opened Decimal
  import opened Dates
  import opened Invoice
  import opened CsvParser
  import opened TextExtract
  import opened Ledger

  // ---------------------------------------------------------------- classification

  /**
   * An uploaded file: its original name and content type (each possibly null),
   * the lines a reader yields from its bytes, and the text the PDF stripper
   * yields from them. Decoding the bytes either way is not part of this model.
   */
  datatype Upload = Upload(filename: Option<string>, contentType: Option<string>, csvLines: seq<string>, pdfText: string)

  /** The lower-cased name or content type, "" for null. */
  function LowerOrEmpty(x: Option<string>): string {
    if x.Some? then Lower(x.value) else ""
  }

  /** The upload is read as CSV when its content type mentions "csv" or its name ends in ".csv", in any case. */
  predicate IsCsvUpload(u: Upload)
    ensures u.filename.None? && u.contentType.None? ==> !IsCsvUpload(u)
  {
    Contains(LowerOrEmpty(u.contentType), "csv") || EndsWith(LowerOrEmpty(u.filename), ".csv")
  }

  /** `parseFileToInvoices`: the CSV records, or the one draft read from the PDF text. */
  function FileInvoices(u: Upload): seq<Draft> {
    if IsCsvUpload(u) then CsvRecords(u.csvLines) else [ParseText(u.pdfText)]
  }

  method ParseFileToInvoices(u: Upload) returns (ds: seq<Draft>)
    ensures ds == FileInvoices(u)
  {
    var filename := LowerOrEmpty(u.filename);
    var contentType := LowerOrEmpty(u.contentType);
    if Contains(contentType, "csv") || EndsWith(filename, ".csv") {
      ds := ParseCsv(u.csvLines);
      return;
    }
    var parsed := ParseText(u.pdfText);
    ds := [parsed];
  }

  /** Lower-casing is character by character, so it distributes over concatenation. */
  lemma LowerConcat(a: string, b: string)
    ensures Lower(a + b) == Lower(a) + Lower(b)
  {
    assert forall k | 0 <= k < |a + b| :: Lower(a + b)[k] == (Lower(a) + Lower(b))[k] by {
      forall k | 0 <= k < |a + b| ensures Lower(a + b)[k] == (Lower(a) + Lower(b))[k] {
        if k < |a| { assert (a + b)[k] == a[k]; } else { assert (a + b)[k] == b[k - |a|]; }
      }
    }
  }

  /** A name ending in ".csv", however it is capitalised, makes a CSV upload whatever the content type. */
  lemma CsvByExtension(u: Upload, base: string, ext: string)
    requires u.filename == Some(base + ext) && Lower(ext) == ".csv"
    ensures IsCsvUpload(u)
    ensures FileInvoices(u) == CsvRecords(u.csvLines)
  {
    LowerConcat(base, ext);
    var l := Lower(base) + Lower(ext);
    assert l[|l| - 4..] == Lower(ext);
  }

  /** A content type mentioning "csv", however it is capitalised, makes a CSV upload whatever
      the name, so "text/CSV" with a ".pdf" name is read as CSV. */
  lemma CsvByContentType(u: Upload, pre: string, mid: string, post: string)
    requires u.contentType == Some(pre + mid + post) && Lower(mid) == "csv"
    ensures IsCsvUpload(u)
    ensures FileInvoices(u) == CsvRecords(u.csvLines)
  {
    LowerConcat(pre + mid, post);
    LowerConcat(pre, mid);
    ContainsInfix(Lower(pre), "csv", Lower(post));
  }

  /** Anything not classified as CSV is parsed as one PDF invoice, which never carries a user id. */
  lemma PdfUploadIsOneDraft(u: Upload)
    requires !IsCsvUpload(u)
    ensures |FileInvoices(u)| == 1
    ensures FileInvoices(u)[0] == ParseText(u.pdfText) && FileInvoices(u)[0].userId.None?
  {
  }

  /** Every draft the parsers produce holds a calendar date or none. */
  lemma {:induction false} RecordsWritable(lines: seq<string>)
    ensures AllWritable(Records(lines))
  {
    if lines != [] {
      RecordsWritable(lines[..|lines| - 1]);
      var line := lines[|lines| - 1];
      if LineRecords(line) != [] {
        var parts := Split(line);
        var d := RowOf(parts, CsvFormatters);
        var off := if UserIdColumn(parts[0]).Some? then 1 else 0;
        assert d.invoiceDate == FirstParse(Trim(parts[off]), CsvFormatters);
      }
    }
  }

  lemma FileInvoicesWritable(u: Upload)
    ensures AllWritable(FileInvoices(u))
  {
    if IsCsvUpload(u) {
      if u.csvLines != [] {
        RecordsWritable(u.csvLines[1..]);
      }
    }
  }

  // ---------------------------------------------------------------- upload

  /** The draft the upload keeps: the first one parsed, with the caller's user id when given. */
  function Chosen(ds: seq<Draft>, userId: Option<Long>): (d: Draft)
    requires ds != []
    ensures d.(userId := ds[0].userId) == ds[0]
    ensures d.userId == if userId.Some? then userId else ds[0].userId
  {
    if userId.Some? then ds[0].(userId := userId) else ds[0]
  }

  /** What `uploadInvoice` saves and writes to the ledger. */
  function Uploaded(ds: seq<Draft>, userId: Option<Long>): (d: Draft)
    requires ds != []
    ensures d.gstAmount.Some? && d.totalAmount.Some? ==> d.amountWithoutGst.Some?
    ensures ds[0].amountWithoutGst.Some? ==> d.amountWithoutGst == ds[0].amountWithoutGst
  {
    Backfill(Chosen(ds, userId))
  }

  /** The saved invoice, or the error raised when the file yields no invoice. */
  datatype Outcome = Saved(invoice: Draft) | NoInvoiceData

  /**
   * `uploadInvoice(file, userId)`: parse, refuse an empty result, take the first
   * draft, let a given user id override the parsed one, backfill, then append
   * the result to the ledger. Saving to the store is returned rather than
   * performed.
   */
  method UploadInvoice(u: Upload, userId: Option<Long>, ledger: LedgerFile) returns (r: Outcome)
    modifies ledger
    ensures FileInvoices(u) == [] ==> r == NoInvoiceData && ledger.State() == old(ledger.State())
    ensures FileInvoices(u) != [] ==>
      && r == Saved(Uploaded(FileInvoices(u), userId))
      && Writable(r.invoice)
      && ledger.State() == Append(old(ledger.State()), r.invoice)
  {
    var requestDtos := ParseFileToInvoices(u);
    if |requestDtos| == 0 {
      return NoInvoiceData;
    }
    FileInvoicesWritable(u);
    var dto := new InvoiceRequest.Of(requestDtos[0]);
    if userId.Some? {
      dto.userId := userId;
    }
    BackfillAmounts(dto);
    ledger.AppendInvoiceToCsv(dto);
    r := Saved(dto.Value());
  }

  /**
   * Of all the drafts only the first counts: the saved invoice has its fields,
   * the caller's user id when one is given (the parsed one otherwise), and the
   * backfilled net amount.
   */
  lemma UploadedFields(ds: seq<Draft>, userId: Option<Long>)
    requires ds != []
    ensures Uploaded(ds, userId).userId == if userId.Some? then userId else ds[0].userId
    ensures Uploaded(ds, userId).invoiceDate == ds[0].invoiceDate
    ensures Uploaded(ds, userId).metalType == ds[0].metalType
    ensures Uploaded(ds, userId).gstAmount == ds[0].gstAmount
    ensures Uploaded(ds, userId).totalAmount == ds[0].totalAmount
    ensures Uploaded(ds, userId).amountWithoutGst == Backfill(ds[0]).amountWithoutGst
    ensures forall k | 1 <= k < |ds| :: Uploaded(ds, userId) == Uploaded([ds[0]] + ds[k..], userId)
  {
  }

  // ---------------------------------------------------------------- revenue summary

  function TotalOf(d: Draft): Option<Dec> { d.totalAmount }
  function GstOf(d: Draft): Option<Dec> { d.gstAmount }

  /** The amounts `f` picks, nulls skipped, added up from zero in order (`filter` then `reduce(ZERO, add)`). */
  function SumOf(invoices: seq<Draft>, f: Draft -> Option<Dec>): (r: Dec)
    ensures (forall k | 0 <= k < |invoices| :: f(invoices[k]).None?) ==> r == Zero
    ensures forall k | 0 <= k < |invoices| && f(invoices[k]).Some? :: f(invoices[k]).value.scale <= r.scale
  {
    if invoices == [] then Zero
    else
      var rest := SumOf(invoices[..|invoices| - 1], f);
      match f(invoices[|invoices| - 1])
      case Some(a) => Add(rest, a)
      case None => rest
  }

  /** An invoice enters the monthly and yearly maps only with both a date and a total. */
  predicate Counted(d: Draft) {
    d.invoiceDate.Some? && d.totalAmount.Some?
  }

  function MonthOf(d: Date): int { d.month }
  function YearOf(d: Date): int { d.year }

  /** `map.merge(k, v, BigDecimal::add)`. */
  function Merge(m: map<int, Dec>, k: int, v: Dec): (r: map<int, Dec>)
    ensures r.Keys == m.Keys + {k}
  {
    if k in m then m[k := Add(m[k], v)] else m[k := v]
  }

  /** The totals of the counted invoices merged under `key` of their dates, in order. */
  function RevenueBy(invoices: seq<Draft>, key: Date -> int): (r: map<int, Dec>)
    ensures (forall i | 0 <= i < |invoices| :: !Counted(invoices[i])) ==> r == map[]
  {
    if invoices == [] then map[]
    else
      var m := RevenueBy(invoices[..|invoices| - 1], key);
      var d := invoices[|invoices| - 1];
      if Counted(d) then Merge(m, key(d.invoiceDate.value), d.totalAmount.value) else m
  }

  datatype Summary = Summary(totalRevenue: Dec, totalGst: Dec, monthlyRevenue: map<int, Dec>, yearlyRevenue: map<int, Dec>)

  /** `getRevenueSummary` over the invoices `findAll` returns. */
  method GetRevenueSummary(invoices: seq<Draft>) returns (summary: Summary)
    ensures summary.totalRevenue == SumOf(invoices, TotalOf)
    ensures summary.totalGst == SumOf(invoices, GstOf)
    ensures summary.monthlyRevenue == RevenueBy(invoices, MonthOf)
    ensures summary.yearlyRevenue == RevenueBy(invoices, YearOf)
  {
    var totalRevenue := SumOf(invoices, TotalOf);
    var totalGst := SumOf(invoices, GstOf);
    var monthlyRevenue: map<int, Dec> := map[];
    var yearlyRevenue: map<int, Dec> := map[];
    var i := 0;
    while i < |invoices|
      invariant 0 <= i <= |invoices|
      invariant monthlyRevenue == RevenueBy(invoices[..i], MonthOf)
      invariant yearlyRevenue == RevenueBy(invoices[..i], YearOf)
    {
      var invoice := invoices[i];
      assert invoices[..i + 1][..i] == invoices[..i];
      i := i + 1;
      if invoice.invoiceDate.None? || invoice.totalAmount.None? {
        continue;
      }
      var month := invoice.invoiceDate.value.month;
      var year := invoice.invoiceDate.value.year;
      monthlyRevenue := Merge(monthlyRevenue, month, invoice.totalAmount.value);
      yearlyRevenue := Merge(yearlyRevenue, year, invoice.totalAmount.value);
    }
    assert invoices[..i] == invoices;
    summary := Summary(totalRevenue, totalGst, monthlyRevenue, yearlyRevenue);
  }

  /** A map that is not empty has a key. */
  lemma EmptyOrKeyed(m: map<int, Dec>)
    ensures m == map[] || exists k :: k in m
  {
    if forall k :: k !in m {
      assert m == map[];
    }
  }

  /** The values of a map added up; the order does not matter, as the lemmas below show. */
  ghost function MapTotal(m: map<int, Dec>): Dec
    decreases |m.Keys|
  {
    if m == map[] then Zero
    else
      EmptyOrKeyed(m);
      var k :| k in m;
      Add(m[k], MapTotal(m - {k}))
  }

  lemma AddSwap(a: Dec, b: Dec, c: Dec)
    ensures Add(a, Add(b, c)) == Add(b, Add(a, c))
  {
    AddAssociates(a, b, c);
    AddCommutes(a, b);
    AddAssociates(b, a, c);
  }

  /** Any key may be taken out first. */
  lemma {:induction false} MapTotalRemove(m: map<int, Dec>, k: int)
    requires k in m
    ensures MapTotal(m) == Add(m[k], MapTotal(m - {k}))
    decreases |m.Keys|
  {
    var j :| j in m && MapTotal(m) == Add(m[j], MapTotal(m - {j}));
    if j != k {
      MapTotalRemove(m - {j}, k);
      MapTotalRemove(m - {k}, j);
      assert m - {j} - {k} == m - {k} - {j};
      AddSwap(m[j], m[k], MapTotal(m - {j} - {k}));
    }
  }

  /** Merging an amount into a map adds it to the map's total. */
  lemma MergeTotal(m: map<int, Dec>, k: int, v: Dec)
    ensures MapTotal(Merge(m, k, v)) == Add(MapTotal(m), v)
  {
    var r := Merge(m, k, v);
    MapTotalRemove(r, k);
    assert r - {k} == m - {k};
    if k in m {
      MapTotalRemove(m, k);
      AddAssociates(m[k], v, MapTotal(m - {k}));
      AddCommutes(v, MapTotal(m - {k}));
      AddAssociates(m[k], MapTotal(m - {k}), v);
    } else {
      assert m - {k} == m;
      AddCommutes(v, MapTotal(m));
    }
  }

  /** The total of a counted invoice; nothing for the others. */
  function CountedTotal(d: Draft): Option<Dec> {
    if Counted(d) then d.totalAmount else None
  }

  /**
   * Whatever the key, the map's values add up to the totals of the counted
   * invoices: in particular the monthly and the yearly revenue agree.
   */
  lemma {:induction false} RevenueByTotal(invoices: seq<Draft>, key: Date -> int)
    ensures MapTotal(RevenueBy(invoices, key)) == SumOf(invoices, CountedTotal)
  {
    if invoices == [] {
      assert RevenueBy(invoices, key) == map[];
    } else {
      var init, d := invoices[..|invoices| - 1], invoices[|invoices| - 1];
      RevenueByTotal(init, key);
      if Counted(d) {
        MergeTotal(RevenueBy(init, key), key(d.invoiceDate.value), d.totalAmount.value);
      }
    }
  }

  lemma MonthlyMatchesYearly(invoices: seq<Draft>)
    ensures MapTotal(RevenueBy(invoices, MonthOf)) == MapTotal(RevenueBy(invoices, YearOf))
    ensures MapTotal(RevenueBy(invoices, MonthOf)) == SumOf(invoices, CountedTotal)
  {
    RevenueByTotal(invoices, MonthOf);
    RevenueByTotal(invoices, YearOf);
  }

  /** When every invoice with a total is dated, the maps account for the whole revenue. */
  lemma {:induction false} AllDatedCounted(invoices: seq<Draft>)
    requires forall i | 0 <= i < |invoices| :: invoices[i].totalAmount.Some? ==> invoices[i].invoiceDate.Some?
    ensures SumOf(invoices, CountedTotal) == SumOf(invoices, TotalOf)
  {
    if invoices != [] {
      AllDatedCounted(invoices[..|invoices| - 1]);
    }
  }

  /** A key appears in the map exactly when some counted invoice's date has it. */
  lemma {:induction false} RevenueByKeys(invoices: seq<Draft>, key: Date -> int, k: int)
    ensures k in RevenueBy(invoices, key) <==>
      exists i | 0 <= i < |invoices| :: Counted(invoices[i]) && key(invoices[i].invoiceDate.value) == k
  {
    if invoices != [] {
      var init := invoices[..|invoices| - 1];
      RevenueByKeys(init, key, k);
      assert forall i | 0 <= i < |init| :: init[i] == invoices[i];
    }
  }

  /** The total of a counted invoice whose date has key `k`. */
  function KeyedTotal(key: Date -> int, k: int, d: Draft): Option<Dec> {
    if Counted(d) && key(d.invoiceDate.value) == k then d.totalAmount else None
  }

  /** A map entry is the sum of the totals of the counted invoices with that key. */
  lemma {:induction false} RevenueByEntry(invoices: seq<Draft>, key: Date -> int, k: int)
    ensures k in RevenueBy(invoices, key) ==>
      RevenueBy(invoices, key)[k] == SumOf(invoices, (d: Draft) => KeyedTotal(key, k, d))
    ensures k !in RevenueBy(invoices, key) ==> SumOf(invoices, (d: Draft) => KeyedTotal(key, k, d)) == Zero
  {
    if invoices != [] {
      var init, d := invoices[..|invoices| - 1], invoices[|invoices| - 1];
      RevenueByEntry(init, key, k);
      if Counted(d) && key(d.invoiceDate.value) == k && k !in RevenueBy(init, key) {
        AddZero(d.totalAmount.value);
      }
    }
  }

  /** Months of calendar dates run from 1 to 12. */
  lemma {:induction false} MonthKeys(invoices: seq<Draft>)
    requires AllWritable(invoices)
    ensures forall k | k in RevenueBy(invoices, MonthOf) :: 1 <= k <= 12
  {
    if invoices != [] {
      MonthKeys(invoices[..|invoices| - 1]);
    }
  }

  /** Each invoice opens at most one entry: a map never has more keys than there are invoices. */
  lemma {:induction false} RevenueBySize(invoices: seq<Draft>, key: Date -> int)
    ensures |RevenueBy(invoices, key)| <= |invoices|
  {
    if invoices != [] {
      var rest := invoices[..|invoices| - 1];
      RevenueBySize(rest, key);
      var d := invoices[|invoices| - 1];
      if Counted(d) {
        var m := RevenueBy(rest, key);
        var k := key(d.invoiceDate.value);
        assert |m.Keys + {k}| <= |m.Keys| + 1;
      }
    }
  }

  // ---------------------------------------------------------------- per-user listing

  /** The listing's comparator: by date, a null date after every date, two nulls equal. */
  function CompareByDate(a: Draft, b: Draft): (c: int)
    ensures c == 0 <==> a.invoiceDate == b.invoiceDate
    ensures a.invoiceDate.None? && b.invoiceDate.Some? ==> c > 0
    ensures a.invoiceDate.Some? && b.invoiceDate.Some? ==> (c < 0 <==> Before(a.invoiceDate.value, b.invoiceDate.value))
  {
    if a.invoiceDate.None? && b.invoiceDate.None? then 0
    else if a.invoiceDate.None? then 1
    else if b.invoiceDate.None? then -1
    else CompareDates(a.invoiceDate.value, b.invoiceDate.value)
  }

  predicate InOrder(a: Draft, b: Draft) {
    CompareByDate(a, b) <= 0
  }

  /** The comparator is a total preorder, as `List.sort` demands. */
  lemma ComparatorContract(a: Draft, b: Draft, c: Draft)
    ensures CompareByDate(a, b) < 0 <==> CompareByDate(b, a) > 0
    ensures CompareByDate(a, b) == 0 <==> CompareByDate(b, a) == 0
    ensures InOrder(a, b) || InOrder(b, a)
    ensures InOrder(a, b) && InOrder(b, c) ==> InOrder(a, c)
  {
  }

  predicate SortedByDate(s: seq<Draft>) {
    forall p, q | 0 <= p < q < |s| :: InOrder(s[p], s[q])
  }

  /** Sorted for the comparator: dated invoices first, in calendar order, then the undated ones. */
  lemma SortedMeans(s: seq<Draft>, p: nat, q: nat)
    requires SortedByDate(s) && p < q < |s|
    ensures s[p].invoiceDate.None? ==> s[q].invoiceDate.None?
    ensures s[p].invoiceDate.Some? && s[q].invoiceDate.Some? ==>
      !Before(s[q].invoiceDate.value, s[p].invoiceDate.value)
  {
    assert InOrder(s[p], s[q]);
  }

  /** Everything in `a[lo..hi]` except the element at `j` is in order. */
  ghost predicate SortedExcept(a: seq<Draft>, hi: nat, j: nat)
    requires hi <= |a|
  {
    forall p, q | 0 <= p < q < hi && p != j && q != j :: InOrder(a[p], a[q])
  }

  /** Insertion sort: `invoices.sort(comparator)` in place. */
  method SortByDate(a: array<Draft>)
    modifies a
    ensures SortedByDate(a[..])
    ensures multiset(a[..]) == multiset(old(a[..]))
  {
    var i := 0;
    while i < a.Length
      invariant 0 <= i <= a.Length
      invariant SortedByDate(a[..i])
      invariant multiset(a[..]) == multiset(old(a[..]))
    {
      InsertLast(a, i);
      i := i + 1;
    }
    assert a[..a.Length] == a[..];
  }

  /** Moves `a[i]` left until the prefix `a[..i + 1]` is in order. */
  method InsertLast(a: array<Draft>, i: nat)
    requires i < a.Length && SortedByDate(a[..i])
    modifies a
    ensures SortedByDate(a[..i + 1])
    ensures multiset(a[..]) == multiset(old(a[..]))
  {
    var j := i;
    while j > 0 && !InOrder(a[j - 1], a[j])
      invariant 0 <= j <= i
      invariant SortedExcept(a[..], i + 1, j)
      invariant forall q | j < q <= i :: InOrder(a[j], a[q])
      invariant multiset(a[..]) == multiset(old(a[..]))
    {
      SwapDown(a, i, j);
      j := j - 1;
    }
    Settled(a[..], i, j);
  }

  method SwapDown(a: array<Draft>, i: nat, j: nat)
    requires 0 < j <= i < a.Length && !InOrder(a[j - 1], a[j])
    requires SortedExcept(a[..], i + 1, j)
    requires forall q | j < q <= i :: InOrder(a[j], a[q])
    modifies a
    ensures SortedExcept(a[..], i + 1, j - 1)
    ensures forall q | j - 1 < q <= i :: InOrder(a[j - 1], a[q])
    ensures multiset(a[..]) == multiset(old(a[..]))
  {
    ghost var s := a[..];
    a[j - 1], a[j] := a[j], a[j - 1];
    assert a[..] == s[j - 1 := s[j]][j := s[j - 1]];
    forall q | j < q <= i ensures InOrder(s[j - 1], s[q]) {
      assert InOrder(s[j - 1], s[q]);
    }
    forall q | j - 1 < q <= i ensures InOrder(a[j - 1], a[q]) {
      if q > j {
        ComparatorContract(s[j], s[j - 1], s[q]);
      } else {
        ComparatorContract(s[j], s[j - 1], s[j - 1]);
      }
    }
  }

  /** Once the moving element is in order with its left neighbour, the whole prefix is. */
  lemma Settled(a: seq<Draft>, i: nat, j: nat)
    requires j <= i < |a|
    requires SortedExcept(a, i + 1, j)
    requires forall q | j < q <= i :: InOrder(a[j], a[q])
    requires j == 0 || InOrder(a[j - 1], a[j])
    ensures SortedByDate(a[..i + 1])
  {
    forall p, q | 0 <= p < q < i + 1 ensures InOrder(a[p], a[q]) {
      if p == j {
      } else if q == j {
        ComparatorContract(a[p], a[j - 1], a[j]);
      }
    }
  }

  /** `getInvoicesForUser`: the invoices `findByUserId` returns, sorted by date with nulls last. */
  method GetInvoicesForUser(fetched: seq<Draft>) returns (r: seq<Draft>)
    ensures SortedByDate(r)
    ensures multiset(r) == multiset(fetched)
  {
    var invoices := new Draft[|fetched|](k requires 0 <= k < |fetched| => fetched[k]);
    assert invoices[..] == fetched;
    SortByDate(invoices);
    r := invoices[..];
  }
}
