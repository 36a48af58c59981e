# AURA invoice ingestion, modelled in Dafny

AURA takes gold and silver purchase invoices, uploaded as a CSV file or as a PDF. It turns each upload into an invoice record and stores it. Each saved invoice is also appended to a CSV ledger file. The service also reports revenue totals and lists a user's invoices by date.

This project models the core of that pipeline and proves properties of it:

- **CSV reader** (`CsvParser`): `InvoiceServiceImpl.parseCsv`, `parseDateFlexible` and `parseBigDecimalSafe`.
  - The header line is skipped. Blank lines and lines of fewer than five parts are dropped.
  - A leading column that reads as a Java `long` is the user id, and it shifts the other five columns one place to the right.
  - A row is filled field by field behind a moving cursor.
- **Text extractor** (`TextExtract`): `PdfParserServiceImpl.parseText` and its five `extract*` functions.
  - Each regular expression becomes a scanner that tries one start position. A generic leftmost search plays the part of `Matcher.find`.
  - The three amount extractors share one clean-up step: delete ',', then keep only digits and '.'.
- **Amount backfill** (`Invoice`): `backfillAmounts`, on the request object updated in place.
- **Orchestration** (`Service`):
  - how an upload is classified as CSV or PDF;
  - which parsed draft is saved and written;
  - the revenue summary with its monthly and yearly maps;
  - the per-user list, sorted in place by date with undated invoices last.
- **Ledger writer** (`Ledger`): `CsvWriterUtil.appendInvoiceToCsv`.
  - It is a class holding an existence flag and the file's lines.
  - The header is written on the first write. Each later call adds one comma-joined line, with no escaping.
  - A ledger file read back by the CSV reader gives back the invoices written, under conditions the lemmas state.

Supporting modules:

- `Decimal`: `BigDecimal` as an unscaled integer and a scale. Covers addition, subtraction, the literal parser (no exponent) and `toString`.
- `Dates`: `LocalDate` as year, month and day with a validity predicate.
  - `dd/MM/yyyy` uses the SMART resolver, which clamps the day to the month's length.
  - `ISO_LOCAL_DATE` is STRICT.
  - Also `toString` and `compareTo`.
- `Common`: `trim`, `split(",")` with its dropping of trailing empty parts, ASCII lower-casing, and decimal numerals.

What the model takes as inputs:

- The repository is replaced by the sequences its queries return. The invoice that would be saved is returned.
- An uploaded file is its metadata, its lines (CSV) and its decoded text (PDF).

Behaviour of the code worth noting (the model follows the code in each case):

- **CSV amounts.** `parseBigDecimalSafe` (`InvoiceServiceImpl.java:254`) trims and deletes commas only, so a currency symbol makes a CSV amount absent (`CsvParser.ParseSafeRefusesCurrency`). Only the text extractors delete every character other than a digit or '.' (`PdfParserServiceImpl.java:138`).
- **Comma separators in extracted amounts.** The amount patterns accept ',' as the separator (`PdfParserServiceImpl.java:134`), and line 137 deletes it before `new BigDecimal` at line 140. So "GST(3%) 29,13" gives 2913, not 29.13; the example in the comment at line 133 uses a '.' (`TextExtract.GstOfLabel` with `sep == ','`). The same holds for the line amount and the total.
- **Amounts written to the ledger.** `CsvWriterUtil.java:39-41` format each amount with `%s`, that is `BigDecimal.toString`, which uses the scientific form for very small values ("1.5E-7"). A ledger amount is therefore not always in plain form, and such an amount in a CSV file would be read as absent by this model (`Decimal.Render`, `Decimal.ParseLiteral` under "Left out").

## Model

Source paths are relative to the repository root.

| member | source | states |
|---|---|---|
| Common.Trim | src/main/java/com/aura/app/service/impl/InvoiceServiceImpl.java:182 | `trim` never lengthens a text and leaves no character up to U+0020 at either end |
| Common.Split | src/main/java/com/aura/app/service/impl/InvoiceServiceImpl.java:186 | `split(",")` gives comma-free parts: a prefix of the raw parts with only empty ones dropped, at most one more part than commas, and no empty last part when the text has a comma |
| CsvParser.ParseLong | src/main/java/com/aura/app/service/impl/InvoiceServiceImpl.java:198 | `Long.parseLong`: a result needs a non-empty text with at least one character after an optional sign; a text starting with '-' gives a value of at most 0, any other a value of at least 0 |
| CsvParser.ParseLongAccepts | src/main/java/com/aura/app/service/impl/InvoiceServiceImpl.java:198 | an accepted text is an optional sign and ASCII digits, and the result is their signed value |
| CsvParser.ParseLongOfNumeral | src/main/java/com/aura/app/service/impl/InvoiceServiceImpl.java:198-199 | the numeral of n reads back as n exactly when n fits in a `long`, and is refused otherwise |
| CsvParser.ParseLongOfNegative | src/main/java/com/aura/app/service/impl/InvoiceServiceImpl.java:198-199 | "-" followed by a numeral reads back down to -2^63 and is refused below it |
| CsvParser.ParseLongRejects | src/main/java/com/aura/app/service/impl/InvoiceServiceImpl.java:198-202 | a character that is neither a digit nor a leading sign makes the column no user id |
| CsvParser.DateIsNotUserId | src/main/java/com/aura/app/service/impl/InvoiceServiceImpl.java:195-203 | a yyyy-MM-dd or dd/MM/yyyy first column is never taken for a user id |
| CsvParser.ParseBigDecimalSafe | src/main/java/com/aura/app/service/impl/InvoiceServiceImpl.java:250-263 | null for null and for a text that is empty once trimmed and stripped of commas; otherwise exactly the literal value of that cleaned text, null when it is no literal |
| CsvParser.Cleaned | src/main/java/com/aura/app/service/impl/InvoiceServiceImpl.java:254 | the text `new BigDecimal` receives holds no comma, is no longer than the input, and is empty for a blank input |
| CsvParser.ParseSafeWithPoint | src/main/java/com/aura/app/service/impl/InvoiceServiceImpl.java:250-263 | blank padding, an optional sign, digits, '.', digits (at least one digit) read as the signed digits at the scale of the fraction digits: " +5.0 " gives 5.0, ".5" gives 0.5 |
| CsvParser.ParseSafeWithoutPoint | src/main/java/com/aura/app/service/impl/InvoiceServiceImpl.java:250-263 | blank padding, an optional sign and digits read as that integer at scale 0 |
| CsvParser.ParseSafeOfRender | src/main/java/com/aura/app/service/impl/InvoiceServiceImpl.java:250-263 | the `toString` of any decimal outside the exponent range reads back as that same decimal, scale included |
| CsvParser.ParseSafeIgnoresComma | src/main/java/com/aura/app/service/impl/InvoiceServiceImpl.java:254 | a comma inside the text changes nothing: "1,000.50" reads like "1000.50" |
| CsvParser.CleanedIgnoresComma | src/main/java/com/aura/app/service/impl/InvoiceServiceImpl.java:254 | the cleaned text is the same with or without an inner comma |
| CsvParser.ParseSafeByCleaned | src/main/java/com/aura/app/service/impl/InvoiceServiceImpl.java:254-262 | the result depends on the cleaned text alone |
| CsvParser.ParseSafeRefusesCurrency | src/main/java/com/aura/app/service/impl/InvoiceServiceImpl.java:254-261 | a leading ₹, $, € or £ makes the amount absent: the parser does not strip currency symbols |
| CsvParser.FirstParse | src/main/java/com/aura/app/service/impl/InvoiceServiceImpl.java:240-247 | the result of trying the formatters in order is always a valid calendar date |
| CsvParser.ParseDateFlexible | src/main/java/com/aura/app/service/impl/InvoiceServiceImpl.java:240-248 | the early-return loop gives the first formatter's success, or absent |
| CsvParser.FirstParseIsFirst | src/main/java/com/aura/app/service/impl/InvoiceServiceImpl.java:241-245 | when formatter i is the first that succeeds, its date is the result |
| CsvParser.FirstParseNone | src/main/java/com/aura/app/service/impl/InvoiceServiceImpl.java:241-247 | absent exactly when every formatter fails |
| CsvParser.CsvDateLayouts | src/main/java/com/aura/app/service/impl/InvoiceServiceImpl.java:168-171 | with dd/MM/yyyy then ISO: a dd/MM/yyyy text is read by the first, a yyyy-MM-dd text by the second, any other text fails |
| CsvParser.ParseRow | src/main/java/com/aura/app/service/impl/InvoiceServiceImpl.java:192-229 | filling a fresh request behind the moving cursor gives the row layout `RowOf`: columns shift by one exactly when column 0 reads as a `long` |
| CsvParser.RowOf | src/main/java/com/aura/app/service/impl/InvoiceServiceImpl.java:192-229 | a row's date, when present, is a valid calendar date; the metal is always present and starts with no character `trim` removes; no user id means column 0 does not read as a long |
| CsvParser.FiveColumnsWithUserIdHaveNoTotal | src/main/java/com/aura/app/service/impl/InvoiceServiceImpl.java:221-229 | a user id and exactly five parts leave the total absent, and the last part becomes the GST |
| CsvParser.RowStartingWithDate | src/main/java/com/aura/app/service/impl/InvoiceServiceImpl.java:195-229 | a row whose first column (trimmed) has a date's shape has no user id, and takes its date, metal and total from columns 0, 1 and 4 |
| CsvParser.LineRecords | src/main/java/com/aura/app/service/impl/InvoiceServiceImpl.java:182-191 | a line gives at most one draft, and gives one exactly when it is not blank and splits into at least five parts |
| CsvParser.ParseLine | src/main/java/com/aura/app/service/impl/InvoiceServiceImpl.java:182-231 | one loop body yields the drafts of `LineRecords` |
| CsvParser.ParseCsv | src/main/java/com/aura/app/service/impl/InvoiceServiceImpl.java:166-238 | the `first`-flag loop yields the records of every line after the first, in order |
| CsvParser.RecordsSnoc | src/main/java/com/aura/app/service/impl/InvoiceServiceImpl.java:176-232 | one more line adds its own drafts at the end |
| CsvParser.RecordsConcat | src/main/java/com/aura/app/service/impl/InvoiceServiceImpl.java:176-232 | records of joined line sequences are the joined records: lines are read independently, in input order |
| CsvParser.Records | src/main/java/com/aura/app/service/impl/InvoiceServiceImpl.java:176-232 | never more drafts than data lines, and every draft carries a metal text |
| CsvParser.CsvRecords | src/main/java/com/aura/app/service/impl/InvoiceServiceImpl.java:176-232 | a file of n ≥ 1 lines gives fewer than n drafts, since the header line never yields one |
| CsvParser.HeaderIsSkipped | src/main/java/com/aura/app/service/impl/InvoiceServiceImpl.java:177-181 | the first line is dropped whatever it holds, even when blank |
| Dates.ParseDayMonthYear | src/main/java/com/aura/app/service/impl/InvoiceServiceImpl.java:169 | `dd/MM/yyyy` with the SMART resolver: a result has the dd/dd/dddd shape, a year of at least 1, the month as written and the day clamped to the month's length; conversely every dd/dd/dddd text with month 1 to 12, day 1 to 31 and year at least 1 is accepted |
| Dates.ParseIsoLocalDate | src/main/java/com/aura/app/service/impl/InvoiceServiceImpl.java:170 | `ISO_LOCAL_DATE`: a result has the yyyy-MM-dd shape and is exactly the date written, which must be valid; conversely every yyyy-MM-dd text naming a valid date is accepted |
| Dates.ParseWith | src/main/java/com/aura/app/service/impl/InvoiceServiceImpl.java:243 | `LocalDate.parse` with either formatter yields only valid dates |
| Dates.DayMonthYearClampsDay | src/main/java/com/aura/app/service/impl/InvoiceServiceImpl.java:169 | "31/04/2024" gives 30 April and "29/02/2023" gives 28 February: the day is clamped, not refused |
| Dates.DayMonthYearKeepsLeapDay | src/main/java/com/aura/app/service/impl/InvoiceServiceImpl.java:169 | "29/02/2024" stays 29 February in a leap year |
| Dates.IsoRejectsOutOfRange | src/main/java/com/aura/app/service/impl/InvoiceServiceImpl.java:170 | "2023-02-29" and "2024-13-01" are refused by the ISO formatter, and "01/13/2024" by the dd/MM/yyyy one |
| Dates.RenderIso | src/main/java/com/aura/app/utils/CsvWriterUtil.java:37 | `LocalDate.toString` of any valid date ends in "-MM-dd", whose two-digit groups read back as the month and the day |
| Dates.RenderIsoRoundTrip | src/main/java/com/aura/app/utils/CsvWriterUtil.java:37 | a four-digit-year date written by `toString` reads back through the ISO formatter, is refused by dd/MM/yyyy and has no comma |
| Dates.RenderIsoHasNoComma | src/main/java/com/aura/app/utils/CsvWriterUtil.java:37 | any date's `toString` is non-empty and comma-free |
| Dates.RenderIsoStart | src/main/java/com/aura/app/utils/CsvWriterUtil.java:37 | any date's `toString` starts with a digit or a sign |
| Dates.CompareDates | src/main/java/com/aura/app/service/impl/InvoiceServiceImpl.java:137 | `compareTo` is zero, negative or positive exactly when the dates are equal, the first is earlier, or the second is |
| Decimal.Add | src/main/java/com/aura/app/service/impl/InvoiceServiceImpl.java:89 | `BigDecimal.add` is exact: the value is the sum and the scale is the larger scale |
| Decimal.Sub | src/main/java/com/aura/app/service/impl/InvoiceServiceImpl.java:305 | `BigDecimal.subtract` is exact: the value is the difference and the scale is the larger scale |
| Decimal.AddZero | src/main/java/com/aura/app/service/impl/InvoiceServiceImpl.java:89 | `ZERO` is a left identity of `add`, scale included, so the reductions start neutrally |
| Decimal.AddCommutes | src/main/java/com/aura/app/service/impl/InvoiceServiceImpl.java:106-107 | `add` is commutative as a representation, not just in value |
| Decimal.AddAssociates | src/main/java/com/aura/app/service/impl/InvoiceServiceImpl.java:86-89 | `add` is associative as a representation, so the order of summation never matters |
| Decimal.ParseLiteral | src/main/java/com/aura/app/service/impl/InvoiceServiceImpl.java:259 | `new BigDecimal(s)` without exponent: any accepted literal is non-empty |
| Decimal.LiteralWithPoint | src/main/java/com/aura/app/service/impl/InvoiceServiceImpl.java:259 | sign, digits, '.', digits: the value is the signed digits and the scale is the number of fraction digits |
| Decimal.LiteralWithoutPoint | src/main/java/com/aura/app/service/impl/InvoiceServiceImpl.java:259 | sign and digits: the signed integer, scale 0 |
| Decimal.LiteralRejectsStrayChar | src/main/java/com/aura/app/service/impl/InvoiceServiceImpl.java:259-261 | any character other than a digit, a sign or '.' makes the literal fail |
| Decimal.LiteralAccepts | src/main/java/com/aura/app/service/impl/InvoiceServiceImpl.java:259-261 | a text is accepted exactly when it is an optional sign followed by digits, or by digits, '.' and digits with at least one digit in all; "1.2.3", "--1", "+", "." and "" are refused |
| Decimal.RenderShape | src/main/java/com/aura/app/utils/CsvWriterUtil.java:39-41 | `toString` is a non-empty token of digits, '-', '.' and 'E' that ends in a digit, holds no comma and starts with nothing `trim` removes |
| Decimal.ParseRender | src/main/java/com/aura/app/utils/CsvWriterUtil.java:39-41 | outside the exponent range, `new BigDecimal(d.toString())` is d again, scale included |
| Decimal.Render | src/main/java/com/aura/app/utils/CsvWriterUtil.java:39-41 | `BigDecimal.toString` is never empty and starts with '-' exactly when the value is negative |
| Invoice.InvoiceRequest.constructor | src/main/java/com/aura/app/service/impl/InvoiceServiceImpl.java:192 | `new InvoiceRequestDto()` has every field null |
| Invoice.Backfill | src/main/java/com/aura/app/service/impl/InvoiceServiceImpl.java:294-311 | no field but the net amount ever changes; a missing net with GST and total present becomes exactly total − GST, at the larger scale, unrounded; otherwise nothing changes |
| Invoice.BackfillAmounts | src/main/java/com/aura/app/service/impl/InvoiceServiceImpl.java:294-311 | the in-place update leaves the request holding `Backfill` of its old fields; a null request is left alone |
| Invoice.BackfillCompletes | src/main/java/com/aura/app/service/impl/InvoiceServiceImpl.java:303-306 | with GST and total present the net is present afterwards, and an existing net is never overwritten |
| Invoice.BackfillIdempotent | src/main/java/com/aura/app/service/impl/InvoiceServiceImpl.java:294-311 | applying the backfill twice equals applying it once |
| Invoice.BackfillKeepsNegative | src/main/java/com/aura/app/service/impl/InvoiceServiceImpl.java:305-306 | GST 30.00 and total 10 give net -20.00: a negative result is kept, not clamped |
| Ledger.Fields | src/main/java/com/aura/app/utils/CsvWriterUtil.java:36-41 | a line always has exactly five fields: date, metal, net, GST, total |
| Ledger.DataLine | src/main/java/com/aura/app/utils/CsvWriterUtil.java:36-41 | a line holds exactly four commas more than its metal type does |
| Ledger.Append | src/main/java/com/aura/app/utils/CsvWriterUtil.java:27-43 | after one write the file exists and is consistent |
| Ledger.DataLineIsNoHeader | src/main/java/com/aura/app/utils/CsvWriterUtil.java:17 | no data line equals the fixed header line `Header` |
| Ledger.HeaderIffMissing | src/main/java/com/aura/app/utils/CsvWriterUtil.java:27-43 | one write keeps the old lines as a prefix, appends the header exactly when the file did not exist, and ends with exactly one data line |
| Ledger.LedgerFile.constructor | src/main/java/com/aura/app/utils/CsvWriterUtil.java:27 | the ledger starts in any consistent state, missing or existing |
| Ledger.LedgerFile.AppendInvoiceToCsv | src/main/java/com/aura/app/utils/CsvWriterUtil.java:27-43 | the method leaves the file in the state `Append` gives from its old state and the request's fields |
| Ledger.DataLinesSnoc | src/main/java/com/aura/app/utils/CsvWriterUtil.java:42-43 | one more invoice adds its own line at the end |
| Ledger.AppendEachExisting | src/main/java/com/aura/app/utils/CsvWriterUtil.java:31-43 | writes into an existing file add only data lines, one per invoice, in order |
| Ledger.AppendEachMissing | src/main/java/com/aura/app/utils/CsvWriterUtil.java:31-43 | n ≥ 1 writes into a missing file give the header followed by the n data lines |
| Ledger.AppendOnly | src/main/java/com/aura/app/utils/CsvWriterUtil.java:29-30 | the old lines are always a prefix of the new, which grow by one line per write plus one header line if the file was missing |
| Ledger.FieldsCommaFree | src/main/java/com/aura/app/utils/CsvWriterUtil.java:36-41 | with a comma-free metal no field holds a comma |
| Ledger.DataLineColumns | src/main/java/com/aura/app/utils/CsvWriterUtil.java:36-41 | with a comma-free metal, splitting the line at every comma gives back the five fields |
| Ledger.CommaInMetalAddsFields | src/main/java/com/aura/app/utils/CsvWriterUtil.java:38 | nothing is escaped: each comma in the metal adds a field, so a line has more than five |
| Ledger.AmountFieldReadsBack | src/main/java/com/aura/app/utils/CsvWriterUtil.java:39-41 | a written amount that `toString` writes without an exponent, or "" for null, reads back through `parseBigDecimalSafe` as the same amount or null |
| Ledger.DateFieldReadsBack | src/main/java/com/aura/app/utils/CsvWriterUtil.java:37 | a written date (four-digit year), or "", is no user id and reads back through the ISO fallback |
| Ledger.RowReadsBack | src/main/java/com/aura/app/utils/CsvWriterUtil.java:36-41 | for an invoice with a total, the five fields read back as the same invoice, except that the user id is lost and a null metal comes back as the empty text |
| Ledger.LineReadsBack | src/main/java/com/aura/app/utils/CsvWriterUtil.java:36-41 | a data line yields that invoice when it has a total; without one it ends in ',', splits into four parts and is dropped |
| Ledger.DataLinesReadBack | src/main/java/com/aura/app/utils/CsvWriterUtil.java:36-43 | the data lines of several invoices read back as the invoices that have a total, in order |
| Ledger.LedgerReadsBack | src/main/java/com/aura/app/utils/CsvWriterUtil.java:17-43 | a ledger written from scratch, read by the CSV reader, skips its header and gives back the written invoices that have a total |
| Service.ParseFileToInvoices | src/main/java/com/aura/app/service/impl/InvoiceServiceImpl.java:150-164 | the drafts of `FileInvoices`: the CSV reader for a CSV upload, otherwise one draft from the text extractor |
| Service.IsCsvUpload | src/main/java/com/aura/app/service/impl/InvoiceServiceImpl.java:151-155 | an upload with neither a file name nor a content type is never read as CSV |
| Service.CsvByExtension | src/main/java/com/aura/app/service/impl/InvoiceServiceImpl.java:151-156 | a name ending in ".csv", in any letter case, makes the upload CSV whatever its content type |
| Service.CsvByContentType | src/main/java/com/aura/app/service/impl/InvoiceServiceImpl.java:151-155 | a content type containing "csv" in any letter case makes the upload CSV, read by the CSV reader, whatever its name |
| Service.PdfUploadIsOneDraft | src/main/java/com/aura/app/service/impl/InvoiceServiceImpl.java:159-163 | a non-CSV upload gives exactly one draft, the extractor's, without a user id |
| Service.RecordsWritable | src/main/java/com/aura/app/service/impl/InvoiceServiceImpl.java:166-238 | every CSV draft carries only valid dates |
| Service.FileInvoicesWritable | src/main/java/com/aura/app/service/impl/InvoiceServiceImpl.java:150-164 | every parsed draft can be written to the ledger |
| Service.UploadInvoice | src/main/java/com/aura/app/service/impl/InvoiceServiceImpl.java:41-63 | with no drafts it reports no invoice data and leaves the ledger alone; otherwise it saves the first draft, with the user id override and backfill applied, and appends exactly that invoice to the ledger |
| Service.Chosen | src/main/java/com/aura/app/service/impl/InvoiceServiceImpl.java:48-51 | the kept draft is the first draft with at most its user id replaced, by the caller's when one is given |
| Service.Uploaded | src/main/java/com/aura/app/service/impl/InvoiceServiceImpl.java:48-53 | the saved invoice has a net amount whenever it has GST and total, and keeps the first draft's net when that has one |
| Service.UploadedFields | src/main/java/com/aura/app/service/impl/InvoiceServiceImpl.java:48-53 | a non-null user id argument replaces the parsed one; date, metal, GST and total come from the first draft; the net is the first draft's backfilled net; later drafts never matter |
| Service.Merge | src/main/java/com/aura/app/service/impl/InvoiceServiceImpl.java:106-107 | `HashMap.merge` adds exactly the one key |
| Service.SumOf | src/main/java/com/aura/app/service/impl/InvoiceServiceImpl.java:85-94 | amounts that are all null sum to `ZERO`; the sum's scale is at least the scale of every amount added |
| Service.RevenueBy | src/main/java/com/aura/app/service/impl/InvoiceServiceImpl.java:99-108 | no invoice with both a date and a total gives an empty map |
| Service.RevenueBySize | src/main/java/com/aura/app/service/impl/InvoiceServiceImpl.java:99-108 | each invoice opens at most one entry, so a map never has more keys than there are invoices |
| Service.GetRevenueSummary | src/main/java/com/aura/app/service/impl/InvoiceServiceImpl.java:84-116 | the loop yields the sum of non-null totals, the sum of non-null GST amounts, and the month and year maps of the invoices with date and total |
| Service.MergeTotal | src/main/java/com/aura/app/service/impl/InvoiceServiceImpl.java:106-107 | merging v into a map raises the sum of its values by exactly v |
| Service.RevenueByTotal | src/main/java/com/aura/app/service/impl/InvoiceServiceImpl.java:99-108 | the values of either map sum to the total of the invoices that have both date and total |
| Service.MonthlyMatchesYearly | src/main/java/com/aura/app/service/impl/InvoiceServiceImpl.java:99-108 | the monthly values and the yearly values sum to the same figure |
| Service.AllDatedCounted | src/main/java/com/aura/app/service/impl/InvoiceServiceImpl.java:86-108 | when every invoice with a total has a date, that figure is `totalRevenue` |
| Service.RevenueByKeys | src/main/java/com/aura/app/service/impl/InvoiceServiceImpl.java:99-107 | a key appears exactly when some invoice with date and total has that month (or year) |
| Service.RevenueByEntry | src/main/java/com/aura/app/service/impl/InvoiceServiceImpl.java:106-107 | each entry is the sum of the totals of the invoices with that key |
| Service.MonthKeys | src/main/java/com/aura/app/service/impl/InvoiceServiceImpl.java:103 | monthly keys lie in 1..12 |
| Service.CompareByDate | src/main/java/com/aura/app/service/impl/InvoiceServiceImpl.java:131-138 | zero exactly when the dates are equal or both null; a null date sorts after a date; between two dates, negative exactly when the first is earlier |
| Service.ComparatorContract | src/main/java/com/aura/app/service/impl/InvoiceServiceImpl.java:131-138 | the nulls-last comparator is antisymmetric, total and transitive |
| Service.SortedMeans | src/main/java/com/aura/app/service/impl/InvoiceServiceImpl.java:131-138 | in a sorted list undated invoices come after the dated ones, and dates never decrease |
| Service.SortByDate | src/main/java/com/aura/app/service/impl/InvoiceServiceImpl.java:131-138 | the in-place sort leaves the array sorted by the comparator and a permutation of its old contents |
| Service.GetInvoicesForUser | src/main/java/com/aura/app/service/impl/InvoiceServiceImpl.java:128-143 | the result is a permutation of the fetched invoices, sorted ascending by date with nulls last |
| TextExtract.FindIsFirst | src/main/java/com/aura/app/service/impl/PdfParserServiceImpl.java:68-69 | `Matcher.find` reports the leftmost matching start, and finds nothing only when no start matches |
| TextExtract.FindOfLeftmost | src/main/java/com/aura/app/service/impl/PdfParserServiceImpl.java:68-69 | the first match is the one at the leftmost matching start |
| TextExtract.FirstOfNone | src/main/java/com/aura/app/service/impl/PdfParserServiceImpl.java:81-83 | without a matching start `find` fails |
| TextExtract.NumberAtShape | src/main/java/com/aura/app/service/impl/PdfParserServiceImpl.java:134 | the amount patterns capture an optional currency symbol and blanks, digits, and a separator with digits (required in the strict form) |
| TextExtract.LineEndToken | src/main/java/com/aura/app/service/impl/PdfParserServiceImpl.java:118-120 | the line-end pattern captures a well-formed number that has a separator |
| TextExtract.GstToken | src/main/java/com/aura/app/service/impl/PdfParserServiceImpl.java:134-136 | the GST pattern captures a well-formed number that has a separator |
| TextExtract.TotalToken | src/main/java/com/aura/app/service/impl/PdfParserServiceImpl.java:149-151 | the total pattern captures a number whose separator is optional |
| TextExtract.CommaDeleted | src/main/java/com/aura/app/service/impl/PdfParserServiceImpl.java:137 | `replace(",", "")` removes only a comma separator from a captured token |
| TextExtract.NumeralKept | src/main/java/com/aura/app/service/impl/PdfParserServiceImpl.java:138 | `replaceAll("[^0-9.]+", "")` then leaves the digits, and the point if it was one |
| TextExtract.NumeralValue | src/main/java/com/aura/app/service/impl/PdfParserServiceImpl.java:140 | what is left is a valid literal of the token's value: a comma separator is erased, not read as a point |
| TextExtract.TokenAmount | src/main/java/com/aura/app/service/impl/PdfParserServiceImpl.java:137-142 | the clean-up of any captured token never fails, so the `NumberFormatException` branch is unreachable |
| TextExtract.ExtractDate | src/main/java/com/aura/app/service/impl/PdfParserServiceImpl.java:65-90 | a date, when found, is a valid calendar date |
| TextExtract.LabelShape | src/main/java/com/aura/app/service/impl/PdfParserServiceImpl.java:67-72 | a labelled capture is ten characters in one of the two shapes with nothing to trim, and contains '-' exactly when it is ISO |
| TextExtract.ExtractDateFromFirstLabel | src/main/java/com/aura/app/service/impl/PdfParserServiceImpl.java:67-78 | only the first labelled match is tried: ISO if it has '-', dd/MM/yyyy otherwise; if that fails, the fallback decides |
| TextExtract.ExtractDateWithoutLabel | src/main/java/com/aura/app/service/impl/PdfParserServiceImpl.java:69-89 | without a labelled date the fallback decides |
| TextExtract.FallbackFromFirstShape | src/main/java/com/aura/app/service/impl/PdfParserServiceImpl.java:81-88 | the fallback parses only the first dd/dd/dddd text; later ones are never retried |
| TextExtract.FallbackWithoutShape | src/main/java/com/aura/app/service/impl/PdfParserServiceImpl.java:81-90 | without a dd/dd/dddd text the fallback is absent |
| TextExtract.ProductTokenAsWritten | src/main/java/com/aura/app/service/impl/PdfParserServiceImpl.java:95-99 | after a "Product" label, the metal is the captured token as written: non-empty, letters and digits, not upper-cased |
| TextExtract.MetalLineName | src/main/java/com/aura/app/service/impl/PdfParserServiceImpl.java:102-105 | a metal line's capture, upper-cased, is exactly the metal name matched at that line, one of GOLD, SILVER, PLATINUM, PALLADIUM |
| TextExtract.MetalTypeFromLine | src/main/java/com/aura/app/service/impl/PdfParserServiceImpl.java:101-108 | without a label, a metal line makes the metal one of GOLD, SILVER, PLATINUM, PALLADIUM in upper case; with neither, the metal is absent |
| TextExtract.MetalTypeOfFirstLine | src/main/java/com/aura/app/service/impl/PdfParserServiceImpl.java:101-105 | without a "Product" label, the metal is the upper-cased name matched on the first metal line |
| TextExtract.SilverLineGivesSilver | src/main/java/com/aura/app/service/impl/PdfParserServiceImpl.java:102-105 | without a "Product" label, a first metal line starting with "silver" in any letter case gives SILVER |
| TextExtract.PlatinumLineIsNoProductLine | src/main/java/com/aura/app/service/impl/PdfParserServiceImpl.java:113 | a line starting with platinum or palladium is never the amount line |
| TextExtract.ProductLineEndsOnLine | src/main/java/com/aura/app/service/impl/PdfParserServiceImpl.java:113-117 | the matched product line is non-empty and stops before a line terminator |
| TextExtract.LineAmountFromMatch | src/main/java/com/aura/app/service/impl/PdfParserServiceImpl.java:111-129 | the line amount is present exactly when there is a gold or silver line and the end-of-line pattern matches within the first such line; the amount is the value of the first token that matches, and it is not negative |
| TextExtract.GstFromMatch | src/main/java/com/aura/app/service/impl/PdfParserServiceImpl.java:132-144 | the GST is present exactly when the pattern matches somewhere, and is the first match's non-negative value |
| TextExtract.TotalFromMatch | src/main/java/com/aura/app/service/impl/PdfParserServiceImpl.java:147-159 | the total is present exactly when the pattern matches somewhere, and is the first match's non-negative value |
| TextExtract.GstOfLabel | src/main/java/com/aura/app/service/impl/PdfParserServiceImpl.java:133-141 | "GST(q) w.f", in any letter case, gives w.f; "GST(q) w,f" gives the integer wf ("GST(3%) 29.13" gives 29.13) |
| TextExtract.TotalOfLabel | src/main/java/com/aura/app/service/impl/PdfParserServiceImpl.java:148-156 | "TOTAL INVOICE VALUE n", in any letter case, gives the whole number n ("TOTAL INVOICE VALUE 1000" gives 1000) |
| TextExtract.ParseText | src/main/java/com/aura/app/service/impl/PdfParserServiceImpl.java:40-47 | each field is its own extractor's result on the text alone, the user id is never set, a date is valid and no amount is negative |

## Left out

- PDF decoding: PDFBox loading and text stripping are foreign code. The model starts from the decoded text.
- Diagnostic logging: the `System.out` output changes nothing.
- Repository and transactions:
  - `save`, `findAll`, `findByUserId` and `findByInvoiceDateBetween` become input sequences, or the invoice returned for saving.
  - `createManualInvoice` is a backfill followed by a save.
  - `getAllInvoices`, `getRevenueByDate` and `deleteInvoice` are single repository calls and are not modelled.
  - `toEntity` and `toResponseDto` copy fields one for one and are not modelled.
- Upload response: the fixed `csvPath` string and the path `appendInvoiceToCsv` returns are not modelled.
- Filesystem and streams:
  - These are not modelled: creating directories, resolving paths, the buffered writer, `IOException` wrapping, `MultipartFile` streams and UTF-8 decoding.
  - A CSV upload is its sequence of lines, as `readLine` gives them. How line terminators split the text is not modelled.
- Concurrent appends: two first writers might both write the header. That race is a matter of concurrency and is not modelled.
- Decimal.ParseLiteral: literals with an exponent ("1E3") return None here, though `BigDecimal` accepts them. So `parseBigDecimalSafe` on such a CSV amount is modelled as absent. The extractors never pass such text on.
- CsvParser.ParseSafeOfRender: stated only for decimals that `toString` writes without an exponent. The same holds for Decimal.ParseRender, Ledger.AmountFieldReadsBack and the ledger read-back lemmas.
- Digits: `Long.parseLong` and `new BigDecimal` also accept non-ASCII Unicode digits. The model accepts only ASCII digits.
- Dates and years: years are read as exactly four unsigned digits. The signed and wider year forms of `java.time` are not modelled.
- Ledger.DateFieldReadsBack: stated for four-digit years only. A date in another year is still written by `toString`, but it does not read back.
- Lower-casing: `toLowerCase` in the upload classification is modelled on ASCII letters only.
- Service.GetInvoicesForUser: `List.sort` is stable, and the model does not state stability. The result is proved sorted and a permutation of the input.
- TextExtract.ExtractMetalType, ExtractLineAmount, ExtractGstAmount, ExtractTotalInvoiceValue: these functions carry no contract of their own. Their properties are the lemmas listed against them above.
- TextExtract.GstOfLabel, TextExtract.TotalOfLabel: they state the extractors' results for texts made only of the label and the number. These are general cases, not one fixed example string. The line-amount example "SILVER24 6.4604 150.28 970.87" is covered by the general LineAmountFromMatch only.
