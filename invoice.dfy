/**
 * The invoice fields that travel from the parsers to the store and the ledger
 * (`InvoiceRequestDto`), and the amount backfill rule
 * (`InvoiceServiceImpl.backfillAmounts`).
 */
module Invoice {
  import opened Common
  import opened Decimal
  import opened Dates

  const MinLong: int := -0x8000_0000_0000_0000
  const MaxLong: int := 0x7FFF_FFFF_FFFF_FFFF

  /** A Java `long`. */
  type Long = x: int | MinLong <= x <= MaxLong

  /** The fields of one invoice, each absent (Java null) or present. */
  datatype Draft = Draft(
    userId: Option<Long>,
    invoiceDate: Option<Date>,
    metalType: Option<string>,
    amountWithoutGst: Option<Dec>,
    gstAmount: Option<Dec>,
    totalAmount: Option<Dec>)

  const EmptyDraft: Draft := Draft(None, None, None, None, None, None)

  /** The request object the parsers fill field by field and the service then updates in place. */
  class InvoiceRequest {
    var userId: Option<Long>
    var invoiceDate: Option<Date>
    var metalType: Option<string>
    var amountWithoutGst: Option<Dec>
    var gstAmount: Option<Dec>
    var totalAmount: Option<Dec>

    /** The current field values. */
    function Value(): Draft
      reads this
    {
      Draft(userId, invoiceDate, metalType, amountWithoutGst, gstAmount, totalAmount)
    }

    /** `new InvoiceRequestDto()`: every field null. */
    constructor ()
      ensures Value() == EmptyDraft
    {
      userId, invoiceDate, metalType := None, None, None;
      amountWithoutGst, gstAmount, totalAmount := None, None, None;
    }

    /** A request filled from a parsed draft, as the parsers hand it on. */
    constructor Of(d: Draft)
      ensures Value() == d
    {
      userId, invoiceDate, metalType := d.userId, d.invoiceDate, d.metalType;
      amountWithoutGst, gstAmount, totalAmount := d.amountWithoutGst, d.gstAmount, d.totalAmount;
    }
  }

  /** The condition under which backfill derives the net amount. */
  predicate NeedsBackfill(d: Draft) {
    d.amountWithoutGst.None? && d.gstAmount.Some? && d.totalAmount.Some?
  }

  /**
   * The backfill rule: a missing net amount is derived as total minus GST when
   * both are present, exactly (no rounding, no clamping: it may be negative).
   * Nothing else ever changes.
   */
  function Backfill(d: Draft): (r: Draft)
    ensures r.(amountWithoutGst := d.amountWithoutGst) == d
    ensures NeedsBackfill(d) ==>
      && r.amountWithoutGst.Some?
      && Val(r.amountWithoutGst.value) == Val(d.totalAmount.value) - Val(d.gstAmount.value)
      && r.amountWithoutGst.value.scale == Max(d.totalAmount.value.scale, d.gstAmount.value.scale)
    ensures !NeedsBackfill(d) ==> r == d
  {
    if NeedsBackfill(d) then d.(amountWithoutGst := Some(Sub(d.totalAmount.value, d.gstAmount.value)))
    else d
  }

  /** `backfillAmounts(dto)`: applies the rule to the object in place; a null dto is left alone. */
  method BackfillAmounts(dto: InvoiceRequest?)
    modifies dto
    ensures dto != null ==> dto.Value() == Backfill(old(dto.Value()))
  {
    if dto == null {
      return;
    }
    var amountWithoutGst, gstAmount, totalAmount := dto.amountWithoutGst, dto.gstAmount, dto.totalAmount;
    if amountWithoutGst.None? && gstAmount.Some? && totalAmount.Some? {
      var computed := Sub(totalAmount.value, gstAmount.value);
      dto.amountWithoutGst := Some(computed);
    }
  }

  /** After backfill a draft with GST and total always has a net amount. */
  lemma BackfillCompletes(d: Draft)
    requires d.gstAmount.Some? && d.totalAmount.Some?
    ensures Backfill(d).amountWithoutGst.Some?
    ensures d.amountWithoutGst.Some? ==> Backfill(d).amountWithoutGst == d.amountWithoutGst
  {
  }

  /** Backfilling twice is backfilling once. */
  lemma BackfillIdempotent(d: Draft)
    ensures Backfill(Backfill(d)) == Backfill(d)
  {
  }

  /** A GST larger than the total yields a negative net amount, which is kept. */
  lemma BackfillKeepsNegative()
    ensures Backfill(Draft(None, None, None, None, Some(Dec(3000, 2)), Some(Dec(10, 0)))).amountWithoutGst
      == Some(Dec(-2000, 2))
  {
  }
}
