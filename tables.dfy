/** The row records that flow through the pipeline, and the column aggregates they share. */
module Tables {
  import opened Wrappers

  /** Timestamps are whole seconds; one day is this many of them. */
  const SecondsPerDay: int := 86400

  /**
   * One line of the raw Online Retail export, under the export's own column names
   * (Invoice, StockCode, Description, Quantity, InvoiceDate, Price, Customer ID, Country).
   * Prices are in cents; a missing cell is None.
   */
  datatype RawRow = RawRow(
    invoice: string,
    stockCode: string,
    description: string,
    quantity: int,
    invoiceDate: Option<int>,
    price: int,
    customerId: Option<int>,
    country: string)

  /**
   * One transaction line after cleaning: the renamed columns (InvoiceNo, UnitPrice,
   * Customer_ID) plus Revenue = Quantity * UnitPrice, in cents.
   */
  datatype Txn = Txn(
    invoiceNo: string,
    stockCode: string,
    description: string,
    quantity: int,
    invoiceDate: Option<int>,
    unitPrice: int,
    customerId: Option<int>,
    country: string,
    revenue: Option<int>)

  /** The row has an InvoiceDate, a Customer_ID and a Revenue. */
  predicate Complete(t: Txn) {
    t.invoiceDate.Some? && t.customerId.Some? && t.revenue.Some?
  }

  /** What the row adds to a column sum: a summed column skips missing cells. */
  function RevenueValue(t: Txn): int {
    if t.revenue.Some? then t.revenue.value else 0
  }

  /** The larger of two optional timestamps; a missing one is skipped. */
  function MaxOpt(a: Option<int>, b: Option<int>): Option<int> {
    if a.None? then b
    else if b.None? then a
    else if a.value < b.value then b else a
  }

  /** The maximum of the InvoiceDate column, skipping missing dates; None when there is none. */
  function MaxDate(rows: seq<Txn>): (r: Option<int>)
    ensures r.None? <==> forall t :: t in rows ==> t.invoiceDate.None?
    ensures r.Some? ==> forall t :: t in rows && t.invoiceDate.Some? ==> t.invoiceDate.value <= r.value
    ensures r.Some? ==> exists t :: t in rows && t.invoiceDate == r
  {
    if rows == [] then None
    else
      var rest := MaxDate(rows[1..]);
      assert forall t :: t in rows ==> t == rows[0] || t in rows[1..];
      MaxOpt(rows[0].invoiceDate, rest)
  }

  /** The `days` of a time difference given in seconds: rounded down to whole days. */
  function WholeDays(seconds: int): int {
    seconds / SecondsPerDay
  }

  /** WholeDays rounds toward negative infinity: d whole days fit into the span, d + 1 do not. */
  lemma WholeDaysBounds(seconds: int)
    ensures SecondsPerDay * WholeDays(seconds) <= seconds < SecondsPerDay * WholeDays(seconds) + SecondsPerDay
  {
  }

  /** Adding one day to a span adds exactly one to its whole days. */
  lemma WholeDaysShift(seconds: int)
    ensures WholeDays(seconds + SecondsPerDay) == WholeDays(seconds) + 1
  {
    WholeDaysBounds(seconds);
    WholeDaysBounds(seconds + SecondsPerDay);
  }
}
