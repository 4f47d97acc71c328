/**
 * clean_data: rename the export's columns, drop cancelled invoices and rows without a
 * customer, compute Revenue = Quantity * UnitPrice and keep the rows with positive Revenue.
 */
module DataProcessing {
  import opened Wrappers
  import opened Seqs
  import opened Tables

  // ---------------------------------------------------------------------------
  // The column renaming, on the frame's header.

  /** The name a column carries after the renaming; columns not renamed keep theirs. */
  function RenameColumn(name: string): string {
    if name == "Invoice" then "InvoiceNo"
    else if name == "Price" then "UnitPrice"
    else if name == "Customer ID" then "Customer_ID"
    else name
  }

  predicate IsRenamed(name: string) {
    name == "Invoice" || name == "Price" || name == "Customer ID"
  }

  function RenameColumns(header: seq<string>): (r: seq<string>)
    ensures |r| == |header|
    ensures forall i :: 0 <= i < |header| && header[i] == "Invoice" ==> r[i] == "InvoiceNo"
    ensures forall i :: 0 <= i < |header| && header[i] == "Price" ==> r[i] == "UnitPrice"
    ensures forall i :: 0 <= i < |header| && header[i] == "Customer ID" ==> r[i] == "Customer_ID"
    ensures forall i :: 0 <= i < |header| && !IsRenamed(header[i]) ==> r[i] == header[i]
    ensures "Invoice" !in r && "Price" !in r && "Customer ID" !in r
  {
    MapSeq(RenameColumn, header)
  }

  // ---------------------------------------------------------------------------
  // The row stages, in the order clean_data applies them.

  /** The invoice id, as a string, starts with "C": a cancellation. */
  predicate Cancelled(invoice: string) {
    |invoice| > 0 && invoice[0] == 'C'
  }

  predicate NotCancelled(r: RawRow) {
    !Cancelled(r.invoice)
  }

  predicate Identified(r: RawRow) {
    r.customerId.Some?
  }

  /** The renamed row with its Revenue column computed. */
  function WithRevenue(r: RawRow): Txn {
    Txn(r.invoice, r.stockCode, r.description, r.quantity, r.invoiceDate, r.price,
        r.customerId, r.country, Some(r.quantity * r.price))
  }

  /** The raw row a cleaned row came from: Revenue dropped, names reverted. */
  function Original(t: Txn): RawRow {
    RawRow(t.invoiceNo, t.stockCode, t.description, t.quantity, t.invoiceDate, t.unitPrice,
           t.customerId, t.country)
  }

  predicate PositiveRevenue(t: Txn) {
    t.revenue.Some? && t.revenue.value > 0
  }

  /** The cleaning pipeline, stage by stage. */
  function CleanData(raw: seq<RawRow>): (r: seq<Txn>)
    ensures forall t :: t in r ==> !Cancelled(t.invoiceNo)
    ensures forall t :: t in r ==> t.customerId.Some?
    ensures forall t :: t in r ==> t.revenue == Some(t.quantity * t.unitPrice)
    ensures forall t :: t in r ==> t.revenue.Some? && t.revenue.value > 0
  {
    var kept := Filter(Identified, Filter(NotCancelled, raw));
    var priced := MapSeq(WithRevenue, kept);
    assert forall k :: 0 <= k < |kept| ==> kept[k] in kept && NotCancelled(kept[k]) && Identified(kept[k]);
    assert forall t :: t in priced ==> exists k :: 0 <= k < |kept| && t == WithRevenue(kept[k]);
    Filter(PositiveRevenue, priced)
  }

  // ---------------------------------------------------------------------------
  // The pipeline as a single filter followed by a single map.

  /** A raw row survives cleaning. */
  predicate Kept(r: RawRow) {
    NotCancelled(r) && Identified(r) && r.quantity * r.price > 0
  }

  predicate IdentifiedAndNotCancelled(r: RawRow) {
    NotCancelled(r) && Identified(r)
  }

  /** Cleaning selects the surviving rows and computes their Revenue, nothing else. */
  lemma {:induction false} CleanDataOnePass(raw: seq<RawRow>)
    ensures CleanData(raw) == MapSeq(WithRevenue, Filter(Kept, raw))
  {
    FilterFilter(Identified, NotCancelled, IdentifiedAndNotCancelled, raw);
    var kept := Filter(IdentifiedAndNotCancelled, raw);
    FilterMap(PositiveRevenue, WithRevenue, r => PositiveRevenue(WithRevenue(r)), kept);
    FilterFilter(r => PositiveRevenue(WithRevenue(r)), IdentifiedAndNotCancelled, Kept, raw);
  }

  /** The cleaned rows are the surviving raw rows, in their original order, other columns unchanged. */
  lemma {:induction false} CleanDataSubsequence(raw: seq<RawRow>)
    ensures IsSubsequence(MapSeq(Original, CleanData(raw)), raw)
  {
    CleanDataOnePass(raw);
    var kept := Filter(Kept, raw);
    FilterIsSubsequence(Kept, raw);
    var back := MapSeq(Original, MapSeq(WithRevenue, kept));
    assert back == kept by {
      assert |back| == |kept|;
      forall k | 0 <= k < |kept| ensures back[k] == kept[k] {}
    }
  }

  /** A raw row reaches the cleaned frame exactly when it is kept. */
  lemma {:induction false} CleanDataKeeps(raw: seq<RawRow>, r: RawRow)
    requires r in raw
    ensures Kept(r) <==> WithRevenue(r) in CleanData(raw)
  {
  }
}
