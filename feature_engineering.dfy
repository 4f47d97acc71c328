/** add_customer_revenue: every transaction line gets its customer's total Revenue. */
module FeatureEngineering {
  import opened Wrappers
  import opened Tables
  import opened Grouping

  /** A transaction line with the merged TotalRevenue column (missing when it has no customer). */
  datatype EnrichedRow = EnrichedRow(txn: Txn, totalRevenue: Option<int>)

  /** The right-hand side of the merge: the TotalRevenue of a key, missing for a missing key. */
  function LookupTotal(totals: map<int, Agg>, key: Option<int>): Option<int> {
    if key.Some? && key.value in totals then Some(totals[key.value].revenue) else None
  }

  /**
   * The per-customer Revenue sums, left-merged back onto every row. The merge key is unique
   * on the right, so the result has the rows of the input, in order, one for one.
   */
  function AddCustomerRevenue(rows: seq<Txn>): (r: seq<EnrichedRow>)
    ensures |r| == |rows|
    ensures forall i :: 0 <= i < |rows| ==> r[i].txn == rows[i]
    ensures forall i :: 0 <= i < |rows| && rows[i].customerId.None? ==> r[i].totalRevenue.None?
    ensures forall i :: 0 <= i < |rows| && rows[i].customerId.Some? ==>
              r[i].totalRevenue == Some(RevenueOf(rows, rows[i].customerId.value))
  {
    var totals := GroupBy(rows);
    GroupByAgreesAll(rows);
    assert forall i :: 0 <= i < |rows| && rows[i].customerId.Some? ==>
             rows[i] in rows && rows[i].customerId.value in CustomerIds(rows);
    seq(|rows|, i requires 0 <= i < |rows| => EnrichedRow(rows[i], LookupTotal(totals, rows[i].customerId)))
  }

  /** Two rows of the same customer carry the same TotalRevenue. */
  lemma {:induction false} SameCustomerSameTotal(rows: seq<Txn>, i: int, j: int)
    requires 0 <= i < |rows| && 0 <= j < |rows|
    requires rows[i].customerId == rows[j].customerId
    ensures AddCustomerRevenue(rows)[i].totalRevenue == AddCustomerRevenue(rows)[j].totalRevenue
  {
  }

  /** With no negative Revenue, a row's TotalRevenue is at least its own Revenue. */
  lemma {:induction false} TotalCoversOwnRevenue(rows: seq<Txn>, i: int)
    requires 0 <= i < |rows| && rows[i].customerId.Some?
    requires forall t :: t in rows ==> RevenueValue(t) >= 0
    ensures AddCustomerRevenue(rows)[i].totalRevenue.Some?
    ensures AddCustomerRevenue(rows)[i].totalRevenue.value >= RevenueValue(rows[i])
  {
    RevenueOfCoversRow(rows, i);
  }
}
