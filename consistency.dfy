/**
 * How the three per-customer tables relate when they are computed from the same complete
 * rows: the dashboard's LTV table, the RFM table and the enriched transactions.
 */
module Consistency {
  import opened Wrappers
  import opened Seqs
  import opened Tables
  import opened Grouping
  import opened FeatureEngineering
  import opened RfmSegmentation
  import opened Dashboard

  /** With no missing field, the null-drop of compute_rfm keeps every row. */
  lemma {:induction false} CompleteRowsKept(rows: seq<Txn>)
    requires forall t :: t in rows ==> Complete(t)
    ensures DropIncomplete(rows) == rows
  {
    FilterAll(Complete, rows);
  }

  /**
   * On complete rows the LTV table and the RFM table list the same customers in the same
   * order, Orders is Frequency and Total_Revenue is Monetary.
   */
  lemma {:induction false} LtvMatchesRfm(rows: seq<Txn>, i: int)
    requires forall t :: t in rows ==> Complete(t)
    requires 0 <= i < |ComputeRfm(rows)|
    ensures |LtvTable(rows)| == |ComputeRfm(rows)|
    ensures LtvTable(rows)[i].customerId == ComputeRfm(rows)[i].customerId
    ensures LtvTable(rows)[i].orders == ComputeRfm(rows)[i].frequency
    ensures LtvTable(rows)[i].totalRevenue == ComputeRfm(rows)[i].monetary
  {
    CompleteRowsKept(rows);
    ComputeRfmRows(rows);
    var c := SortedCustomers(rows)[i];
    assert Describes(rows, Snapshot(rows), ComputeRfm(rows)[i]);
    LtvCustomerMetrics(rows, i, c);
  }

  /**
   * On complete rows Recency_days is one day less than Recency, since the RFM snapshot lies
   * one day after the LTV reference date.
   */
  lemma {:induction false} LtvRecencyMatchesRfm(rows: seq<Txn>, i: int)
    requires forall t :: t in rows ==> Complete(t)
    requires 0 <= i < |ComputeRfm(rows)|
    ensures |LtvTable(rows)| == |ComputeRfm(rows)|
    ensures LtvTable(rows)[i].recencyDays.Some?
    ensures LtvTable(rows)[i].recencyDays.value + 1 == ComputeRfm(rows)[i].recency
  {
    CompleteRowsKept(rows);
    ComputeRfmRows(rows);
    var c := SortedCustomers(rows)[i];
    var row := ComputeRfm(rows)[i];
    assert Describes(rows, Snapshot(rows), row);
    LtvRecency(rows, i, c);
    RecencyOneDayLater(rows, c, row.recency);
  }

  /** The RFM Recency of a customer counts one day more than its Recency_days. */
  lemma {:induction false} RecencyOneDayLater(rows: seq<Txn>, c: int, recency: int)
    requires rows != [] && rows[0].invoiceDate.Some?
    requires LastDateOf(rows, c).Some?
    requires recency == WholeDays(Snapshot(rows) - LastDateOf(rows, c).value)
    ensures MaxDate(rows).Some?
    ensures recency - 1 == WholeDays(MaxDate(rows).value - LastDateOf(rows, c).value)
  {
    assert rows[0] in rows;
    var span := MaxDate(rows).value - LastDateOf(rows, c).value;
    assert Snapshot(rows) - LastDateOf(rows, c).value == span + SecondsPerDay;
    WholeDaysShift(span);
  }

  /** On complete rows each transaction's TotalRevenue is the Monetary of its customer's RFM row. */
  lemma {:induction false} EnrichmentMatchesRfm(rows: seq<Txn>, k: int)
    requires forall t :: t in rows ==> Complete(t)
    requires 0 <= k < |rows|
    ensures rows[k].customerId.Some?
    ensures exists i :: 0 <= i < |ComputeRfm(rows)| && ComputeRfm(rows)[i].customerId == rows[k].customerId.value
                        && AddCustomerRevenue(rows)[k].totalRevenue == Some(ComputeRfm(rows)[i].monetary)
  {
    assert rows[k] in rows;
    var c := rows[k].customerId.value;
    CompleteRowsKept(rows);
    ComputeRfmRows(rows);
    OneRowPerCustomer(rows);
    assert c in CustomerIds(rows);
    var i :| 0 <= i < |ComputeRfm(rows)| && ComputeRfm(rows)[i].customerId == c;
    assert Describes(rows, Snapshot(rows), ComputeRfm(rows)[i]);
  }
}
