/**
 * Grouping transaction lines by Customer_ID, as `groupby('Customer_ID').agg(...)` does:
 * rows with a missing key are not grouped, and each group gets the latest InvoiceDate,
 * the set of its InvoiceNo values and the sum of its Revenue.
 */
module Grouping {
  import opened Wrappers
  import opened Seqs
  import opened Tables

  /** The aggregates of one customer's group. */
  datatype Agg = Agg(lastDate: Option<int>, invoices: set<string>, revenue: int)

  // ---------------------------------------------------------------------------
  // Reference definitions: a customer's group is the rows carrying that key.

  predicate OfCustomer(c: int, t: Txn) {
    t.customerId == Some(c)
  }

  predicate HasCustomer(t: Txn) {
    t.customerId.Some?
  }

  /** The rows of customer `c`, in their original order. */
  function RowsOf(rows: seq<Txn>, c: int): seq<Txn> {
    Filter(t => OfCustomer(c, t), rows)
  }

  /** The sum of the Revenue column, missing cells skipped. */
  function SumRevenue(rows: seq<Txn>): int {
    if rows == [] then 0 else RevenueValue(rows[0]) + SumRevenue(rows[1..])
  }

  function RevenueOf(rows: seq<Txn>, c: int): int {
    SumRevenue(RowsOf(rows, c))
  }

  function InvoicesOf(rows: seq<Txn>, c: int): set<string> {
    set t | t in RowsOf(rows, c) :: t.invoiceNo
  }

  function LastDateOf(rows: seq<Txn>, c: int): Option<int> {
    MaxDate(RowsOf(rows, c))
  }

  /** The distinct non-missing Customer_ID values. */
  function CustomerIds(rows: seq<Txn>): set<int> {
    set t | t in rows && t.customerId.Some? :: t.customerId.value
  }

  // ---------------------------------------------------------------------------
  // The grouping itself: one pass that updates a table of running aggregates.

  /** Folds one row into the running aggregates of its customer. */
  function Accumulate(m: map<int, Agg>, t: Txn): map<int, Agg> {
    if t.customerId.None? then m
    else
      var c := t.customerId.value;
      var a := if c in m then m[c] else Agg(None, {}, 0);
      m[c := Agg(MaxOpt(t.invoiceDate, a.lastDate), {t.invoiceNo} + a.invoices, RevenueValue(t) + a.revenue)]
  }

  /** The groupby table: one entry per distinct Customer_ID. */
  function GroupBy(rows: seq<Txn>): (m: map<int, Agg>)
    ensures m.Keys == CustomerIds(rows)
  {
    if rows == [] then map[]
    else
      var rest := GroupBy(rows[1..]);
      assert forall t :: t in rows <==> t == rows[0] || t in rows[1..];
      Accumulate(rest, rows[0])
  }

  /** The group keys in ascending order, which is the order of a grouped frame's rows. */
  function SortedCustomers(rows: seq<Txn>): (ids: seq<int>)
    ensures StrictlyIncreasing(ids)
    ensures forall c :: c in ids <==> c in CustomerIds(rows)
  {
    if rows == [] then []
    else
      var rest := SortedCustomers(rows[1..]);
      assert forall t :: t in rows <==> t == rows[0] || t in rows[1..];
      if rows[0].customerId.Some? then InsertKey(rest, rows[0].customerId.value) else rest
  }

  // ---------------------------------------------------------------------------
  // How the groups of a non-empty table arise from those of its tail.

  lemma {:induction false} SumRevenueCons(x: Txn, rest: seq<Txn>)
    ensures SumRevenue([x] + rest) == RevenueValue(x) + SumRevenue(rest)
  {
    assert ([x] + rest)[1..] == rest;
  }

  lemma {:induction false} RevenueOfCons(rows: seq<Txn>, c: int)
    requires rows != []
    ensures RevenueOf(rows, c) == (if OfCustomer(c, rows[0]) then RevenueValue(rows[0]) else 0) + RevenueOf(rows[1..], c)
  {
    var g := RowsOf(rows[1..], c);
    if OfCustomer(c, rows[0]) {
      assert RowsOf(rows, c) == [rows[0]] + g;
      SumRevenueCons(rows[0], g);
    } else {
      assert RowsOf(rows, c) == g;
    }
  }

  lemma {:induction false} InvoicesOfCons(rows: seq<Txn>, c: int)
    requires rows != []
    ensures InvoicesOf(rows, c) == (if OfCustomer(c, rows[0]) then {rows[0].invoiceNo} else {}) + InvoicesOf(rows[1..], c)
  {
    var g := RowsOf(rows[1..], c);
    if OfCustomer(c, rows[0]) {
      assert RowsOf(rows, c) == [rows[0]] + g;
      assert forall t :: t in [rows[0]] + g <==> t == rows[0] || t in g;
    } else {
      assert RowsOf(rows, c) == g;
    }
  }

  lemma {:induction false} LastDateOfCons(rows: seq<Txn>, c: int)
    requires rows != []
    ensures LastDateOf(rows, c)
         == if OfCustomer(c, rows[0]) then MaxOpt(rows[0].invoiceDate, LastDateOf(rows[1..], c)) else LastDateOf(rows[1..], c)
  {
    var g := RowsOf(rows[1..], c);
    if OfCustomer(c, rows[0]) {
      assert RowsOf(rows, c) == [rows[0]] + g;
      assert ([rows[0]] + g)[1..] == g;
    } else {
      assert RowsOf(rows, c) == g;
    }
  }

  /** A key not among the rows has an empty group. */
  lemma {:induction false} NoRowsOf(rows: seq<Txn>, c: int)
    requires c !in CustomerIds(rows)
    ensures RowsOf(rows, c) == []
  {
    if rows != [] {
      assert rows[0] in rows;
      assert CustomerIds(rows[1..]) <= CustomerIds(rows) by {
        assert forall t :: t in rows[1..] ==> t in rows;
      }
      NoRowsOf(rows[1..], c);
    }
  }

  /** The one-pass table holds, for every customer, the aggregates of that customer's rows. */
  lemma {:induction false} GroupByAgrees(rows: seq<Txn>, c: int)
    requires c in CustomerIds(rows)
    ensures GroupBy(rows)[c] == Agg(LastDateOf(rows, c), InvoicesOf(rows, c), RevenueOf(rows, c))
    decreases |rows|, 1
  {
    if OfCustomer(c, rows[0]) {
      GroupByAgreesHead(rows, c);
    } else {
      GroupByAgreesTail(rows, c);
    }
  }

  /** The first row belongs to `c`: it is folded into the aggregates of the tail. */
  lemma {:induction false} GroupByAgreesHead(rows: seq<Txn>, c: int)
    requires rows != [] && OfCustomer(c, rows[0])
    ensures GroupBy(rows)[c] == Agg(LastDateOf(rows, c), InvoicesOf(rows, c), RevenueOf(rows, c))
    decreases |rows|, 0
  {
    var rest := rows[1..];
    var m := GroupBy(rest);
    var a := if c in m then m[c] else Agg(None, {}, 0);
    if c in CustomerIds(rest) {
      GroupByAgrees(rest, c);
    } else {
      NoRowsOf(rest, c);
    }
    assert a == Agg(LastDateOf(rest, c), InvoicesOf(rest, c), RevenueOf(rest, c));
    LastDateOfCons(rows, c);
    InvoicesOfCons(rows, c);
    RevenueOfCons(rows, c);
  }

  /** The first row belongs to another customer: `c`'s aggregates are those of the tail. */
  lemma {:induction false} GroupByAgreesTail(rows: seq<Txn>, c: int)
    requires c in CustomerIds(rows) && !OfCustomer(c, rows[0])
    ensures GroupBy(rows)[c] == Agg(LastDateOf(rows, c), InvoicesOf(rows, c), RevenueOf(rows, c))
    decreases |rows|, 0
  {
    var rest := rows[1..];
    assert c in CustomerIds(rest) by {
      var t :| t in rows && t.customerId == Some(c);
      assert t != rows[0];
      assert t in rest;
    }
    GroupByAgrees(rest, c);
    LastDateOfCons(rows, c);
    InvoicesOfCons(rows, c);
    RevenueOfCons(rows, c);
  }

  /** GroupByAgrees for every key at once. */
  lemma {:induction false} GroupByAgreesAll(rows: seq<Txn>)
    ensures forall c :: c in GroupBy(rows) ==> GroupBy(rows)[c] == Agg(LastDateOf(rows, c), InvoicesOf(rows, c), RevenueOf(rows, c))
  {
    forall c | c in CustomerIds(rows)
      ensures GroupBy(rows)[c] == Agg(LastDateOf(rows, c), InvoicesOf(rows, c), RevenueOf(rows, c))
    {
      GroupByAgrees(rows, c);
    }
  }

  lemma {:induction false} SumRevenueNonNegative(rows: seq<Txn>)
    requires forall t :: t in rows ==> RevenueValue(t) >= 0
    ensures SumRevenue(rows) >= 0
  {
    if rows != [] {
      assert rows[0] in rows;
      assert forall t :: t in rows[1..] ==> t in rows;
      SumRevenueNonNegative(rows[1..]);
    }
  }

  /** With no negative Revenue, a customer's total is at least the Revenue of each of its rows. */
  lemma {:induction false} RevenueOfCoversRow(rows: seq<Txn>, i: int)
    requires 0 <= i < |rows| && rows[i].customerId.Some?
    requires forall t :: t in rows ==> RevenueValue(t) >= 0
    ensures RevenueOf(rows, rows[i].customerId.value) >= RevenueValue(rows[i])
  {
    var c := rows[i].customerId.value;
    RevenueOfCons(rows, c);
    assert rows[0] in rows;
    assert forall t :: t in rows[1..] ==> t in rows;
    if i == 0 {
      assert forall t :: t in RowsOf(rows[1..], c) ==> t in rows;
      SumRevenueNonNegative(RowsOf(rows[1..], c));
    } else {
      assert rows[1..][i - 1] == rows[i];
      RevenueOfCoversRow(rows[1..], i - 1);
    }
  }

  /** Every group has at least one row, hence at least one distinct InvoiceNo. */
  lemma {:induction false} InvoicesNonEmpty(rows: seq<Txn>, c: int)
    requires c in CustomerIds(rows)
    ensures |InvoicesOf(rows, c)| >= 1
  {
    var t :| t in rows && t.customerId == Some(c);
    assert t in RowsOf(rows, c);
    assert t.invoiceNo in InvoicesOf(rows, c);
  }

  /** Every group of the fold holds at least one InvoiceNo, so counting them never gives 0. */
  lemma {:induction false} GroupsNonEmpty(rows: seq<Txn>)
    ensures forall c :: c in GroupBy(rows) ==> |GroupBy(rows)[c].invoices| >= 1
  {
    if rows != [] {
      GroupsNonEmpty(rows[1..]);
    }
  }

  /** When every row has a date, every group has a latest date. */
  lemma {:induction false} LastDatePresent(rows: seq<Txn>, c: int)
    requires c in CustomerIds(rows)
    requires forall t :: t in rows ==> t.invoiceDate.Some?
    ensures LastDateOf(rows, c).Some?
  {
    var t :| t in rows && t.customerId == Some(c);
    assert t in RowsOf(rows, c);
  }

  /** A group's latest date is no later than the latest date over all rows. */
  lemma {:induction false} LastDateBounded(rows: seq<Txn>, c: int)
    requires LastDateOf(rows, c).Some?
    ensures MaxDate(rows).Some?
    ensures LastDateOf(rows, c).value <= MaxDate(rows).value
  {
    var t :| t in RowsOf(rows, c) && t.invoiceDate == LastDateOf(rows, c);
  }

  // ---------------------------------------------------------------------------
  // Summing the per-customer totals gives back the total of the grouped rows.

  /** The sum of the per-customer revenue totals over the keys `ids`. */
  function SumOver(ids: seq<int>, rows: seq<Txn>): int {
    if ids == [] then 0 else RevenueOf(rows, ids[0]) + SumOver(ids[1..], rows)
  }

  lemma {:induction false} SumOverNoRows(ids: seq<int>)
    ensures SumOver(ids, []) == 0
  {
    if ids != [] {
      SumOverNoRows(ids[1..]);
    }
  }

  lemma {:induction false} SumOverCons(ids: seq<int>, x: Txn, rest: seq<Txn>)
    requires StrictlyIncreasing(ids)
    ensures SumOver(ids, [x] + rest)
         == (if x.customerId.Some? && x.customerId.value in ids then RevenueValue(x) else 0) + SumOver(ids, rest)
  {
    if ids != [] {
      assert StrictlyIncreasing(ids[1..]);
      SumOverCons(ids[1..], x, rest);
      assert ([x] + rest)[0] == x && ([x] + rest)[1..] == rest;
      RevenueOfCons([x] + rest, ids[0]);
      assert forall c :: c in ids <==> c == ids[0] || c in ids[1..];
      assert ids[0] !in ids[1..];
    }
  }

  /**
   * Summing the groups: over keys covering every customer, the per-customer totals add up
   * to the revenue of all rows that have a Customer_ID.
   */
  lemma {:induction false} GroupTotalsSum(ids: seq<int>, rows: seq<Txn>)
    requires StrictlyIncreasing(ids)
    requires forall c :: c in CustomerIds(rows) ==> c in ids
    ensures SumOver(ids, rows) == SumRevenue(Filter(HasCustomer, rows))
  {
    if rows == [] {
      SumOverNoRows(ids);
    } else {
      var x, rest := rows[0], rows[1..];
      assert rows == [x] + rest;
      assert forall t :: t in rest ==> t in rows;
      GroupTotalsSum(ids, rest);
      SumOverCons(ids, x, rest);
      assert Filter(HasCustomer, rows) == (if HasCustomer(x) then [x] else []) + Filter(HasCustomer, rest);
      if HasCustomer(x) {
        var k := x.customerId.value;
        assert x in rows;
        assert k in CustomerIds(rows);
        assert k in ids;
        assert Filter(HasCustomer, rows) == [x] + Filter(HasCustomer, rest);
        SumRevenueCons(x, Filter(HasCustomer, rest));
      } else {
        assert Filter(HasCustomer, rows) == Filter(HasCustomer, rest);
      }
    }
  }
}
