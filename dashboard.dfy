/**
 * The dashboard's data logic: the sidebar filter state kept across reruns, the
 * country/year filter it drives, and the per-customer lifetime-value and churn table.
 */
module Dashboard {
  import opened Wrappers
  import opened Seqs
  import opened Tables
  import opened Grouping

  // ---------------------------------------------------------------------------
  // Filter state

  /**
   * The three session-state keys behind the sidebar form. The widgets themselves are
   * inputs to the methods: the multiselect choices and the two submit buttons.
   */
  class FilterSession {
    var selectedCountry: seq<string>
    var selectedYear: seq<int>
    var appliedFilters: bool

    /** Filters are only ever marked applied with at least one country and one year chosen. */
    predicate Valid()
      reads this
    {
      appliedFilters ==> selectedCountry != [] && selectedYear != []
    }

    /** The first run: nothing selected, nothing applied. */
    constructor ()
      ensures Valid()
      ensures selectedCountry == [] && selectedYear == [] && !appliedFilters
    {
      selectedCountry := [];
      selectedYear := [];
      appliedFilters := false;
    }

    /** The reset button: back to the first-run state. */
    method Reset()
      modifies this
      ensures Valid()
      ensures selectedCountry == [] && selectedYear == [] && !appliedFilters
    {
      selectedCountry := [];
      selectedYear := [];
      appliedFilters := false;
    }

    /**
     * The apply button: with a country or a year missing it only warns and changes
     * nothing; otherwise it stores the selection and marks the filters applied.
     */
    method Apply(countries: seq<string>, years: seq<int>) returns (warning: bool)
      requires Valid()
      modifies this
      ensures Valid()
      ensures warning <==> countries == [] || years == []
      ensures warning ==> selectedCountry == old(selectedCountry) && selectedYear == old(selectedYear)
                          && appliedFilters == old(appliedFilters)
      ensures !warning ==> selectedCountry == countries && selectedYear == years && appliedFilters
    {
      if countries == [] || years == [] {
        warning := true;
      } else {
        warning := false;
        selectedCountry := countries;
        selectedYear := years;
        appliedFilters := true;
      }
    }

    /**
     * One submission of the form: the reset is handled before the apply, and the page
     * goes on past the gate only when the filters end up applied.
     */
    method Submit(countries: seq<string>, years: seq<int>, apply: bool, reset: bool) returns (proceed: bool)
      requires Valid()
      modifies this
      ensures Valid()
      ensures proceed == appliedFilters
      ensures apply && countries != [] && years != [] ==>
                selectedCountry == countries && selectedYear == years && proceed
      ensures !(apply && countries != [] && years != []) && reset ==>
                selectedCountry == [] && selectedYear == [] && !proceed
      ensures !(apply && countries != [] && years != []) && !reset ==>
                selectedCountry == old(selectedCountry) && selectedYear == old(selectedYear)
                && appliedFilters == old(appliedFilters)
    {
      if reset {
        Reset();
      }
      if apply {
        var _ := Apply(countries, years);
      }
      proceed := appliedFilters;
    }

    /**
     * What the page shows: nothing until the filters are applied, and nothing when the
     * filter keeps no row; otherwise the kept rows, every one of a chosen country and year.
     */
    function Page(rows: seq<DashRow>): (view: Option<seq<DashRow>>)
      reads this
      requires Valid()
      ensures view.Some? <==> appliedFilters && exists x :: x in rows && Selected(selectedCountry, selectedYear, x)
      ensures view.Some? ==> selectedCountry != [] && selectedYear != []
      ensures view.Some? ==> view.value != [] && IsSubsequence(view.value, rows)
      ensures view.Some? ==> forall x :: x in view.value <==> x in rows && Selected(selectedCountry, selectedYear, x)
      ensures view.Some? ==>
        forall x :: multiset(view.value)[x] == if Selected(selectedCountry, selectedYear, x) then multiset(rows)[x] else 0
      ensures view.Some? ==> view.value == FilterRows(rows, selectedCountry, selectedYear)
    {
      var kept := FilterRows(rows, selectedCountry, selectedYear);
      FilterRowsCopies(rows, selectedCountry, selectedYear);
      if !appliedFilters || kept == [] then None
      else
        assert kept[0] in kept;
        Some(kept)
    }
  }

  // ---------------------------------------------------------------------------
  // Country / year filter

  /** A transaction of the loaded table with its InvoiceYear, missing when the date is NaT. */
  datatype DashRow = DashRow(txn: Txn, invoiceYear: Option<int>)

  /** `Country.isin(countries) & InvoiceYear.isin(years)`; a missing year matches no year. */
  predicate Selected(countries: seq<string>, years: seq<int>, x: DashRow) {
    x.txn.country in countries && x.invoiceYear.Some? && x.invoiceYear.value in years
  }

  /** The boolean-mask selection: the matching rows, in their original order. */
  function FilterRows(rows: seq<DashRow>, countries: seq<string>, years: seq<int>): (r: seq<DashRow>)
    ensures forall x :: x in r <==> x in rows && Selected(countries, years, x)
    ensures IsSubsequence(r, rows)
  {
    FilterIsSubsequence(x => Selected(countries, years, x), rows);
    Filter(x => Selected(countries, years, x), rows)
  }

  /** The filter keeps every copy of a selected row, duplicated line items included. */
  lemma {:induction false} FilterRowsCopies(rows: seq<DashRow>, countries: seq<string>, years: seq<int>)
    ensures forall x :: multiset(FilterRows(rows, countries, years))[x]
                     == if Selected(countries, years, x) then multiset(rows)[x] else 0
  {
    FilterMultiset(x => Selected(countries, years, x), rows);
  }

  /** Choosing more countries and years only adds rows: the narrower result is a subsequence. */
  lemma {:induction false} FilterRowsWiden(rows: seq<DashRow>, countries: seq<string>, years: seq<int>,
                                           moreCountries: seq<string>, moreYears: seq<int>)
    requires forall c :: c in countries ==> c in moreCountries
    requires forall y :: y in years ==> y in moreYears
    ensures IsSubsequence(FilterRows(rows, countries, years), FilterRows(rows, moreCountries, moreYears))
  {
    if rows != [] {
      FilterRowsWiden(rows[1..], countries, years, moreCountries, moreYears);
      var narrow := FilterRows(rows[1..], countries, years);
      var wide := FilterRows(rows[1..], moreCountries, moreYears);
      if Selected(countries, years, rows[0]) {
        assert FilterRows(rows, countries, years) == [rows[0]] + narrow;
        assert FilterRows(rows, moreCountries, moreYears) == [rows[0]] + wide;
      } else if Selected(moreCountries, moreYears, rows[0]) {
        assert FilterRows(rows, countries, years) == narrow;
        assert FilterRows(rows, moreCountries, moreYears) == [rows[0]] + wide;
        SubsequenceOfCons(narrow, rows[0], wide);
      } else {
        assert FilterRows(rows, countries, years) == narrow;
        assert FilterRows(rows, moreCountries, moreYears) == wide;
      }
    }
  }

  /** Putting an extra element in front keeps a subsequence a subsequence. */
  lemma {:induction false} SubsequenceOfCons<T>(r: seq<T>, x: T, s: seq<T>)
    requires IsSubsequence(r, s)
    ensures IsSubsequence(r, [x] + s)
  {
    if r != [] {
      assert ([x] + s)[1..] == s;
    }
  }

  // ---------------------------------------------------------------------------
  // Lifetime value and churn

  /** A customer is flagged as churned when its last purchase is more than 90 days old. */
  const ChurnThresholdDays: int := 90

  /** One row of the LTV table. `ltv` is exact here where pandas divides in floating point. */
  datatype LtvRow = LtvRow(customerId: int, totalRevenue: int, orders: int, lastPurchase: Option<int>,
                           ltv: real, recencyDays: Option<int>, churn: int)

  /** `(reference_date - Last_Purchase).dt.days`: missing when either date is missing. */
  function RecencyDays(reference: Option<int>, last: Option<int>): Option<int> {
    if reference.Some? && last.Some? then Some(WholeDays(reference.value - last.value)) else None
  }

  /**
   * One customer's row, from its group: LTV is the revenue per order, and a missing
   * Recency_days compares as not above 90.
   */
  function LtvOf(reference: Option<int>, c: int, g: Agg): (row: LtvRow)
    requires |g.invoices| >= 1
    ensures row.orders >= 1 && row.ltv * row.orders as real == row.totalRevenue as real
  {
    var days := RecencyDays(reference, g.lastDate);
    LtvRow(c, g.revenue, |g.invoices|, g.lastDate, g.revenue as real / |g.invoices| as real, days,
           if days.Some? && days.value > ChurnThresholdDays then 1 else 0)
  }

  /**
   * The LTV table of the filtered rows: one row per customer in ascending Customer_ID order,
   * with the reference date the latest InvoiceDate of all filtered rows.
   */
  function LtvTable(rows: seq<Txn>): (r: seq<LtvRow>)
    ensures |r| == |SortedCustomers(rows)|
  {
    var reference := MaxDate(rows);
    var groups := GroupBy(rows);
    var ids := SortedCustomers(rows);
    GroupsNonEmpty(rows);
    assert forall i :: 0 <= i < |ids| ==> ids[i] in ids && ids[i] in groups;
    seq(|ids|, i requires 0 <= i < |ids| => LtvOf(reference, ids[i], groups[ids[i]]))
  }

  /** Row i of the LTV table is built from the group of the i-th smallest Customer_ID. */
  lemma {:induction false} LtvAt(rows: seq<Txn>, i: int, c: int)
    requires 0 <= i < |SortedCustomers(rows)| && c == SortedCustomers(rows)[i]
    ensures c in CustomerIds(rows) && |InvoicesOf(rows, c)| >= 1
    ensures LtvTable(rows)[i]
         == LtvOf(MaxDate(rows), c, Agg(LastDateOf(rows, c), InvoicesOf(rows, c), RevenueOf(rows, c)))
  {
    assert c in SortedCustomers(rows);
    GroupByAgrees(rows, c);
    InvoicesNonEmpty(rows, c);
  }

  /**
   * Each customer's Total_Revenue, Orders and Last_Purchase are those of its rows, and it has
   * at least one order.
   */
  lemma {:induction false} LtvCustomerMetrics(rows: seq<Txn>, i: int, c: int)
    requires 0 <= i < |SortedCustomers(rows)| && c == SortedCustomers(rows)[i]
    ensures LtvTable(rows)[i].customerId == c && c in CustomerIds(rows)
    ensures LtvTable(rows)[i].totalRevenue == RevenueOf(rows, c)
    ensures LtvTable(rows)[i].orders == |InvoicesOf(rows, c)| >= 1
    ensures LtvTable(rows)[i].lastPurchase == LastDateOf(rows, c)
  {
    LtvAt(rows, i, c);
  }

  /** More than 90 whole days lie in a span of seconds exactly when it covers 91 full days. */
  lemma ChurnSpan(span: int)
    ensures WholeDays(span) > ChurnThresholdDays <==> span >= (ChurnThresholdDays + 1) * SecondsPerDay
  {
    WholeDaysBounds(span);
  }

  /** The date columns of row i, read off its group. */
  lemma {:induction false} LtvDates(rows: seq<Txn>, i: int, c: int)
    requires 0 <= i < |SortedCustomers(rows)| && c == SortedCustomers(rows)[i]
    ensures LtvTable(rows)[i].recencyDays == RecencyDays(MaxDate(rows), LastDateOf(rows, c))
    ensures LtvTable(rows)[i].churn
         == if LtvTable(rows)[i].recencyDays.Some? && LtvTable(rows)[i].recencyDays.value > ChurnThresholdDays then 1 else 0
  {
    LtvAt(rows, i, c);
  }

  /** Recency_days is present exactly when the customer has a dated purchase, and never negative. */
  lemma {:induction false} LtvRecency(rows: seq<Txn>, i: int, c: int)
    requires 0 <= i < |SortedCustomers(rows)| && c == SortedCustomers(rows)[i]
    ensures LtvTable(rows)[i].recencyDays.Some? <==> LastDateOf(rows, c).Some?
    ensures LtvTable(rows)[i].recencyDays.Some? ==>
              LastDateOf(rows, c).Some? && MaxDate(rows).Some? &&
              LtvTable(rows)[i].recencyDays == Some(WholeDays(MaxDate(rows).value - LastDateOf(rows, c).value)) &&
              LtvTable(rows)[i].recencyDays.value >= 0
  {
    LtvDates(rows, i, c);
    var last := LastDateOf(rows, c);
    if last.Some? {
      LastDateBounded(rows, c);
      RecencyDaysPresent(MaxDate(rows), last);
    }
  }

  /** With both dates present, Recency_days counts the whole days between them. */
  lemma RecencyDaysPresent(reference: Option<int>, last: Option<int>)
    requires reference.Some? && last.Some? && last.value <= reference.value
    ensures RecencyDays(reference, last) == Some(WholeDays(reference.value - last.value))
    ensures RecencyDays(reference, last).value >= 0
  {
    WholeDaysBounds(reference.value - last.value);
  }

  /**
   * Churn is 0 or 1, and 1 exactly when the last purchase lies at least 91 whole days before
   * the reference date; a customer without a dated purchase is never flagged.
   */
  lemma {:induction false} LtvChurn(rows: seq<Txn>, i: int, c: int)
    requires 0 <= i < |SortedCustomers(rows)| && c == SortedCustomers(rows)[i]
    ensures LtvTable(rows)[i].churn == 0 || LtvTable(rows)[i].churn == 1
    ensures LtvTable(rows)[i].churn == 1 <==>
              LastDateOf(rows, c).Some? && MaxDate(rows).Some? &&
              LastDateOf(rows, c).value + (ChurnThresholdDays + 1) * SecondsPerDay <= MaxDate(rows).value
  {
    LtvDates(rows, i, c);
    LtvRecency(rows, i, c);
    if LastDateOf(rows, c).Some? {
      ChurnSpan(MaxDate(rows).value - LastDateOf(rows, c).value);
    }
  }

  /** One row per customer of the filtered rows, in ascending Customer_ID order. */
  lemma {:induction false} LtvOneRowPerCustomer(rows: seq<Txn>)
    ensures forall i, j :: 0 <= i < j < |LtvTable(rows)| ==> LtvTable(rows)[i].customerId < LtvTable(rows)[j].customerId
    ensures forall c :: c in CustomerIds(rows) <==> exists i :: 0 <= i < |LtvTable(rows)| && LtvTable(rows)[i].customerId == c
  {
    var r := LtvTable(rows);
    var ids := SortedCustomers(rows);
    forall i | 0 <= i < |r| ensures r[i].customerId == ids[i] {
      LtvAt(rows, i, ids[i]);
    }
    forall c | c in CustomerIds(rows) ensures exists i :: 0 <= i < |r| && r[i].customerId == c {
      var i :| 0 <= i < |ids| && ids[i] == c;
      assert r[i].customerId == c;
    }
  }

  // ---------------------------------------------------------------------------
  // The LTV table of the page

  /** The transaction columns of the shown rows, which the LTV groupby reads. */
  function Txns(rows: seq<DashRow>): (r: seq<Txn>)
    ensures |r| == |rows|
    ensures forall k :: 0 <= k < |rows| ==> r[k] == rows[k].txn
  {
    MapSeq((x: DashRow) => x.txn, rows)
  }

  /** The customers of the filtered rows are those with a row of a chosen country and year. */
  lemma {:induction false} SelectedCustomers(rows: seq<DashRow>, countries: seq<string>, years: seq<int>)
    ensures forall c :: c in CustomerIds(Txns(FilterRows(rows, countries, years))) <==>
      (exists x :: x in rows && Selected(countries, years, x) && x.txn.customerId == Some(c))
  {
  }

  /**
   * The LTV table built from the filtered rows lists exactly the customers that have a
   * row of a chosen country and year, each once, in ascending Customer_ID order.
   */
  lemma {:induction false} SelectionLtvCustomers(rows: seq<DashRow>, countries: seq<string>, years: seq<int>)
    ensures var t := LtvTable(Txns(FilterRows(rows, countries, years)));
      forall i, j :: 0 <= i < j < |t| ==> t[i].customerId < t[j].customerId
    ensures var t := LtvTable(Txns(FilterRows(rows, countries, years)));
      forall c :: (exists i :: 0 <= i < |t| && t[i].customerId == c) <==>
        (exists x :: x in rows && Selected(countries, years, x) && x.txn.customerId == Some(c))
  {
    LtvOneRowPerCustomer(Txns(FilterRows(rows, countries, years)));
    SelectedCustomers(rows, countries, years);
  }
}
