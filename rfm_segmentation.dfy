/**
 * compute_rfm and rfm_scoring: per-customer Recency, Frequency and Monetary, and their
 * quintile scores R, F, M with RFM_Score = R + F + M.
 */
module RfmSegmentation {
  import opened Wrappers
  import opened Seqs
  import opened Tables
  import opened Grouping
  import opened Binning

  /** One row of the RFM table (columns Customer_ID, Recency, Frequency, Monetary). */
  datatype RfmRow = RfmRow(customerId: int, recency: int, frequency: int, monetary: int)

  /** A grouped row before the Recency null-drop: calc_recency may have given no value. */
  datatype Aggregated = Aggregated(customerId: int, recency: Option<int>, frequency: int, monetary: int)

  // ---------------------------------------------------------------------------
  // compute_rfm

  /** The rows kept by `dropna(subset=['InvoiceDate', 'Customer_ID', 'Revenue'])`, in order. */
  function DropIncomplete(rows: seq<Txn>): (valid: seq<Txn>)
    ensures forall t :: t in valid <==> t in rows && Complete(t)
    ensures IsSubsequence(valid, rows)
  {
    FilterIsSubsequence(Complete, rows);
    Filter(Complete, rows)
  }

  /** The null-drop keeps every copy of a complete row, duplicated line items included. */
  lemma {:induction false} DropIncompleteCopies(rows: seq<Txn>)
    ensures forall t :: multiset(DropIncomplete(rows))[t] == if Complete(t) then multiset(rows)[t] else 0
  {
    FilterMultiset(Complete, rows);
  }

  /** The snapshot date: one day after the latest InvoiceDate of the valid rows. */
  function Snapshot(valid: seq<Txn>): int
    requires valid != [] && valid[0].invoiceDate.Some?
  {
    assert valid[0] in valid;
    MaxDate(valid).value + SecondsPerDay
  }

  /** The snapshot lies one day past the latest InvoiceDate: after every valid row's date. */
  lemma {:induction false} SnapshotAfterAll(valid: seq<Txn>)
    requires valid != [] && valid[0].invoiceDate.Some?
    ensures forall t :: t in valid && t.invoiceDate.Some? ==> t.invoiceDate.value + SecondsPerDay <= Snapshot(valid)
    ensures exists t :: t in valid && t.invoiceDate.Some? && t.invoiceDate.value + SecondsPerDay == Snapshot(valid)
  {
  }

  /** calc_recency: whole days from the last order to the snapshot, none without a last order. */
  function CalcRecency(snapshot: int, lastOrder: Option<int>): Option<int> {
    if lastOrder.None? then None else Some(WholeDays(snapshot - lastOrder.value))
  }

  /**
   * A customer with a last order gets a Recency: the number of complete days between the
   * last order and the snapshot, at least 1 when the snapshot is a day or more later.
   */
  lemma CalcRecencyPresent(snapshot: int, lastOrder: Option<int>)
    requires lastOrder.Some?
    ensures CalcRecency(snapshot, lastOrder).Some?
    ensures CalcRecency(snapshot, lastOrder) == Some(WholeDays(snapshot - lastOrder.value))
    ensures var d := CalcRecency(snapshot, lastOrder).value;
      SecondsPerDay * d <= snapshot - lastOrder.value < SecondsPerDay * d + SecondsPerDay
    ensures lastOrder.value + SecondsPerDay <= snapshot ==> CalcRecency(snapshot, lastOrder).value >= 1
  {
    WholeDaysBounds(snapshot - lastOrder.value);
  }

  /** The groupby-agg table, one row per customer in ascending Customer_ID order. */
  function Aggregate(valid: seq<Txn>, snapshot: int): (agg: seq<Aggregated>)
    ensures |agg| == |SortedCustomers(valid)|
  {
    var groups := GroupBy(valid);
    var ids := SortedCustomers(valid);
    assert forall i :: 0 <= i < |ids| ==> ids[i] in ids && ids[i] in groups;
    seq(|ids|, i requires 0 <= i < |ids| =>
      Aggregated(ids[i], CalcRecency(snapshot, groups[ids[i]].lastDate),
                 |groups[ids[i]].invoices|, groups[ids[i]].revenue))
  }

  predicate HasRecency(a: Aggregated) {
    a.recency.Some?
  }

  /** `dropna(subset=['Recency'])` followed by `astype(int)`. */
  function DropMissingRecency(agg: seq<Aggregated>): (r: seq<RfmRow>)
  {
    var kept := Filter(HasRecency, agg);
    assert forall i :: 0 <= i < |kept| ==> kept[i] in kept;
    seq(|kept|, i requires 0 <= i < |kept| =>
      RfmRow(kept[i].customerId, kept[i].recency.value, kept[i].frequency, kept[i].monetary))
  }

  /** compute_rfm: an empty table when no row is complete. */
  function ComputeRfm(rows: seq<Txn>): (r: seq<RfmRow>)
    ensures DropIncomplete(rows) == [] ==> r == []
  {
    var valid := DropIncomplete(rows);
    if valid == [] then []
    else
      assert valid[0] in valid;
      DropMissingRecency(Aggregate(valid, Snapshot(valid)))
  }

  // ---------------------------------------------------------------------------
  // What compute_rfm computes, customer by customer.

  /** `row` holds the RFM metrics of its customer over the valid rows. */
  predicate Describes(valid: seq<Txn>, snapshot: int, row: RfmRow) {
    var c := row.customerId;
    && c in CustomerIds(valid)
    && LastDateOf(valid, c).Some?
    && row.recency == WholeDays(snapshot - LastDateOf(valid, c).value)
    && row.frequency == |InvoicesOf(valid, c)|
    && row.monetary == RevenueOf(valid, c)
  }

  /** Row i of the grouped table is built from the group of the i-th smallest key. */
  lemma {:induction false} AggregateAt(valid: seq<Txn>, snapshot: int, i: int, c: int)
    requires 0 <= i < |SortedCustomers(valid)| && c == SortedCustomers(valid)[i]
    ensures c in CustomerIds(valid) && c in GroupBy(valid)
    ensures Aggregate(valid, snapshot)[i]
         == Aggregated(c, CalcRecency(snapshot, GroupBy(valid)[c].lastDate),
                       |GroupBy(valid)[c].invoices|, GroupBy(valid)[c].revenue)
  {
  }

  /** Row i of the grouped table holds the metrics of the i-th smallest Customer_ID. */
  lemma {:induction false} AggregateRow(valid: seq<Txn>, snapshot: int, i: int, c: int)
    requires 0 <= i < |SortedCustomers(valid)| && c == SortedCustomers(valid)[i]
    ensures c in CustomerIds(valid)
    ensures Aggregate(valid, snapshot)[i]
         == Aggregated(c, CalcRecency(snapshot, LastDateOf(valid, c)), |InvoicesOf(valid, c)|, RevenueOf(valid, c))
  {
    AggregateAt(valid, snapshot, i, c);
    GroupByAgrees(valid, c);
  }

  /** Each grouped row carries its customer's metrics; with every row dated, each has a Recency. */
  lemma {:induction false} AggregateAgrees(valid: seq<Txn>, snapshot: int, i: int, c: int)
    requires forall t :: t in valid ==> t.invoiceDate.Some?
    requires 0 <= i < |SortedCustomers(valid)| && c == SortedCustomers(valid)[i]
    ensures c in CustomerIds(valid) && LastDateOf(valid, c).Some?
    ensures Aggregate(valid, snapshot)[i].customerId == c
    ensures Aggregate(valid, snapshot)[i].recency == Some(WholeDays(snapshot - LastDateOf(valid, c).value))
    ensures Aggregate(valid, snapshot)[i].frequency == |InvoicesOf(valid, c)|
    ensures Aggregate(valid, snapshot)[i].monetary == RevenueOf(valid, c)
  {
    AggregateRow(valid, snapshot, i, c);
    LastDatePresent(valid, c);
    CalcRecencyPresent(snapshot, LastDateOf(valid, c));
  }

  /** When every grouped row has a Recency, the null-drop keeps them all, in order. */
  lemma {:induction false} DropMissingRecencyKeepsAll(agg: seq<Aggregated>)
    requires forall a :: a in agg ==> HasRecency(a)
    ensures |DropMissingRecency(agg)| == |agg|
    ensures forall i :: 0 <= i < |agg| ==>
              (agg[i].recency.Some? &&
               DropMissingRecency(agg)[i] == RfmRow(agg[i].customerId, agg[i].recency.value, agg[i].frequency, agg[i].monetary))
  {
    FilterAll(HasRecency, agg);
    assert forall i :: 0 <= i < |agg| ==> agg[i] in agg;
  }

  /** Not one customer loses its row to the Recency null-drop: every group has a last order. */
  lemma {:induction false} ComputeRfmRows(rows: seq<Txn>)
    requires DropIncomplete(rows) != []
    ensures DropIncomplete(rows)[0].invoiceDate.Some?
    ensures |ComputeRfm(rows)| == |SortedCustomers(DropIncomplete(rows))|
    ensures forall i :: 0 <= i < |ComputeRfm(rows)| ==>
              ComputeRfm(rows)[i].customerId == SortedCustomers(DropIncomplete(rows))[i] &&
              Describes(DropIncomplete(rows), Snapshot(DropIncomplete(rows)), ComputeRfm(rows)[i])
  {
    var valid := DropIncomplete(rows);
    assert valid[0] in valid;
    var snapshot := Snapshot(valid);
    var agg := Aggregate(valid, snapshot);
    forall i | 0 <= i < |agg| ensures HasRecency(agg[i]) {
      AggregateAgrees(valid, snapshot, i, SortedCustomers(valid)[i]);
    }
    assert forall a :: a in agg ==> HasRecency(a);
    DropMissingRecencyKeepsAll(agg);
    assert ComputeRfm(rows) == DropMissingRecency(agg);
    forall i | 0 <= i < |agg|
      ensures ComputeRfm(rows)[i].customerId == SortedCustomers(valid)[i]
      ensures Describes(valid, snapshot, ComputeRfm(rows)[i])
    {
      AggregateAgrees(valid, snapshot, i, SortedCustomers(valid)[i]);
    }
  }

  /** One row per distinct Customer_ID of the valid rows, in ascending Customer_ID order. */
  lemma {:induction false} OneRowPerCustomer(rows: seq<Txn>)
    ensures var r := ComputeRfm(rows);
      && (forall i, j :: 0 <= i < j < |r| ==> r[i].customerId < r[j].customerId)
      && (forall c :: c in CustomerIds(DropIncomplete(rows)) <==> exists i :: 0 <= i < |r| && r[i].customerId == c)
  {
    var valid := DropIncomplete(rows);
    if valid != [] {
      ComputeRfmRows(rows);
      var r := ComputeRfm(rows);
      var ids := SortedCustomers(valid);
      forall c | c in CustomerIds(valid) ensures exists i :: 0 <= i < |r| && r[i].customerId == c {
        var i :| 0 <= i < |ids| && ids[i] == c;
        assert r[i].customerId == c;
      }
    }
  }

  /**
   * Each customer's Frequency is at least 1 (a group has at least one invoice), and so is its
   * Recency (the snapshot is a day past every order).
   */
  lemma {:induction false} CustomerMetrics(rows: seq<Txn>, i: int)
    requires 0 <= i < |ComputeRfm(rows)|
    ensures ComputeRfm(rows)[i].frequency >= 1
    ensures ComputeRfm(rows)[i].recency >= 1
  {
    var valid := DropIncomplete(rows);
    ComputeRfmRows(rows);
    var row := ComputeRfm(rows)[i];
    var snapshot := Snapshot(valid);
    assert Describes(valid, snapshot, row);
    InvoicesNonEmpty(valid, row.customerId);
    var last := LastDateOf(valid, row.customerId);
    LastDateBounded(valid, row.customerId);
    assert snapshot == MaxDate(valid).value + SecondsPerDay;
    WholeDaysBounds(snapshot - last.value);
  }

  /** The Monetary column of the RFM table. */
  function MonetaryTotal(r: seq<RfmRow>): int {
    if r == [] then 0 else r[0].monetary + MonetaryTotal(r[1..])
  }

  lemma {:induction false} MonetaryTotalIsSumOver(r: seq<RfmRow>, ids: seq<int>, valid: seq<Txn>)
    requires |r| == |ids|
    requires forall i :: 0 <= i < |r| ==> r[i].monetary == RevenueOf(valid, ids[i])
    ensures MonetaryTotal(r) == SumOver(ids, valid)
  {
    if r != [] {
      MonetaryTotalIsSumOver(r[1..], ids[1..], valid);
    }
  }

  /** The Monetary values add up to the Revenue of all valid rows: grouping loses nothing. */
  lemma {:induction false} MonetaryConserved(rows: seq<Txn>)
    ensures MonetaryTotal(ComputeRfm(rows)) == SumRevenue(DropIncomplete(rows))
  {
    var valid := DropIncomplete(rows);
    if valid != [] {
      ComputeRfmRows(rows);
      var ids := SortedCustomers(valid);
      MonetaryTotalIsSumOver(ComputeRfm(rows), ids, valid);
      GroupTotalsSum(ids, valid);
      FilterAll(HasCustomer, valid);
    }
  }

  // ---------------------------------------------------------------------------
  // rfm_scoring

  /** A scored row: the RFM metrics with the quintile scores R, F, M and RFM_Score. */
  datatype ScoredRow = ScoredRow(rfm: RfmRow, r: int, f: int, m: int, rfmScore: int)

  /** The qcut that raised, named by the column it was binning. */
  datatype ScoringError = EdgesNotUnique(column: string)

  function Recencies(t: seq<RfmRow>): seq<int> {
    seq(|t|, i requires 0 <= i < |t| => t[i].recency)
  }

  function Frequencies(t: seq<RfmRow>): seq<int> {
    seq(|t|, i requires 0 <= i < |t| => t[i].frequency)
  }

  function Monetaries(t: seq<RfmRow>): seq<int> {
    seq(|t|, i requires 0 <= i < |t| => t[i].monetary)
  }

  /** The binned F column: `Frequency.rank(method='first')`. */
  function FrequencyRanks(t: seq<RfmRow>): seq<int> {
    RankFirst(Frequencies(t))
  }

  const RecencyLabels: seq<int> := [5, 4, 3, 2, 1]
  const ScoreLabels: seq<int> := [1, 2, 3, 4, 5]

  /** The R column: `qcut(Recency, 5, labels=[5, 4, 3, 2, 1])`, so a customer scores 6 - bin. */
  function RScores(t: seq<RfmRow>): (r: Option<seq<int>>)
    requires t != []
    ensures r.Some? <==> Distinct(Edges(Recencies(t)))
    ensures r.Some? ==> |r.value| == |t|
    ensures r.Some? ==> forall i :: 0 <= i < |t| ==>
              r.value[i] == 6 - Bin(Edges(Recencies(t)), t[i].recency)
  {
    LabelsAreScores(Edges(Recencies(t)), Recencies(t));
    QCut(Recencies(t), RecencyLabels)
  }

  /** The F column: `qcut` of the Frequency ranks with labels 1..5, so a customer scores its bin. */
  function FScores(t: seq<RfmRow>): (r: Option<seq<int>>)
    requires t != []
    ensures r.Some? <==> Distinct(Edges(FrequencyRanks(t)))
    ensures r.Some? ==> |r.value| == |t|
    ensures r.Some? ==> forall i :: 0 <= i < |t| ==>
              r.value[i] == Bin(Edges(FrequencyRanks(t)), FrequencyRanks(t)[i])
  {
    LabelsAreScores(Edges(FrequencyRanks(t)), FrequencyRanks(t));
    QCut(FrequencyRanks(t), ScoreLabels)
  }

  /** The M column: `qcut(Monetary, 5, labels=[1, 2, 3, 4, 5])`. */
  function MScores(t: seq<RfmRow>): (r: Option<seq<int>>)
    requires t != []
    ensures r.Some? <==> Distinct(Edges(Monetaries(t)))
    ensures r.Some? ==> |r.value| == |t|
    ensures r.Some? ==> forall i :: 0 <= i < |t| ==>
              r.value[i] == Bin(Edges(Monetaries(t)), t[i].monetary)
  {
    LabelsAreScores(Edges(Monetaries(t)), Monetaries(t));
    QCut(Monetaries(t), ScoreLabels)
  }

  /**
   * rfm_scoring: an empty table is returned as it is; otherwise R, F and M are binned in
   * that order, the first qcut whose edges coincide raises, and RFM_Score = R + F + M.
   * The R labels run backwards, so the most recent customers score 5.
   */
  function RfmScoring(t: seq<RfmRow>): (r: Result<seq<ScoredRow>, ScoringError>)
    ensures t == [] ==> r == Success([])
    ensures t != [] ==>
      (r.Success? <==> Distinct(Edges(Recencies(t))) && Distinct(Edges(FrequencyRanks(t)))
                       && Distinct(Edges(Monetaries(t))))
    ensures t != [] && !Distinct(Edges(Recencies(t))) ==> r == Failure(EdgesNotUnique("Recency"))
    ensures (t != [] && Distinct(Edges(Recencies(t))) && !Distinct(Edges(FrequencyRanks(t))))
            ==> r == Failure(EdgesNotUnique("Frequency"))
    ensures (t != [] && Distinct(Edges(Recencies(t))) && Distinct(Edges(FrequencyRanks(t)))
             && !Distinct(Edges(Monetaries(t))))
            ==> r == Failure(EdgesNotUnique("Monetary"))
    ensures r.Success? ==> |r.value| == |t|
    ensures r.Success? ==> forall i :: 0 <= i < |t| ==>
      && r.value[i].rfm == t[i]
      && r.value[i].r == 6 - Bin(Edges(Recencies(t)), t[i].recency)
      && r.value[i].f == Bin(Edges(FrequencyRanks(t)), FrequencyRanks(t)[i])
      && r.value[i].m == Bin(Edges(Monetaries(t)), t[i].monetary)
      && r.value[i].rfmScore == r.value[i].r + r.value[i].f + r.value[i].m
  {
    if t == [] then Success([])
    else
      var rs := RScores(t);
      if rs.None? then Failure(EdgesNotUnique("Recency"))
      else
        var fs := FScores(t);
        if fs.None? then Failure(EdgesNotUnique("Frequency"))
        else
          var ms := MScores(t);
          if ms.None? then Failure(EdgesNotUnique("Monetary"))
          else
            Success(Assemble(t, rs.value, fs.value, ms.value))
  }

  /** The scored table: each row with its three scores and their sum. */
  function Assemble(t: seq<RfmRow>, rs: seq<int>, fs: seq<int>, ms: seq<int>): (rows: seq<ScoredRow>)
    requires |rs| == |t| && |fs| == |t| && |ms| == |t|
    ensures |rows| == |t|
    ensures forall i :: 0 <= i < |t| ==> rows[i] == ScoredRow(t[i], rs[i], fs[i], ms[i], rs[i] + fs[i] + ms[i])
  {
    seq(|t|, i requires 0 <= i < |t| => ScoredRow(t[i], rs[i], fs[i], ms[i], rs[i] + fs[i] + ms[i]))
  }

  /** Every score lies in 1..5, so RFM_Score lies in 3..15. */
  lemma {:induction false} ScoreRanges(t: seq<RfmRow>, i: int)
    requires RfmScoring(t).Success? && 0 <= i < |t|
    ensures var row := RfmScoring(t).value[i];
      && 1 <= row.r <= 5 && 1 <= row.f <= 5 && 1 <= row.m <= 5
      && 3 <= row.rfmScore <= 15
  {
    assert Recencies(t)[i] == t[i].recency && Monetaries(t)[i] == t[i].monetary;
    var b := Bin(Edges(Recencies(t)), t[i].recency);
    var f := Bin(Edges(FrequencyRanks(t)), FrequencyRanks(t)[i]);
    var m := Bin(Edges(Monetaries(t)), t[i].monetary);
    assert 1 <= b <= 5 && 1 <= f <= 5 && 1 <= m <= 5;
  }

  /** Reading the labels off by bin: R scores 6 - bin, F and M score the bin itself. */
  lemma LabelsAreScores(e: seq<real>, values: seq<int>)
    requires |e| == 6
    ensures forall i :: 0 <= i < |values| ==>
      RecencyLabels[Bin(e, values[i]) - 1] == 6 - Bin(e, values[i])
      && ScoreLabels[Bin(e, values[i]) - 1] == Bin(e, values[i])
  {
  }

  /** A more recent customer never gets a lower R score. */
  lemma {:induction false} RecencyScoreOrder(t: seq<RfmRow>, i: int, j: int)
    requires RfmScoring(t).Success? && 0 <= i < |t| && 0 <= j < |t|
    requires t[i].recency <= t[j].recency
    ensures RfmScoring(t).value[i].r >= RfmScoring(t).value[j].r
  {
    BinMonotone(Edges(Recencies(t)), t[i].recency, t[j].recency);
  }

  /** A customer who spent more never gets a lower M score. */
  lemma {:induction false} MonetaryScoreOrder(t: seq<RfmRow>, i: int, j: int)
    requires RfmScoring(t).Success? && 0 <= i < |t| && 0 <= j < |t|
    requires t[i].monetary <= t[j].monetary
    ensures RfmScoring(t).value[i].m <= RfmScoring(t).value[j].m
  {
    BinMonotone(Edges(Monetaries(t)), t[i].monetary, t[j].monetary);
  }

  /**
   * A customer with fewer invoices never gets a higher F score; between equal Frequencies the
   * earlier row is ranked first, so it never scores higher either.
   */
  lemma {:induction false} FrequencyScoreOrder(t: seq<RfmRow>, i: int, j: int)
    requires RfmScoring(t).Success? && 0 <= i < |t| && 0 <= j < |t|
    requires t[i].frequency < t[j].frequency || (t[i].frequency == t[j].frequency && i <= j)
    ensures RfmScoring(t).value[i].f <= RfmScoring(t).value[j].f
  {
    if i != j {
      assert Before(Frequencies(t), i, j);
      RankFirstOrder(Frequencies(t), i, j);
      BinMonotone(Edges(FrequencyRanks(t)), FrequencyRanks(t)[i], FrequencyRanks(t)[j]);
    }
  }

  /**
   * The R score is the quintile band of the Recency, counted from the top: 5 for the lowest
   * band [e0, e1], and 6 - k for the band (e(k-1), ek].
   */
  lemma {:induction false} RecencyScoreBand(t: seq<RfmRow>, i: int, k: int)
    requires RfmScoring(t).Success? && 0 <= i < |t| && 1 <= k <= 5
    ensures var e := Edges(Recencies(t));
      RfmScoring(t).value[i].r == 6 - k <==>
        (k == 1 || e[k - 1] < t[i].recency as real) && t[i].recency as real <= e[k]
  {
    assert Recencies(t)[i] == t[i].recency;
    BinInterval(Recencies(t), t[i].recency, k);
  }

  /** The M score is the quintile band of the Monetary value: k for the band (e(k-1), ek]. */
  lemma {:induction false} MonetaryScoreBand(t: seq<RfmRow>, i: int, k: int)
    requires RfmScoring(t).Success? && 0 <= i < |t| && 1 <= k <= 5
    ensures var e := Edges(Monetaries(t));
      RfmScoring(t).value[i].m == k <==>
        (k == 1 || e[k - 1] < t[i].monetary as real) && t[i].monetary as real <= e[k]
  {
    assert Monetaries(t)[i] == t[i].monetary;
    BinInterval(Monetaries(t), t[i].monetary, k);
  }

  /** When every customer has the same Recency, all R edges coincide and scoring raises. */
  lemma {:induction false} ConstantRecencyFails(t: seq<RfmRow>)
    requires t != [] && forall i :: 0 <= i < |t| ==> t[i].recency == t[0].recency
    ensures RfmScoring(t) == Failure(EdgesNotUnique("Recency"))
  {
    var values := Recencies(t);
    EdgesSpan(values);
    var lo :| lo in values && Edges(values)[0] == lo as real;
    var hi :| hi in values && Edges(values)[5] == hi as real;
    assert lo == t[0].recency && hi == t[0].recency;
    assert !Distinct(Edges(values));
  }

  /** A table with a single customer cannot be scored. */
  lemma {:induction false} SingleCustomerFails(t: seq<RfmRow>)
    requires |t| == 1
    ensures RfmScoring(t) == Failure(EdgesNotUnique("Recency"))
  {
    ConstantRecencyFails(t);
  }

  /**
   * The Frequency qcut never raises: one customer already fails on Recency, and from two
   * customers on the ranks 1..n have distinct edges.
   */
  lemma {:induction false} FrequencyNeverRaises(t: seq<RfmRow>)
    ensures RfmScoring(t) != Failure(EdgesNotUnique("Frequency"))
  {
    if |t| == 1 {
      SingleCustomerFails(t);
    } else if |t| >= 2 {
      RankEdgesUnique(Frequencies(t));
    }
  }
}
