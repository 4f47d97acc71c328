# Retail analytics core, modelled in Dafny

This project models the computational core of a small online-retail analytics dashboard:

- the cleaning of raw transaction exports;
- the per-customer revenue enrichment;
- the RFM (Recency, Frequency, Monetary) segmentation and its 1–5 quintile scoring;
- the dashboard's filter session state, its country/year row filter and its LTV/churn table.

The model represents transactions as records with optional fields: customer id, invoice date and revenue.

- Money is held in integer cents.
- Timestamps are integer seconds.
- `Timedelta.days` is floor division by 86 400 (`Tables.WholeDays`).
- A pandas `groupby` becomes a fold into a map keyed by customer id (`Grouping.GroupBy`). Its keys are read in ascending order, as `groupby` sorts them, and null keys are dropped.
- The quintile edges are defined (`Binning.Quantile`) as the linear, type-7 quantiles at positions (n-1)k/5 of the sorted values, which is how `Series.quantile` interpolates by default, computed exactly over `real`.
- Each grouped figure has an independent reference definition over the rows of that customer (`RevenueOf`, `InvoicesOf`, `LastDateOf`), and `Grouping.GroupByAgreesAll` proves the fold agrees with them.

Modules:

- `Wrappers`: Option and Result.
- `Seqs`: filter, map and subsequence, with their lemmas.
- `Tables`: the row records, the latest date and whole days.
- `Grouping`: the groupby fold and the per-customer reference definitions.
- `DataProcessing`: `clean_data`.
- `FeatureEngineering`: `add_customer_revenue`.
- `Binning`:
  - sorting;
  - linearly interpolated quintile edges;
  - the `qcut` bin of a value;
  - `rank(method='first')`.
- `RfmSegmentation`: `compute_rfm` and `rfm_scoring`.
- `Dashboard`:
  - the `FilterSession` class over the three session-state fields;
  - the country/year filter;
  - the LTV/churn table.
- `Consistency`: lemmas relating the RFM table, the LTV table and the enrichment to each other.

`rfm_scoring` calls `pd.qcut(..., 5, labels=[...], duplicates='drop')`. `duplicates='drop'` reads as if colliding bins would merge. But when two quintile edges coincide, pandas drops the duplicates, leaving fewer than five bins for five explicit labels, and raises an error. The model follows what pandas does: `RfmScoring` returns `Failure(EdgesNotUnique(column))`, checking Recency first, then Frequency, then Monetary. The scores are integers.

Two consequences are proved:

- Scoring raises for a single customer and for a constant Recency column (`ConstantRecencyFails`, `SingleCustomerFails`).
- The Frequency binning never raises, because it bins the ranks 1..n (`FrequencyNeverRaises`).

## Model

| member | source | states |
|---|---|---|
| RfmSegmentation.DropIncomplete | src/rfm_segmentation.py:10 | a row reaches aggregation iff it has an InvoiceDate, a Customer_ID and a Revenue; the kept rows are a subsequence of the input in its order |
| RfmSegmentation.DropIncompleteCopies | src/rfm_segmentation.py:10 | every copy of a complete row survives the null-drop (duplicated line items included), and no copy of an incomplete one |
| RfmSegmentation.ComputeRfm | src/rfm_segmentation.py:12-14 | when no complete row remains the result is the empty table (no failure) |
| RfmSegmentation.SnapshotAfterAll | src/rfm_segmentation.py:16 | the snapshot is exactly one day after the latest valid InvoiceDate: at least a day after every dated row and attained by one of them |
| RfmSegmentation.CalcRecencyPresent | src/rfm_segmentation.py:18-22 | a customer with a last order gets a Recency d with d days <= snapshot - last order < d + 1 days, the complete days in between, and d >= 1 when the snapshot is at least a day later |
| RfmSegmentation.AggregateAgrees | src/rfm_segmentation.py:18-30 | row i of the grouped table belongs to the i-th smallest Customer_ID and holds its whole-day recency, distinct invoice count and revenue sum |
| RfmSegmentation.DropMissingRecencyKeepsAll | src/rfm_segmentation.py:33-34 | when every grouped row has a Recency, the null-drop keeps every row, in order, with the value turned into an integer |
| RfmSegmentation.ComputeRfmRows | src/rfm_segmentation.py:10-36 | the RFM table has one row per customer of the valid rows, in ascending id order, each describing that customer's Recency, Frequency and Monetary |
| RfmSegmentation.OneRowPerCustomer | src/rfm_segmentation.py:24-30 | the ids are strictly increasing (so distinct), and a customer appears iff it has a valid row |
| RfmSegmentation.CustomerMetrics | src/rfm_segmentation.py:16-30 | every customer's Frequency is at least 1 and its Recency is at least 1, whatever the times of day |
| RfmSegmentation.MonetaryConserved | src/rfm_segmentation.py:27-30 | the Monetary column sums to the total Revenue of the valid rows |
| RfmSegmentation.RScores | src/rfm_segmentation.py:46 | Recency binning succeeds iff its edges are distinct; then each R is 6 minus the value's quintile bin (labels 5..1) |
| RfmSegmentation.FScores | src/rfm_segmentation.py:47 | Frequency binning over rank 'first' succeeds iff the rank edges are distinct; then each F is the rank's bin |
| RfmSegmentation.MScores | src/rfm_segmentation.py:48 | Monetary binning succeeds iff its edges are distinct; then each M is the value's bin |
| RfmSegmentation.RfmScoring | src/rfm_segmentation.py:42-52 | an empty table is returned unchanged; otherwise it succeeds iff all three edge sets are distinct, raises on the first column (R, then F, then M) whose edges collide, keeps every input row unchanged and in order, and sets RFM_Score = R + F + M |
| RfmSegmentation.ScoreRanges | src/rfm_segmentation.py:46-50 | after a successful scoring, R, F and M lie in 1..5 and RFM_Score lies in 3..15 |
| RfmSegmentation.RecencyScoreOrder | src/rfm_segmentation.py:46 | a Recency no larger gives an R score no smaller |
| RfmSegmentation.MonetaryScoreOrder | src/rfm_segmentation.py:48 | a Monetary no larger gives an M score no larger |
| RfmSegmentation.FrequencyScoreOrder | src/rfm_segmentation.py:47 | a smaller Frequency, or an equal Frequency at an earlier row, gives an F score no larger |
| RfmSegmentation.RecencyScoreBand | src/rfm_segmentation.py:46 | R is 6 - k exactly when the Recency lies in the k-th quintile interval (e[k-1], e[k]], the first closed on the left |
| RfmSegmentation.MonetaryScoreBand | src/rfm_segmentation.py:48 | M is k exactly when the Monetary lies in the k-th quintile interval |
| RfmSegmentation.ConstantRecencyFails | src/rfm_segmentation.py:46 | when all customers share one Recency the scoring raises on the Recency column |
| RfmSegmentation.SingleCustomerFails | src/rfm_segmentation.py:46 | a one-customer table makes the scoring raise on the Recency column |
| RfmSegmentation.FrequencyNeverRaises | src/rfm_segmentation.py:47 | the Frequency binning never is the one that raises |
| Binning.Sort | src/rfm_segmentation.py:46-48 | the values qcut bins by are sorted and a permutation of the column |
| Binning.QCut | src/rfm_segmentation.py:46-48 | qcut gives a label per value iff the six quintile edges are distinct, label number bin(value) |
| Binning.BinMonotone | src/rfm_segmentation.py:46-48 | the bin index is monotone in the value |
| Binning.EdgesIncreasing | src/rfm_segmentation.py:46-48 | distinct quintile edges are strictly increasing |
| Binning.BinInterval | src/rfm_segmentation.py:46-48 | a column value lies in bin j iff it lies in the j-th interval of the edges |
| Binning.RankFirstBounds | src/rfm_segmentation.py:47 | every rank 'first' lies in 1..n |
| Binning.RankFirstOrder | src/rfm_segmentation.py:47 | a smaller value, or an equal one earlier in the column, gets a smaller rank |
| Binning.RankFirstPermutation | src/rfm_segmentation.py:47 | ranks lie in 1..n and are pairwise distinct |
| Binning.RanksAreIota | src/rfm_segmentation.py:47 | the ranks are exactly the numbers 1..n, as a multiset |
| Binning.RankEdgesUnique | src/rfm_segmentation.py:47 | with two or more rows, the quintile edges of the ranks are distinct |
| DataProcessing.RenameColumns | src/data_processing.py:13-17 | Invoice, Price and Customer ID become InvoiceNo, UnitPrice and Customer_ID in place, other columns keep their name, and no old name survives |
| DataProcessing.CleanData | src/data_processing.py:19-33 | no output row is a cancellation, every one has a customer, Revenue = Quantity * UnitPrice and Revenue > 0 |
| DataProcessing.CleanDataOnePass | src/data_processing.py:19-35 | the cleaning chain equals one filter by the keep condition followed by the Revenue computation |
| DataProcessing.CleanDataSubsequence | src/data_processing.py:19-35 | the cleaned rows with Revenue dropped are a subsequence of the raw rows: nothing reordered, duplicated or altered |
| DataProcessing.CleanDataKeeps | src/data_processing.py:19-33 | a raw row survives iff it is not cancelled, has a customer and has positive Quantity * UnitPrice |
| FeatureEngineering.AddCustomerRevenue | src/feature_engineering.py:13-23 | same length and order; every original row is kept unchanged; a row without customer gets no total; a row with one gets the revenue sum of all rows of its customer |
| FeatureEngineering.SameCustomerSameTotal | src/feature_engineering.py:16-23 | two rows of the same customer carry the same TotalRevenue |
| FeatureEngineering.TotalCoversOwnRevenue | src/feature_engineering.py:16-23 | with non-negative revenues, each row's TotalRevenue is at least its own Revenue |
| Grouping.GroupByAgreesAll | src/rfm_segmentation.py:24-28 | the groupby fold gives each customer its latest date, distinct invoices and revenue sum over that customer's rows (also used at app/streamlit_app.py:209-216) |
| Grouping.GroupTotalsSum | src/feature_engineering.py:16-20 | summing the per-customer totals over all customers gives the total revenue of the rows that name a customer |
| Dashboard.FilterSession.constructor | app/streamlit_app.py:66-72 | the session starts with no country, no year and filters not applied |
| Dashboard.FilterSession.Reset | app/streamlit_app.py:88-91 | reset empties both selections and clears the applied flag |
| Dashboard.FilterSession.Apply | app/streamlit_app.py:94-100 | a warning iff either list is empty, and then nothing changes; otherwise both lists are stored and the flag is set |
| Dashboard.FilterSession.Submit | app/streamlit_app.py:88-104 | reset is processed before apply; the page proceeds iff filters are applied afterwards; the new state in each of the three cases |
| Dashboard.FilterSession.Page | app/streamlit_app.py:102-116 | a page is shown iff filters are applied and some row is selected, and then at least one country and one year are chosen; the shown rows are the country/year filter's result: a non-empty subsequence holding every copy of each selected row and nothing else |
| Dashboard.FilterRows | app/streamlit_app.py:109-112 | a row survives iff its Country and its InvoiceYear are selected; the survivors keep their order |
| Dashboard.FilterRowsCopies | app/streamlit_app.py:109-112 | every copy of a selected row survives the filter, and no copy of an unselected one |
| Dashboard.FilterRowsWiden | app/streamlit_app.py:109-112 | widening either selection only adds rows: the narrower result is a subsequence of the wider |
| Dashboard.LtvOf | app/streamlit_app.py:209-218 | orders are at least 1 and LTV times orders is the total revenue |
| Dashboard.LtvTable | app/streamlit_app.py:208-220 | one row per customer of the filtered rows |
| Dashboard.LtvCustomerMetrics | app/streamlit_app.py:209-216 | row i is the i-th smallest customer, with its revenue sum, its distinct invoice count (at least 1) and its latest date |
| Dashboard.LtvRecency | app/streamlit_app.py:208-219 | Recency_days is present iff the customer has a dated row, and is then the whole days from the last purchase to the raw maximum date, at least 0 |
| Dashboard.LtvChurn | app/streamlit_app.py:219-220 | Churn is 0 or 1, and 1 iff the last purchase is at least 91 days before the reference date, i.e. Recency_days > 90 |
| Dashboard.ChurnSpan | app/streamlit_app.py:220 | more than 90 whole days iff a span of at least 91 days |
| Dashboard.LtvOneRowPerCustomer | app/streamlit_app.py:209-217 | ids are strictly increasing and a customer appears iff it has a row |
| Dashboard.SelectedCustomers | app/streamlit_app.py:109-112 | the customers of the filtered rows are exactly those with a row of a chosen country and year |
| Dashboard.SelectionLtvCustomers | app/streamlit_app.py:208-217 | the LTV table of the filtered rows lists, once each and in ascending order, exactly the customers with a row of a chosen country and year |
| Consistency.LtvMatchesRfm | app/streamlit_app.py:209-216 | on complete rows, the LTV table and the RFM table list the same customers in the same order, with Orders = Frequency and Total_Revenue = Monetary |
| Consistency.LtvRecencyMatchesRfm | app/streamlit_app.py:208-219 | on complete rows, Recency_days is exactly one less than the RFM Recency, because the reference date has no one-day offset |
| Consistency.EnrichmentMatchesRfm | src/feature_engineering.py:16-23 | on complete rows, every enriched row's customer has a row in the RFM table, and the row's TotalRevenue is that RFM row's Monetary |

## Left out

- Streamlit rendering is not modelled. That covers page config, sidebar widgets, markdown, metric cards, expanders, tables, `st.info`, `st.warning`, `st.error` and `st.stop`. `Apply` returns the warning as a boolean, and `Page` returns `None` where the page stops.
- Plotly charts and the KPI card formatting are not modelled: they are presentation-only library calls.
- The LTV heatmap `qcut` over float LTV is not modelled.
- The segment multiselect over the scored RFM table is not modelled.
- File I/O is not modelled: `load_raw_data`, `save_processed_data` and the cached `load_and_prepare_data`.
- `add_time_features` is not modelled, because it extracts calendar components from datetimes. `InvoiceYear` is an input field of each dashboard row.
- `src/ml_model.py` (scikit-learn) and `src/visualisation.py` are not part of this model.
- The app wraps RFM scoring in try/except. `RfmScoring` returns a `Failure` where pandas raises, and the catch is not modelled.
- The app re-coerces Recency to an integer after `compute_rfm`. That step repeats the null-drop and cast already modelled by `DropMissingRecency`.
- Floating point is not modelled:
  - Revenue and prices are integer cents, so Quantity * UnitPrice is exact.
  - LTV and the quintile edges are exact `real` values.
  - Rounding of float division and of the float quantile arithmetic is not captured.
- The `astype(int)` conversion of Customer_ID and `pd.to_datetime` in `clean_data` are not modelled: ids are already integers and dates already seconds.
- Raw rows with a missing Quantity or UnitPrice are not modelled: both are plain integers. The source drops such a row, because its Revenue is missing and fails `Revenue > 0`.
- Rows whose InvoiceNo or Country is missing are not modelled. Both fields are plain strings, so the `astype(str)` of a missing InvoiceNo is not captured.
- `RfmScoring` returns the empty table for an empty input. The source returns it with its columns, which the model's row type carries implicitly.
- RfmScoring: the raise is decided on exact quintile edges. Pandas reads the quantile positions from `np.linspace(0, 1, 6)` in floating point, so position 3/5 is 0.6000000000000001. When n - 1 is a multiple of 5, the fourth edge then lands just above a sorted value where the exact edge lands on it. Two edges that coincide exactly can therefore be distinct in pandas. For Recency [1, 2, 3, 3, 4, 5] the model fails on Recency, while pandas computes the edges [1, 2, 3, 3.0000000000000004, 4, 5] and assigns scores. When both sets of edges are distinct, the bins agree.
- `Dashboard.LtvOf` states LTV only through LTV × Orders = Total_Revenue. It does not state the rounding of float division.
