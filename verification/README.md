# Medical-appointments dashboard: filter and metrics engine

This project is a Dafny model of the analytical core of a Streamlit dashboard
for medical-appointment records (`dashboard.py`). Each record holds a
consultation date, a clinic unit, a specialty, an amount charged and a return
value that may be missing. The core has five parts:

- **Filter engine.** It keeps the records of an inclusive date window. When the
  unit selection is non-empty, it also keeps only the selected units. An empty
  selection applies no unit filter.
- **Prior-period window.** A window of the same length that ends the day before
  the chosen window starts. The single-period tab compares against it.
- **Metric snapshot.** Number of consultations, number of distinct units, total
  revenue, and a "safe" mean of the return values that falls back to 0.0.
- **Variation.** `calcular_variacao` is the percentage change shown on every
  card. `formatar_variacao` picks the card's marker by the sign of the change.
- **Grouped aggregation and outer merge.** Records are grouped by unit,
  specialty or day, and each group gets a row count or an amount sum. The
  comparison tab outer-merges the groups of two periods on the key and fills
  a missing side with 0.

Dates are integer day numbers. Amounts and return values are `real`. A pandas
NaN is `None` of an `Option`. The record table is an immutable `seq<Record>`.

Modules:

- `Records` (records.dfy): the `Record` type, `Option`, the
  order-preserving selection `Where` that every filter is built from, and the
  column projection `Column` and column sum `SumOf` that every aggregate
  (revenue, group values, merged columns) is built from.
- `Filtering` (filtering.dfy): the filter view, the prior window and the prior view.
- `Metrics` (metrics.dfy): revenue total, the safe mean, and the snapshot. The
  snapshot has a reference definition and a one-pass method.
- `Variations` (variations.dfy): the variation policy, per-card changes
  between two snapshots, and the marker choice.
- `Grouping` (grouping.dfy): group-by tables, the zero-filled outer merge, and
  the two-period comparison.
- `Currency` (currency.dfy): the three chained character replacements of
  `format_brl` that turn "1,234.56" into "1.234,56".
- `Scenarios` (scenarios.dfy): small concrete cases.

Points of behaviour worth knowing:

- With a zero baseline and a negative current value, `calcular_variacao`
  returns 0.0 (dashboard.py:295): only a positive current value gives 100.0.
- Grouped tables come out in first-appearance order of the keys, where pandas
  sorts them. Key order only affects chart layout, and no contract depends on
  it.
- The date pickers are bounded by the data's min/max dates. The model accepts
  any window, reversed ones included, as the filter code does (354-357).

## Model

| member | source | states |
|---|---|---|
| Filtering.FilterView | dashboard.py:354-360 | The view is an order-preserving subsequence of the records. A record is kept, with all its copies, iff its day lies in the inclusive window and (when the selection is non-empty) its unit is selected. A reversed window gives the empty view. |
| Filtering.FilterIsOnePass | dashboard.py:651-663 | The two-stage filter (dates, then units only if the selection is non-empty) equals one selection with the combined predicate. |
| Filtering.EmptySelectionSelectsAllUnits | dashboard.py:359-360 | An empty unit selection gives the same view as selecting every unit in the data, and that view is the date filter alone. |
| Filtering.AbsentSelectionEmptiesView | dashboard.py:359-360 | A non-empty selection none of whose units has a row in the window empties the view, even when every selected unit occurs elsewhere in the data. The comparison tab filters the same way (661-663). |
| Filtering.PriorWindow | dashboard.py:363-365 | The prior window has the same inclusive length and ends the day before the chosen start. It is non-empty iff the chosen window is. It is disjoint from the chosen window, and together they cover the span from the prior start to the chosen end. |
| Filtering.PriorView | dashboard.py:367-373 | The baseline view holds exactly the records selected over the prior window with the same unit selection. It shares no record with the current view. |
| Filtering.SpanSplitsIntoPriorAndCurrent | dashboard.py:363-373 | The view of the whole span is, as a multiset, the prior view plus the current view, so its length is the sum of their lengths. |
| Metrics.SafeMean | dashboard.py:390-392 | The safe mean is 0.0 when the column is empty or every value is missing. Otherwise it is the sum of the present values divided by their number. |
| Metrics.SafeMeanWithinBounds | dashboard.py:390-392 | When every present value lies in [lo, hi], so does the safe mean. |
| Metrics.SafeMeanIgnoresMissing | dashboard.py:390-392 | Inserting a missing value anywhere in the column does not change the safe mean. |
| Metrics.TakeSnapshot | dashboard.py:400-403 | Distinct units never exceed the count, and are zero exactly when the view is empty. An empty view gives all zeros. A view with every return missing has mean 0.0. |
| Metrics.ComputeSnapshot | dashboard.py:690-698 | The source computes the four values as separate pandas reductions. This member is an alternative one-pass computation (units seen, running revenue, running sum and count of present returns), proved equal to the reference definition `TakeSnapshot`. |
| Variations.Variation | dashboard.py:289-298 | The result is 0.0 when either value is missing. With a zero baseline it is 100.0 exactly when the current value is positive, and 0.0 otherwise. It is defined for every input. |
| Variations.VariationRoundTrip | dashboard.py:296 | For a non-zero baseline, applying the returned percentage to the baseline gives back the current value. |
| Variations.VariationSignPositiveBaseline | dashboard.py:294-296 | Against a positive baseline the change is positive, zero or negative exactly when the current value is above, equal to or below the baseline. |
| Variations.VariationSignNegativeBaseline | dashboard.py:296 | Against a negative baseline the sign is inverted: a current value above the baseline gives a negative change. |
| Variations.VariationOfUnchangedValue | dashboard.py:291-296 | A value compared with itself gives 0.0, a zero baseline included. |
| Variations.CompareSnapshots | dashboard.py:410-413 | Equal snapshots give four zero changes. Against an empty baseline the count change is 100.0 or 0.0. Against a non-empty baseline the count change is positive, or zero, exactly when the count grew, or stayed equal. |
| Variations.TrendOf | dashboard.py:300-306 | Exactly one of three branches applies: rising iff the change is positive, falling iff negative, steady iff zero. |
| Variations.FormatVariation | dashboard.py:300-306 | The text ends in '%'. Its first character is '↑', '↓' or '→' exactly when the change is positive, negative or zero. It starts with "↑ +" exactly when the change is positive. |
| Grouping.GroupBy | dashboard.py:469 | The grouped table has one row per key present in the view and no key twice. Each row holds the measure of the records with that key. A counted group is at least 1. The key is any function of the record, so the same member covers grouping by unit (469, 575), specialty (494, 600) and day (521, 545). |
| Grouping.KeyTotalIsMeasureOfGroup | dashboard.py:575 | A group's value is the row count or amount sum of exactly the records selected by its key. |
| Grouping.GroupsPartitionView | dashboard.py:600 | The groups partition the view. Group counts add up to the view's length, and group revenues add up to the view's total. |
| Grouping.LookupGroup | dashboard.py:805 | Looking a key up in a grouped table with zero fill gives that key's group value, and 0 for a key absent from the view. |
| Grouping.OuterMerge | dashboard.py:805 | Every key of either table appears exactly once. Its first value is its value in the first table or 0 if absent, and likewise for the second. |
| Grouping.OuterMergeKeepsTotals | dashboard.py:829 | Each merged column adds up to its own table's total: zero filling adds nothing. |
| Grouping.ComparePeriods | dashboard.py:803-805 | Every key present in period A or period B appears once, holding its group value in A and in B, or 0 where that period has no such records. |
| Grouping.ComparePeriodsKeepsTotals | dashboard.py:827-829 | In the merged comparison the A column sums to A's record count (or revenue) and the B column to B's. |
| Currency.ReplaceChar | dashboard.py:396 | A single-character replace keeps the length and replaces exactly the occurrences of the given character. |
| Currency.SwapExchangesSeparators | dashboard.py:396 | On text without 'X', the three chained replacements exchange ',' and '.' and keep every other character. |
| Currency.SwapTwiceRestores | dashboard.py:396 | Swapping the separators twice restores any text without 'X'. |
| Scenarios.FirstDayView | dashboard.py:400-403 | Two records on days 1 and 2 (amounts 100 and 200), filtered to day 1 with no unit selection, give one record: count 1, one unit, revenue 100, mean 0. |
| Scenarios.RiseFromZero | dashboard.py:295 | Current 50 against baseline 0 gives 100.0, shown as "↑ +100.0%" when the number renders as "100.0". |
| Scenarios.DisjointPeriodsMerge | dashboard.py:805 | Merging {UnitA: 100} with {UnitB: 50} gives UnitA (100, 0) and UnitB (0, 50). |

## Left out

- Data fetch (`carregar_dados_github`, lines 274-287, and the `st.stop()` at 309-312): HTTP request, CSV parsing and the 5-minute cache. This is I/O in foreign libraries. The record sequence is an input of the model.
- Presentation: Streamlit widgets, CSS, Plotly figures, the metric-card HTML and the footer clock. They hold no logic.
- Numeric rendering: the `:.1f` and `:,.2f` float formatting and the `R$` prefix. `Variations.FormatVariation` takes the rendering of the number as a parameter. `Currency` models only the separator swap.
- Floating point: all arithmetic is exact `real`. IEEE rounding, overflow to infinity and a NaN produced by arithmetic are not modelled.
- The `except Exception` fallback of `calcular_variacao` (lines 297-298). It only fires for non-numeric Python values, which the typed model cannot receive.
- Display sorts (lines 470, 576, 601, 860). Sort direction is a presentation choice, and the tab-3 sort compares date strings.
- Date conversion: `pd.to_datetime`, `.dt.date` and `timedelta`. Days are integer day numbers.
- Missing cells other than the return value. Every row is taken to carry a date, a unit, a specialty and an amount. In pandas, `sum` and `nunique` skip a NaN amount or unit (400-403). `groupby` drops rows whose key (unit, specialty or date) is NaN (469, 494, 521, 600, 803-805, 827-828). A NaT date fails both comparisons of the date filter (355-356), so such a row never enters a view.
- Grouping.GroupsPartitionView, Grouping.ComparePeriodsKeepsTotals: the partition totals hold for rows whose group key is present. For a view with NaN keys, the source's groups add up to less than the view's length or revenue.
- Grouping.OuterMerge: requires both tables to have unique keys, which every group-by result has. The many-to-many product that pandas builds for duplicate keys is not modelled. The merged keys come out as the first table's keys followed by the keys only the second table has, where `merge(how='outer')` sorts the union of keys (805, 829). Row order only affects chart layout, and no contract depends on it.
- Grouping.GroupBy: row counts are carried as `real` (pandas gives integers, which become floats after `fillna`). The model orders keys by first appearance, where pandas sorts them.
