# Massachusetts purchases by gender and age bracket: a verified model

The model covers the data pipeline behind a stacked-bar chart. The chart shows the
purchase amounts of a retail dataset's Massachusetts customers, with one bar per
gender, segmented by age bracket. The pipeline runs as follows:

1. **Bracketing.** Each record gets one of eight age brackets: `0-10`, `11-20`, …, `61-70`
   and `71+`. Upper bounds are inclusive.
2. **Loading.** Only Massachusetts records are kept, in input order.
3. **Aggregation.** The records are rolled up by gender, then by bracket. Each cell is an
   (amount sum, record count) tally. This becomes one dense row per gender over the
   requested keys, with the row's TotalPurchase and TotalCount.
4. **Selection.** The user picks "All" or a single bracket. "All" relabels every record
   `Total` and uses the key `Total`. A single bracket keeps that bracket's records and
   uses that bracket as the key. An empty subset means "no data".
5. **Stacking.** The rows are laid out as d3's stack layout does it. Each row's segments
   are placed end to end from 0, in key order.

Separately, an exploratory script classifies each purchase by two Yes/No columns
("Discount Applied", "Promo Code Used") into four incentive labels.

Modules, one per file:
- `Seqs`: order-preserving filtering and first-appearance de-duplication.
- `AgeGroups`: the brackets.
- `Records`: loading.
- `Aggregation`: the rollup and `aggregateData`.
- `Stacking`: the stack layout.
- `Selection`: `filterAndRender`.
- `Incentives`: the incentive classifier.
- `Scenarios`: a three-record example, evaluated: two women aged 25 and 65 spending 50 and
  30, and a man aged 33 spending 20.

How each part is modelled:
- The row builder, the aggregation and the stack layout are methods with loops, each
  proved against a reference function. The render step is a method without a loop. It
  calls the aggregation, then the stack layout.
- `d3.rollup` is defined declaratively. Genders come in order of their first record,
  which is the iteration order of a JavaScript `Map`. Each gender's inner map holds
  exactly the brackets present, with their tallies.
- Everything else is functions and lemmas on values.
- The stored records are passed explicitly instead of living in a global.
- Amounts are integers.

## Model

| member | source | states |
|---|---|---|
| AgeGroups.GetAgeGroup | d3_stackedbar/main.js:18-27 | every integer age gets a bracket, and it is one of the eight labels |
| AgeGroups.BracketIndex | d3_stackedbar/main.js:18-27 | arithmetic reference for the bracket position: in range, above the lower bound of its bracket and at most its inclusive upper bound |
| AgeGroups.GetAgeGroupBounds | d3_stackedbar/main.js:18-27 | the if-chain returns the label at the reference position; a label is returned exactly for the ages between its inclusive bounds (every age up to 10 gives `0-10`, every age above 70 gives `71+`) |
| AgeGroups.LabelsDistinct | d3_stackedbar/main.js:10-12 | the eight labels are pairwise distinct |
| AgeGroups.BracketMonotone | d3_stackedbar/main.js:18-27 | an older age never falls in a lower bracket |
| AgeGroups.BracketEdges | d3_stackedbar/main.js:19-26 | 10 gives `0-10`, 11 gives `11-20`, 70 gives `61-70`, 71 gives `71+`, and -5 gives `0-10` |
| Records.Prepare | d3_stackedbar/main.js:76-82 | the prepared record copies location, gender, age and amount, and its bracket is the one of its age, among the eight labels |
| Records.LoadRecords | d3_stackedbar/main.js:74-85 | every stored record is from Massachusetts and carries the bracket of its own age; every Massachusetts input is stored, prepared; every stored record is the preparation of an input |
| Records.LoadRecordsAppend | d3_stackedbar/main.js:84 | loading distributes over concatenation, so stored records keep their input order |
| Records.LoadRecordsSingle | d3_stackedbar/main.js:76-84 | a single row is stored, prepared, exactly when its location is Massachusetts |
| Seqs.FilterMembership | d3_stackedbar/main.js:84 | an element survives a filter exactly when it occurs in the input and passes the test |
| Seqs.FilterAppend | d3_stackedbar/main.js:136 | filtering distributes over concatenation, so the kept elements stay in input order |
| Seqs.FilterEmpty | d3_stackedbar/main.js:136 | a filter result is empty exactly when no element passes |
| Seqs.DistinctFirstAppearance | d3_stackedbar/main.js:34-42 | the distinct genders have no repeats and are ordered by the position of their first occurrence |
| Aggregation.Rollup | d3_stackedbar/main.js:34-42 | one entry per gender of the axis, in its order (first appearance, by `Seqs.DistinctFirstAppearance`); a gender's inner map has a key exactly for the brackets some record of that gender has, each holding the amount sum and count of those records |
| Aggregation.RollupLookup | d3_stackedbar/main.js:34-53 | looking a bracket up in a gender's rollup entry, with the zero tally as fallback, gives the amount sum and count of that gender's records in that bracket |
| Aggregation.CellOfAbsent | d3_stackedbar/main.js:53 | a bracket the rollup did not create for a gender has the zero tally |
| Aggregation.BuildRow | d3_stackedbar/main.js:45-63 | the built row has the gender; its cells are each key's looked-up tally; its totals are those tallies summed over the keys in order |
| Aggregation.BuiltRowIsExpected | d3_stackedbar/main.js:51-58 | the row built from the rollup's inner map equals the reference row defined from the records |
| Aggregation.AggregateData | d3_stackedbar/main.js:30-70 | the result is the reference aggregation: one reference row per distinct gender in first-appearance order, the keys unchanged, the gender axis read off the rows |
| Aggregation.AggregatedShape | d3_stackedbar/main.js:34-69 | stack keys are the requested keys; row i has gender i of the axis; a gender is on the axis exactly when some record has it; no gender repeats; genders come in order of their first record |
| Aggregation.AggregatedEmpty | d3_stackedbar/main.js:34-45 | there are no rows exactly when there are no records |
| Aggregation.AggregatedDense | d3_stackedbar/main.js:51-54 | a row has a cell for exactly the requested keys; the cell is the amount sum and count of that gender's records in that bracket, and zero when there are none |
| Aggregation.CellsOverDense | d3_stackedbar/main.js:51-54 | storing each key's tally in turn leaves one cell per key, holding that key's tally |
| Aggregation.RowTotalsAreCellSums | d3_stackedbar/main.js:47-61 | TotalPurchase and TotalCount are the sums of the row's own cell amounts and counts over the keys |
| Aggregation.RowIgnoresOutsideKeys | d3_stackedbar/main.js:51-58 | a record of another gender or of a bracket outside the keys changes nothing in the row |
| Aggregation.OutsideKeysRowIsZero | d3_stackedbar/main.js:51-61 | a gender none of whose records is in the keys still gets a row, with every cell zero and both totals zero |
| Aggregation.KeysTotalSnoc | d3_stackedbar/main.js:56-57 | over distinct keys, one more record of the gender whose bracket is a key adds its amount and one to the totals |
| Aggregation.PartitionTotals | d3_stackedbar/main.js:56-61 | over distinct keys covering every bracket of a gender, the totals are that gender's full amount sum and record count |
| Stacking.Stack | d3_stackedbar/main.js:177-181 | the output is the stack layout: one series per key in key order; in series m the interval of row j runs from the sum of the row's first m cell amounts to the sum of its first m+1 |
| Stacking.StackLayoutAt | d3_stackedbar/main.js:177-244 | the first interval starts at 0; each interval's height is its key's cell amount; the next interval starts where this one ends; an interval's top, which its label shows, is the running sum of the row's cell amounts up to its key; each interval keeps its row |
| Stacking.AggregatedIsDense | d3_stackedbar/main.js:179 | every aggregated row has a cell for every key, so the value accessor is defined |
| Stacking.StackTopIsTotal | d3_stackedbar/main.js:177-181 | over aggregated rows, the last interval of each bar ends at that row's TotalPurchase |
| Stacking.MaxTotalPurchase | d3_stackedbar/main.js:166 | the largest TotalPurchase of the rows: an upper bound attained by some row |
| Selection.SelectData | d3_stackedbar/main.js:130-138 | "All" keeps every record in order, changes only the bracket to `Total`, and uses the keys [`Total`]; otherwise only records of the selected bracket are kept, all of them, no more of them than there are records, and the keys are [selection] |
| Selection.SelectAppend | d3_stackedbar/main.js:132-136 | selection distributes over concatenation, so the subset keeps the records' order |
| Selection.SelectSingle | d3_stackedbar/main.js:136 | outside "All", a single record is kept once, unchanged, exactly when it is of the selected bracket |
| Selection.SelectMultiplicity | d3_stackedbar/main.js:136 | outside "All", each record of the selected bracket is kept exactly as often as it occurs, and no other record is kept |
| Selection.SetTotalKeepsGenders | d3_stackedbar/main.js:132 | relabelling every record `Total` keeps the gender axis |
| Selection.SetTotalKeepsGenderSums | d3_stackedbar/main.js:132 | relabelling keeps each gender's amount sum and record count |
| Selection.AllTotals | d3_stackedbar/main.js:130-141 | under "All" the gender axis is that of the records, and each gender's TotalPurchase and TotalCount are its full amount sum and record count |
| Selection.AllCollapse | d3_stackedbar/main.js:130-133 | for records bracketed into the eight labels, the "All" view gives each gender the totals of the eight-bracket aggregation summed over its cells |
| Selection.FilterAndRender | d3_stackedbar/main.js:124-148 | "no data" is reported with the selection exactly when the selected subset is empty; otherwise the chart holds the reference aggregation of the subset and its stack layout; under "All" each row's totals are the gender's full sums |
| Incentives.IncentiveType | main.py:9-14 | every flag pair gets one of the four categories |
| Incentives.CategoryIndex | main.py:17 | reference position of a pair of truth values among the four categories |
| Incentives.IncentiveTypeIsCategory | main.py:9-14 | the classifier returns the category at the reference position of the flags' truth values, so each flag combination maps to exactly one label |
| Incentives.LabelConditions | main.py:10-13 | each label holds exactly under its condition: both "Yes"; discount only; promo only; neither |
| Incentives.LabelRoundTrip | main.py:9-14 | whether each flag was exactly "Yes" can be read back from the label |
| Incentives.CategoriesReached | main.py:17 | every category is produced by some flag pair |
| Incentives.OnlyExactYes | main.py:10-13 | "yes", "Yes " and a missing value do not count as used |
| Scenarios.SampleIsLoaded | d3_stackedbar/main.js:74-85 | loading the sample's raw rows drops the Texas row and stores the three Massachusetts records with the brackets of ages 25, 65 and 33 |
| Scenarios.SampleAll | d3_stackedbar/main.js:130-141 | for the three-record sample under "All": genders F then M, with rows 80 over 2 records and 20 over 1 |
| Scenarios.SampleAllStack | d3_stackedbar/main.js:177-181 | that view stacks to the intervals [0, 80] for F and [0, 20] for M |
| Scenarios.SampleBracket | d3_stackedbar/main.js:135-141 | under "21-30" only the 25-year-old woman remains: axis [F], one cell 50 over 1 |
| Scenarios.SampleNoData | d3_stackedbar/main.js:136-146 | under "0-10" the sample selects nothing, so the render reports no data |

## Left out

- CSV loading, the promise chain and string-to-number coercion of age and amount are not
  modelled. Records enter as already-parsed values.
- A non-numeric age is not modelled. It parses to NaN, and NaN fails every comparison in
  the bracketer, so it would be put in `71+`.
- `d3.sum` skips NaN amounts. With integer amounts this cannot arise.
- Amounts are unbounded integers rather than IEEE doubles, so rounding of large or
  fractional sums is not modelled.
- The stack layout's substitution of 0 for a NaN value is not modelled.
- Field-name collisions in the JavaScript row object are not modelled. The row keeps its
  cells in a separate map, so a stack key spelled `Gender`, `TotalPurchase` or
  `TotalCount` behaves as an ordinary key.
- The radio-button filter, clearing the chart container, and all SVG work are DOM
  rendering and are left out. That covers axes, band and linear scales, colours,
  rectangles and label placement.
- The "no data" message itself is left out. The model returns `NoData(selection)`.
- The 1.05 headroom on the value axis and the currency and SI formatting are
  floating-point display concerns. Only the maximum TotalPurchase is modelled.
- The global `MAdata` and the startup sequence are left out. The stored records are a
  parameter of the render step.
- `d3.rollup`'s internal loop is defined by the map it produces, not step by step.
- The rest of `main.py` is pandas CSV reading and matplotlib plotting, which are I/O.
  That includes the box-plot data line, which does not parse as written.
- `seasonal_category_popularity.py` is a declarative Altair chart and is not part of this
  model.
- Negative ages: the code sends every age up to 10, negative ones included, to `0-10`, and
  the model follows it (`AgeGroups.BracketEdges`).
