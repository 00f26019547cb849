# Mobile-money dashboard: data shaping and chart lifecycle

This project models the logic inside the dashboard front end
(`frontend/dashboard.js`) that shapes the data it fetches and keeps its charts.
The page fetches summary totals, a volume series, a per-type count series and a
batch of transaction records. It then turns them into KPI tiles, two charts and a
filterable table. The model covers:

- **Transaction filter** (`filterTransactions`): a type step and a
  case-insensitive search step over the fetched batch, then the first ten
  survivors (`transaction_filter.dfy`, built on `sequences.dfy` and `text.dfy`).
- **Summary rates** (`loadSummaryData`): success and failure percentages with a
  zero-total guard, and the missing volume read as 0 (`summary.dfy`, `rounding.dfy`).
- **Type catalog**: the row descriptor table of `getTypeInfo`, the chart names
  of `typeNames`, and the ordered option list of `initTypeFilter` (`type_catalog.dfy`).
- **Chart callbacks**: the unit chosen by the volume axis tick callback and the
  doughnut tooltip's percentage of the dataset total (`chart_data.dfy`).
- **Mutable page state** (`dashboard.dfy`): the two chart slots `volumeChart`
  and `typeChart`. Rendering destroys the instance in the slot and then stores a
  new one. A ghost record of created and destroyed instances shows that no
  instance leaks. The module also holds the table body rebuilt by
  `renderTransactions` and the drop-down filled by `initTypeFilter`.

Records are positional arrays in the source. Here they are the datatype
`TransactionFilter.Transaction`, whose fields are `t[1]` description, `t[2]` type
code, `t[3]` amount, `t[4]` timestamp and `t[6]` raw message.

`Math.round(x)` is floor(x + 1/2). For `Math.round(n / d)` with `d > 0` the model
computes floor((2n + d) / (2d)) on integers. It is specified by
`d(2r - 1) <= 2n < d(2r + 1)`, meaning r - 1/2 <= n/d < r + 1/2.

Behaviour of the code that the model keeps as written:

- A doughnut whose counts total 0 shows "NaN%" in its tooltip, because the
  callback computes 0/0 (frontend/dashboard.js:217). `ChartData.TooltipPercentage`
  returns `None` for that case and `ChartData.TooltipText` prints "NaN".
- `filterTransactions` renders whichever response arrives. Requests carry no
  numbering, so no ordering between overlapping requests is modelled.
- The display limit is the literal 10 (`TransactionFilter.DisplayLimit`).
- `selectedPeriod` is computed but never used: the volume series is fetched the
  same way for every period, and `renderVolumeChart` never reads `period`. The
  period is therefore not modelled.

## Model

| member | source | states |
|---|---|---|
| Text.Lower | frontend/dashboard.js:322 | `toLowerCase` keeps the length and maps each position: ASCII capitals to lower case, everything else unchanged |
| Text.LowerIdempotent | frontend/dashboard.js:322 | lower-casing an already lower-cased search term changes nothing |
| Text.Includes | frontend/dashboard.js:338-340 | `includes` as a recursive search; no contract of its own, its meaning is stated by Text.IncludesIff |
| Text.IncludesIff | frontend/dashboard.js:338-340 | `includes` is true exactly when the needle occurs at some position of the haystack |
| Text.IncludesShorter | frontend/dashboard.js:338-340 | a string can only include a needle no longer than itself |
| Text.IncludesLower | frontend/dashboard.js:322-338 | text found verbatim in a field is still found once both field and term are lower-cased |
| Text.NatToString | frontend/dashboard.js:340 | the string form of a natural number is a non-empty run of digits; 0 prints as "0", and a leading '0' occurs only in "0" itself |
| Text.IntToString | frontend/dashboard.js:340 | an integer's `toString` is the digits of its magnitude, preceded by "-" exactly when it is negative |
| Text.ParseNatToString | frontend/dashboard.js:340 | reading back the digits of `toString` gives the number (round trip) |
| Text.IntToStringInjective | frontend/dashboard.js:340 | different amounts have different string forms |
| Text.LowerIntToString | frontend/dashboard.js:336-341 | lower-casing leaves an amount's string form unchanged, so not lower-casing it loses no matches |
| Rounding.RoundDiv | frontend/dashboard.js:77-83 | `Math.round(n / d)` is the nearest integer to n/d, halves rounding up |
| Rounding.RoundedPercent | frontend/dashboard.js:78-83 | `Math.round(a / b * 100)` for b > 0 is the nearest integer to 100a/b, halves rounding up |
| Rounding.RoundedUnique | frontend/dashboard.js:77-83 | exactly one integer meets that nearest-integer characterisation |
| Rounding.RoundDivMonotonic | frontend/dashboard.js:77-83 | a larger numerator never rounds to a smaller quotient |
| Rounding.RoundedPercentBounds | frontend/dashboard.js:77-83 | a part 0 <= n <= d of a positive whole rounds to a percentage from 0 to 100 |
| Rounding.RoundedPercentsOfSplit | frontend/dashboard.js:77-83 | when two parts make up the whole, their rounded percentages add up to 100 or 101 |
| Summary.Summarize | frontend/dashboard.js:71-84 | the counts are copied; a missing volume shows as 0; with transactions, each rate is the rounded percentage of its count; with none, the rates are 100 and 0 |
| Summary.SuccessRateText | frontend/dashboard.js:79 | the success tile text; no contract of its own, checked by example only (Summary.RateTextExample) |
| Summary.FailureRateText | frontend/dashboard.js:84 | the failure tile text; no contract of its own, checked by example only (Summary.RateTextExample) |
| Summary.RatesOfExhaustiveCounts | frontend/dashboard.js:77-83 | when successes and failures add up to the total, each rate is 0..100 and the two sum to 100 or 101, never 99 |
| Summary.RateExamples | frontend/dashboard.js:77-83 | 2 successes of 3 show as 67% (and 33% failed); a zero total shows 100% and 0% |
| Summary.RateTextExample | frontend/dashboard.js:77-84 | 80 of 100 successful and 20 failed render "80% success rate" and "20% failure rate" |
| Sequences.Filter | frontend/dashboard.js:332 | `.filter` returns no more elements than it was given, each from the input and passing the predicate |
| Sequences.FilterMembership | frontend/dashboard.js:332-341 | an element is kept by `.filter` iff it is in the input and passes the predicate |
| Sequences.FilterIsSubsequence | frontend/dashboard.js:332-341 | `.filter` keeps the input order |
| Sequences.FilterAllPass | frontend/dashboard.js:332-341 | `.filter` returns its input when every element passes |
| Sequences.FilterIdempotent | frontend/dashboard.js:332-341 | filtering twice by the same predicate equals filtering once |
| Sequences.FilterFusion | frontend/dashboard.js:331-342 | two `.filter` calls in a row keep exactly what passes both predicates |
| Sequences.FilterCongruent | frontend/dashboard.js:331-342 | predicates that agree on the input filter it identically |
| Sequences.Take | frontend/dashboard.js:344 | `slice(0, k)` is the prefix of length min(k, length) |
| Sequences.PrefixIsSubsequence | frontend/dashboard.js:344 | a prefix keeps the order of the sequence it is cut from |
| Sequences.SubsequenceTransitive | frontend/dashboard.js:328-344 | an order-preserving selection of an order-preserving selection is one |
| Sequences.SubsequenceMembers | frontend/dashboard.js:328-344 | every element of an order-preserving selection is in the original |
| TransactionFilter.MatchesSearch | frontend/dashboard.js:336-341 | the search predicate: the lower-cased description, the lower-cased raw message or the amount's string form includes the term; no contract of its own, its use is stated by TransactionFilter.SurvivorsAreSelected |
| TransactionFilter.Survivors | frontend/dashboard.js:328-342 | the records left after the type step and the search step are no more than, and all from, the batch |
| TransactionFilter.FilterTransactions | frontend/dashboard.js:321-344 | the table never receives more than ten records |
| TransactionFilter.BothStepsAreSelected | frontend/dashboard.js:331-342 | with a type selected and a non-empty search, the two steps keep exactly the records of that type that match the search |
| TransactionFilter.SurvivorsAreSelected | frontend/dashboard.js:328-342 | in every branch ("all" or a type, empty or non-empty search), the records surviving both steps are the batch filtered by one combined predicate, `Selected` |
| TransactionFilter.FilterChainIsOneFilter | frontend/dashboard.js:321-344 | the result is the first ten records of the batch filtered by `Selected` (type AND search) |
| TransactionFilter.FilterTransactionsSound | frontend/dashboard.js:328-344 | every shown record is from the batch, has the selected type (exact, case-sensitive) unless "all", matches the search unless it is empty, and the records keep batch order; at most ten |
| TransactionFilter.FilterTransactionsComplete | frontend/dashboard.js:328-344 | a batch record that passes both steps is shown unless ten records are already shown |
| TransactionFilter.NoFilterShowsPrefix | frontend/dashboard.js:328-344 | with "all" and an empty search the table shows the first min(10, n) fetched records unchanged |
| TransactionFilter.FilterTransactionsIdempotent | frontend/dashboard.js:328-344 | filtering the shown records again with the same inputs returns them unchanged |
| TransactionFilter.SearchIgnoresCase | frontend/dashboard.js:322 | search texts that lower-case alike ("ABC", "abc") show the same records |
| TransactionFilter.DescriptionMatchFound | frontend/dashboard.js:322-338 | a record whose description contains the typed text once both are lower-cased ("Paid MTN" and "mtn") passes the search step |
| TransactionFilter.OtherTypeNeverShown | frontend/dashboard.js:331-333 | while a type is selected, a record of any other type is never shown |
| TypeCatalog.GetTypeInfo | frontend/dashboard.js:279-294 | total: a listed code gets its fixed name, icon and colour; any other code gets name = the code, the question-circle icon and grey |
| TypeCatalog.FallbackIffUnknown | frontend/dashboard.js:279-294 | the question-circle icon appears exactly for codes the table does not list, and then the name is the code |
| TypeCatalog.CatalogsCoverSameCodes | frontend/dashboard.js:175-186 | the chart-name table `typeNames` and the row-descriptor table of `getTypeInfo` (lines 280-291) list the same codes, and "all" is not a code |
| TypeCatalog.ChartLabel | frontend/dashboard.js:188 | a known code maps to its friendly name, anything else to itself |
| TypeCatalog.ChartLabels | frontend/dashboard.js:188 | the label mapping keeps length and order and maps each label independently |
| TypeCatalog.FilterOptionsAgree | frontend/dashboard.js:297-317 | the drop-down's first entry is ("all", "All Types"); every later entry is a chart-named code with the same text the doughnut shows |
| TypeCatalog.FilterOptionsComplete | frontend/dashboard.js:297-317 | every chart-named code is offered by the drop-down |
| ChartData.VolumeTick | frontend/dashboard.js:141-148 | values from 1,000,000 up use the M form; 1,000 up to below a million use K with the value rounded to whole thousands; below 1,000 the value is shown plain |
| ChartData.TickText | frontend/dashboard.js:141-148 | the K form is "RWF " then digits then "K", the plain form "RWF " then digits; the digits are canonical (no leading zero except "0" itself) and read back as the number shown, and a negative plain value gets "-" before its magnitude; the M form's digits are not produced |
| ChartData.VolumeTickMonotonic | frontend/dashboard.js:141-148 | a larger value never gets a smaller unit, and within K the shown number never decreases |
| ChartData.ThousandsRange | frontend/dashboard.js:144-145 | the K form shows 1 to 1000 (999,500 to 999,999 read "1000K") |
| ChartData.VolumeTickExamples | frontend/dashboard.js:141-148 | 500 reads "RWF 500", 2,500 reads "RWF 3K", 1,250,000 uses the M form |
| ChartData.CountOf | frontend/dashboard.js:215 | `context.raw` or 0: a present count is itself, a null count reads as 0 |
| ChartData.Total | frontend/dashboard.js:216 | the `reduce` sum of the counts, null read as 0; an empty dataset totals 0 |
| ChartData.CountAtMostTotal | frontend/dashboard.js:215-216 | each count, missing read as 0, is at most the dataset total |
| ChartData.TotalZeroIff | frontend/dashboard.js:216 | the dataset totals 0 exactly when every count is zero or missing |
| ChartData.TooltipPercentage | frontend/dashboard.js:213-218 | with a positive total, the percentage is round-half-up of 100·value/total; with a zero total it is NaN (`None`) |
| ChartData.TooltipPercentageBounds | frontend/dashboard.js:213-218 | every tooltip percentage is between 0 and 100 |
| ChartData.TooltipPercentageMonotonic | frontend/dashboard.js:213-218 | a larger slice never shows a smaller percentage |
| ChartData.TooltipText | frontend/dashboard.js:218 | the tooltip line; no contract of its own, checked by example only (ChartData.TooltipExamples) |
| ChartData.TooltipExamples | frontend/dashboard.js:213-218 | counts [30, 10, 10] show 60%, 20%, 20%; an all-zero dataset shows "A: 0 (NaN%)" |
| Dashboard.ChartSlots.constructor | frontend/dashboard.js:14-15 | both slots start empty and nothing has been created |
| Dashboard.ChartSlots.RenderVolumeChart | frontend/dashboard.js:113-118 | the old volume instance, if any, is destroyed; the slot then holds exactly one new line chart of the given data; the type slot is unchanged; no instance leaks |
| Dashboard.ChartSlots.RenderTypeChart | frontend/dashboard.js:169-190 | the old type instance, if any, is destroyed; the slot then holds exactly one new doughnut with the friendly labels; the volume slot is unchanged; no instance leaks |
| Dashboard.RenderTwice | frontend/dashboard.js:113-118 | rendering the volume chart twice on a fresh page creates two distinct instances; the first is the only one destroyed and the second is the only one alive |
| Dashboard.RowOf | frontend/dashboard.js:255-267 | the row built for one record; no contract of its own, used by the contract of Dashboard.TransactionTable.Render |
| Dashboard.TransactionTable.Render | frontend/dashboard.js:238-276 | the table body is emptied and then holds one row per record, in record order, each with the record's description, amount and date and the catalog descriptor of its type |
| Dashboard.TransactionTable.ShowFiltered | frontend/dashboard.js:325-345 | after a filter response the table shows one row per filtered record, at most ten, in batch order |
| Dashboard.TypeFilterSelect.Init | frontend/dashboard.js:297-318 | the drop-down gains the option entries in table order, "all" first, after any it already had |

## Left out

- Fetching and its plumbing are not modelled: `fetch`, `.json()`, promise
  chaining, `console.error` and `alert`. Each operation takes the parsed response
  as a parameter. `processData` (lines 39-64) is only I/O and button state, and is
  left out.
- The event wiring (lines 18-36) is not modelled: the initial loads and the
  listeners on the search box, the drop-down, the process button and the period
  buttons. The operations they trigger are modelled one by one.
- DOM work is modelled by content only: element lookups, `innerHTML` markup,
  `appendChild`, and the active-button class toggling. A table row is the data it
  shows; an option is its (value, text) pair.
- `toLocaleString` and `toLocaleDateString` depend on the locale. Totals and
  amounts are kept as integers and the timestamp as its text. The volume chart's
  tooltip (lines 155-157) is only `toLocaleString`, so it is left out.
- ChartData.TickText: the M label's digits are not modelled and the function
  returns `None` for that form. `toFixed(1)` rounds a binary double, so
  1,150,000 prints "1.1M".
- Rounding.RoundedPercent: the percentage is rounded exactly on rationals. The
  source computes `(a / b) * 100` in binary floating point first (lines 78, 83
  and 217), so a value that is exactly a half can land just below .5 and round
  down. For example, 23 of 40 is 57.49999999999999 in doubles and shows 57,
  while Summary.Summarize and ChartData.TooltipPercentage give 58.
  `Math.round(n / d)` itself (Rounding.RoundDiv) and the tick's `toFixed(0)`
  on integers are not affected.
- TransactionFilter.Transaction: the description, raw message and amount are
  never null here. In the source, a null `t[1]` throws a TypeError at line 338,
  and a null `t[6]` throws at line 339 when the description does not match.
  A null `t[3]` throws at line 340 when neither the lower-cased description
  nor the lower-cased raw message includes the term. The callback at lines 327-345 has no
  `.catch`, so nothing is rendered and the table keeps its previous rows. The
  model filters such records normally instead.
- Summary.SummaryPayload: `total_transactions`, `successful` and `failed` are
  never null here. In the source, a null one throws at its `.toLocaleString()`
  (lines 71, 73 and 74) before any rate is computed. The `.catch` only logs, so
  the tiles set before the throw keep their new text and the rest keep their
  old text. The model summarises normally instead.
- Text.Lower: only ASCII letters are lower-cased. `toLowerCase` also folds
  non-ASCII letters.
- TypeCatalog.GetTypeInfo: only the listed keys are looked up. In JavaScript,
  names inherited from `Object.prototype` (such as "constructor") are truthy
  lookups and would bypass the fallback.
- TypeCatalog.ChartLabel: the same inherited-name caveat applies to
  `typeNames[label]`.
- Numbers are unbounded integers. Amounts, counts, totals and tick values are
  never fractional, beyond 2^53, or printed in exponent form here.
- Chart datasets: a JSON `null` count reads as 0 in both the sum and `raw || 0`.
  An `undefined` count, which makes the sum NaN, cannot come from JSON and is not
  modelled.
- The Chart.js configuration objects are not modelled: colours, the fixed
  10-colour palette, border widths and tension. A chart instance records only its
  labels and data.
- Page teardown, which would destroy the last instances, happens outside this
  script.
