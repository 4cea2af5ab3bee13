# Quiz progress charts

This project models the quiz-results charts of D-App in Dafny. Each chart reads
rows of `quiz-results.csv`, one per answered question, with the fields
`quiz_date`, `category` and `correctness`. A `forEach` loop fills a dictionary
of `{ correct, total }` buckets. The chart series is then read off that
dictionary: the bucket keys become the labels, and each label gets the point
`correct / total * 100`. The repository has three versions of this component,
and the model follows each one as written:

- `src/QuizGraph.jsx` (module `QuizGraph`):
  - A row counts as correct when `correctness === 'true'`.
  - The overall series has one bucket per `quiz_date` text. Its labels are
    sorted by the date the text names.
  - The weekly dictionary is category → week → bucket. The week is
    `getWeekFromDate`, and its keys are the week numbers as text, sorted with
    the default string `sort()`, so week 10 comes before week 9. Weeks of
    different years share a key, as in the source.
  - The weekly bars are coloured by three bands.
  - `handleCompare` stores both categories' dictionaries only when both are
    present.
- `src/QuizGraphWorking.jsx` (module `QuizGraphWorking`):
  - A row adds `Number(correctness)`.
  - The overall series and the per-category series keep their date labels in
    insertion order.
  - The categories are listed in first-appearance order.
  - `handleCompare` does nothing while no compare category is chosen.
- `src/QuizGraphPrev.jsx` (module `QuizGraphPrev`):
  - A row adds `Number(correctness)`.
  - The dictionary is category → date → bucket, and each category's series
    keeps its dates in insertion order.
  - The chart shows a second dataset only when a compare category is chosen.

Shared modules:
- `Tally` models a dictionary as a value: its keys in insertion order plus a
  map to buckets. One loop step is `Add`, and a whole pass is `TallyOf`, or
  `NestedOf` for the two-level dictionaries. These are set against reference
  counts: how many rows have a key, and what they add up to. Their contracts
  are the lemmas `AddFrame`, `AddTotal`, `AddNestedFrame`, `TallyOfSpec` and
  `NestedOfSpec`.
- `Sorting` models `Array.prototype.sort` with a comparator as a stable
  insertion sort.
- `Strings` covers the default string order and `String(n)`.
- `Calendar` covers day numbers, `getDay()` and `getWeekFromDate`.

Each component is a class. Its fields are the `useState` variables, and its
methods are the handlers. Each loop is a method, proved against the pass
function (`TallyOf`/`NestedOf`) it computes. The properties of that function
are lemmas.

## Model

| member | source | states |
|---|---|---|
| `Tally.Ratio` | src/QuizGraphPrev.jsx:88 | the percentage `(correct / total) * 100` of a bucket: times `total` it gives `correct * 100` |
| `Tally.RatioInRange` | src/QuizGraph.jsx:71 | a bucket with `0 <= correct <= total` and `total >= 1` charts a point between 0 and 100 |
| `Tally.Ratios` | src/QuizGraph.jsx:119 | `labels.map(...)` gives one percentage per label: point i is the percentage of label i's bucket |
| `Tally.AddFrame` | src/QuizGraph.jsx:63-67 | one `forEach` step (`Tally.Add`) touches only the bucket of its own key: no key disappears, and every other bucket keeps its value |
| `Tally.AddNestedFrame` | src/QuizGraph.jsx:81-88 | one step of a nested pass (`Tally.AddNested`) touches only the inner dictionary of its own category |
| `Tally.AddTotal` | src/QuizGraph.jsx:63-67 | one `forEach` step adds exactly 1 to the sum of the bucket totals of a well-formed dictionary |
| `Tally.TallyOfSpec` | src/QuizGraphWorking.jsx:63-73 | after a pass (`Tally.TallyOf`), the dictionary is well formed. Its keys are the row keys, each once, in first-appearance order, and each bucket is `{ correct: sum of the row scores, total: number of rows }` for its key |
| `Tally.TallyTotal` | src/QuizGraphWorking.jsx:64-71 | after a pass, the bucket totals sum to the number of rows |
| `Tally.CountPositive` | src/QuizGraph.jsx:63-65 | a key occurs among the entries exactly when its reference count is positive |
| `Tally.ScoreAtMostCount` | src/QuizGraphWorking.jsx:69-70 | when every score is 0 or 1, `0 <= correct <= total` |
| `Tally.DedupSpec` | src/QuizGraphWorking.jsx:79-83 | the deduplicated list has no repeats, the same elements, and the order of first appearance (a `Set`'s insertion order) |
| `Tally.NestedOfSpec` | src/QuizGraphPrev.jsx:60-75 | after a nested pass (`Tally.NestedOf`), the categories are listed in first-appearance order. A category is present exactly when a row has it, and its inner dictionary is the flat pass over that category's rows, of which there is at least one |
| `Tally.NestedWellFormed` | src/QuizGraphPrev.jsx:65-74 | every category has at least one bucket, every bucket has `total >= 1`, and keys are listed exactly once |
| `Tally.NestedTotalIsLength` | src/QuizGraphPrev.jsx:62-75 | the totals over all categories and keys sum to the number of rows |
| `Tally.RatiosSnoc` | src/QuizGraphPrev.jsx:86-90 | pushing one more label pushes its percentage at the same index |
| `Sorting.SortBy` | src/QuizGraph.jsx:70 | the sorted copy has exactly as many elements as the input |
| `Sorting.SortByPermutes` | src/QuizGraph.jsx:70 | sorting neither drops nor duplicates a label (multiset equality) |
| `Sorting.SortBySorted` | src/QuizGraph.jsx:70 | under a strict order, no label comes before one listed ahead of it |
| `Sorting.SortByDistinct` | src/QuizGraph.jsx:118 | sorting distinct keys gives distinct labels |
| `Strings.LexLess` | src/QuizGraph.jsx:118 | the default `sort()` order never puts a string before itself |
| `Strings.LexLessStrictOrder` | src/QuizGraph.jsx:118 | the default `sort()` order on strings is asymmetric and transitive |
| `Strings.LexLessTotal` | src/QuizGraph.jsx:118 | any two different strings are ordered one way or the other |
| `Strings.Decimal` | src/QuizGraph.jsx:84 | `String(week)`: a non-empty string of decimal digits with no leading zero (except for 0 itself) |
| `Strings.DecimalRoundTrip` | src/QuizGraph.jsx:84 | reading back the key `String(week)` gives the week number |
| `Strings.DecimalInjective` | src/QuizGraph.jsx:84 | two week numbers share a key exactly when they are equal |
| `Calendar.DayNumber` | src/QuizGraph.jsx:96 | the day line behind `new Date(a) - new Date(b)` and `date - startOfYear`: a valid date lies between 1 January of its year and 1 January of the next |
| `Calendar.NextDay` | src/QuizGraph.jsx:96 | the day after a valid date is valid and one further along the day line, also across the turn of a year |
| `Calendar.Weekday` | src/QuizGraph.jsx:97 | `getDay()` lies in 0..6 |
| `Calendar.EpochThursday` | src/QuizGraph.jsx:97 | `getDay()` of 1 January 1970 is 4 (Thursday) |
| `Calendar.WeekdayNextDay` | src/QuizGraph.jsx:97 | from one day to the next, `getDay()` advances by one modulo 7 |
| `Calendar.Jan1Weekday` | src/QuizGraph.jsx:95-97 | `startOfYear.getDay()` lies in 0..6 and is `getDay()` of 1 January; how it shifts the weeks is in `WeekFromDate` and `WeekStartsOnSunday` |
| `Calendar.Jan1WeekdayNextYear` | src/QuizGraph.jsx:95-97 | the next year starts `DaysInYear` weekdays later (modulo 7) |
| `Calendar.WeekFromDate` | src/QuizGraph.jsx:94-98 | the week is the least `w` with `dayOffset + jan1Weekday + 1 <= 7 * w`, i.e. the ceiling of that sum divided by 7 |
| `Calendar.WeekAtLeastOne` | src/QuizGraph.jsx:97 | every date falls in week 1 or later |
| `Calendar.WeekNonDecreasing` | src/QuizGraph.jsx:96-97 | a later day of the same year never falls in an earlier week |
| `Calendar.WeekStep` | src/QuizGraph.jsx:96-97 | from one day to the next, the week grows by at most one |
| `Calendar.WeekStartsOnSunday` | src/QuizGraph.jsx:95-97 | the week number goes up exactly on a day whose `getDay()` is 0 |
| `Calendar.YearLength` | src/QuizGraph.jsx:95-96 | 1 January of the next year follows the last day of this one |
| `Calendar.DayNumberInjective` | src/QuizGraph.jsx:70 | different valid dates lie on different days, so the date comparator separates them |
| `QuizGraph.TrueAsOne` | src/QuizGraph.jsx:66 | a row adds 1 exactly when its correctness is the text `'true'`, and 0 otherwise |
| `QuizGraph.TrueRowsOn` | src/QuizGraph.jsx:66 | the rows of a date that read `'true'` are never more than the rows of that date |
| `QuizGraph.DateBucketCounts` | src/QuizGraph.jsx:63-67 | among the entries the loop adds, those of a date number its rows (the bucket's `total`, through `TallyOfSpec`) and score the rows reading exactly `'true'` (its `correct`) |
| `QuizGraph.DateKeysAreRowDates` | src/QuizGraph.jsx:61-65 | a date text occurs among the entry keys (the dictionary's keys, through `TallyOfSpec`) exactly when some row carries it |
| `QuizGraph.DateBefore` | src/QuizGraph.jsx:70 | the comparator `new Date(a) - new Date(b) < 0` is a strict order (asymmetric and transitive) |
| `QuizGraph.DateLabels` | src/QuizGraph.jsx:70 | the sorted labels are the date keys, each once, in non-decreasing date order |
| `QuizGraph.StrictlyAscending` | src/QuizGraph.jsx:70 | when different date texts name different valid days, the labels are in strictly increasing date order |
| `QuizGraph.DatePoints` | src/QuizGraph.jsx:71 | point i is `trueRows / rows * 100` for label i, has at least one row behind it, and lies in [0, 100] |
| `QuizGraph.ProcessData` | src/QuizGraph.jsx:59-74 | the labels are the distinct `quiz_date` texts of the rows, in date order (strictly, when texts name distinct valid days). The dataset is as long as the labels, and entry i is the percentage of `'true'` rows of label i, in [0, 100] |
| `QuizGraph.OverallTotals` | src/QuizGraph.jsx:60-68 | every row increments exactly one date bucket: the totals sum to `data.length` |
| `QuizGraph.RowWeek` | src/QuizGraph.jsx:80 | `getWeekFromDate(new Date(quiz_date))` puts every row in week 1 or later |
| `QuizGraph.ProcessCategoryData` | src/QuizGraph.jsx:76-92 | the loop builds the category → week dictionary of the rows, which is well formed and whose totals sum to `data.length` |
| `QuizGraph.WeekTrues` | src/QuizGraph.jsx:87 | the `'true'` rows of a category and week are never more than its rows |
| `QuizGraph.KeyRowsCounts` | src/QuizGraph.jsx:84-88 | inside a category, the entries of a week key number the rows of that category with that key and score their `'true'` rows |
| `QuizGraph.WeekKey` | src/QuizGraph.jsx:80-84 | the object key `String(week)`: reading it back gives the row's week; two rows share it exactly when their weeks agree (`KeyRowsWeek`) |
| `QuizGraph.KeyRowsWeek` | src/QuizGraph.jsx:80-84 | the rows with week key `String(w)` are exactly the rows in week `w` |
| `QuizGraph.WeekCounts` | src/QuizGraph.jsx:77-89 | inside category c, the bucket of week w counts the rows of c in week w, and as correct those reading `'true'` |
| `QuizGraph.CategoryWeekBuckets` | src/QuizGraph.jsx:77-89 | bucket (c, w) exists exactly when some row of c falls in week w, and it is `{ correct: WeekTrues, total: WeekRows }` |
| `QuizGraph.WeekKeysCanonical` | src/QuizGraph.jsx:80-84 | every week key is the text of a whole number |
| `QuizGraph.NoCategoryRows` | src/QuizGraph.jsx:81-83 | a category is a key of the weekly dictionary (`NestedOf` of the rows) exactly when some row has it |
| `QuizGraph.CategoryTable` | src/QuizGraph.jsx:125-126 | `weeklyCategory[c] \|\| {}` of a well-formed dictionary is well formed, and has no keys exactly when `c` is not a key |
| `QuizGraph.SortedKeys` | src/QuizGraph.jsx:118 | the sorted labels are exactly the keys of the dictionary |
| `QuizGraph.GenerateChartData` | src/QuizGraph.jsx:117-122 | labels and dataset have the length of the key list |
| `QuizGraph.GenerateChartDataSpec` | src/QuizGraph.jsx:117-122 | the labels are the dictionary's keys in strictly increasing string order, and point i is the percentage of label i's bucket |
| `QuizGraph.WeekTenBeforeNine` | src/QuizGraph.jsx:118 | week "10" sorts before week "9" |
| `QuizGraph.WeeklyChart` | src/QuizGraph.jsx:125-126 | `generateChartData(weeklyCategory[c] \|\| {})` over the weekly dictionary of the rows: labels and dataset are equally long; its content is stated by `WeeklySeries` |
| `QuizGraph.WeeklySeries` | src/QuizGraph.jsx:117-126 | for category c: the series is empty exactly when no row has c. `String(w)` is a label exactly when c has rows in week w. Every label is a week number's text, and each point is the `'true'` percentage of that week's rows of c, in [0, 100] |
| `QuizGraph.BandOf` | src/QuizGraph.jsx:171-180 | every value falls in exactly one band: > 60, in [35, 60], or < 35 |
| `QuizGraph.BackgroundColor` | src/QuizGraph.jsx:171-175 | the fill is teal above 60, orange from 35 to 60, red below 35, at alpha 0.2 |
| `QuizGraph.BorderColor` | src/QuizGraph.jsx:176-180 | the border is teal above 60, orange from 35 to 60, red below 35, at alpha 1 |
| `QuizGraph.ColoursAgree` | src/QuizGraph.jsx:171-180 | fill and border colours come from the same band: two bars share a colour exactly when they share a band |
| `QuizGraph.Component.constructor` | src/QuizGraph.jsx:29-33 | initial state: no rows, `{}`, `''`, `''`, `null` |
| `QuizGraph.Component.Load` | src/QuizGraph.jsx:47-50 | after the rows arrive, `weeklyCategory` is the weekly dictionary of exactly those rows, and its totals sum to their number |
| `QuizGraph.Component.HandleCategoryChange` | src/QuizGraph.jsx:100-102 | sets the selected category and nothing else |
| `QuizGraph.Component.HandleCompareChange` | src/QuizGraph.jsx:104-106 | sets the compare category and nothing else |
| `QuizGraph.Component.HandleCompare` | src/QuizGraph.jsx:108-115 | stores both dictionaries when both categories are keys of `weeklyCategory`, and otherwise leaves `compareData` unchanged |
| `QuizGraph.Component.SelectedCategoryData` | src/QuizGraph.jsx:125 | a selected category no row has (including `''`) charts the empty series |
| `QuizGraph.Component.CompareCategoryData` | src/QuizGraph.jsx:126 | a compare category no row has charts the empty series |
| `QuizGraphWorking.Progress` | src/QuizGraphWorking.jsx:73-74 | the dataset is as long as the labels |
| `QuizGraphWorking.DateBucketCounts` | src/QuizGraphWorking.jsx:66-70 | the entries of a date number its rows and score the sum of their `Number(correctness)` |
| `QuizGraphWorking.ProgressSpec` | src/QuizGraphWorking.jsx:62-76 | the labels are the row dates, each once, unsorted in first-appearance order. Point i is `correct / total * 100` of label i, with `total >= 1` rows behind it |
| `QuizGraphWorking.ProgressInRange` | src/QuizGraphWorking.jsx:69-74 | with every correctness 0 or 1, each point lies in [0, 100] |
| `QuizGraphWorking.ProgressTotals` | src/QuizGraphWorking.jsx:64-71 | each row adds 1 to exactly one bucket: the totals sum to the number of rows |
| `QuizGraphWorking.RowsOf` | src/QuizGraphWorking.jsx:89 | the filter never yields more rows than it is given |
| `QuizGraphWorking.RowsOfSpec` | src/QuizGraphWorking.jsx:89 | the filter keeps exactly the rows with `row.category === c` |
| `QuizGraphWorking.RowsOfAppend` | src/QuizGraphWorking.jsx:88-89 | filtering a concatenation filters each part, so the filter keeps row order and repeated rows |
| `QuizGraphWorking.RowsOfCounts` | src/QuizGraphWorking.jsx:88-96 | the filter keeps as many rows as there are rows of the category, and per date exactly the rows of the category and their correctness sum |
| `QuizGraphWorking.WeeklyProgressSpec` | src/QuizGraphWorking.jsx:86-101 | the series of category c, stated over all rows: labels are the dates of c's rows, each once, in first-appearance order. A date is a label exactly when c has rows on it. Point i is `correct / total * 100` over c's rows on label i, and the totals sum to the number of rows of c |
| `QuizGraphWorking.UnknownCategory` | src/QuizGraphWorking.jsx:86-101 | a category no row has gives empty labels and dataset |
| `QuizGraphWorking.ProcessOverallProgress` | src/QuizGraphWorking.jsx:62-76 | the loop computes the progress series of all rows |
| `QuizGraphWorking.ExtractCategories` | src/QuizGraphWorking.jsx:78-84 | every row's category appears exactly once, no other value appears, in first-appearance order |
| `QuizGraphWorking.WeeklyProgress` | src/QuizGraphWorking.jsx:86-102 | the loop computes the progress series of exactly the rows of the category |
| `QuizGraphWorking.Component.constructor` | src/QuizGraphWorking.jsx:29-35 | initial state: no rows, empty series, no categories, `''`, `''` |
| `QuizGraphWorking.Component.Load` | src/QuizGraphWorking.jsx:49-53 | after the rows arrive, the overall series and the category list belong to exactly those rows |
| `QuizGraphWorking.Component.HandleCategoryChange` | src/QuizGraphWorking.jsx:104-108 | selects the category and recomputes `weeklyProgress` for that same category |
| `QuizGraphWorking.Component.HandleCompareCategoryChange` | src/QuizGraphWorking.jsx:110-112 | sets the compare category and nothing else |
| `QuizGraphWorking.Component.HandleCompare` | src/QuizGraphWorking.jsx:114-132 | with `''`, `compareProgress` is unchanged; otherwise it is exactly the series `processWeeklyProgress` gives for that category |
| `QuizGraphPrev.ProcessCategoryData` | src/QuizGraphPrev.jsx:59-78 | the loop builds the category → date dictionary of the rows. Every category has a date bucket and every bucket a row, and the totals sum to `data.length` |
| `QuizGraphPrev.ProjectCounts` | src/QuizGraphPrev.jsx:62-75 | inside category c, the entries of date d number the rows of c on d and score the sum of their correctness. The entry keys are the dates of c's rows in row order |
| `QuizGraphPrev.CellRowsBound` | src/QuizGraphPrev.jsx:73-74 | with correctness 0 or 1, the correctness sum of a cell lies between 0 and its row count |
| `QuizGraphPrev.CellBuckets` | src/QuizGraphPrev.jsx:62-75 | bucket (c, d) exists exactly when some row of c is dated d. It is `{ correct: sum of Number(correctness), total: row count }`, and with correctness in {0,1}, `0 <= correct <= total` |
| `QuizGraphPrev.Improvement` | src/QuizGraphPrev.jsx:80-94 | the series read off a dictionary has as many points as labels |
| `QuizGraphPrev.ImprovementSpec` | src/QuizGraphPrev.jsx:80-94 | the series of c is empty exactly when no row has c. Otherwise its labels are the dates of c's rows, each once, in first-appearance order, and point i is the percentage of that date's rows of c |
| `QuizGraphPrev.DatesOfEmpty` | src/QuizGraphPrev.jsx:85 | a category has no dates exactly when no row has it |
| `QuizGraphPrev.Present` | src/QuizGraphPrev.jsx:158 | `.filter(Boolean)` keeps exactly the datasets that are present |
| `QuizGraphPrev.PresentAppend` | src/QuizGraphPrev.jsx:158 | filtering a concatenation filters each part, so the datasets keep their order and multiplicity |
| `QuizGraphPrev.PresentSingle` | src/QuizGraphPrev.jsx:151-158 | a present dataset is kept and `false` (no compare category) is dropped |
| `QuizGraphPrev.ChartOf` | src/QuizGraphPrev.jsx:137-158 | no chart while no category is selected. Otherwise the chart has the selected dataset first, plus the compare dataset exactly when `compareCategory` is not `''` |
| `QuizGraphPrev.Component.constructor` | src/QuizGraphPrev.jsx:29-32 | initial state: no rows, `{}`, `''`, `''` |
| `QuizGraphPrev.Component.Load` | src/QuizGraphPrev.jsx:47-50 | after the rows arrive, `weeklyCategory` is the dictionary of exactly those rows |
| `QuizGraphPrev.Component.HandleCategoryChange` | src/QuizGraphPrev.jsx:96-98 | sets the selected category and nothing else |
| `QuizGraphPrev.Component.HandleCompareCategoryChange` | src/QuizGraphPrev.jsx:100-102 | sets the compare category and nothing else |
| `QuizGraphPrev.Component.GetCategoryImprovementData` | src/QuizGraphPrev.jsx:80-94 | an absent category (including `''`) gives empty arrays. Otherwise the arrays are its date keys in insertion order and their percentages. Nothing in the state changes |
| `QuizGraphPrev.Component.Render` | src/QuizGraphPrev.jsx:104-158 | the rendered chart is `ChartOf` applied to the two improvement series of the current selection |

## Left out

- Fetching and decoding `quiz-results.csv` and `Papa.parse` are I/O and a
  foreign library. The model starts from the parsed rows.
- Every row is assumed to carry all three fields. A missing field (`undefined`
  in the source) is not modelled: as a key it would become `"undefined"`, its
  date would give week `NaN` and key `"NaN"`, and `Number(undefined)` is `NaN`.
- Chart.js registration, chart options and JSX are presentation. Three parts
  are modelled: the weekly bar colours, the dataset selection of
  `QuizGraphPrev.jsx`, and which series each chart receives. The render
  gating of `QuizGraphWorking.jsx` is not modelled. That covers the charts
  shown only when a category is chosen, and the compare chart that pairs
  `compareProgress.labels` with `weeklyProgress.dataset`.
- React's `useState`/`useEffect` scheduling: each setter is a field
  assignment that takes effect at once. Batching and re-rendering are not
  modelled. In `QuizGraph.jsx`, the render-time `processData(data)` is the
  method `ProcessData` applied to the stored rows.
- `new Date(text)` is the parameter `parse`, and dates are whole days of the
  proleptic Gregorian calendar. Not modelled:
  - time zones, daylight saving, and the fractional day offsets they cause
    in `getWeekFromDate`;
  - the UTC parsing of ISO date texts;
  - invalid dates, whose week is `NaN` and whose comparisons are always false;
  - `new Date(year, 0, 1)` maps the years 0 to 99 to 1900 to 1999, so in the
    source the weeks of dates in those years are far off. `Calendar` treats
    every year alike.
- `Number(correctness)` is the integer field `correctness`. A text that is
  not a number gives `NaN` in the source; that case is not modelled.
- Percentages are exact reals; floating-point rounding is not modelled.
- Object keys:
  - JavaScript lists canonical array-index keys first, in numeric order. The
    model keeps insertion order. This matters only if a `quiz_date` or
    category text is such a key. The week dictionaries of `QuizGraph.jsx`
    are unaffected, because their keys are sorted before use.
  - Keys inherited from `Object.prototype`, such as `constructor`, are not
    modelled. In the source, `obj[key]` is truthy for them.
- The string order compares Dafny characters. JavaScript compares UTF-16
  code units; the two orders agree on the Basic Multilingual Plane.
- `QuizGraphPrev.jsx` declares a `compareData` state that nothing uses. It
  is not modelled.
- `QuizGraphWorking.jsx`'s `handleCompare` repeats the loop of
  `processWeeklyProgress` inline. The model calls `WeeklyProgress`, whose
  contract is the same, and proves `compareProgress` equal to that series.
- `Object.keys(weeklyCategory)` in the category selectors is presentation.
- `console.log` and `console.error` are not modelled.
- QuizGraph.ProcessData: the contract does not state the order among date
  texts that name the same day. The stable sort keeps them in
  first-appearance order; the contract only says that their days do not
  decrease.
