/**
 * The chart logic of `src/QuizGraph.jsx`: an overall series per quiz date,
 * sorted by date, and per category a series per week, week keys ordered as
 * text. Correctness is read as `correctness === 'true'`.
 *
 * `quiz_date` stays the text the row carries, since that text is the key of
 * the overall dictionary; `new Date(text)` is the parameter `parse`, which
 * gives the calendar date the text names.
 */
module QuizGraph {
  import opened Options
  import opened Tally
  import opened Sorting
  import opened Strings
  import opened Calendar

  /** One parsed CSV row: `quiz_date`, `category` and the raw `correctness` text. */
  datatype Row = Row(quizDate: string, category: string, correctness: string)

  /** `correctness === 'true' ? 1 : 0` */
  function TrueAsOne(correctness: string): (r: int)
    ensures r == 1 <==> correctness == "true"
    ensures r == 0 <==> correctness != "true"
  {
    if correctness == "true" then 1 else 0
  }

  // ---------------------------------------------------------------------------
  // processData
  // ---------------------------------------------------------------------------

  /** What each row adds to the overall dictionary: its date's bucket. */
  function DateEntries(rows: seq<Row>): seq<Entry<string>> {
    seq(|rows|, i requires 0 <= i < |rows| => Entry(rows[i].quizDate, TrueAsOne(rows[i].correctness)))
  }

  /** The number of rows dated `d`. */
  function RowsOn(data: seq<Row>, d: string): nat {
    if data == [] then 0
    else RowsOn(data[..|data| - 1], d) + (if data[|data| - 1].quizDate == d then 1 else 0)
  }

  /** The number of rows dated `d` whose correctness is exactly `'true'`. */
  function TrueRowsOn(data: seq<Row>, d: string): (n: nat)
    ensures n <= RowsOn(data, d)
  {
    if data == [] then 0
    else
      var r := data[|data| - 1];
      TrueRowsOn(data[..|data| - 1], d) + (if r.quizDate == d && r.correctness == "true" then 1 else 0)
  }

  lemma DateEntriesStep(data: seq<Row>, i: nat)
    requires i < |data|
    ensures DateEntries(data[..i + 1]) ==
            DateEntries(data[..i]) + [Entry(data[i].quizDate, TrueAsOne(data[i].correctness))]
  {
  }

  /** The bucket of date `d` counts the rows dated `d` and, as correct, those
      of them whose correctness is `'true'`. */
  lemma {:induction false} DateBucketCounts(data: seq<Row>, d: string)
    ensures Count(DateEntries(data), d) == RowsOn(data, d)
    ensures Score(DateEntries(data), d) == TrueRowsOn(data, d)
  {
    if data != [] {
      var n := |data| - 1;
      DateBucketCounts(data[..n], d);
      DateEntriesStep(data, n);
      assert data[..n + 1] == data;
      CountScoreSnoc(DateEntries(data[..n]), Entry(data[n].quizDate, TrueAsOne(data[n].correctness)), d);
    }
  }

  /** The comparator `(a, b) => new Date(a) - new Date(b)` is negative; it is
      a strict order, so sorting by it is well defined. */
  function DateBefore(parse: string -> Date): (before: (string, string) -> bool)
    ensures StrictOrder(before)
  {
    (a: string, b: string) => DayNumber(parse(a)) < DayNumber(parse(b))
  }

  /** Every row names a valid day, and different date texts name different days. */
  ghost predicate DistinctDays(data: seq<Row>, parse: string -> Date) {
    && (forall r :: r in data ==> ValidDate(parse(r.quizDate)))
    && (forall r, s :: r in data && s in data && r.quizDate != s.quizDate ==>
          parse(r.quizDate) != parse(s.quizDate))
  }

  /** The labels `processData` sorts out of the overall dictionary: each date
      text that occurs in a row, once, in date order. */
  lemma DateLabels(data: seq<Row>, parse: string -> Date, labels: seq<string>)
    requires labels == SortBy(TallyOf(DateEntries(data)).keys, DateBefore(parse))
    ensures Distinct(labels)
    ensures forall d :: d in labels <==> d in Keys(DateEntries(data))
    ensures forall i, j :: 0 <= i < j < |labels| ==>
              DayNumber(parse(labels[i])) <= DayNumber(parse(labels[j]))
  {
    var t := TallyOf(DateEntries(data));
    TallyOfSpec(DateEntries(data));
    SortByPermutes(t.keys, DateBefore(parse));
    SortByDistinct(t.keys, DateBefore(parse));
    SortBySorted(t.keys, DateBefore(parse));
    forall d ensures d in labels <==> d in t.keys {
      assert d in labels <==> d in multiset(labels);
    }
  }

  /** When different texts name different valid days, no two labels tie, so the
      labels are in strictly increasing date order. */
  lemma StrictlyAscending(data: seq<Row>, parse: string -> Date, labels: seq<string>)
    requires DistinctDays(data, parse)
    requires Distinct(labels)
    requires forall d :: d in labels ==> d in Keys(DateEntries(data))
    requires forall i, j :: 0 <= i < j < |labels| ==>
               DayNumber(parse(labels[i])) <= DayNumber(parse(labels[j]))
    ensures forall i, j :: 0 <= i < j < |labels| ==>
              DayNumber(parse(labels[i])) < DayNumber(parse(labels[j]))
  {
    var ks := Keys(DateEntries(data));
    forall i, j | 0 <= i < j < |labels|
      ensures DayNumber(parse(labels[i])) < DayNumber(parse(labels[j]))
    {
      assert labels[i] in ks && labels[j] in ks;
      var ka :| 0 <= ka < |ks| && ks[ka] == labels[i];
      var kb :| 0 <= kb < |ks| && ks[kb] == labels[j];
      KeysIndex(DateEntries(data), ka);
      KeysIndex(DateEntries(data), kb);
      assert data[ka] in data && data[kb] in data;
      DayNumberInjective(parse(labels[i]), parse(labels[j]));
    }
  }

  /** Each point of the overall series is the percentage of `'true'` rows on its
      date, at least one row stands behind it, and it lies between 0 and 100. */
  lemma DatePoints(data: seq<Row>, labels: seq<string>)
    requires forall d :: d in labels ==> d in Keys(DateEntries(data))
    ensures forall d :: d in labels ==> d in TallyOf(DateEntries(data)).buckets
                                        && TallyOf(DateEntries(data)).buckets[d].total > 0
    ensures forall i :: 0 <= i < |labels| ==>
              && RowsOn(data, labels[i]) >= 1
              && Ratios(TallyOf(DateEntries(data)), labels)[i] ==
                   Ratio(Bucket(TrueRowsOn(data, labels[i]), RowsOn(data, labels[i])))
              && 0.0 <= Ratios(TallyOf(DateEntries(data)), labels)[i] <= 100.0
  {
    var es := DateEntries(data);
    var t := TallyOf(es);
    TallyOfSpec(es);
    forall i | 0 <= i < |labels|
      ensures RowsOn(data, labels[i]) >= 1
      ensures t.buckets[labels[i]] == Bucket(TrueRowsOn(data, labels[i]), RowsOn(data, labels[i]))
      ensures 0.0 <= Ratios(t, labels)[i] <= 100.0
    {
      CountPositive(es, labels[i]);
      DateBucketCounts(data, labels[i]);
      RatioInRange(t.buckets[labels[i]]);
    }
  }

  /** A date is a label of the overall series exactly when some row carries it. */
  lemma DateKeysAreRowDates(data: seq<Row>, d: string)
    ensures d in Keys(DateEntries(data)) <==> RowsOn(data, d) > 0
  {
    CountPositive(DateEntries(data), d);
    DateBucketCounts(data, d);
  }

  /** `processData`: bucket the rows by date text, list the dates in date order
      and chart each date's percentage of `'true'` rows. */
  method ProcessData(data: seq<Row>, parse: string -> Date)
    returns (overallLabels: seq<string>, overallDataset: seq<real>)
    ensures Distinct(overallLabels)
    ensures forall d :: d in overallLabels <==> RowsOn(data, d) > 0
    ensures forall i, j :: 0 <= i < j < |overallLabels| ==>
              DayNumber(parse(overallLabels[i])) <= DayNumber(parse(overallLabels[j]))
    ensures DistinctDays(data, parse) ==>
              forall i, j :: 0 <= i < j < |overallLabels| ==>
                DayNumber(parse(overallLabels[i])) < DayNumber(parse(overallLabels[j]))
    ensures |overallDataset| == |overallLabels|
    ensures forall i :: 0 <= i < |overallLabels| ==>
              && RowsOn(data, overallLabels[i]) >= 1
              && overallDataset[i] ==
                   Ratio(Bucket(TrueRowsOn(data, overallLabels[i]), RowsOn(data, overallLabels[i])))
              && 0.0 <= overallDataset[i] <= 100.0
  {
    var overallImprovementData := Table([], map[]);
    var i := 0;
    while i < |data|
      invariant 0 <= i <= |data|
      invariant overallImprovementData == TallyOf(DateEntries(data[..i]))
    {
      var row := data[i];
      DateEntriesStep(data, i);
      overallImprovementData := Add(overallImprovementData, Entry(row.quizDate, TrueAsOne(row.correctness)));
      i := i + 1;
    }
    assert data[..i] == data;
    overallLabels := SortBy(overallImprovementData.keys, DateBefore(parse));
    DateLabels(data, parse, overallLabels);
    forall d ensures d in overallLabels <==> RowsOn(data, d) > 0 {
      DateKeysAreRowDates(data, d);
    }
    if DistinctDays(data, parse) {
      StrictlyAscending(data, parse, overallLabels);
    }
    DatePoints(data, overallLabels);
    overallDataset := Ratios(overallImprovementData, overallLabels);
  }

  /** The overall dictionary counts every row exactly once: its bucket totals
      sum to the number of rows. */
  lemma OverallTotals(data: seq<Row>)
    ensures TableTotal(TallyOf(DateEntries(data))) == |data|
  {
    TallyTotal(DateEntries(data));
  }

  // ---------------------------------------------------------------------------
  // processCategoryData
  // ---------------------------------------------------------------------------

  /** `getWeekFromDate(new Date(quiz_date))`, the week a row falls in. */
  function RowWeek(parse: string -> Date): (week: Row -> nat)
    ensures forall r :: week(r) >= 1
  {
    var week := (r: Row) => WeekFromDate(parse(r.quizDate));
    assert forall r :: week(r) >= 1 by {
      forall r ensures week(r) >= 1 {
        WeekAtLeastOne(parse(r.quizDate));
      }
    }
    week
  }

  /** The key of a row's week inside its category: the week number as an object
      key. The weekly dictionary is stated for any week function `week`;
      `processCategoryData` uses `RowWeek(parse)`. */
  function WeekKey(week: Row -> nat, r: Row): (k: string)
    ensures ParseDecimal(k) == week(r)
  {
    DecimalRoundTrip(week(r));
    Decimal(week(r))
  }

  /** What each row adds to the weekly dictionary: category, then week. */
  function CategoryEntries(rows: seq<Row>, week: Row -> nat): seq<NestedEntry<string, string>> {
    seq(|rows|, i requires 0 <= i < |rows| =>
      NestedEntry(rows[i].category, WeekKey(week, rows[i]), TrueAsOne(rows[i].correctness)))
  }

  lemma CategoryEntriesStep(data: seq<Row>, week: Row -> nat, i: nat)
    requires i < |data|
    ensures CategoryEntries(data[..i + 1], week) ==
            CategoryEntries(data[..i], week)
              + [NestedEntry(data[i].category, WeekKey(week, data[i]), TrueAsOne(data[i].correctness))]
  {
  }

  /** `processCategoryData`: bucket the rows by category and, inside each
      category, by week. */
  method ProcessCategoryData(data: seq<Row>, parse: string -> Date)
    returns (categoryData: Nested<string, string>)
    ensures categoryData == NestedOf(CategoryEntries(data, RowWeek(parse)))
    ensures WellFormedNested(categoryData)
    ensures NestedTotal(categoryData) == |data|
  {
    var week := RowWeek(parse);
    categoryData := Nested([], map[]);
    var i := 0;
    while i < |data|
      invariant 0 <= i <= |data|
      invariant categoryData == NestedOf(CategoryEntries(data[..i], week))
    {
      var row := data[i];
      CategoryEntriesStep(data, week, i);
      categoryData := AddNested(categoryData, NestedEntry(row.category, WeekKey(week, row), TrueAsOne(row.correctness)));
      i := i + 1;
    }
    assert data[..i] == data;
    NestedWellFormed(CategoryEntries(data, week));
    NestedTotalIsLength(CategoryEntries(data, week));
  }

  /** Row `r` belongs to category `c` and falls in week `w`. */
  predicate InWeek(week: Row -> nat, r: Row, c: string, w: nat) {
    r.category == c && week(r) == w
  }

  /** The number of rows of category `c` in week `w`. */
  function WeekRows(data: seq<Row>, week: Row -> nat, c: string, w: nat): nat {
    if data == [] then 0
    else WeekRows(data[..|data| - 1], week, c, w) + (if InWeek(week, data[|data| - 1], c, w) then 1 else 0)
  }

  /** The number of rows of category `c` in week `w` whose correctness is `'true'`. */
  function WeekTrues(data: seq<Row>, week: Row -> nat, c: string, w: nat): (n: nat)
    ensures n <= WeekRows(data, week, c, w)
  {
    if data == [] then 0
    else
      var r := data[|data| - 1];
      WeekTrues(data[..|data| - 1], week, c, w) + (if InWeek(week, r, c, w) && r.correctness == "true" then 1 else 0)
  }

  /** The rows of category `c` after one more row. */
  lemma ProjectStep(data: seq<Row>, week: Row -> nat, c: string)
    requires data != []
    ensures Project(CategoryEntries(data, week), c) ==
            Project(CategoryEntries(data[..|data| - 1], week), c)
              + (if data[|data| - 1].category == c
                 then [Entry(WeekKey(week, data[|data| - 1]), TrueAsOne(data[|data| - 1].correctness))]
                 else [])
  {
    var n := |data| - 1;
    CategoryEntriesStep(data, week, n);
    assert data[..n + 1] == data;
    var es := CategoryEntries(data, week);
    assert es[..|es| - 1] == CategoryEntries(data[..n], week);
  }

  /** The number of rows of category `c` whose week key is `k`, and of those
      the number whose correctness is `'true'`. */
  function KeyRows(data: seq<Row>, week: Row -> nat, c: string, k: string): (counts: (nat, nat)) {
    if data == [] then (0, 0)
    else
      var r := data[|data| - 1];
      var p := KeyRows(data[..|data| - 1], week, c, k);
      if r.category == c && WeekKey(week, r) == k then (p.0 + 1, p.1 + TrueAsOne(r.correctness)) else p
  }

  lemma {:induction false} KeyRowsCounts(data: seq<Row>, week: Row -> nat, c: string, k: string)
    ensures Count(Project(CategoryEntries(data, week), c), k) == KeyRows(data, week, c, k).0
    ensures Score(Project(CategoryEntries(data, week), c), k) == KeyRows(data, week, c, k).1
  {
    if data != [] {
      var n := |data| - 1;
      var r := data[n];
      var q := Project(CategoryEntries(data[..n], week), c);
      KeyRowsCounts(data[..n], week, c, k);
      ProjectStep(data, week, c);
      if r.category == c {
        CountScoreSnoc(q, Entry(WeekKey(week, r), TrueAsOne(r.correctness)), k);
      } else {
        assert q + [] == q;
      }
    }
  }

  lemma {:induction false} KeyRowsWeek(data: seq<Row>, week: Row -> nat, c: string, w: nat)
    ensures KeyRows(data, week, c, Decimal(w)) == (WeekRows(data, week, c, w), WeekTrues(data, week, c, w))
  {
    if data != [] {
      KeyRowsWeek(data[..|data| - 1], week, c, w);
      DecimalInjective(week(data[|data| - 1]), w);
    }
  }

  /** Inside category `c`, the bucket of week `w` counts exactly the rows of `c`
      in week `w`, and as correct those whose correctness is `'true'`. */
  lemma WeekCounts(data: seq<Row>, week: Row -> nat, c: string, w: nat)
    ensures Count(Project(CategoryEntries(data, week), c), Decimal(w)) == WeekRows(data, week, c, w)
    ensures Score(Project(CategoryEntries(data, week), c), Decimal(w)) == WeekTrues(data, week, c, w)
  {
    KeyRowsCounts(data, week, c, Decimal(w));
    KeyRowsWeek(data, week, c, w);
  }

  /** The weekly dictionary holds a bucket for category `c` and week `w` exactly
      when some row of `c` falls in week `w`, and that bucket is
      `{ correct: WeekTrues, total: WeekRows }`. */
  lemma CategoryWeekBuckets(data: seq<Row>, week: Row -> nat, c: string, w: nat)
    ensures (c in NestedOf(CategoryEntries(data, week)).tables
             && Decimal(w) in NestedOf(CategoryEntries(data, week)).tables[c].buckets)
            <==> WeekRows(data, week, c, w) > 0
    ensures c in NestedOf(CategoryEntries(data, week)).tables
            && Decimal(w) in NestedOf(CategoryEntries(data, week)).tables[c].buckets ==>
              NestedOf(CategoryEntries(data, week)).tables[c].buckets[Decimal(w)]
                == Bucket(WeekTrues(data, week, c, w), WeekRows(data, week, c, w))
  {
    var es := CategoryEntries(data, week);
    var q := Project(es, c);
    NestedOfSpec(es);
    ProjectEmpty(es, c);
    TallyOfSpec(q);
    CountPositive(q, Decimal(w));
    WeekCounts(data, week, c, w);
  }

  /** Every week key of the weekly dictionary is the text of a whole number. */
  lemma {:induction false} WeekKeysCanonical(data: seq<Row>, week: Row -> nat, c: string)
    ensures forall k :: k in Keys(Project(CategoryEntries(data, week), c)) ==> k == Decimal(ParseDecimal(k))
  {
    if data != [] {
      var n := |data| - 1;
      var r := data[n];
      WeekKeysCanonical(data[..n], week, c);
      ProjectStep(data, week, c);
      DecimalRoundTrip(week(r));
      var q := Project(CategoryEntries(data[..n], week), c);
      if r.category == c {
        var x := Entry(WeekKey(week, r), TrueAsOne(r.correctness));
        assert (q + [x])[..|q|] == q;
        assert Keys(q + [x]) == Keys(q) + [x.key];
      } else {
        assert q + [] == q;
      }
    }
  }

  // ---------------------------------------------------------------------------
  // generateChartData
  // ---------------------------------------------------------------------------

  /** `weeklyCategory[c] || {}` */
  function CategoryTable(weeklyCategory: Nested<string, string>, c: string): (t: Table<string>)
    ensures WellFormedNested(weeklyCategory) ==> WellFormed(t)
    ensures WellFormedNested(weeklyCategory) ==> (t.keys == [] <==> c !in weeklyCategory.tables)
  {
    if c in weeklyCategory.tables then weeklyCategory.tables[c] else Table([], map[])
  }

  /** Sorting keeps exactly the keys it is given. */
  lemma SortedKeys(t: Table<string>)
    ensures forall k :: k in SortBy(t.keys, LexLess) <==> k in t.keys
  {
    SortByPermutes(t.keys, LexLess);
    forall k ensures k in SortBy(t.keys, LexLess) <==> k in t.keys {
      assert k in SortBy(t.keys, LexLess) <==> k in multiset(SortBy(t.keys, LexLess));
    }
  }

  /** `generateChartData`: the keys in the default `sort()` order, each with its
      percentage. */
  function GenerateChartData(categoryData: Table<string>): (s: Series<string>)
    requires WellFormed(categoryData)
    ensures |s.dataset| == |s.labels| == |categoryData.keys|
  {
    SortedKeys(categoryData);
    SortByPermutes(categoryData.keys, LexLess);
    assert |SortBy(categoryData.keys, LexLess)| == |multiset(categoryData.keys)|;
    var labels := SortBy(categoryData.keys, LexLess);
    Series(labels, Ratios(categoryData, labels))
  }

  /** The labels are the keys of the dictionary in strictly increasing text
      order, and each point is the percentage of its key's bucket. */
  lemma GenerateChartDataSpec(categoryData: Table<string>)
    requires WellFormed(categoryData)
    ensures forall k :: k in GenerateChartData(categoryData).labels <==> k in categoryData.buckets
    ensures forall i, j :: 0 <= i < j < |GenerateChartData(categoryData).labels| ==>
              LexLess(GenerateChartData(categoryData).labels[i], GenerateChartData(categoryData).labels[j])
    ensures forall i :: 0 <= i < |GenerateChartData(categoryData).labels| ==>
              && GenerateChartData(categoryData).labels[i] in categoryData.buckets
              && GenerateChartData(categoryData).dataset[i]
                   == Ratio(categoryData.buckets[GenerateChartData(categoryData).labels[i]])
  {
    var labels := GenerateChartData(categoryData).labels;
    SortedKeys(categoryData);
    SortByDistinct(categoryData.keys, LexLess);
    LexLessStrictOrder();
    SortBySorted(categoryData.keys, LexLess);
    forall i, j | 0 <= i < j < |labels| ensures LexLess(labels[i], labels[j]) {
      LexLessTotal(labels[i], labels[j]);
    }
  }

  /** Week labels sort as text: week 10 comes before week 9. */
  lemma WeekTenBeforeNine()
    ensures SortBy([Decimal(9), Decimal(10)], LexLess) == [Decimal(10), Decimal(9)]
  {
    assert Decimal(10) == "10" && Decimal(9) == "9";
    assert LexLess("10", "9");
  }

  /** `generateChartData(weeklyCategory[c] || {})` for the weekly dictionary of `data`. */
  function WeeklyChart(data: seq<Row>, week: Row -> nat, c: string): (s: Series<string>)
    ensures |s.dataset| == |s.labels|
  {
    NestedWellFormed(CategoryEntries(data, week));
    GenerateChartData(CategoryTable(NestedOf(CategoryEntries(data, week)), c))
  }

  /** The weekly series charted for category `c`: one label per week in which
      `c` has rows, written as the week number, in text order; each point the
      percentage of `'true'` rows of `c` that week, between 0 and 100; and the
      empty series when no row has category `c`. */
  lemma WeeklySeries(data: seq<Row>, week: Row -> nat, c: string)
    ensures WellFormed(CategoryTable(NestedOf(CategoryEntries(data, week)), c))
    ensures WeeklyChart(data, week, c) == Series([], []) <==> forall r :: r in data ==> r.category != c
    ensures forall w: nat :: Decimal(w) in WeeklyChart(data, week, c).labels <==> WeekRows(data, week, c, w) > 0
    ensures forall i :: 0 <= i < |WeeklyChart(data, week, c).labels| ==>
              var l := WeeklyChart(data, week, c).labels[i];
              && l == Decimal(ParseDecimal(l))
              && WeekRows(data, week, c, ParseDecimal(l)) >= 1
              && WeeklyChart(data, week, c).dataset[i]
                   == Ratio(Bucket(WeekTrues(data, week, c, ParseDecimal(l)), WeekRows(data, week, c, ParseDecimal(l))))
              && 0.0 <= WeeklyChart(data, week, c).dataset[i] <= 100.0
  {
    NestedWellFormed(CategoryEntries(data, week));
    WeeklySeriesEmpty(data, week, c);
    WeeklySeriesWeeks(data, week, c);
    WeeklySeriesPoints(data, week, c);
  }

  lemma WeeklySeriesEmpty(data: seq<Row>, week: Row -> nat, c: string)
    ensures WeeklyChart(data, week, c) == Series([], []) <==> forall r :: r in data ==> r.category != c
  {
    var es := CategoryEntries(data, week);
    NestedWellFormed(es);
    var t := CategoryTable(NestedOf(es), c);
    assert WeeklyChart(data, week, c) == GenerateChartData(t);
    NoCategoryRows(data, week, c);
  }

  lemma WeeklySeriesWeeks(data: seq<Row>, week: Row -> nat, c: string)
    ensures forall w: nat :: Decimal(w) in WeeklyChart(data, week, c).labels <==> WeekRows(data, week, c, w) > 0
  {
    var es := CategoryEntries(data, week);
    NestedWellFormed(es);
    var t := CategoryTable(NestedOf(es), c);
    var s := GenerateChartData(t);
    assert WeeklyChart(data, week, c) == s;
    GenerateChartDataSpec(t);
    forall w: nat ensures Decimal(w) in s.labels <==> WeekRows(data, week, c, w) > 0 {
      CategoryWeekBuckets(data, week, c, w);
    }
  }

  lemma WeeklySeriesPoints(data: seq<Row>, week: Row -> nat, c: string)
    ensures forall i :: 0 <= i < |WeeklyChart(data, week, c).labels| ==>
              var l := WeeklyChart(data, week, c).labels[i];
              && l == Decimal(ParseDecimal(l))
              && WeekRows(data, week, c, ParseDecimal(l)) >= 1
              && WeeklyChart(data, week, c).dataset[i]
                   == Ratio(Bucket(WeekTrues(data, week, c, ParseDecimal(l)), WeekRows(data, week, c, ParseDecimal(l))))
              && 0.0 <= WeeklyChart(data, week, c).dataset[i] <= 100.0
  {
    var es := CategoryEntries(data, week);
    var n := NestedOf(es);
    NestedWellFormed(es);
    var t := CategoryTable(n, c);
    var s := GenerateChartData(t);
    assert WeeklyChart(data, week, c) == s;
    if c in n.tables {
      NestedOfSpec(es);
      TallyOfSpec(Project(es, c));
      WeekKeysCanonical(data, week, c);
      GenerateChartDataSpec(t);
      forall i | 0 <= i < |s.labels|
        ensures s.labels[i] == Decimal(ParseDecimal(s.labels[i]))
        ensures WeekRows(data, week, c, ParseDecimal(s.labels[i])) >= 1
        ensures s.dataset[i] == Ratio(Bucket(WeekTrues(data, week, c, ParseDecimal(s.labels[i])),
                                             WeekRows(data, week, c, ParseDecimal(s.labels[i]))))
        ensures 0.0 <= s.dataset[i] <= 100.0
      {
        var l := s.labels[i];
        assert l in Keys(Project(es, c));
        var w := ParseDecimal(l);
        CategoryWeekBuckets(data, week, c, w);
        RatioInRange(t.buckets[l]);
      }
    }
  }

  /** Category `c` is a key of the weekly dictionary exactly when some row has it. */
  lemma NoCategoryRows(data: seq<Row>, week: Row -> nat, c: string)
    ensures c in NestedOf(CategoryEntries(data, week)).tables <==> exists r :: r in data && r.category == c
  {
    NestedOfSpec(CategoryEntries(data, week));
    GroupsOfRows(data, week, c);
  }

  lemma GroupsOfRows(data: seq<Row>, week: Row -> nat, c: string)
    ensures c in Groups(CategoryEntries(data, week)) <==> exists r :: r in data && r.category == c
  {
    var es := CategoryEntries(data, week);
    GroupsAt(es);
    if c in Groups(es) {
      var i :| 0 <= i < |es| && Groups(es)[i] == c;
      assert data[i] in data && data[i].category == c;
    }
    if exists r :: r in data && r.category == c {
      var r :| r in data && r.category == c;
      var i :| 0 <= i < |data| && data[i] == r;
      assert Groups(es)[i] == c;
    }
  }

  // ---------------------------------------------------------------------------
  // Colour bands of the weekly bar chart
  // ---------------------------------------------------------------------------

  /** The three colour bands of a weekly bar. */
  datatype Band = Teal | Orange | Red

  /** `value > 60` is teal, `value >= 35` orange, anything lower red. */
  function BandOf(value: real): (b: Band)
    ensures b == Teal <==> value > 60.0
    ensures b == Orange <==> 35.0 <= value <= 60.0
    ensures b == Red <==> value < 35.0
  {
    if value > 60.0 then Teal else if value >= 35.0 then Orange else Red
  }

  /** The bar's `backgroundColor`. */
  function BackgroundColor(value: real): (colour: string)
    ensures value > 60.0 ==> colour == "rgba(75, 192, 192, 0.2)"
    ensures 35.0 <= value <= 60.0 ==> colour == "rgba(255, 165, 0, 0.2)"
    ensures value < 35.0 ==> colour == "rgba(255, 99, 132, 0.2)"
  {
    match BandOf(value)
    case Teal => "rgba(75, 192, 192, 0.2)"
    case Orange => "rgba(255, 165, 0, 0.2)"
    case Red => "rgba(255, 99, 132, 0.2)"
  }

  /** The bar's `borderColor`. */
  function BorderColor(value: real): (colour: string)
    ensures value > 60.0 ==> colour == "rgba(75, 192, 192, 1)"
    ensures 35.0 <= value <= 60.0 ==> colour == "rgba(255, 165, 0, 1)"
    ensures value < 35.0 ==> colour == "rgba(255, 99, 132, 1)"
  {
    match BandOf(value)
    case Teal => "rgba(75, 192, 192, 1)"
    case Orange => "rgba(255, 165, 0, 1)"
    case Red => "rgba(255, 99, 132, 1)"
  }

  /** A bar's fill and border come from the same band, so two bars share a fill
      exactly when they share a border. */
  lemma ColoursAgree(u: real, v: real)
    ensures BackgroundColor(u) == BackgroundColor(v) <==> BandOf(u) == BandOf(v)
    ensures BorderColor(u) == BorderColor(v) <==> BandOf(u) == BandOf(v)
  {
  }

  // ---------------------------------------------------------------------------
  // The component's state
  // ---------------------------------------------------------------------------

  /** What `handleCompare` stores: the dictionaries of the two categories. */
  datatype ComparePair = ComparePair(selectedCategory: Table<string>, compareCategory: Table<string>)

  /** The state of the `QuizGraph` component and its handlers. */
  class Component {
    const parse: string -> Date
    var data: seq<Row>
    var weeklyCategory: Nested<string, string>
    var selectedCategory: string
    var compareCategory: string
    var compareData: Option<ComparePair>

    /** `weeklyCategory` is always the weekly dictionary of `data`. */
    ghost predicate Valid()
      reads this
    {
      weeklyCategory == NestedOf(CategoryEntries(data, RowWeek(parse)))
    }

    /** The initial state: no rows, `{}`, `''`, `''` and `null`. */
    constructor(parse: string -> Date)
      ensures Valid()
      ensures this.parse == parse
      ensures data == [] && weeklyCategory == Nested([], map[])
      ensures selectedCategory == "" && compareCategory == "" && compareData == None
    {
      this.parse := parse;
      data := [];
      weeklyCategory := Nested([], map[]);
      selectedCategory := "";
      compareCategory := "";
      compareData := None;
    }

    /** The parsed rows arrive: `setData(parsedData)` and `processCategoryData(parsedData)`. */
    method Load(parsedData: seq<Row>)
      modifies this`data, this`weeklyCategory
      ensures Valid()
      ensures data == parsedData
      ensures NestedTotal(weeklyCategory) == |parsedData|
    {
      data := parsedData;
      weeklyCategory := ProcessCategoryData(parsedData, parse);
    }

    /** `handleCategoryChange` */
    method HandleCategoryChange(value: string)
      requires Valid()
      modifies this`selectedCategory
      ensures Valid()
      ensures selectedCategory == value
    {
      selectedCategory := value;
    }

    /** `handleCompareChange` */
    method HandleCompareChange(value: string)
      requires Valid()
      modifies this`compareCategory
      ensures Valid()
      ensures compareCategory == value
    {
      compareCategory := value;
    }

    /** `handleCompare`: store both dictionaries when both categories are keys of
        `weeklyCategory`; otherwise leave `compareData` as it was. */
    method HandleCompare()
      requires Valid()
      modifies this`compareData
      ensures Valid()
      ensures selectedCategory in weeklyCategory.tables && compareCategory in weeklyCategory.tables ==>
                compareData == Some(ComparePair(weeklyCategory.tables[selectedCategory],
                                                weeklyCategory.tables[compareCategory]))
      ensures !(selectedCategory in weeklyCategory.tables && compareCategory in weeklyCategory.tables) ==>
                compareData == old(compareData)
    {
      if selectedCategory in weeklyCategory.tables && compareCategory in weeklyCategory.tables {
        compareData := Some(ComparePair(weeklyCategory.tables[selectedCategory],
                                        weeklyCategory.tables[compareCategory]));
      }
    }

    /** `generateChartData(weeklyCategory[selectedCategory] || {})`, as rendered. */
    function SelectedCategoryData(): (s: Series<string>)
      reads this
      requires Valid()
      ensures (forall r :: r in data ==> r.category != selectedCategory) ==> s == Series([], [])
    {
      WeeklySeries(data, RowWeek(parse), selectedCategory);
      GenerateChartData(CategoryTable(weeklyCategory, selectedCategory))
    }

    /** `generateChartData(weeklyCategory[compareCategory] || {})`, as rendered. */
    function CompareCategoryData(): (s: Series<string>)
      reads this
      requires Valid()
      ensures (forall r :: r in data ==> r.category != compareCategory) ==> s == Series([], [])
    {
      WeeklySeries(data, RowWeek(parse), compareCategory);
      GenerateChartData(CategoryTable(weeklyCategory, compareCategory))
    }
  }
}
