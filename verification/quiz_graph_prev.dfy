/**
 * The chart logic of `src/QuizGraphPrev.jsx`: a dictionary category -> quiz
 * date -> `{ correct, total }`, the series of one category read off it with
 * its dates in insertion order, and the choice of datasets for the chart.
 * Correctness is read as `Number(correctness)`.
 */
module QuizGraphPrev {
  import opened Options
  import opened Tally

  /** One parsed CSV row; `correctness` is the value of `Number(correctness)`. */
  datatype Row = Row(quizDate: string, category: string, correctness: int)

  /** What each row adds to the dictionary: category, then date. */
  function CategoryEntries(rows: seq<Row>): seq<NestedEntry<string, string>> {
    seq(|rows|, i requires 0 <= i < |rows| => NestedEntry(rows[i].category, rows[i].quizDate, rows[i].correctness))
  }

  lemma CategoryEntriesStep(data: seq<Row>, i: nat)
    requires i < |data|
    ensures CategoryEntries(data[..i + 1]) ==
            CategoryEntries(data[..i]) + [NestedEntry(data[i].category, data[i].quizDate, data[i].correctness)]
  {
  }

  /** `processCategoryData`: bucket the rows by category and, inside each
      category, by date. Every category holds at least one date, every bucket
      at least one row, and the totals add up to the number of rows. */
  method ProcessCategoryData(data: seq<Row>) returns (categoryData: Nested<string, string>)
    ensures categoryData == NestedOf(CategoryEntries(data))
    ensures WellFormedNested(categoryData)
    ensures NestedTotal(categoryData) == |data|
  {
    categoryData := Nested([], map[]);
    var i := 0;
    while i < |data|
      invariant 0 <= i <= |data|
      invariant categoryData == NestedOf(CategoryEntries(data[..i]))
    {
      var row := data[i];
      CategoryEntriesStep(data, i);
      categoryData := AddNested(categoryData, NestedEntry(row.category, row.quizDate, row.correctness));
      i := i + 1;
    }
    assert data[..i] == data;
    NestedWellFormed(CategoryEntries(data));
    NestedTotalIsLength(CategoryEntries(data));
  }

  // ---------------------------------------------------------------------------
  // Reference counts
  // ---------------------------------------------------------------------------

  /** The number of rows of category `c` dated `d`, and the sum of their correctness. */
  function CellRows(data: seq<Row>, c: string, d: string): (counts: (nat, int)) {
    if data == [] then (0, 0)
    else
      var r := data[|data| - 1];
      var p := CellRows(data[..|data| - 1], c, d);
      if r.category == c && r.quizDate == d then (p.0 + 1, p.1 + r.correctness) else p
  }

  /** The dates of the rows of category `c`, in row order. */
  function DatesOf(data: seq<Row>, c: string): seq<string> {
    if data == [] then []
    else
      var r := data[|data| - 1];
      DatesOf(data[..|data| - 1], c) + (if r.category == c then [r.quizDate] else [])
  }

  lemma ProjectStep(data: seq<Row>, c: string)
    requires data != []
    ensures Project(CategoryEntries(data), c) ==
            Project(CategoryEntries(data[..|data| - 1]), c)
              + (if data[|data| - 1].category == c
                 then [Entry(data[|data| - 1].quizDate, data[|data| - 1].correctness)]
                 else [])
  {
    var n := |data| - 1;
    CategoryEntriesStep(data, n);
    assert data[..n + 1] == data;
    var es := CategoryEntries(data);
    assert es[..|es| - 1] == CategoryEntries(data[..n]);
  }

  /** The entries of category `c` are, key by key, the rows of `c`. */
  lemma {:induction false} ProjectCounts(data: seq<Row>, c: string, d: string)
    ensures Count(Project(CategoryEntries(data), c), d) == CellRows(data, c, d).0
    ensures Score(Project(CategoryEntries(data), c), d) == CellRows(data, c, d).1
    ensures Keys(Project(CategoryEntries(data), c)) == DatesOf(data, c)
  {
    if data != [] {
      var n := |data| - 1;
      var r := data[n];
      var q := Project(CategoryEntries(data[..n]), c);
      ProjectCounts(data[..n], c, d);
      ProjectStep(data, c);
      if r.category == c {
        var x := Entry(r.quizDate, r.correctness);
        CountScoreSnoc(q, x, d);
        assert (q + [x])[..|q|] == q;
      } else {
        assert q + [] == q;
      }
    }
  }

  lemma {:induction false} CellRowsBound(data: seq<Row>, c: string, d: string)
    requires forall r :: r in data ==> 0 <= r.correctness <= 1
    ensures 0 <= CellRows(data, c, d).1 <= CellRows(data, c, d).0
  {
    if data != [] {
      var n := |data| - 1;
      assert data[n] in data;
      assert forall r :: r in data[..n] ==> r in data;
      CellRowsBound(data[..n], c, d);
    }
  }

  /** Bucket (c, d) exists exactly when some row has category `c` and date `d`;
      it counts those rows and sums their correctness, and with correctness 0
      or 1 its `correct` lies between 0 and `total`. */
  lemma CellBuckets(data: seq<Row>, c: string, d: string)
    ensures (c in NestedOf(CategoryEntries(data)).tables && d in NestedOf(CategoryEntries(data)).tables[c].buckets)
            <==> CellRows(data, c, d).0 > 0
    ensures c in NestedOf(CategoryEntries(data)).tables && d in NestedOf(CategoryEntries(data)).tables[c].buckets ==>
              NestedOf(CategoryEntries(data)).tables[c].buckets[d]
                == Bucket(CellRows(data, c, d).1, CellRows(data, c, d).0)
    ensures (forall r :: r in data ==> 0 <= r.correctness <= 1) ==>
              0 <= CellRows(data, c, d).1 <= CellRows(data, c, d).0
  {
    var es := CategoryEntries(data);
    var q := Project(es, c);
    NestedOfSpec(es);
    ProjectEmpty(es, c);
    TallyOfSpec(q);
    CountPositive(q, d);
    ProjectCounts(data, c, d);
    if forall r :: r in data ==> 0 <= r.correctness <= 1 {
      CellRowsBound(data, c, d);
    }
  }

  // ---------------------------------------------------------------------------
  // getCategoryImprovementData
  // ---------------------------------------------------------------------------

  /** The series `getCategoryImprovementData` reads off a dictionary: empty for
      an absent category, otherwise its date keys in insertion order with their
      percentages. */
  function Improvement(weeklyCategory: Nested<string, string>, category: string): (s: Series<string>)
    requires WellFormedNested(weeklyCategory)
    ensures |s.dataset| == |s.labels|
  {
    if category in weeklyCategory.tables then
      var t := weeklyCategory.tables[category];
      Series(t.keys, Ratios(t, t.keys))
    else Series([], [])
  }

  /** The improvement series of category `c`: its labels are the dates of the
      rows of `c`, each once, in order of first appearance; each point is the
      percentage of its date's rows of `c`; and a category without rows, `''`
      included when no row has it, gives the empty series. */
  lemma ImprovementSpec(data: seq<Row>, c: string)
    ensures WellFormedNested(NestedOf(CategoryEntries(data)))
    ensures Improvement(NestedOf(CategoryEntries(data)), c).labels == Dedup(DatesOf(data, c))
    ensures (Improvement(NestedOf(CategoryEntries(data)), c) == Series([], []))
            <==> forall r :: r in data ==> r.category != c
    ensures forall i :: 0 <= i < |Improvement(NestedOf(CategoryEntries(data)), c).labels| ==>
              var d := Improvement(NestedOf(CategoryEntries(data)), c).labels[i];
              && CellRows(data, c, d).0 >= 1
              && Improvement(NestedOf(CategoryEntries(data)), c).dataset[i]
                   == Ratio(Bucket(CellRows(data, c, d).1, CellRows(data, c, d).0))
  {
    var es := CategoryEntries(data);
    var n := NestedOf(es);
    NestedWellFormed(es);
    NestedOfSpec(es);
    ProjectEmpty(es, c);
    ProjectCounts(data, c, "");
    DatesOfEmpty(data, c);
    if c in n.tables {
      TallyOfSpec(Project(es, c));
    }
    var s := Improvement(n, c);
    forall i | 0 <= i < |s.labels|
      ensures CellRows(data, c, s.labels[i]).0 >= 1
      ensures s.dataset[i] == Ratio(Bucket(CellRows(data, c, s.labels[i]).1, CellRows(data, c, s.labels[i]).0))
    {
      CellBuckets(data, c, s.labels[i]);
    }
  }

  lemma {:induction false} DatesOfEmpty(data: seq<Row>, c: string)
    ensures DatesOf(data, c) == [] <==> forall r :: r in data ==> r.category != c
  {
    if data != [] {
      var n := |data| - 1;
      DatesOfEmpty(data[..n], c);
      assert data == data[..n] + [data[n]];
    }
  }

  // ---------------------------------------------------------------------------
  // The chart's datasets
  // ---------------------------------------------------------------------------

  /** One chart dataset: its `label` (the legend text) and its `data` points. */
  datatype Dataset = Dataset(legend: string, points: seq<real>)

  /** The chart that is rendered: labels and datasets. */
  datatype LineChart = LineChart(labels: seq<string>, datasets: seq<Dataset>)

  /** `.filter(Boolean)`: drop the entries that are not objects. */
  function Present(ds: seq<Option<Dataset>>): (r: seq<Dataset>)
    ensures |r| <= |ds|
    ensures forall d :: d in r <==> Some(d) in ds
  {
    if ds == [] then []
    else (if ds[0].Some? then [ds[0].value] else []) + Present(ds[1..])
  }

  /** `.filter(Boolean)` over a concatenation filters each part, so it keeps
      the datasets in their order and with their multiplicity. */
  lemma {:induction false} PresentAppend(xs: seq<Option<Dataset>>, ys: seq<Option<Dataset>>)
    ensures Present(xs + ys) == Present(xs) + Present(ys)
  {
    if xs == [] {
      assert xs + ys == ys;
    } else {
      var zs := xs + ys;
      var h := if xs[0].Some? then [xs[0].value] else [];
      assert zs[0] == xs[0] && zs[1..] == xs[1..] + ys;
      PresentAppend(xs[1..], ys);
      assert Present(zs) == h + (Present(xs[1..]) + Present(ys));
      assert Present(xs) == h + Present(xs[1..]);
    }
  }

  /** A present dataset is kept and an absent one dropped. */
  lemma PresentSingle(d: Dataset)
    ensures Present([Some(d)]) == [d]
    ensures Present([None]) == []
  {
  }

  /** The line chart of the improvement view: nothing unless a category is
      selected; then the selected category's dataset and, when
      `compareCategory` is not `''`, the compare category's dataset after it,
      both labelled `<category> Improvement`, over the selected series' labels. */
  function ChartOf(selectedCategory: string, compareCategory: string,
                   selectedData: Series<string>, compareData: Series<string>): (chart: Option<LineChart>)
    ensures chart.None? <==> selectedCategory == ""
    ensures chart.Some? ==>
              && chart.value.labels == selectedData.labels
              && |chart.value.datasets| == (if compareCategory == "" then 1 else 2)
              && chart.value.datasets[0] == Dataset(selectedCategory + " Improvement", selectedData.dataset)
              && (compareCategory != "" ==>
                    chart.value.datasets[1] == Dataset(compareCategory + " Improvement", compareData.dataset))
  {
    if selectedCategory == "" then None
    else
      var first := Dataset(selectedCategory + " Improvement", selectedData.dataset);
      var second := if compareCategory == "" then None
                    else Some(Dataset(compareCategory + " Improvement", compareData.dataset));
      assert Present([second]) == if second.Some? then [second.value] else [];
      Some(LineChart(selectedData.labels, Present([Some(first), second])))
  }

  // ---------------------------------------------------------------------------
  // The component's state
  // ---------------------------------------------------------------------------

  /** The state of the `QuizGraph` component in `QuizGraphPrev.jsx`. */
  class Component {
    var data: seq<Row>
    var weeklyCategory: Nested<string, string>
    var selectedCategory: string
    var compareCategory: string

    /** `weeklyCategory` is always the dictionary of `data`. */
    ghost predicate Valid()
      reads this
    {
      weeklyCategory == NestedOf(CategoryEntries(data)) && WellFormedNested(weeklyCategory)
    }

    /** The initial state: no rows, `{}`, `''` and `''`. */
    constructor()
      ensures Valid()
      ensures data == [] && weeklyCategory == Nested([], map[])
      ensures selectedCategory == "" && compareCategory == ""
    {
      data := [];
      weeklyCategory := Nested([], map[]);
      selectedCategory := "";
      compareCategory := "";
    }

    /** The parsed rows arrive: `setData(parsedData)` and `processCategoryData(parsedData)`. */
    method Load(parsedData: seq<Row>)
      modifies this`data, this`weeklyCategory
      ensures Valid()
      ensures data == parsedData
      ensures NestedTotal(weeklyCategory) == |parsedData|
    {
      data := parsedData;
      weeklyCategory := ProcessCategoryData(parsedData);
    }

    /** `handleCategoryChange` */
    method HandleCategoryChange(value: string)
      requires Valid()
      modifies this`selectedCategory
      ensures Valid()
      ensures selectedCategory == value
    {
      selectedCategory := value;
    }

    /** `handleCompareCategoryChange` */
    method HandleCompareCategoryChange(value: string)
      requires Valid()
      modifies this`compareCategory
      ensures Valid()
      ensures compareCategory == value
    {
      compareCategory := value;
    }

    /** `getCategoryImprovementData(category)`: push each date key of the
        category, in insertion order, with its percentage. It changes no field. */
    method GetCategoryImprovementData(category: string) returns (labels: seq<string>, dataset: seq<real>)
      requires Valid()
      ensures Series(labels, dataset) == Improvement(weeklyCategory, category)
      ensures category !in weeklyCategory.tables ==> labels == [] && dataset == []
    {
      labels := [];
      dataset := [];
      if category in weeklyCategory.tables {
        var categoryData := weeklyCategory.tables[category];
        var keys := categoryData.keys;
        assert forall l :: l in keys ==> l in categoryData.buckets && categoryData.buckets[l].total > 0;
        var i := 0;
        while i < |keys|
          invariant 0 <= i <= |keys|
          invariant labels == keys[..i]
          invariant dataset == Ratios(categoryData, labels)
        {
          var date := keys[i];
          RatiosSnoc(categoryData, labels, date);
          assert keys[..i + 1] == keys[..i] + [date];
          labels := labels + [date];
          var dataPoint := Ratio(categoryData.buckets[date]);
          dataset := dataset + [dataPoint];
          i := i + 1;
        }
        assert keys[..i] == keys;
      }
    }

    /** What is rendered: the chart for the current selection, built from the
        two improvement series. */
    method Render() returns (chart: Option<LineChart>)
      requires Valid()
      ensures chart == ChartOf(selectedCategory, compareCategory,
                               Improvement(weeklyCategory, selectedCategory),
                               Improvement(weeklyCategory, compareCategory))
    {
      var selectedLabels, selectedDataset := GetCategoryImprovementData(selectedCategory);
      var compareLabels, compareDataset := GetCategoryImprovementData(compareCategory);
      chart := ChartOf(selectedCategory, compareCategory,
                       Series(selectedLabels, selectedDataset), Series(compareLabels, compareDataset));
    }
  }
}
