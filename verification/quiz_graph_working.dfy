/**
 * The chart logic of `src/QuizGraphWorking.jsx`: an overall series per quiz
 * date and a series per date for one chosen category, both with their labels
 * left in insertion order, and the list of categories for the selectors.
 * Correctness is read as `Number(correctness)`.
 */
module QuizGraphWorking {
  import opened Tally

  /** One parsed CSV row; `correctness` is the value of `Number(correctness)`. */
  datatype Row = Row(quizDate: string, category: string, correctness: int)

  /** What each row adds to a progress dictionary: its date's bucket. */
  function DateEntries(rows: seq<Row>): seq<Entry<string>> {
    seq(|rows|, i requires 0 <= i < |rows| => Entry(rows[i].quizDate, rows[i].correctness))
  }

  lemma DateEntriesStep(data: seq<Row>, i: nat)
    requires i < |data|
    ensures DateEntries(data[..i + 1]) == DateEntries(data[..i]) + [Entry(data[i].quizDate, data[i].correctness)]
  {
  }

  /** The dates of the rows, in row order. */
  function Dates(rows: seq<Row>): seq<string> {
    seq(|rows|, i requires 0 <= i < |rows| => rows[i].quizDate)
  }

  /** The categories of the rows, in row order. */
  function Categories(rows: seq<Row>): seq<string> {
    seq(|rows|, i requires 0 <= i < |rows| => rows[i].category)
  }

  /** The number of rows dated `d`. */
  function RowsOn(rows: seq<Row>, d: string): nat {
    if rows == [] then 0
    else RowsOn(rows[..|rows| - 1], d) + (if rows[|rows| - 1].quizDate == d then 1 else 0)
  }

  /** The sum of `Number(correctness)` over the rows dated `d`. */
  function CorrectOn(rows: seq<Row>, d: string): int {
    if rows == [] then 0
    else CorrectOn(rows[..|rows| - 1], d) + (if rows[|rows| - 1].quizDate == d then rows[|rows| - 1].correctness else 0)
  }

  /** `row.category === c`, as a filter. */
  function RowsOf(rows: seq<Row>, c: string): (r: seq<Row>)
    ensures |r| <= |rows|
  {
    if rows == [] then []
    else RowsOf(rows[..|rows| - 1], c) + (if rows[|rows| - 1].category == c then [rows[|rows| - 1]] else [])
  }

  /** The number of rows of category `c`. */
  function CategoryCount(rows: seq<Row>, c: string): nat {
    if rows == [] then 0
    else CategoryCount(rows[..|rows| - 1], c) + (if rows[|rows| - 1].category == c then 1 else 0)
  }

  /** The number of rows of category `c` dated `d`. */
  function CategoryRowsOn(rows: seq<Row>, c: string, d: string): nat {
    if rows == [] then 0
    else
      var r := rows[|rows| - 1];
      CategoryRowsOn(rows[..|rows| - 1], c, d) + (if r.category == c && r.quizDate == d then 1 else 0)
  }

  /** The sum of `Number(correctness)` over the rows of category `c` dated `d`. */
  function CategoryCorrectOn(rows: seq<Row>, c: string, d: string): int {
    if rows == [] then 0
    else
      var r := rows[|rows| - 1];
      CategoryCorrectOn(rows[..|rows| - 1], c, d) + (if r.category == c && r.quizDate == d then r.correctness else 0)
  }

  /** The progress series of a set of rows: the keys of their date dictionary in
      insertion order, each with its percentage. */
  function Progress(rows: seq<Row>): (s: Series<string>)
    ensures |s.dataset| == |s.labels|
  {
    TallyOfSpec(DateEntries(rows));
    var t := TallyOf(DateEntries(rows));
    Series(t.keys, Ratios(t, t.keys))
  }

  // ---------------------------------------------------------------------------
  // Properties of a progress series
  // ---------------------------------------------------------------------------

  lemma DatesAreKeys(rows: seq<Row>)
    ensures Keys(DateEntries(rows)) == Dates(rows)
  {
    forall i | 0 <= i < |rows| ensures Keys(DateEntries(rows))[i] == Dates(rows)[i] {
      KeysIndex(DateEntries(rows), i);
    }
  }

  /** The bucket of date `d` counts the rows dated `d` and sums their correctness. */
  lemma {:induction false} DateBucketCounts(rows: seq<Row>, d: string)
    ensures Count(DateEntries(rows), d) == RowsOn(rows, d)
    ensures Score(DateEntries(rows), d) == CorrectOn(rows, d)
  {
    if rows != [] {
      var n := |rows| - 1;
      DateBucketCounts(rows[..n], d);
      DateEntriesStep(rows, n);
      assert rows[..n + 1] == rows;
      CountScoreSnoc(DateEntries(rows[..n]), Entry(rows[n].quizDate, rows[n].correctness), d);
    }
  }

  /** The labels are the row dates, each once, in the order each date first
      appears; each point is `correct / total * 100` of its date, where `total`
      counts the rows of that date (at least one) and `correct` sums their
      correctness. */
  lemma ProgressSpec(rows: seq<Row>)
    ensures Progress(rows).labels == Dedup(Dates(rows))
    ensures Distinct(Progress(rows).labels)
    ensures InFirstAppearanceOrder(Progress(rows).labels, Dates(rows))
    ensures forall d :: d in Progress(rows).labels <==> d in Dates(rows)
    ensures forall i :: 0 <= i < |Progress(rows).labels| ==>
              && RowsOn(rows, Progress(rows).labels[i]) >= 1
              && Progress(rows).dataset[i] ==
                   Ratio(Bucket(CorrectOn(rows, Progress(rows).labels[i]), RowsOn(rows, Progress(rows).labels[i])))
  {
    var es := DateEntries(rows);
    var t := TallyOf(es);
    TallyOfSpec(es);
    DatesAreKeys(rows);
    DedupSpec(Dates(rows));
    forall i | 0 <= i < |t.keys|
      ensures RowsOn(rows, t.keys[i]) >= 1
      ensures t.buckets[t.keys[i]] == Bucket(CorrectOn(rows, t.keys[i]), RowsOn(rows, t.keys[i]))
    {
      CountPositive(es, t.keys[i]);
      DateBucketCounts(rows, t.keys[i]);
    }
  }

  /** With every correctness 0 or 1, each point lies between 0 and 100. */
  lemma ProgressInRange(rows: seq<Row>)
    requires forall r :: r in rows ==> 0 <= r.correctness <= 1
    ensures forall i :: 0 <= i < |Progress(rows).dataset| ==> 0.0 <= Progress(rows).dataset[i] <= 100.0
  {
    var es := DateEntries(rows);
    var t := TallyOf(es);
    TallyOfSpec(es);
    assert forall i :: 0 <= i < |es| ==> rows[i] in rows;
    forall i | 0 <= i < |t.keys| ensures 0.0 <= Progress(rows).dataset[i] <= 100.0 {
      ScoreAtMostCount(es, t.keys[i]);
      RatioInRange(t.buckets[t.keys[i]]);
    }
  }

  /** Every row is counted once: the bucket totals sum to the number of rows. */
  lemma ProgressTotals(rows: seq<Row>)
    ensures TableTotal(TallyOf(DateEntries(rows))) == |rows|
  {
    TallyTotal(DateEntries(rows));
  }

  /** The rows `row.category === c` keeps: exactly the rows of category `c`, in order. */
  lemma {:induction false} RowsOfSpec(rows: seq<Row>, c: string)
    ensures forall r :: r in RowsOf(rows, c) <==> r in rows && r.category == c
    ensures |RowsOf(rows, c)| <= |rows|
  {
    if rows != [] {
      var p := rows[..|rows| - 1];
      RowsOfSpec(p, c);
      assert rows == p + [rows[|rows| - 1]];
    }
  }

  /** Filtering a concatenation filters each part: the filter keeps the order
      of the rows and every matching row, repeated rows included. */
  lemma {:induction false} RowsOfAppend(p: seq<Row>, q: seq<Row>, c: string)
    ensures RowsOf(p + q, c) == RowsOf(p, c) + RowsOf(q, c)
    decreases |q|
  {
    if q == [] {
      assert p + q == p;
    } else {
      var n := |q| - 1;
      var pq := p + q;
      assert pq[..|pq| - 1] == p + q[..n];
      assert pq[|pq| - 1] == q[n];
      RowsOfAppend(p, q[..n], c);
    }
  }

  /** The filter keeps exactly the rows of category `c`, counted with their
      multiplicity, and per date the rows and the correctness sum of `c`. */
  lemma {:induction false} RowsOfCounts(rows: seq<Row>, c: string, d: string)
    ensures |RowsOf(rows, c)| == CategoryCount(rows, c)
    ensures RowsOn(RowsOf(rows, c), d) == CategoryRowsOn(rows, c, d)
    ensures CorrectOn(RowsOf(rows, c), d) == CategoryCorrectOn(rows, c, d)
  {
    if rows != [] {
      var n := |rows| - 1;
      var r := rows[n];
      var p := RowsOf(rows[..n], c);
      RowsOfCounts(rows[..n], c, d);
      if r.category == c {
        assert (p + [r])[..|p|] == p;
      } else {
        assert p + [] == p;
      }
    }
  }

  /** The series `processWeeklyProgress` charts for category `c`, stated over all
      the rows: its labels are the dates of the rows of `c`, each once, in order
      of first appearance; point i is `correct / total * 100` of the rows of `c`
      on label i (at least one); and the totals sum to the number of rows of `c`. */
  lemma WeeklyProgressSpec(rows: seq<Row>, c: string)
    ensures Progress(RowsOf(rows, c)).labels == Dedup(Dates(RowsOf(rows, c)))
    ensures forall d :: d in Progress(RowsOf(rows, c)).labels <==> CategoryRowsOn(rows, c, d) > 0
    ensures forall i :: 0 <= i < |Progress(RowsOf(rows, c)).labels| ==>
              var d := Progress(RowsOf(rows, c)).labels[i];
              && CategoryRowsOn(rows, c, d) >= 1
              && Progress(RowsOf(rows, c)).dataset[i] ==
                   Ratio(Bucket(CategoryCorrectOn(rows, c, d), CategoryRowsOn(rows, c, d)))
    ensures TableTotal(TallyOf(DateEntries(RowsOf(rows, c)))) == CategoryCount(rows, c)
  {
    var f := RowsOf(rows, c);
    ProgressSpec(f);
    forall d ensures d in Progress(f).labels <==> CategoryRowsOn(rows, c, d) > 0 {
      RowsOfCounts(rows, c, d);
      DateBucketCounts(f, d);
      DatesAreKeys(f);
      CountPositive(DateEntries(f), d);
    }
    forall i | 0 <= i < |Progress(f).labels|
      ensures CategoryRowsOn(rows, c, Progress(f).labels[i]) >= 1
      ensures Progress(f).dataset[i] ==
                Ratio(Bucket(CategoryCorrectOn(rows, c, Progress(f).labels[i]), CategoryRowsOn(rows, c, Progress(f).labels[i])))
    {
      RowsOfCounts(rows, c, Progress(f).labels[i]);
    }
    RowsOfCounts(rows, c, "");
    TallyTotal(DateEntries(f));
  }

  /** A category no row has gives the empty series. */
  lemma UnknownCategory(rows: seq<Row>, c: string)
    requires forall r :: r in rows ==> r.category != c
    ensures Progress(RowsOf(rows, c)) == Series([], [])
  {
    RowsOfSpec(rows, c);
    assert RowsOf(rows, c) == [];
  }

  // ---------------------------------------------------------------------------
  // The loops
  // ---------------------------------------------------------------------------

  /** `processOverallProgress`: bucket all rows by date. */
  method ProcessOverallProgress(data: seq<Row>) returns (progress: Series<string>)
    ensures progress == Progress(data)
  {
    var progressData := Table([], map[]);
    var i := 0;
    while i < |data|
      invariant 0 <= i <= |data|
      invariant progressData == TallyOf(DateEntries(data[..i]))
    {
      var row := data[i];
      DateEntriesStep(data, i);
      progressData := Add(progressData, Entry(row.quizDate, row.correctness));
      i := i + 1;
    }
    assert data[..i] == data;
    TallyOfSpec(DateEntries(data));
    var labels := progressData.keys;
    progress := Series(labels, Ratios(progressData, labels));
  }

  /** `extractCategories`: add every row's category to a `Set` and list the set. */
  method ExtractCategories(data: seq<Row>) returns (categories: seq<string>)
    ensures categories == Dedup(Categories(data))
    ensures Distinct(categories)
    ensures forall c :: c in categories <==> exists r :: r in data && r.category == c
    ensures InFirstAppearanceOrder(categories, Categories(data))
  {
    categories := [];
    var i := 0;
    while i < |data|
      invariant 0 <= i <= |data|
      invariant categories == Dedup(Categories(data[..i]))
    {
      var ks := Categories(data[..i + 1]);
      assert ks[..|ks| - 1] == Categories(data[..i]);
      if data[i].category !in categories {
        categories := categories + [data[i].category];
      }
      i := i + 1;
    }
    assert data[..i] == data;
    DedupSpec(Categories(data));
    forall c ensures c in categories <==> exists r :: r in data && r.category == c {
      if c in Categories(data) {
        var k :| 0 <= k < |data| && Categories(data)[k] == c;
        assert data[k] in data;
      }
      if exists r :: r in data && r.category == c {
        var r :| r in data && r.category == c;
        var k :| 0 <= k < |data| && data[k] == r;
        assert Categories(data)[k] == c;
      }
    }
  }

  lemma RowsOfStep(data: seq<Row>, c: string, i: nat)
    requires i < |data|
    ensures RowsOf(data[..i + 1], c) == RowsOf(data[..i], c) + (if data[i].category == c then [data[i]] else [])
  {
    assert data[..i + 1][..i] == data[..i];
  }

  /** `processWeeklyProgress(category)`: bucket by date the rows whose category
      is `category`. */
  method WeeklyProgress(data: seq<Row>, category: string) returns (progress: Series<string>)
    ensures progress == Progress(RowsOf(data, category))
  {
    var progressData := Table([], map[]);
    var i := 0;
    while i < |data|
      invariant 0 <= i <= |data|
      invariant progressData == TallyOf(DateEntries(RowsOf(data[..i], category)))
    {
      var row := data[i];
      RowsOfStep(data, category, i);
      if row.category == category {
        var rs := RowsOf(data[..i], category);
        assert DateEntries(rs + [row]) == DateEntries(rs) + [Entry(row.quizDate, row.correctness)] by {
          DateEntriesStep(rs + [row], |rs|);
          assert (rs + [row])[..|rs|] == rs;
          assert (rs + [row])[..|rs| + 1] == rs + [row];
        }
        TallyOfSnoc(DateEntries(rs), Entry(row.quizDate, row.correctness));
        progressData := Add(progressData, Entry(row.quizDate, row.correctness));
      } else {
        assert RowsOf(data[..i + 1], category) == RowsOf(data[..i], category);
      }
      i := i + 1;
    }
    assert data[..i] == data;
    TallyOfSpec(DateEntries(RowsOf(data, category)));
    var labels := progressData.keys;
    progress := Series(labels, Ratios(progressData, labels));
  }

  // ---------------------------------------------------------------------------
  // The component's state
  // ---------------------------------------------------------------------------

  /** The state of the `QuizGraph` component in `QuizGraphWorking.jsx`. */
  class Component {
    var data: seq<Row>
    var overallProgress: Series<string>
    var weeklyProgress: Series<string>
    var compareProgress: Series<string>
    var categories: seq<string>
    var selectedCategory: string
    var compareCategory: string

    /** The overall series and the category list always belong to `data`. */
    ghost predicate Valid()
      reads this
    {
      overallProgress == Progress(data) && categories == Dedup(Categories(data))
    }

    /** The initial state: no rows, empty series, `[]`, `''` and `''`. */
    constructor()
      ensures Valid()
      ensures data == [] && categories == []
      ensures overallProgress == Series([], []) && weeklyProgress == Series([], []) && compareProgress == Series([], [])
      ensures selectedCategory == "" && compareCategory == ""
    {
      data := [];
      overallProgress := Series([], []);
      weeklyProgress := Series([], []);
      compareProgress := Series([], []);
      categories := [];
      selectedCategory := "";
      compareCategory := "";
    }

    /** The parsed rows arrive: `setData`, `processOverallProgress`, `extractCategories`. */
    method Load(parsedData: seq<Row>)
      modifies this`data, this`overallProgress, this`categories
      ensures Valid()
      ensures data == parsedData
    {
      data := parsedData;
      overallProgress := ProcessOverallProgress(parsedData);
      categories := ExtractCategories(parsedData);
    }

    /** `handleCategoryChange`: select the category and recompute its series. */
    method HandleCategoryChange(category: string)
      requires Valid()
      modifies this`selectedCategory, this`weeklyProgress
      ensures Valid()
      ensures selectedCategory == category
      ensures weeklyProgress == Progress(RowsOf(data, category))
    {
      selectedCategory := category;
      weeklyProgress := WeeklyProgress(data, category);
    }

    /** `handleCompareCategoryChange` */
    method HandleCompareCategoryChange(category: string)
      requires Valid()
      modifies this`compareCategory
      ensures Valid()
      ensures compareCategory == category
    {
      compareCategory := category;
    }

    /** `handleCompare`: with a compare category chosen, its series is computed
        exactly as `processWeeklyProgress` computes one; with `''`, nothing changes. */
    method HandleCompare()
      requires Valid()
      modifies this`compareProgress
      ensures Valid()
      ensures compareCategory != "" ==> compareProgress == Progress(RowsOf(data, compareCategory))
      ensures compareCategory == "" ==> compareProgress == old(compareProgress)
    {
      if compareCategory != "" {
        compareProgress := WeeklyProgress(data, compareCategory);
      }
    }
  }
}
