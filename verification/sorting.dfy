/**
 * `Array.prototype.sort` with a comparator, as the charts use it to order
 * their labels: a stable sort in which `before(a, b)` means that the
 * comparator returns a negative number for `a, b`. Modelled by insertion sort,
 * which is stable: an element never moves in front of an earlier element it
 * does not come strictly before.
 */
module Sorting {
  import opened Tally

  /** Inserts `x` in front of the first element it comes strictly before. */
  function Insert<T>(x: T, s: seq<T>, before: (T, T) -> bool): (r: seq<T>)
    ensures |r| == |s| + 1
  {
    if s == [] then [x]
    else if before(x, s[0]) then [x] + s
    else [s[0]] + Insert(x, s[1..], before)
  }

  /** The sorted copy of `s`. */
  function SortBy<T>(s: seq<T>, before: (T, T) -> bool): (r: seq<T>)
    ensures |r| == |s|
  {
    if s == [] then [] else Insert(s[|s| - 1], SortBy(s[..|s| - 1], before), before)
  }

  /** `before` is a strict order: asymmetric and transitive. */
  ghost predicate StrictOrder<T(!new)>(before: (T, T) -> bool) {
    && (forall a, b :: before(a, b) ==> !before(b, a))
    && (forall a, b, c :: before(a, b) && before(b, c) ==> before(a, c))
  }

  /** No element comes strictly before an element listed ahead of it. */
  ghost predicate SortedBy<T>(s: seq<T>, before: (T, T) -> bool) {
    forall i, j :: 0 <= i < j < |s| ==> !before(s[j], s[i])
  }

  lemma {:induction false} InsertPermutes<T>(x: T, s: seq<T>, before: (T, T) -> bool)
    ensures multiset(Insert(x, s, before)) == multiset(s) + multiset{x}
  {
    if s != [] && !before(x, s[0]) {
      InsertPermutes(x, s[1..], before);
      assert s == [s[0]] + s[1..];
    }
  }

  /** Sorting reorders the elements and neither drops nor duplicates any. */
  lemma {:induction false} SortByPermutes<T>(s: seq<T>, before: (T, T) -> bool)
    ensures multiset(SortBy(s, before)) == multiset(s)
  {
    if s != [] {
      var p := s[..|s| - 1];
      SortByPermutes(p, before);
      InsertPermutes(s[|s| - 1], SortBy(p, before), before);
      assert s == p + [s[|s| - 1]];
    }
  }

  lemma {:induction false} InsertSorted<T(!new)>(x: T, s: seq<T>, before: (T, T) -> bool)
    requires StrictOrder(before)
    requires SortedBy(s, before)
    ensures SortedBy(Insert(x, s, before), before)
  {
    if s != [] {
      if before(x, s[0]) {
        var r := [x] + s;
        forall i, j | 0 <= i < j < |r| ensures !before(r[j], r[i]) {
          if i == 0 && j > 1 {
            assert !before(s[j - 1], s[0]);
          }
        }
      } else {
        var rest := Insert(x, s[1..], before);
        InsertSorted(x, s[1..], before);
        InsertPermutes(x, s[1..], before);
        var r := [s[0]] + rest;
        forall i, j | 0 <= i < j < |r| ensures !before(r[j], r[i]) {
          if i == 0 {
            assert r[j] in multiset(rest);
            assert r[j] == x || r[j] in multiset(s[1..]);
            if r[j] != x {
              var k :| 0 <= k < |s[1..]| && s[1..][k] == r[j];
              assert s[k + 1] == r[j];
            }
          }
        }
      }
    }
  }

  /** Under a strict order the result is sorted. */
  lemma {:induction false} SortBySorted<T(!new)>(s: seq<T>, before: (T, T) -> bool)
    requires StrictOrder(before)
    ensures SortedBy(SortBy(s, before), before)
  {
    if s != [] {
      SortBySorted(s[..|s| - 1], before);
      InsertSorted(s[|s| - 1], SortBy(s[..|s| - 1], before), before);
    }
  }

  lemma {:induction false} InsertDistinct<T>(x: T, s: seq<T>, before: (T, T) -> bool)
    requires Distinct(s)
    requires x !in s
    ensures Distinct(Insert(x, s, before))
  {
    if s != [] && !before(x, s[0]) {
      var rest := Insert(x, s[1..], before);
      InsertDistinct(x, s[1..], before);
      InsertPermutes(x, s[1..], before);
      assert s[0] !in s[1..];
      assert s[0] !in multiset(rest);
      var r := [s[0]] + rest;
      forall i, j | 0 <= i < j < |r| ensures r[i] != r[j] {
        if i == 0 {
          assert r[j] in rest;
        }
      }
    }
  }

  /** Sorting a list without repeats gives a list without repeats. */
  lemma {:induction false} SortByDistinct<T>(s: seq<T>, before: (T, T) -> bool)
    requires Distinct(s)
    ensures Distinct(SortBy(s, before))
  {
    if s != [] {
      var p, x := s[..|s| - 1], s[|s| - 1];
      SortByDistinct(p, before);
      SortByPermutes(p, before);
      assert x !in p by {
        assert forall i :: 0 <= i < |p| ==> p[i] == s[i] != s[|s| - 1];
      }
      assert x !in multiset(SortBy(p, before));
      InsertDistinct(x, SortBy(p, before), before);
    }
  }
}
