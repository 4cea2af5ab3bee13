/**
 * The `{ correct, total }` dictionaries that the quiz charts fill row by row,
 * and the label/percentage series read off them.
 *
 * A JavaScript object used as a dictionary is modelled as a value: `keys`
 * lists its own keys in insertion order (what `Object.keys` returns for
 * non-index keys) and `buckets` maps each key to its record. One `forEach`
 * step is `Add`; the dictionary after a whole pass is `TallyOf` of the
 * entries the rows produce.
 */
module Tally {

  /** One `{ correct, total }` record. */
  datatype Bucket = Bucket(correct: int, total: nat)

  /** `(correct / total) * 100`, the percentage charted for a bucket. */
  function Ratio(b: Bucket): (r: real)
    requires b.total > 0
    ensures r * (b.total as real) == (b.correct as real) * 100.0
  {
    (b.correct as real / b.total as real) * 100.0
  }

  /** A bucket whose correct count lies between 0 and its total charts inside [0, 100]. */
  lemma RatioInRange(b: Bucket)
    requires 0 <= b.correct <= b.total && b.total > 0
    ensures 0.0 <= Ratio(b) <= 100.0
  {
    var c, t := b.correct as real, b.total as real;
    var q := c / t;
    assert q * t == c;
    assert (1.0 - q) * t == t - c;
  }

  // ---------------------------------------------------------------------------
  // Flat dictionaries
  // ---------------------------------------------------------------------------

  /** A dictionary from bucket keys to buckets, keys in insertion order. */
  datatype Table<K> = Table(keys: seq<K>, buckets: map<K, Bucket>)

  /** One row's contribution: the key of its bucket and what it adds to `correct`. */
  datatype Entry<K> = Entry(key: K, score: int)

  ghost predicate Distinct<T>(s: seq<T>) {
    forall i, j :: 0 <= i < j < |s| ==> s[i] != s[j]
  }

  /** What every dictionary built by the charts satisfies: each key listed once,
      the listed keys are exactly the keys present, and every bucket was
      created by a row, so it counts at least one. */
  ghost predicate WellFormed<K>(t: Table<K>) {
    && Distinct(t.keys)
    && (forall k :: k in t.buckets ==> k in t.keys)
    && (forall k :: k in t.keys ==> k in t.buckets)
    && (forall k :: k in t.buckets ==> t.buckets[k].total >= 1)
  }

  /** One `forEach` step: create `{ correct: 0, total: 0 }` when the key is
      missing, then add the row's score to `correct` and 1 to `total`. */
  function Add<K(==)>(t: Table<K>, e: Entry<K>): (r: Table<K>)
  {
    var b := if e.key in t.buckets then t.buckets[e.key] else Bucket(0, 0);
    Table(if e.key in t.buckets then t.keys else t.keys + [e.key],
          t.buckets[e.key := Bucket(b.correct + e.score, b.total + 1)])
  }

  /** One step touches only the bucket of its own key: every other bucket is
      kept as it was, and no key disappears. */
  lemma AddFrame<K>(t: Table<K>, e: Entry<K>, k: K)
    ensures k in t.buckets ==> k in Add(t, e).buckets
    ensures k != e.key ==> (k in Add(t, e).buckets <==> k in t.buckets)
    ensures k != e.key && k in t.buckets ==> Add(t, e).buckets[k] == t.buckets[k]
  {
  }

  /** The dictionary after a pass over `es`, starting from `{}`. */
  function TallyOf<K(==)>(es: seq<Entry<K>>): (t: Table<K>)
  {
    if es == [] then Table([], map[]) else Add(TallyOf(es[..|es| - 1]), es[|es| - 1])
  }

  /** One more entry is one more `Add`. */
  lemma TallyOfSnoc<K>(es: seq<Entry<K>>, e: Entry<K>)
    ensures TallyOf(es + [e]) == Add(TallyOf(es), e)
  {
    assert (es + [e])[..|es|] == es;
  }

  // Reference definitions, independent of the dictionary.

  /** The bucket keys of the entries, in row order. */
  function Keys<K(==)>(es: seq<Entry<K>>): (ks: seq<K>)
    ensures |ks| == |es|
  {
    if es == [] then [] else Keys(es[..|es| - 1]) + [es[|es| - 1].key]
  }

  lemma {:induction false} KeysIndex<K>(es: seq<Entry<K>>, i: nat)
    requires i < |es|
    ensures Keys(es)[i] == es[i].key
  {
    if i < |es| - 1 {
      KeysIndex(es[..|es| - 1], i);
    }
  }

  /** The number of entries whose key is `k`. */
  function Count<K(==)>(es: seq<Entry<K>>, k: K): nat {
    if es == [] then 0
    else Count(es[..|es| - 1], k) + (if es[|es| - 1].key == k then 1 else 0)
  }

  /** The sum of the scores of the entries whose key is `k`. */
  function Score<K(==)>(es: seq<Entry<K>>, k: K): int {
    if es == [] then 0
    else Score(es[..|es| - 1], k) + (if es[|es| - 1].key == k then es[|es| - 1].score else 0)
  }

  /** Appending one entry adds to the count and score of its own key only. */
  lemma CountScoreSnoc<K>(es: seq<Entry<K>>, x: Entry<K>, k: K)
    ensures Count(es + [x], k) == Count(es, k) + (if x.key == k then 1 else 0)
    ensures Score(es + [x], k) == Score(es, k) + (if x.key == k then x.score else 0)
  {
    assert (es + [x])[..|es|] == es;
  }

  /** The index of the first occurrence of `k` in `ks`. */
  function FirstIndex<T(==)>(ks: seq<T>, k: T): (i: nat)
    requires k in ks
    ensures i < |ks| && ks[i] == k && k !in ks[..i]
  {
    if ks[0] == k then 0 else 1 + FirstIndex(ks[1..], k)
  }

  /** `r` lists elements of `ks` in the order of their first appearance in `ks`. */
  ghost predicate InFirstAppearanceOrder<T>(r: seq<T>, ks: seq<T>) {
    && (forall x :: x in r ==> x in ks)
    && (forall i, j :: 0 <= i < j < |r| ==> FirstIndex(ks, r[i]) < FirstIndex(ks, r[j]))
  }

  /** The distinct elements of `ks`, each where it first appears. */
  function Dedup<T(==)>(ks: seq<T>): seq<T> {
    if ks == [] then []
    else
      var d := Dedup(ks[..|ks| - 1]);
      if ks[|ks| - 1] in d then d else d + [ks[|ks| - 1]]
  }

  lemma FirstIndexOfPrefix<T>(ks: seq<T>, x: T, k: T)
    requires k in ks
    ensures FirstIndex(ks + [x], k) == FirstIndex(ks, k)
  {
    var j := FirstIndex(ks, k);
    assert (ks + [x])[..j] == ks[..j];
    assert (ks + [x])[j] == k;
    assert forall m :: 0 <= m < j ==> ks[..j][m] == ks[m];
  }

  lemma FirstIndexOfLast<T>(ks: seq<T>, x: T)
    requires x !in ks
    ensures FirstIndex(ks + [x], x) == |ks|
  {
    assert forall m :: 0 <= m < |ks| ==> (ks + [x])[m] == ks[m];
  }

  /** Dedup keeps every element once, drops nothing, and keeps first-appearance order. */
  lemma {:induction false} DedupSpec<T>(ks: seq<T>)
    ensures Distinct(Dedup(ks))
    ensures forall x :: x in Dedup(ks) <==> x in ks
    ensures InFirstAppearanceOrder(Dedup(ks), ks)
  {
    if ks != [] {
      var p, x := ks[..|ks| - 1], ks[|ks| - 1];
      assert ks == p + [x];
      DedupSpec(p);
      var d := Dedup(p);
      forall y | y in d ensures FirstIndex(ks, y) == FirstIndex(p, y) {
        FirstIndexOfPrefix(p, x, y);
      }
      if x !in d {
        FirstIndexOfLast(p, x);
        var r := d + [x];
        forall i, j | 0 <= i < j < |r| ensures FirstIndex(ks, r[i]) < FirstIndex(ks, r[j]) {
          assert r[i] in d;
          if j == |d| {
            assert FirstIndex(ks, r[i]) == FirstIndex(p, r[i]) < |p|;
          } else {
            assert r[j] in d;
          }
        }
      }
    }
  }

  lemma {:induction false} AbsentKey<K>(es: seq<Entry<K>>, k: K)
    requires k !in Keys(es)
    ensures Count(es, k) == 0 && Score(es, k) == 0
  {
    if es != [] {
      AbsentKey(es[..|es| - 1], k);
    }
  }

  /** A key occurs among the entries exactly when some entry counts towards it. */
  lemma {:induction false} CountPositive<K>(es: seq<Entry<K>>, k: K)
    ensures k in Keys(es) <==> Count(es, k) > 0
  {
    if es != [] {
      CountPositive(es[..|es| - 1], k);
    }
  }

  /** When every score is 0 or 1, the correct count of a key never exceeds its total. */
  lemma {:induction false} ScoreAtMostCount<K>(es: seq<Entry<K>>, k: K)
    requires forall i :: 0 <= i < |es| ==> 0 <= es[i].score <= 1
    ensures 0 <= Score(es, k) <= Count(es, k)
  {
    if es != [] {
      ScoreAtMostCount(es[..|es| - 1], k);
    }
  }

  lemma AddWellFormed<K>(t: Table<K>, e: Entry<K>)
    requires WellFormed(t)
    ensures WellFormed(Add(t, e))
  {
    if e.key !in t.buckets {
      var ks := t.keys + [e.key];
      forall i, j | 0 <= i < j < |ks| ensures ks[i] != ks[j] {
        if j == |t.keys| {
          assert ks[i] in t.keys;
        }
      }
    }
  }

  lemma {:induction false} TallyOfWellFormed<K>(es: seq<Entry<K>>)
    ensures WellFormed(TallyOf(es))
  {
    if es != [] {
      TallyOfWellFormed(es[..|es| - 1]);
      AddWellFormed(TallyOf(es[..|es| - 1]), es[|es| - 1]);
    }
  }

  lemma {:induction false} TallyOfKeys<K>(es: seq<Entry<K>>)
    ensures TallyOf(es).keys == Dedup(Keys(es))
    ensures forall k :: k in TallyOf(es).buckets <==> k in Keys(es)
  {
    if es != [] {
      var p, e := es[..|es| - 1], es[|es| - 1];
      TallyOfKeys(p);
      TallyOfWellFormed(p);
      var ks := Keys(es);
      assert ks == Keys(p) + [e.key];
      assert ks[..|ks| - 1] == Keys(p);
    }
  }

  lemma {:induction false} TallyOfBucket<K>(es: seq<Entry<K>>, k: K)
    ensures k in TallyOf(es).buckets ==> TallyOf(es).buckets[k] == Bucket(Score(es, k), Count(es, k))
  {
    if es != [] {
      var p, e := es[..|es| - 1], es[|es| - 1];
      TallyOfBucket(p, k);
      if k == e.key && k !in TallyOf(p).buckets {
        TallyOfKeys(p);
        AbsentKey(p, k);
      }
    }
  }

  /** The dictionary after a pass: well formed, its keys are the distinct keys
      of the rows in first-appearance order, and the bucket of each key holds
      exactly the number of entries with that key and the sum of their scores. */
  lemma TallyOfSpec<K>(es: seq<Entry<K>>)
    ensures WellFormed(TallyOf(es))
    ensures TallyOf(es).keys == Dedup(Keys(es))
    ensures forall k :: k in TallyOf(es).buckets <==> k in Keys(es)
    ensures forall k :: k in TallyOf(es).buckets ==>
              TallyOf(es).buckets[k] == Bucket(Score(es, k), Count(es, k))
  {
    TallyOfWellFormed(es);
    TallyOfKeys(es);
    forall k | k in TallyOf(es).buckets
      ensures TallyOf(es).buckets[k] == Bucket(Score(es, k), Count(es, k))
    {
      TallyOfBucket(es, k);
    }
  }

  // ---------------------------------------------------------------------------
  // Totals
  // ---------------------------------------------------------------------------

  /** The sum of `m[k]` over the listed keys (a key missing from `m` adds 0). */
  function Sum<K(==)>(keys: seq<K>, m: map<K, int>): int {
    if keys == [] then 0
    else Sum(keys[..|keys| - 1], m) + (if keys[|keys| - 1] in m then m[keys[|keys| - 1]] else 0)
  }

  /** The `total` field of every bucket. */
  function Totals<K(==)>(t: Table<K>): map<K, int> {
    map k | k in t.buckets :: t.buckets[k].total
  }

  /** The sum of the bucket totals of a dictionary. */
  function TableTotal<K(==)>(t: Table<K>): int {
    Sum(t.keys, Totals(t))
  }

  lemma {:induction false} SumFresh<K>(keys: seq<K>, m: map<K, int>, k: K, v: int)
    requires k !in keys
    ensures Sum(keys, m[k := v]) == Sum(keys, m)
  {
    if keys != [] {
      SumFresh(keys[..|keys| - 1], m, k, v);
    }
  }

  lemma {:induction false} SumBump<K>(keys: seq<K>, m: map<K, int>, k: K, d: int)
    requires Distinct(keys) && k in keys && k in m
    ensures Sum(keys, m[k := m[k] + d]) == Sum(keys, m) + d
  {
    var p, x := keys[..|keys| - 1], keys[|keys| - 1];
    if x == k {
      assert k !in p by {
        assert forall i :: 0 <= i < |p| ==> p[i] == keys[i] != keys[|keys| - 1];
      }
      SumFresh(p, m, k, m[k] + d);
    } else {
      assert k in p by {
        var i :| 0 <= i < |keys| && keys[i] == k;
        assert i < |p|;
        assert p[i] == k;
      }
      SumBump(p, m, k, d);
    }
  }

  lemma SumAppend<K>(keys: seq<K>, k: K, m: map<K, int>)
    ensures Sum(keys + [k], m) == Sum(keys, m) + (if k in m then m[k] else 0)
  {
    assert (keys + [k])[..|keys|] == keys;
  }

  /** One `forEach` step adds exactly one to the sum of the totals. */
  lemma AddTotal<K>(t: Table<K>, e: Entry<K>)
    requires WellFormed(t)
    ensures TableTotal(Add(t, e)) == TableTotal(t) + 1
  {
    var t' := Add(t, e);
    var m := Totals(t);
    if e.key in t.buckets {
      assert Totals(t') == m[e.key := m[e.key] + 1];
      SumBump(t.keys, m, e.key, 1);
    } else {
      assert Totals(t') == m[e.key := 1];
      SumAppend(t.keys, e.key, m[e.key := 1]);
      SumFresh(t.keys, m, e.key, 1);
    }
  }

  /** No row is dropped or counted twice: the totals of a pass sum to the number of rows. */
  lemma {:induction false} TallyTotal<K>(es: seq<Entry<K>>)
    ensures TableTotal(TallyOf(es)) == |es|
  {
    if es != [] {
      var p := es[..|es| - 1];
      TallyTotal(p);
      TallyOfSpec(p);
      AddTotal(TallyOf(p), es[|es| - 1]);
    }
  }

  // ---------------------------------------------------------------------------
  // Nested dictionaries: category -> bucket key -> bucket
  // ---------------------------------------------------------------------------

  /** A dictionary of dictionaries, outer keys (`groups`) in insertion order. */
  datatype Nested<C, K> = Nested(groups: seq<C>, tables: map<C, Table<K>>)

  /** One row's contribution to a nested dictionary. */
  datatype NestedEntry<C, K> = NestedEntry(group: C, key: K, score: int)

  ghost predicate WellFormedNested<C, K>(n: Nested<C, K>) {
    && Distinct(n.groups)
    && (forall c :: c in n.tables ==> c in n.groups)
    && (forall c :: c in n.groups ==> c in n.tables)
    && (forall c :: c in n.tables ==> WellFormed(n.tables[c]) && n.tables[c].keys != [])
  }

  /** One `forEach` step: create `{}` for a missing group, then do `Add` inside it. */
  function AddNested<C(==), K(==)>(n: Nested<C, K>, e: NestedEntry<C, K>): (r: Nested<C, K>)
  {
    var t := if e.group in n.tables then n.tables[e.group] else Table([], map[]);
    Nested(if e.group in n.tables then n.groups else n.groups + [e.group],
           n.tables[e.group := Add(t, Entry(e.key, e.score))])
  }

  /** One step touches only the inner dictionary of its own group. */
  lemma AddNestedFrame<C, K>(n: Nested<C, K>, e: NestedEntry<C, K>, c: C)
    ensures c in n.tables ==> c in AddNested(n, e).tables
    ensures c != e.group ==> (c in AddNested(n, e).tables <==> c in n.tables)
    ensures c != e.group && c in n.tables ==> AddNested(n, e).tables[c] == n.tables[c]
  {
  }

  /** The nested dictionary after a pass over `es`, starting from `{}`. */
  function NestedOf<C(==), K(==)>(es: seq<NestedEntry<C, K>>): (n: Nested<C, K>)
  {
    if es == [] then Nested([], map[]) else AddNested(NestedOf(es[..|es| - 1]), es[|es| - 1])
  }

  /** The groups of the entries, in row order. */
  function Groups<C(==), K(==)>(es: seq<NestedEntry<C, K>>): (cs: seq<C>)
    ensures |cs| == |es|
  {
    if es == [] then [] else Groups(es[..|es| - 1]) + [es[|es| - 1].group]
  }

  /** The `i`-th group is the group of the `i`-th entry. */
  lemma {:induction false} GroupsAt<C, K>(es: seq<NestedEntry<C, K>>)
    ensures forall i :: 0 <= i < |es| ==> Groups(es)[i] == es[i].group
  {
    if es != [] {
      GroupsAt(es[..|es| - 1]);
    }
  }

  /** The entries of group `c`, in row order, as flat entries. */
  function Project<C(==), K(==)>(es: seq<NestedEntry<C, K>>, c: C): seq<Entry<K>> {
    if es == [] then []
    else
      var e := es[|es| - 1];
      Project(es[..|es| - 1], c) + (if e.group == c then [Entry(e.key, e.score)] else [])
  }

  lemma {:induction false} ProjectEmpty<C, K>(es: seq<NestedEntry<C, K>>, c: C)
    ensures c in Groups(es) <==> Project(es, c) != []
  {
    if es != [] {
      ProjectEmpty(es[..|es| - 1], c);
    }
  }

  lemma NestedStepTables<C, K>(p: seq<NestedEntry<C, K>>, e: NestedEntry<C, K>)
    requires forall c :: c in NestedOf(p).tables <==> c in Groups(p)
    requires forall c :: c in NestedOf(p).tables ==> NestedOf(p).tables[c] == TallyOf(Project(p, c))
    ensures forall c :: c in NestedOf(p + [e]).tables ==>
              NestedOf(p + [e]).tables[c] == TallyOf(Project(p + [e], c)) && Project(p + [e], c) != []
  {
    var es := p + [e];
    assert es[..|es| - 1] == p;
    var n, n' := NestedOf(p), NestedOf(es);
    forall c | c in n'.tables
      ensures n'.tables[c] == TallyOf(Project(es, c)) && Project(es, c) != []
    {
      if c == e.group {
        if c !in n.tables {
          ProjectEmpty(p, c);
        }
        var q, x := Project(p, c), Entry(e.key, e.score);
        assert Project(es, c) == q + [x];
        assert (q + [x])[..|q|] == q;
      } else {
        assert Project(es, c) == Project(p, c);
        ProjectEmpty(p, c);
      }
    }
  }

  /** The nested dictionary after a pass: its groups are the distinct groups of
      the rows in first-appearance order, and the dictionary of each group is
      exactly the flat pass over that group's rows, of which there is at least one. */
  lemma {:induction false} NestedOfSpec<C, K>(es: seq<NestedEntry<C, K>>)
    ensures NestedOf(es).groups == Dedup(Groups(es))
    ensures forall c :: c in NestedOf(es).tables <==> c in Groups(es)
    ensures forall c :: c in NestedOf(es).tables ==>
              NestedOf(es).tables[c] == TallyOf(Project(es, c)) && Project(es, c) != []
  {
    if es != [] {
      var p, e := es[..|es| - 1], es[|es| - 1];
      assert es == p + [e];
      NestedOfSpec(p);
      assert Groups(es) == Groups(p) + [e.group];
      assert Groups(es)[..|Groups(es)| - 1] == Groups(p);
      DedupSpec(Groups(p));
      NestedStepTables(p, e);
    }
  }

  /** A pass over at least one entry leaves a well-formed, non-empty dictionary. */
  lemma TallyNonEmpty<K>(q: seq<Entry<K>>)
    requires q != []
    ensures WellFormed(TallyOf(q)) && TallyOf(q).keys != []
  {
    TallyOfSpec(q);
    assert Keys(q) == Keys(q[..|q| - 1]) + [q[|q| - 1].key];
    assert q[|q| - 1].key in TallyOf(q).buckets;
  }

  /** Every nested dictionary built by a pass is well formed. */
  lemma NestedWellFormed<C, K>(es: seq<NestedEntry<C, K>>)
    ensures WellFormedNested(NestedOf(es))
  {
    var n := NestedOf(es);
    NestedOfSpec(es);
    DedupSpec(Groups(es));
    forall c | c in n.tables ensures WellFormed(n.tables[c]) && n.tables[c].keys != [] {
      TallyNonEmpty(Project(es, c));
    }
  }

  /** The sum of the bucket totals of each inner dictionary. */
  function GroupTotals<C(==), K(==)>(n: Nested<C, K>): map<C, int> {
    map c | c in n.tables :: TableTotal(n.tables[c])
  }

  /** The sum of the totals of every inner dictionary. */
  function NestedTotal<C(==), K(==)>(n: Nested<C, K>): int {
    Sum(n.groups, GroupTotals(n))
  }

  lemma GroupTotalsStep<C, K>(n: Nested<C, K>, e: NestedEntry<C, K>)
    ensures GroupTotals(AddNested(n, e)) ==
            GroupTotals(n)[e.group := TableTotal(AddNested(n, e).tables[e.group])]
  {
    var a, b := GroupTotals(AddNested(n, e)), GroupTotals(n)[e.group := TableTotal(AddNested(n, e).tables[e.group])];
    assert a.Keys == b.Keys;
    forall c | c in a ensures a[c] == b[c] {
    }
  }

  /** A step into an existing group adds one to that group's total only. */
  lemma GroupBumped<C, K>(n: Nested<C, K>, e: NestedEntry<C, K>)
    requires Distinct(n.groups) && e.group in n.groups && e.group in n.tables
    requires TableTotal(AddNested(n, e).tables[e.group]) == TableTotal(n.tables[e.group]) + 1
    ensures NestedTotal(AddNested(n, e)) == NestedTotal(n) + 1
  {
    var m := GroupTotals(n);
    GroupTotalsStep(n, e);
    assert AddNested(n, e).groups == n.groups;
    SumBump(n.groups, m, e.group, 1);
  }

  /** A step that opens a new group appends a group whose total is one. */
  lemma GroupAdded<C, K>(n: Nested<C, K>, e: NestedEntry<C, K>)
    requires e.group !in n.groups && e.group !in n.tables
    requires TableTotal(AddNested(n, e).tables[e.group]) == 1
    ensures NestedTotal(AddNested(n, e)) == NestedTotal(n) + 1
  {
    var m := GroupTotals(n);
    GroupTotalsStep(n, e);
    assert AddNested(n, e).groups == n.groups + [e.group];
    SumAppend(n.groups, e.group, m[e.group := 1]);
    SumFresh(n.groups, m, e.group, 1);
  }

  lemma AddNestedTotal<C, K>(n: Nested<C, K>, e: NestedEntry<C, K>)
    requires Distinct(n.groups)
    requires forall c :: c in n.tables <==> c in n.groups
    requires forall c :: c in n.tables ==> WellFormed(n.tables[c])
    ensures NestedTotal(AddNested(n, e)) == NestedTotal(n) + 1
  {
    var t := if e.group in n.tables then n.tables[e.group] else Table([], map[]);
    AddTotal(t, Entry(e.key, e.score));
    assert AddNested(n, e).tables[e.group] == Add(t, Entry(e.key, e.score));
    if e.group in n.tables {
      GroupBumped(n, e);
    } else {
      assert TableTotal(t) == 0;
      GroupAdded(n, e);
    }
  }

  /** No row is dropped or counted twice: the totals over all groups and all
      bucket keys of a nested pass sum to the number of rows. */
  lemma {:induction false} NestedTotalIsLength<C, K>(es: seq<NestedEntry<C, K>>)
    ensures NestedTotal(NestedOf(es)) == |es|
  {
    if es != [] {
      var p := es[..|es| - 1];
      NestedTotalIsLength(p);
      NestedWellFormed(p);
      AddNestedTotal(NestedOf(p), es[|es| - 1]);
    }
  }

  // ---------------------------------------------------------------------------
  // Series
  // ---------------------------------------------------------------------------

  /** A chart series: `labels` and the parallel `dataset` of percentages. */
  datatype Series<L> = Series(labels: seq<L>, dataset: seq<real>)

  /** `labels.map(k => (t[k].correct / t[k].total) * 100)` */
  function Ratios<K(==)>(t: Table<K>, labels: seq<K>): (r: seq<real>)
    requires forall k :: k in labels ==> k in t.buckets && t.buckets[k].total > 0
    ensures |r| == |labels|
    ensures forall i :: 0 <= i < |labels| ==> r[i] == Ratio(t.buckets[labels[i]])
  {
    seq(|labels|, i requires 0 <= i < |labels| => Ratio(t.buckets[labels[i]]))
  }

  /** Pushing one more label pushes its percentage. */
  lemma RatiosSnoc<K>(t: Table<K>, labels: seq<K>, k: K)
    requires forall l :: l in labels ==> l in t.buckets && t.buckets[l].total > 0
    requires k in t.buckets && t.buckets[k].total > 0
    ensures Ratios(t, labels + [k]) == Ratios(t, labels) + [Ratio(t.buckets[k])]
  {
  }
}
