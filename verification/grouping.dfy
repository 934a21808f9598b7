/**
 Grouped aggregation of a view (one row per group key with the group's row
 count or revenue) and the outer merge of two such tables on the key, with a
 missing side filled with zero.
 */
module Grouping {
  import opened Records
  import opened Metrics

  /** What a group accumulates: `.size()` counts rows, `['valor'].sum()` adds amounts. */
  datatype Measure = RowCount | AmountSum

  function Weight(r: Record, m: Measure): real {
    match m
    case RowCount => 1.0
    case AmountSum => r.amount
  }

  /** The measure over a whole view: its number of rows, or its revenue total. */
  function Measured(v: seq<Record>, m: Measure): real {
    match m
    case RowCount => |v| as real
    case AmountSum => Total(v)
  }

  /** The first row contributes its weight to the measure of a view. */
  lemma MeasuredStep(v: seq<Record>, m: Measure)
    requires v != []
    ensures Measured(v, m) == Weight(v[0], m) + Measured(v[1..], m)
  {
    if m == AmountSum {
      SumOfStep(v, Amount);
    }
  }

  /** One group's value: the measure over the rows of `v` whose key is `k`. */
  function KeyTotal<K(==)>(v: seq<Record>, key: Record -> K, k: K, m: Measure): real {
    if v == [] then 0.0
    else (if key(v[0]) == k then Weight(v[0], m) else 0.0) + KeyTotal(v[1..], key, k, m)
  }

  /** A group's value is the measure of exactly the rows that carry its key. */
  lemma {:induction false} KeyTotalIsMeasureOfGroup<K>(v: seq<Record>, key: Record -> K, k: K, m: Measure)
    ensures KeyTotal(v, key, k, m) == Measured(Where(v, (r: Record) => key(r) == k), m)
  {
    if v != [] {
      var keep := (r: Record) => key(r) == k;
      var w := Where(v, keep);
      KeyTotalIsMeasureOfGroup(v[1..], key, k, m);
      if keep(v[0]) {
        assert w == [v[0]] + Where(v[1..], keep);
        assert w[0] == v[0] && w[1..] == Where(v[1..], keep);
        MeasuredStep(w, m);
      }
    }
  }

  lemma {:induction false} KeyTotalAbsent<K>(v: seq<Record>, key: Record -> K, k: K, m: Measure)
    requires k !in KeySet(v, key)
    ensures KeyTotal(v, key, k, m) == 0.0
  {
    if v != [] {
      assert KeySet(v[1..], key) <= KeySet(v, key) by {
        forall x | x in KeySet(v[1..], key) ensures x in KeySet(v, key) {
          var r :| r in v[1..] && key(r) == x;
          assert r in v;
        }
      }
      KeyTotalAbsent(v[1..], key, k, m);
    }
  }

  lemma {:induction false} KeyCountPresent<K>(v: seq<Record>, key: Record -> K, k: K)
    requires k in KeySet(v, key)
    ensures KeyTotal(v, key, k, RowCount) >= 1.0
  {
    KeyCountNonNegative(v[1..], key, k);
    if key(v[0]) != k {
      var r :| r in v && key(r) == k;
      assert r in v[1..];
      KeyCountPresent(v[1..], key, k);
    }
  }

  lemma {:induction false} KeyCountNonNegative<K>(v: seq<Record>, key: Record -> K, k: K)
    ensures KeyTotal(v, key, k, RowCount) >= 0.0
  {
    if v != [] {
      KeyCountNonNegative(v[1..], key, k);
    }
  }

  /** The distinct keys of a view, in order of first appearance. */
  function KeysInOrder<K(==)>(v: seq<Record>, key: Record -> K): (ks: seq<K>)
    ensures Distinct(ks)
    ensures forall k :: k in ks ==> k in KeySet(v, key)
    ensures forall k :: k in KeySet(v, key) ==> k in ks
    decreases |v|
  {
    if v == [] then []
    else
      var init := v[..|v| - 1];
      var k := key(v[|v| - 1]);
      var ks := KeysInOrder(init, key);
      assert KeySet(v, key) == KeySet(init, key) + {k} by {
        assert v == init + [v[|v| - 1]];
      }
      if k in ks then ks else ks + [k]
  }

  /** One row of a grouped table: `reset_index()` of a grouped series. */
  datatype Bucket<K> = Bucket(key: K, value: real)

  function BucketKey<K>(b: Bucket<K>): K {
    b.key
  }

  function BucketValue<K>(b: Bucket<K>): real {
    b.value
  }

  /** The key column of a grouped table. */
  function Keys<K>(g: seq<Bucket<K>>): (ks: seq<K>)
    ensures |ks| == |g|
    ensures forall i :: 0 <= i < |g| ==> ks[i] == g[i].key
  {
    Column(g, BucketKey)
  }

  lemma KeysTail<K>(g: seq<Bucket<K>>)
    requires g != []
    ensures Keys(g)[0] == g[0].key && Keys(g)[1..] == Keys(g[1..])
  {
  }

  /** The value column of a grouped table, added up. */
  function SumValues<K>(g: seq<Bucket<K>>): real {
    SumOf(g, BucketValue)
  }

  /** One bucket per key of `ks`, holding that key's group value. */
  function Tabulate<K(==)>(ks: seq<K>, v: seq<Record>, key: Record -> K, m: Measure): (g: seq<Bucket<K>>)
    ensures Keys(g) == ks
    ensures forall i :: 0 <= i < |g| ==> g[i].value == KeyTotal(v, key, ks[i], m)
  {
    if ks == [] then []
    else [Bucket(ks[0], KeyTotal(v, key, ks[0], m))] + Tabulate(ks[1..], v, key, m)
  }

  /**
   `view.groupby(key).size()` or `view.groupby(key)['valor'].sum()`: one bucket
   per key present in the view, none twice, each holding the measure of the
   rows with that key; a counted group is never empty.
   */
  function GroupBy<K(==)>(v: seq<Record>, key: Record -> K, m: Measure): (g: seq<Bucket<K>>)
    ensures Distinct(Keys(g))
    ensures forall k :: k in Keys(g) ==> k in KeySet(v, key)
    ensures forall k :: k in KeySet(v, key) ==> k in Keys(g)
    ensures forall i :: 0 <= i < |g| ==> g[i].value == KeyTotal(v, key, g[i].key, m)
    ensures m == RowCount ==> forall i :: 0 <= i < |g| ==> g[i].value >= 1.0
  {
    var ks := KeysInOrder(v, key);
    var g := Tabulate(ks, v, key, m);
    assert m == RowCount ==> forall i :: 0 <= i < |g| ==> g[i].value >= 1.0 by {
      if m == RowCount {
        forall i | 0 <= i < |g| ensures g[i].value >= 1.0 {
          assert ks[i] in ks;
          KeyCountPresent(v, key, ks[i]);
        }
      }
    }
    g
  }

  lemma {:induction false} TabulateOfNoRows<K>(ks: seq<K>, key: Record -> K, m: Measure)
    ensures SumValues(Tabulate(ks, [], key, m)) == 0.0
  {
    if ks != [] {
      var g := Tabulate(ks, [], key, m);
      assert g[1..] == Tabulate(ks[1..], [], key, m);
      SumOfStep(g, BucketValue);
      TabulateOfNoRows(ks[1..], key, m);
    }
  }

  /** Adding row `r` in front adds its weight to the one bucket of its key, if that key is tabulated. */
  lemma {:induction false} TabulateSplit<K>(ks: seq<K>, r: Record, rest: seq<Record>, key: Record -> K, m: Measure)
    requires Distinct(ks)
    ensures SumValues(Tabulate(ks, [r] + rest, key, m))
         == (if key(r) in ks then Weight(r, m) else 0.0) + SumValues(Tabulate(ks, rest, key, m))
  {
    if ks != [] {
      DistinctTail(ks);
      var v := [r] + rest;
      assert v[0] == r && v[1..] == rest;
      var g := Tabulate(ks, v, key, m);
      var h := Tabulate(ks, rest, key, m);
      assert g[1..] == Tabulate(ks[1..], v, key, m);
      assert h[1..] == Tabulate(ks[1..], rest, key, m);
      SumOfStep(g, BucketValue);
      SumOfStep(h, BucketValue);
      TabulateSplit(ks[1..], r, rest, key, m);
    }
  }

  lemma {:induction false} TabulatePartition<K>(ks: seq<K>, v: seq<Record>, key: Record -> K, m: Measure)
    requires Distinct(ks)
    requires forall r :: r in v ==> key(r) in ks
    ensures SumValues(Tabulate(ks, v, key, m)) == Measured(v, m)
  {
    if v == [] {
      TabulateOfNoRows(ks, key, m);
    } else {
      assert v == [v[0]] + v[1..];
      assert forall r :: r in v[1..] ==> r in v;
      TabulateSplit(ks, v[0], v[1..], key, m);
      TabulatePartition(ks, v[1..], key, m);
      MeasuredStep(v, m);
    }
  }

  /**
   The groups partition the view: the counted groups add up to the number of
   rows and the revenue groups add up to the view's total.
   */
  lemma {:induction false} GroupsPartitionView<K>(v: seq<Record>, key: Record -> K)
    ensures SumValues(GroupBy(v, key, RowCount)) == |v| as real
    ensures SumValues(GroupBy(v, key, AmountSum)) == Total(v)
  {
    var ks := KeysInOrder(v, key);
    forall r | r in v ensures key(r) in ks {
      assert key(r) in KeySet(v, key);
    }
    TabulatePartition(ks, v, key, RowCount);
    TabulatePartition(ks, v, key, AmountSum);
  }

  /** The first bucket with key `k`, if any. */
  function Lookup<K(==)>(g: seq<Bucket<K>>, k: K): (r: Option<real>)
    ensures r.None? <==> k !in Keys(g)
    ensures r.Some? ==> exists i :: 0 <= i < |g| && g[i] == Bucket(k, r.value)
  {
    if g == [] then None
    else if g[0].key == k then Some(g[0].value)
    else
      var r := Lookup(g[1..], k);
      assert r.Some? ==> exists i :: 0 <= i < |g| && g[i] == Bucket(k, r.value) by {
        if r.Some? {
          var i :| 0 <= i < |g[1..]| && g[1..][i] == Bucket(k, r.value);
          assert g[i + 1] == Bucket(k, r.value);
        }
      }
      r
  }

  /** A key's value after `fillna(0)`: its bucket's value, or 0 when the table has no such key. */
  function ValueOr0<K(==)>(g: seq<Bucket<K>>, k: K): real {
    match Lookup(g, k)
    case None => 0.0
    case Some(x) => x
  }

  /** The zero-filled lookup into `g`, as a function of the key. */
  function Filled<K(==)>(g: seq<Bucket<K>>): K -> real {
    k => ValueOr0(g, k)
  }

  /** Looking a key up in a grouped table gives its group value, and 0 for a key absent from the view. */
  lemma {:induction false} LookupGroup<K>(v: seq<Record>, key: Record -> K, m: Measure, k: K)
    ensures ValueOr0(GroupBy(v, key, m), k) == KeyTotal(v, key, k, m)
  {
    var g := GroupBy(v, key, m);
    if k !in Keys(g) {
      KeyTotalAbsent(v, key, k, m);
    }
  }

  /** One row of a merged table: the key and its values in period A and in period B. */
  datatype Joined<K> = Joined(key: K, a: real, b: real)

  function JoinedKey<K>(x: Joined<K>): K {
    x.key
  }

  function ValueA<K>(x: Joined<K>): real {
    x.a
  }

  function ValueB<K>(x: Joined<K>): real {
    x.b
  }

  /** The key column of a merged table. */
  function JoinedKeys<K>(j: seq<Joined<K>>): (ks: seq<K>)
    ensures |ks| == |j|
    ensures forall i :: 0 <= i < |j| ==> ks[i] == j[i].key
  {
    Column(j, JoinedKey)
  }

  /** The period-A column of a merged table, added up. */
  function SumA<K>(j: seq<Joined<K>>): real {
    SumOf(j, ValueA)
  }

  /** The period-B column of a merged table, added up. */
  function SumB<K>(j: seq<Joined<K>>): real {
    SumOf(j, ValueB)
  }

  /** One merged row per key of `ks`, each side looked up with zero fill. */
  function Pair<K(==)>(ks: seq<K>, ga: seq<Bucket<K>>, gb: seq<Bucket<K>>): (j: seq<Joined<K>>)
    ensures JoinedKeys(j) == ks
    ensures forall i :: 0 <= i < |j| ==> j[i] == Joined(ks[i], ValueOr0(ga, ks[i]), ValueOr0(gb, ks[i]))
  {
    if ks == [] then []
    else [Joined(ks[0], ValueOr0(ga, ks[0]), ValueOr0(gb, ks[0]))] + Pair(ks[1..], ga, gb)
  }

  /** The keys of the first table, then the keys that only the second table has. */
  function MergedKeys<K(==)>(ka: seq<K>, kb: seq<K>): (ks: seq<K>)
    requires Distinct(ka) && Distinct(kb)
    ensures Distinct(ks)
    ensures forall k :: k in ks ==> k in ka || k in kb
    ensures forall k :: k in ka ==> k in ks
    ensures forall k :: k in kb ==> k in ks
  {
    var onlyB := Where(kb, (k: K) => k !in ka);
    WhereDistinct(kb, (k: K) => k !in ka);
    DistinctConcat(ka, onlyB);
    assert forall k :: k in kb ==> k in ka + onlyB by {
      forall k | k in kb ensures k in ka + onlyB {
        if k !in ka {
          assert multiset(onlyB)[k] == multiset(kb)[k];
        }
      }
    }
    ka + onlyB
  }

  /**
   `a.merge(b, on=key, how='outer').fillna(0)` on two grouped tables: every key
   of either table exactly once, with its value in each table or 0 where the
   table lacks it. The keys of the first table come first.
   */
  function OuterMerge<K(==)>(ga: seq<Bucket<K>>, gb: seq<Bucket<K>>): (j: seq<Joined<K>>)
    requires Distinct(Keys(ga)) && Distinct(Keys(gb))
    ensures Distinct(JoinedKeys(j))
    ensures forall k :: k in JoinedKeys(j) ==> k in Keys(ga) || k in Keys(gb)
    ensures forall k :: k in Keys(ga) ==> k in JoinedKeys(j)
    ensures forall k :: k in Keys(gb) ==> k in JoinedKeys(j)
    ensures forall i :: 0 <= i < |j| ==> j[i].a == ValueOr0(ga, j[i].key) && j[i].b == ValueOr0(gb, j[i].key)
  {
    Pair(MergedKeys(Keys(ga), Keys(gb)), ga, gb)
  }

  lemma {:induction false} PairColumns<K>(ks: seq<K>, ga: seq<Bucket<K>>, gb: seq<Bucket<K>>)
    ensures SumA(Pair(ks, ga, gb)) == ColumnSum(ks, ga)
    ensures SumB(Pair(ks, ga, gb)) == ColumnSum(ks, gb)
  {
    if ks != [] {
      var j := Pair(ks, ga, gb);
      assert j[1..] == Pair(ks[1..], ga, gb);
      SumOfStep(j, ValueA);
      SumOfStep(j, ValueB);
      SumOfStep(ks, Filled(ga));
      SumOfStep(ks, Filled(gb));
      PairColumns(ks[1..], ga, gb);
    }
  }

  /** The zero-filled values of table `g` at the keys `ks`, added up. */
  function ColumnSum<K(==)>(ks: seq<K>, g: seq<Bucket<K>>): real {
    SumOf(ks, Filled(g))
  }

  lemma {:induction false} ColumnOfNoBuckets<K>(ks: seq<K>)
    ensures ColumnSum(ks, []) == 0.0
  {
    if ks != [] {
      SumOfStep(ks, Filled([]));
      ColumnOfNoBuckets(ks[1..]);
    }
  }

  /** Putting bucket `x` in front adds its value once, at its own key, when that key is listed. */
  lemma {:induction false} ColumnSplit<K>(ks: seq<K>, x: Bucket<K>, rest: seq<Bucket<K>>)
    requires Distinct(ks)
    requires x.key !in Keys(rest)
    ensures ColumnSum(ks, [x] + rest) == (if x.key in ks then x.value else 0.0) + ColumnSum(ks, rest)
  {
    if ks != [] {
      DistinctTail(ks);
      var g := [x] + rest;
      assert g[0] == x && g[1..] == rest;
      SumOfStep(ks, Filled(g));
      SumOfStep(ks, Filled(rest));
      ColumnSplit(ks[1..], x, rest);
    }
  }

  /** Summing the zero-filled lookups over a key list that covers the table gives the table's sum. */
  lemma {:induction false} ColumnSumCoversTable<K>(ks: seq<K>, g: seq<Bucket<K>>)
    requires Distinct(ks) && Distinct(Keys(g))
    requires forall k :: k in Keys(g) ==> k in ks
    ensures ColumnSum(ks, g) == SumValues(g)
  {
    if g == [] {
      ColumnOfNoBuckets(ks);
    } else {
      KeysTail(g);
      DistinctTail(Keys(g));
      assert g == [g[0]] + g[1..];
      ColumnSplit(ks, g[0], g[1..]);
      ColumnSumCoversTable(ks, g[1..]);
      SumOfStep(g, BucketValue);
    }
  }

  /** Zero filling adds nothing: each column of the merge sums to its own table's total. */
  lemma {:induction false} OuterMergeKeepsTotals<K>(ga: seq<Bucket<K>>, gb: seq<Bucket<K>>)
    requires Distinct(Keys(ga)) && Distinct(Keys(gb))
    ensures SumA(OuterMerge(ga, gb)) == SumValues(ga)
    ensures SumB(OuterMerge(ga, gb)) == SumValues(gb)
  {
    var ks := MergedKeys(Keys(ga), Keys(gb));
    PairColumns(ks, ga, gb);
    ColumnSumCoversTable(ks, ga);
    ColumnSumCoversTable(ks, gb);
  }

  /**
   The comparison charts: both periods grouped by the same key and measure,
   then outer-merged. Each key of either period appears once, with its group
   value in each period, 0 where the period has no such rows.
   */
  function ComparePeriods<K(==)>(va: seq<Record>, vb: seq<Record>, key: Record -> K, m: Measure): (j: seq<Joined<K>>)
    ensures Distinct(JoinedKeys(j))
    ensures forall k :: k in JoinedKeys(j) ==> k in KeySet(va, key) || k in KeySet(vb, key)
    ensures forall k :: k in KeySet(va, key) ==> k in JoinedKeys(j)
    ensures forall k :: k in KeySet(vb, key) ==> k in JoinedKeys(j)
    ensures forall i :: 0 <= i < |j| ==>
      j[i].a == KeyTotal(va, key, j[i].key, m) && j[i].b == KeyTotal(vb, key, j[i].key, m)
  {
    var j := OuterMerge(GroupBy(va, key, m), GroupBy(vb, key, m));
    assert forall i :: 0 <= i < |j| ==>
      j[i].a == KeyTotal(va, key, j[i].key, m) && j[i].b == KeyTotal(vb, key, j[i].key, m) by {
      forall i | 0 <= i < |j|
        ensures j[i].a == KeyTotal(va, key, j[i].key, m) && j[i].b == KeyTotal(vb, key, j[i].key, m)
      {
        LookupGroup(va, key, m, j[i].key);
        LookupGroup(vb, key, m, j[i].key);
      }
    }
    j
  }

  /** The merged columns keep each period's totals: row counts for `.size()`, revenue for the amount sums. */
  lemma {:induction false} ComparePeriodsKeepsTotals<K>(va: seq<Record>, vb: seq<Record>, key: Record -> K)
    ensures SumA(ComparePeriods(va, vb, key, RowCount)) == |va| as real
    ensures SumB(ComparePeriods(va, vb, key, RowCount)) == |vb| as real
    ensures SumA(ComparePeriods(va, vb, key, AmountSum)) == Total(va)
    ensures SumB(ComparePeriods(va, vb, key, AmountSum)) == Total(vb)
  {
    GroupsPartitionView(va, key);
    GroupsPartitionView(vb, key);
    OuterMergeKeepsTotals(GroupBy(va, key, RowCount), GroupBy(vb, key, RowCount));
    OuterMergeKeepsTotals(GroupBy(va, key, AmountSum), GroupBy(vb, key, AmountSum));
  }
}
