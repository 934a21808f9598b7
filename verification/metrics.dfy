/**
 The metric snapshot of a filtered view: number of consultations, number of
 active units, revenue, and the average return value with its zero fallback.
 */
module Metrics {
  import opened Records

  function Amount(r: Record): real {
    r.amount
  }

  /** `df['valor'].sum()`: the amounts added up, negative ones included; 0 for no rows. */
  function Total(v: seq<Record>): real {
    SumOf(v, Amount)
  }

  function Ret(r: Record): Option<real> {
    r.ret
  }

  /** The return column of a view. */
  function Returns(v: seq<Record>): seq<Option<real>> {
    Column(v, Ret)
  }

  /** The values of a column that are not missing, in order: what pandas averages over. */
  function Present(col: seq<Option<real>>): (xs: seq<real>)
    ensures |xs| <= |col|
    ensures xs == [] <==> forall i :: 0 <= i < |col| ==> col[i].None?
    ensures forall x :: x in xs <==> Some(x) in col
  {
    if col == [] then []
    else
      assert col == [col[0]] + col[1..];
      match col[0]
      case None => Present(col[1..])
      case Some(x) => [x] + Present(col[1..])
  }

  lemma {:induction false} PresentAppend(a: seq<Option<real>>, b: seq<Option<real>>)
    ensures Present(a + b) == Present(a) + Present(b)
  {
    if a == [] {
      assert a + b == b;
    } else {
      assert (a + b)[1..] == a[1..] + b;
      assert (a + b)[0] == a[0];
      PresentAppend(a[1..], b);
    }
  }

  /** `series.mean()`: the mean of the present values, or NaN (`None`) when there are none. */
  function Mean(col: seq<Option<real>>): Option<real> {
    var xs := Present(col);
    if xs == [] then None else Some(Sum(xs) / |xs| as real)
  }

  /**
   `_safe_mean`: 0.0 for an empty column, 0.0 when the mean is NaN (every value
   missing), and otherwise the mean of the present values.
   */
  function SafeMean(col: seq<Option<real>>): (m: real)
    ensures Present(col) == [] ==> m == 0.0
    ensures Present(col) != [] ==> m == Sum(Present(col)) / (|Present(col)| as real)
  {
    if |col| == 0 then 0.0
    else
      match Mean(col)
      case None => 0.0
      case Some(m) => m
  }

  lemma {:induction false} SumBounds(xs: seq<real>, lo: real, hi: real)
    requires forall x :: x in xs ==> lo <= x <= hi
    ensures lo * (|xs| as real) <= Sum(xs) <= hi * (|xs| as real)
  {
    if xs != [] {
      assert forall x :: x in xs[1..] ==> x in xs;
      SumBounds(xs[1..], lo, hi);
      assert xs[0] in xs;
      assert |xs| as real == |xs[1..]| as real + 1.0;
      StepBounds(xs[0], Sum(xs[1..]), |xs[1..]| as real, lo, hi);
    }
  }

  lemma StepBounds(x: real, s: real, n: real, lo: real, hi: real)
    requires lo <= x <= hi
    requires lo * n <= s <= hi * n
    ensures lo * (n + 1.0) <= x + s <= hi * (n + 1.0)
  {
    assert lo * (n + 1.0) == lo * n + lo;
    assert hi * (n + 1.0) == hi * n + hi;
  }

  /** When every present value lies in [lo, hi], so does their average. */
  lemma {:induction false} SafeMeanWithinBounds(col: seq<Option<real>>, lo: real, hi: real)
    requires forall x :: Some(x) in col ==> lo <= x <= hi
    requires Present(col) != []
    ensures lo <= SafeMean(col) <= hi
  {
    var xs := Present(col);
    assert SafeMean(col) == Sum(xs) / (|xs| as real);
    AverageBounds(xs, lo, hi);
  }

  lemma AverageBounds(xs: seq<real>, lo: real, hi: real)
    requires xs != []
    requires forall x :: x in xs ==> lo <= x <= hi
    ensures lo <= Sum(xs) / (|xs| as real) <= hi
  {
    SumBounds(xs, lo, hi);
    ScaledBounds(Sum(xs), |xs| as real, lo, hi);
  }

  lemma ScaledBounds(total: real, n: real, lo: real, hi: real)
    requires n > 0.0
    requires lo * n <= total <= hi * n
    ensures lo <= total / n <= hi
  {
  }

  /** A missing value anywhere in the column does not move the safe mean. */
  lemma {:induction false} SafeMeanIgnoresMissing(a: seq<Option<real>>, b: seq<Option<real>>)
    ensures SafeMean(a + [None] + b) == SafeMean(a + b)
  {
    var withGap := a + [None] + b;
    assert withGap == a + ([None] + b);
    assert Present([None] + b) == Present(b) by {
      assert ([None] + b)[1..] == b;
    }
    PresentAppend(a, [None] + b);
    PresentAppend(a, b);
    SafeMeanDependsOnPresent(withGap, a + b);
  }

  lemma SafeMeanDependsOnPresent(c: seq<Option<real>>, d: seq<Option<real>>)
    requires Present(c) == Present(d)
    ensures SafeMean(c) == SafeMean(d)
  {
  }

  lemma {:induction false} UnitsBound(v: seq<Record>)
    ensures |UnitsOf(v)| <= |v|
    ensures |UnitsOf(v)| == 0 <==> v == []
  {
    if v != [] {
      assert v == [v[0]] + v[1..];
      KeySetAppend([v[0]], v[1..], Unit);
      KeySetOfOne(v[0], Unit);
      UnitsBound(v[1..]);
    }
  }

  /** The four scalars of a metric card row, computed over one filtered view. */
  datatype Snapshot = Snapshot(count: nat, distinctUnits: nat, total: real, meanReturn: real)

  /**
   `len(view)`, `view['unidade'].nunique()`, `view['valor'].sum()` and
   `_safe_mean(view['retornodaconsulta'])`. Always defined: an empty view gives
   all zeros, and a view whose return values are all missing has mean 0.0.
   */
  function TakeSnapshot(v: seq<Record>): (s: Snapshot)
    ensures s.distinctUnits <= s.count
    ensures s.distinctUnits == 0 <==> s.count == 0
    ensures v == [] ==> s == Snapshot(0, 0, 0.0, 0.0)
    ensures (forall i :: 0 <= i < |v| ==> v[i].ret.None?) ==> s.meanReturn == 0.0
  {
    UnitsBound(v);
    Snapshot(|v|, |UnitsOf(v)|, Total(v), SafeMean(Returns(v)))
  }

  /** What one more row adds to each running quantity of a prefix. */
  lemma SnapshotStep(v: seq<Record>, i: nat)
    requires i < |v|
    ensures UnitsOf(v[..i + 1]) == UnitsOf(v[..i]) + {v[i].unit}
    ensures Total(v[..i + 1]) == Total(v[..i]) + v[i].amount
    ensures Present(Returns(v[..i + 1]))
         == Present(Returns(v[..i])) + (if v[i].ret.Some? then [v[i].ret.value] else [])
    ensures Sum(Present(Returns(v[..i + 1])))
         == Sum(Present(Returns(v[..i]))) + (if v[i].ret.Some? then v[i].ret.value else 0.0)
  {
    var r := v[i];
    assert v[..i + 1] == v[..i] + [r];
    KeySetAppend(v[..i], [r], Unit);
    KeySetOfOne(r, Unit);
    SumOfAppend(v[..i], [r], Amount);
    SumOfStep([r], Amount);
    assert [r][1..] == [];
    assert Returns(v[..i + 1]) == Returns(v[..i]) + [r.ret];
    PresentAppend(Returns(v[..i]), [r.ret]);
    SumAppend(Present(Returns(v[..i])), Present([r.ret]));
  }

  /**
   The snapshot in one pass over the view, keeping the units seen so far, the
   running revenue and the running sum and count of present return values.
   */
  method ComputeSnapshot(v: seq<Record>) returns (s: Snapshot)
    ensures s == TakeSnapshot(v)
  {
    var seen: set<string> := {};
    var total := 0.0;
    var retSum := 0.0;
    var retCount := 0;
    var i := 0;
    while i < |v|
      invariant 0 <= i <= |v|
      invariant seen == UnitsOf(v[..i])
      invariant total == Total(v[..i])
      invariant retSum == Sum(Present(Returns(v[..i])))
      invariant retCount == |Present(Returns(v[..i]))|
    {
      var r := v[i];
      SnapshotStep(v, i);
      seen := seen + {r.unit};
      total := total + r.amount;
      if r.ret.Some? {
        retSum := retSum + r.ret.value;
        retCount := retCount + 1;
      }
      i := i + 1;
    }
    assert v[..i] == v;
    var mean := if i == 0 || retCount == 0 then 0.0 else retSum / (retCount as real);
    s := Snapshot(i, |seen|, total, mean);
  }
}
