/**
 The appointment table the dashboard works on, the order-preserving row
 selection that every filter of the dashboard is built from, and the column
 projection and column sum that every aggregate is built from.
 */
module Records {

  /** A value that may be missing; `None` stands for a pandas NaN cell. */
  datatype Option<+T> = None | Some(value: T)

  /**
   One row of the appointment table: the consultation day as a day number,
   the clinic unit, the specialty (consultation type), the amount charged
   and the return metric, which may be missing.
   */
  datatype Record = Record(day: int, unit: string, specialty: string, amount: real, ret: Option<real>)

  /** `sub` is obtained from `s` by deleting elements, keeping the rest in order. */
  predicate IsSubsequence<T(==)>(sub: seq<T>, s: seq<T>)
    decreases |s|
  {
    if sub == [] then true
    else if s == [] then false
    else if sub[0] == s[0] then IsSubsequence(sub[1..], s[1..])
    else IsSubsequence(sub, s[1..])
  }

  /** No element occurs twice. */
  predicate Distinct<T(==)>(s: seq<T>) {
    forall i, j :: 0 <= i < j < |s| ==> s[i] != s[j]
  }

  /** The distinct values `key` takes over a sequence of rows. */
  function KeySet<K(==)>(rows: seq<Record>, key: Record -> K): set<K> {
    set r | r in rows :: key(r)
  }

  lemma KeySetAppend<K>(a: seq<Record>, b: seq<Record>, key: Record -> K)
    ensures KeySet(a + b, key) == KeySet(a, key) + KeySet(b, key)
  {
    forall x | x in KeySet(a + b, key) ensures x in KeySet(a, key) + KeySet(b, key) {
      var r :| r in a + b && key(r) == x;
      assert r in a || r in b;
    }
  }

  lemma KeySetOfOne<K>(r: Record, key: Record -> K)
    ensures KeySet([r], key) == {key(r)}
  {
    assert r in [r];
  }

  function Unit(r: Record): string {
    r.unit
  }

  /** The set of clinic units that occur in a sequence of rows: `unique()` of the unit column. */
  function UnitsOf(rows: seq<Record>): set<string> {
    KeySet(rows, Unit)
  }

  /** The column `f` picks out of each element, in order, as `df[column]` does. */
  function Column<T, U>(s: seq<T>, f: T -> U): (c: seq<U>)
    ensures |c| == |s|
    ensures forall i :: 0 <= i < |s| ==> c[i] == f(s[i])
  {
    seq(|s|, i requires 0 <= i < |s| => f(s[i]))
  }

  /** Numbers added up; 0 for none. */
  function Sum(xs: seq<real>): real {
    if xs == [] then 0.0 else xs[0] + Sum(xs[1..])
  }

  lemma {:induction false} SumAppend(a: seq<real>, b: seq<real>)
    ensures Sum(a + b) == Sum(a) + Sum(b)
  {
    if a == [] {
      assert a + b == b;
    } else {
      assert (a + b)[1..] == a[1..] + b;
      SumAppend(a[1..], b);
    }
  }

  /** `df[column].sum()`: the column `f` picks, added up. */
  function SumOf<T>(s: seq<T>, f: T -> real): real {
    Sum(Column(s, f))
  }

  lemma SumOfStep<T>(s: seq<T>, f: T -> real)
    requires s != []
    ensures SumOf(s, f) == f(s[0]) + SumOf(s[1..], f)
  {
    assert Column(s, f)[1..] == Column(s[1..], f);
  }

  lemma SumOfAppend<T>(a: seq<T>, b: seq<T>, f: T -> real)
    ensures SumOf(a + b, f) == SumOf(a, f) + SumOf(b, f)
  {
    assert Column(a + b, f) == Column(a, f) + Column(b, f);
    SumAppend(Column(a, f), Column(b, f));
  }

  /**
   Boolean-mask selection, as `df[mask]` does it: the rows satisfying `keep`,
   in their original order, each as often as it occurs in `s`.
   */
  function Where<T(==)>(s: seq<T>, keep: T -> bool): (v: seq<T>)
    ensures |v| <= |s|
    ensures forall x :: x in v ==> x in s && keep(x)
    ensures forall x :: x in s ==> multiset(v)[x] == if keep(x) then multiset(s)[x] else 0
    ensures IsSubsequence(v, s)
  {
    if s == [] then []
    else
      assert s == [s[0]] + s[1..];
      if keep(s[0]) then [s[0]] + Where(s[1..], keep) else Where(s[1..], keep)
  }

  /** Selecting with `keep` and then with `also` is selecting once with their conjunction. */
  lemma {:induction false} WhereTwice<T>(s: seq<T>, keep: T -> bool, also: T -> bool, both: T -> bool)
    requires forall x :: both(x) == (keep(x) && also(x))
    ensures Where(Where(s, keep), also) == Where(s, both)
  {
    if s != [] {
      WhereTwice(s[1..], keep, also, both);
    }
  }

  /** A selection that every element passes changes nothing. */
  lemma {:induction false} WhereKeepsAll<T>(s: seq<T>, keep: T -> bool)
    requires forall x :: x in s ==> keep(x)
    ensures Where(s, keep) == s
  {
    if s != [] {
      assert forall x :: x in s[1..] ==> x in s;
      WhereKeepsAll(s[1..], keep);
    }
  }

  /** Two selections that agree on every element of `s` select the same rows. */
  lemma {:induction false} WhereCongruent<T>(s: seq<T>, keep: T -> bool, keep': T -> bool)
    requires forall x :: x in s ==> keep(x) == keep'(x)
    ensures Where(s, keep) == Where(s, keep')
  {
    if s != [] {
      assert forall x :: x in s[1..] ==> x in s;
      WhereCongruent(s[1..], keep, keep');
    }
  }

  /** A selection from a sequence without repetitions has no repetitions. */
  lemma {:induction false} WhereDistinct<T>(s: seq<T>, keep: T -> bool)
    requires Distinct(s)
    ensures Distinct(Where(s, keep))
  {
    if s != [] {
      DistinctTail(s);
      WhereDistinct(s[1..], keep);
      if keep(s[0]) {
        var rest := Where(s[1..], keep);
        assert s[0] !in rest;
        DistinctConcat([s[0]], rest);
      }
    }
  }

  lemma DistinctTail<T>(s: seq<T>)
    requires s != [] && Distinct(s)
    ensures Distinct(s[1..]) && s[0] !in s[1..]
  {
    forall i, j | 0 <= i < j < |s[1..]| ensures s[1..][i] != s[1..][j] {
      assert s[1..][i] == s[i + 1] && s[1..][j] == s[j + 1];
    }
    forall i | 0 <= i < |s[1..]| ensures s[1..][i] != s[0] {
      assert s[1..][i] == s[i + 1];
    }
  }

  lemma DistinctConcat<T>(a: seq<T>, b: seq<T>)
    requires Distinct(a) && Distinct(b)
    requires forall x :: x in b ==> x !in a
    ensures Distinct(a + b)
  {
    var c := a + b;
    forall i, j | 0 <= i < j < |c| ensures c[i] != c[j] {
      if i < |a| && j >= |a| {
        assert c[j] == b[j - |a|] && c[j] in b;
        assert c[i] in a;
      }
    }
  }
}
