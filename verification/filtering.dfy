/**
 The filter engine of the dashboard: the inclusive date-range filter, the
 unit-selection filter that an empty selection switches off, and the
 same-length comparison window that immediately precedes the chosen one.
 */
module Filtering {
  import opened Records

  /** An inclusive range of day numbers, as picked with the "De:" and "Até:" date inputs. */
  datatype Window = Window(start: int, end: int)

  predicate Contains(w: Window, day: int) {
    w.start <= day <= w.end
  }

  /** The inclusive day count `(end - start).days + 1`; zero or negative for a reversed range. */
  function Length(w: Window): int {
    w.end - w.start + 1
  }

  /** The filter in one piece: inside the window and, unless the selection is empty, of a selected unit. */
  predicate Selected(r: Record, w: Window, units: set<string>) {
    Contains(w, r.day) && (units == {} || r.unit in units)
  }

  /** The two comparisons `dataconsulta >= inicio` and `dataconsulta <= fim`. */
  function DateFilter(rows: seq<Record>, w: Window): seq<Record> {
    Where(rows, (r: Record) => Contains(w, r.day))
  }

  /** `df['unidade'].isin(selection)`. */
  function UnitFilter(rows: seq<Record>, units: set<string>): seq<Record> {
    Where(rows, (r: Record) => r.unit in units)
  }

  /**
   The filtered view as the dashboard builds it: the date filter first, then
   the unit filter only when the selection is non-empty (an empty multiselect
   is falsy and leaves the view as it is).
   */
  function FilterView(rows: seq<Record>, w: Window, units: set<string>): (v: seq<Record>)
    ensures IsSubsequence(v, rows)
    ensures forall r :: r in v ==> r in rows && Selected(r, w, units)
    ensures forall r :: r in rows ==>
      multiset(v)[r] == if Selected(r, w, units) then multiset(rows)[r] else 0
    ensures w.start > w.end ==> v == []
  {
    var dated := DateFilter(rows, w);
    if units == {} then
      WhereCongruent(rows, (r: Record) => Contains(w, r.day), (r: Record) => Selected(r, w, units));
      dated
    else
      WhereTwice(rows, (r: Record) => Contains(w, r.day), (r: Record) => r.unit in units,
                 (r: Record) => Selected(r, w, units));
      UnitFilter(dated, units)
  }

  /** The two-stage filter selects exactly the rows a single pass with `Selected` selects. */
  lemma {:induction false} FilterIsOnePass(rows: seq<Record>, w: Window, units: set<string>)
    ensures FilterView(rows, w, units) == Where(rows, (r: Record) => Selected(r, w, units))
  {
    if units == {} {
      WhereCongruent(rows, (r: Record) => Contains(w, r.day), (r: Record) => Selected(r, w, units));
    } else {
      WhereTwice(rows, (r: Record) => Contains(w, r.day), (r: Record) => r.unit in units,
                 (r: Record) => Selected(r, w, units));
    }
  }

  /**
   Clearing the unit selection gives the same view as selecting every unit in
   the data, and that view is the date filter alone: it is never emptied by
   the unit filter.
   */
  lemma {:induction false} EmptySelectionSelectsAllUnits(rows: seq<Record>, w: Window)
    ensures FilterView(rows, w, {}) == FilterView(rows, w, UnitsOf(rows))
    ensures FilterView(rows, w, {}) == DateFilter(rows, w)
  {
    var dated := DateFilter(rows, w);
    if UnitsOf(rows) != {} {
      forall r | r in dated ensures r.unit in UnitsOf(rows) {
        assert r in rows;
      }
      WhereKeepsAll(dated, (r: Record) => r.unit in UnitsOf(rows));
    }
  }

  /**
   A non-empty selection none of whose units has a row in the window empties
   the view, although every selected unit may occur elsewhere in the data.
   */
  lemma AbsentSelectionEmptiesView(rows: seq<Record>, w: Window, units: set<string>)
    requires units != {}
    requires units !! UnitsOf(DateFilter(rows, w))
    ensures FilterView(rows, w, units) == []
  {
    var v := FilterView(rows, w, units);
    forall r | r in v ensures r in DateFilter(rows, w) && Unit(r) in units {
    }
  }

  /**
   The comparison window of the single-period tab: as many days as the chosen
   window, ending the day before it starts.
   */
  function PriorWindow(w: Window): (p: Window)
    ensures Length(p) == Length(w)
    ensures p.end + 1 == w.start
    ensures p.start <= p.end <==> w.start <= w.end
    ensures forall d :: Contains(p, d) ==> !Contains(w, d)
    ensures forall d :: Contains(Window(p.start, w.end), d) <==> Contains(p, d) || Contains(w, d)
  {
    var days := w.end - w.start + 1;
    Window(w.start - days, w.start - 1)
  }

  /**
   The baseline view: the same filter, with the same unit selection, over the
   prior window. It shares no row with the current view.
   */
  function PriorView(rows: seq<Record>, w: Window, units: set<string>): (v: seq<Record>)
    ensures forall r :: r in v ==> r in rows && Selected(r, PriorWindow(w), units)
    ensures forall r :: r in rows && Selected(r, PriorWindow(w), units) ==> r in v
    ensures forall r :: r in v ==> r !in FilterView(rows, w, units)
  {
    FilterView(rows, PriorWindow(w), units)
  }

  /**
   The prior and current windows together cover the span from the prior start
   to the current end, and the span's view splits into the two views.
   */
  lemma {:induction false} SpanSplitsIntoPriorAndCurrent(rows: seq<Record>, w: Window, units: set<string>)
    ensures multiset(FilterView(rows, Window(PriorWindow(w).start, w.end), units))
         == multiset(PriorView(rows, w, units)) + multiset(FilterView(rows, w, units))
    ensures |FilterView(rows, Window(PriorWindow(w).start, w.end), units)|
         == |PriorView(rows, w, units)| + |FilterView(rows, w, units)|
  {
    var p := PriorWindow(w);
    var span := FilterView(rows, Window(p.start, w.end), units);
    var before := PriorView(rows, w, units);
    var now := FilterView(rows, w, units);
    forall r ensures multiset(span)[r] == (multiset(before) + multiset(now))[r] {
      if r !in rows {
        assert r !in span && r !in before && r !in now;
      }
    }
    assert multiset(span) == multiset(before) + multiset(now);
    assert |multiset(span)| == |multiset(before)| + |multiset(now)|;
  }
}
