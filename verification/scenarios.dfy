/**
 Concrete cases of the filter, snapshot, variation and merge, worked out on
 small inputs.
 */
module Scenarios {
  import opened Records
  import opened Filtering
  import opened Metrics
  import opened Variations
  import opened Grouping

  /** Two consultations on consecutive days, in two units. */
  function TwoDays(): seq<Record> {
    [Record(1, "UnitA", "Cardiologia", 100.0, None), Record(2, "UnitB", "Pediatria", 200.0, Some(30.0))]
  }

  /** Filtering the first day with an empty unit selection keeps the first row only. */
  lemma FirstDayView()
    ensures FilterView(TwoDays(), Window(1, 1), {}) == [TwoDays()[0]]
    ensures TakeSnapshot(FilterView(TwoDays(), Window(1, 1), {})) == Snapshot(1, 1, 100.0, 0.0)
  {
    var rows := TwoDays();
    var v := FilterView(rows, Window(1, 1), {});
    assert v == [rows[0]];
    assert UnitsOf(v) == {"UnitA"};
    assert Present(Returns(v)) == [];
    SumOfStep(v, Amount);
    assert v[1..] == [];
  }

  /** The prior window of days 10..16 is days 3..9. */
  lemma PriorWeek()
    ensures PriorWindow(Window(10, 16)) == Window(3, 9)
  {
  }

  /** A rise from zero reads as a flat +100 with the rising marker. */
  lemma RiseFromZero(render: real -> string)
    requires render(100.0) == "100.0"
    ensures Variation(Some(50.0), Some(0.0)) == 100.0
    ensures FormatVariation(Variation(Some(50.0), Some(0.0)), render) == "↑ +100.0%"
  {
  }

  /** Unit A only in period A and unit B only in period B: each gets a zero on its missing side. */
  lemma DisjointPeriodsMerge()
    ensures OuterMerge([Bucket("UnitA", 100.0)], [Bucket("UnitB", 50.0)])
         == [Joined("UnitA", 100.0, 0.0), Joined("UnitB", 0.0, 50.0)]
  {
    var ga := [Bucket("UnitA", 100.0)];
    var gb := [Bucket("UnitB", 50.0)];
    assert Keys(ga) == ["UnitA"] && Keys(gb) == ["UnitB"];
    assert Where(Keys(gb), (k: string) => k !in Keys(ga)) == ["UnitB"];
    assert MergedKeys(Keys(ga), Keys(gb)) == ["UnitA", "UnitB"];
  }
}
