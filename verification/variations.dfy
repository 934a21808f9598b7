/**
 Percentage change between a current and a baseline value, with the
 dashboard's policy for missing values and a zero baseline, and the choice of
 badge marker by the sign of the change.
 */
module Variations {
  import opened Records
  import opened Metrics

  /**
   `calcular_variacao(atual, anterior)`: 0.0 when either value is missing; for
   a zero baseline a flat 100.0 when the current value is positive and 0.0
   otherwise (a negative current value included); else the relative change in
   percent. Defined for every input.
   */
  function Variation(current: Option<real>, baseline: Option<real>): (pct: real)
    ensures current.None? || baseline.None? ==> pct == 0.0
    ensures current.Some? && baseline == Some(0.0) ==> (pct == 100.0 <==> current.value > 0.0)
    ensures current.Some? && baseline == Some(0.0) ==> (pct == 0.0 <==> current.value <= 0.0)
  {
    if current.None? || baseline.None? then 0.0
    else if baseline.value == 0.0 then (if current.value > 0.0 then 100.0 else 0.0)
    else (current.value - baseline.value) / baseline.value * 100.0
  }

  /** Applying a change of `pct` percent to the baseline. */
  function ApplyVariation(baseline: real, pct: real): real {
    baseline + baseline * pct / 100.0
  }

  /** For a non-zero baseline the percentage is exact: applying it to the baseline gives back the current value. */
  lemma VariationRoundTrip(current: real, baseline: real)
    requires baseline != 0.0
    ensures ApplyVariation(baseline, Variation(Some(current), Some(baseline))) == current
  {
    var q := (current - baseline) / baseline;
    assert q * baseline == current - baseline;
    assert baseline * (q * 100.0) / 100.0 == q * baseline;
  }

  /** Against a positive baseline the sign of the change is the sign of `current - baseline`. */
  lemma VariationSignPositiveBaseline(current: real, baseline: real)
    requires baseline > 0.0
    ensures Variation(Some(current), Some(baseline)) > 0.0 <==> current > baseline
    ensures Variation(Some(current), Some(baseline)) == 0.0 <==> current == baseline
    ensures Variation(Some(current), Some(baseline)) < 0.0 <==> current < baseline
  {
    var d := current - baseline;
    if d > 0.0 {
      assert d / baseline > 0.0;
    } else if d < 0.0 {
      assert d / baseline < 0.0;
    }
  }

  /**
   Against a negative baseline the same formula flips the sign: a value that
   rises above a negative baseline shows as a decrease.
   */
  lemma VariationSignNegativeBaseline(current: real, baseline: real)
    requires baseline < 0.0
    ensures Variation(Some(current), Some(baseline)) > 0.0 <==> current < baseline
    ensures Variation(Some(current), Some(baseline)) == 0.0 <==> current == baseline
    ensures Variation(Some(current), Some(baseline)) < 0.0 <==> current > baseline
  {
    var d := current - baseline;
    if d > 0.0 {
      assert d / baseline < 0.0;
    } else if d < 0.0 {
      assert d / baseline > 0.0;
    }
  }

  /** A value compared with itself shows no change, a zero baseline included. */
  lemma VariationOfUnchangedValue(x: real)
    ensures Variation(Some(x), Some(x)) == 0.0
  {
  }

  /** The four changes shown on the metric cards. */
  datatype Changes = Changes(count: real, units: real, total: real, meanReturn: real)

  /**
   The variation of each snapshot metric against the baseline snapshot, as
   computed for the cards of the single-period tab (current against prior
   period) and of the comparison tab (period B against period A).
   */
  function CompareSnapshots(current: Snapshot, baseline: Snapshot): (d: Changes)
    ensures current == baseline ==> d == Changes(0.0, 0.0, 0.0, 0.0)
    ensures baseline.count == 0 ==> d.count == (if current.count > 0 then 100.0 else 0.0)
    ensures baseline.count > 0 ==> (d.count > 0.0 <==> current.count > baseline.count)
    ensures baseline.count > 0 ==> (d.count == 0.0 <==> current.count == baseline.count)
    ensures baseline.distinctUnits == 0 ==> d.units == (if current.distinctUnits > 0 then 100.0 else 0.0)
  {
    var count := Variation(Some(current.count as real), Some(baseline.count as real));
    assert baseline.count > 0 ==> (count > 0.0 <==> current.count > baseline.count) by {
      if baseline.count > 0 {
        VariationSignPositiveBaseline(current.count as real, baseline.count as real);
      }
    }
    Changes(
      count,
      Variation(Some(current.distinctUnits as real), Some(baseline.distinctUnits as real)),
      Variation(Some(current.total), Some(baseline.total)),
      Variation(Some(current.meanReturn), Some(baseline.meanReturn)))
  }

  /** The sign of a change, which decides the badge marker. */
  datatype Trend = Rising | Falling | Steady

  function TrendOf(pct: real): (t: Trend)
    ensures t == Rising <==> pct > 0.0
    ensures t == Falling <==> pct < 0.0
    ensures t == Steady <==> pct == 0.0
  {
    if pct > 0.0 then Rising else if pct < 0.0 then Falling else Steady
  }

  /** The text in front of the number: an explicit plus sign only for a rise. */
  function Marker(t: Trend): string {
    match t
    case Rising => "↑ +"
    case Falling => "↓ "
    case Steady => "→ "
  }

  /**
   `formatar_variacao(v)`: marker, the number as `render` writes it (the
   one-decimal rendering is not modelled), and a percent sign. The first
   character tells the three branches apart.
   */
  function FormatVariation(pct: real, render: real -> string): (text: string)
    ensures |text| >= 3 && text[|text| - 1] == '%'
    ensures text[0] == '↑' <==> pct > 0.0
    ensures text[0] == '↓' <==> pct < 0.0
    ensures text[0] == '→' <==> pct == 0.0
    ensures pct > 0.0 <==> text[..3] == "↑ +"
  {
    Marker(TrendOf(pct)) + render(pct) + "%"
  }
}
