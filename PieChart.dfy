/** `CustomPieChart`: a flat `[label, value, colour, ...]` list drawn as consecutive
    arcs of a ring, plus the persisted "show values" panel. */
module PieChart {
  import opened KotlinLib
  import opened Preferences

  /** A colour with its alpha channel. */
  datatype Colour = Colour(rgb: int, alpha: real)

  /** One element of the untyped `pieData` list. */
  datatype PieDatum = Label(text: string) | Amount(value: real) | Paint(colour: Colour)

  /** `pieData.filterIndexed { index, _ -> index % 3 == r }`. */
  function EveryThird<T>(s: seq<T>, r: nat): seq<T>
    requires r < 3
  {
    if |s| == 0 then []
    else EveryThird(s[..|s| - 1], r) + (if (|s| - 1) % 3 == r then [s[|s| - 1]] else [])
  }

  /** The sub-list at positions r, r+3, r+6, ... keeps the original order. */
  lemma {:induction false} EveryThirdAt<T>(s: seq<T>, r: nat)
    requires r < 3
    ensures |EveryThird(s, r)| == (|s| + 2 - r) / 3
    ensures forall j :: 0 <= j < |EveryThird(s, r)| ==> 3 * j + r < |s| && EveryThird(s, r)[j] == s[3 * j + r]
  {
    if |s| > 0 {
      var init := s[..|s| - 1];
      EveryThirdAt(init, r);
      var e := EveryThird(s, r);
      assert forall j :: 0 <= j < |EveryThird(init, r)| ==> e[j] == init[3 * j + r] == s[3 * j + r];
      if (|s| - 1) % 3 == r {
        assert |EveryThird(init, r)| == (|s| - 1 - r) / 3;
        assert 3 * ((|s| - 1 - r) / 3) + r == |s| - 1;
      }
    }
  }

  /** The list the chart's unchecked casts assume: a multiple of three long, with a label,
      an amount and a colour in each triple. Otherwise the chart throws where an element is
      used (`values.sum()`, a label, `colors[index]`). */
  ghost predicate WellFormed(pieData: seq<PieDatum>)
  {
    |pieData| % 3 == 0 &&
    forall i :: 0 <= i < |pieData| ==>
      (i % 3 == 0 ==> pieData[i].Label?) &&
      (i % 3 == 1 ==> pieData[i].Amount?) &&
      (i % 3 == 2 ==> pieData[i].Paint?)
  }

  /** The triples a chart is built from. */
  datatype Slice = Slice(caption: string, value: real, colour: Colour)

  /** The flat list a caller passes for a list of slices. */
  function Interleave(slices: seq<Slice>): (d: seq<PieDatum>)
    ensures |d| == 3 * |slices|
    ensures forall j :: 0 <= j < |slices| ==>
              d[3 * j] == Label(slices[j].caption) && d[3 * j + 1] == Amount(slices[j].value)
              && d[3 * j + 2] == Paint(slices[j].colour)
  {
    if |slices| == 0 then []
    else [Label(slices[0].caption), Amount(slices[0].value), Paint(slices[0].colour)] + Interleave(slices[1..])
  }

  lemma InterleaveWellFormed(slices: seq<Slice>)
    ensures WellFormed(Interleave(slices))
  {
    var d := Interleave(slices);
    forall i | 0 <= i < |d|
      ensures (i % 3 == 0 ==> d[i].Label?) && (i % 3 == 1 ==> d[i].Amount?) && (i % 3 == 2 ==> d[i].Paint?)
    {
      var j := i / 3;
      assert i == 3 * j + i % 3;
    }
  }

  /** `pieData.filterIndexed { i, _ -> i % 3 == 0 }.map { it as String }`: the labels, in order. */
  function Labels(pieData: seq<PieDatum>): (r: seq<string>)
    requires WellFormed(pieData)
    ensures |r| == |pieData| / 3
    ensures forall j :: 0 <= j < |r| ==> pieData[3 * j] == Label(r[j])
  {
    var d := EveryThird(pieData, 0);
    EveryThirdAt(pieData, 0);
    seq(|d|, j requires 0 <= j < |d| => d[j].text)
  }

  /** The amounts at positions 1, 4, 7, ... (`it as Float`). */
  function Values(pieData: seq<PieDatum>): (r: seq<real>)
    requires WellFormed(pieData)
    ensures |r| == |pieData| / 3
    ensures forall j :: 0 <= j < |r| ==> pieData[3 * j + 1] == Amount(r[j])
  {
    var d := EveryThird(pieData, 1);
    EveryThirdAt(pieData, 1);
    seq(|d|, j requires 0 <= j < |d| => d[j].value)
  }

  /** The colours at positions 2, 5, 8, ... (`it as Color`). */
  function Colours(pieData: seq<PieDatum>): (r: seq<Colour>)
    requires WellFormed(pieData)
    ensures |r| == |pieData| / 3
    ensures forall j :: 0 <= j < |r| ==> pieData[3 * j + 2] == Paint(r[j])
  {
    var d := EveryThird(pieData, 2);
    EveryThirdAt(pieData, 2);
    seq(|d|, j requires 0 <= j < |d| => d[j].colour)
  }

  /** De-interleaving a list of k triples gives k labels, k values and k colours, in the
      order of the triples: it undoes Interleave. */
  lemma DeinterleaveInterleave(slices: seq<Slice>)
    ensures WellFormed(Interleave(slices))
    ensures Labels(Interleave(slices)) == seq(|slices|, j requires 0 <= j < |slices| => slices[j].caption)
    ensures Values(Interleave(slices)) == seq(|slices|, j requires 0 <= j < |slices| => slices[j].value)
    ensures Colours(Interleave(slices)) == seq(|slices|, j requires 0 <= j < |slices| => slices[j].colour)
  {
    InterleaveWellFormed(slices);
    LabelsOfInterleave(slices);
    ValuesOfInterleave(slices);
    ColoursOfInterleave(slices);
  }

  lemma LabelsOfInterleave(slices: seq<Slice>)
    ensures WellFormed(Interleave(slices))
    ensures Labels(Interleave(slices)) == seq(|slices|, j requires 0 <= j < |slices| => slices[j].caption)
  {
    InterleaveWellFormed(slices);
    var d := Interleave(slices);
    var l := Labels(d);
    forall j | 0 <= j < |slices| ensures l[j] == slices[j].caption {
      assert d[3 * j] == Label(l[j]);
    }
  }

  lemma ValuesOfInterleave(slices: seq<Slice>)
    ensures WellFormed(Interleave(slices))
    ensures Values(Interleave(slices)) == seq(|slices|, j requires 0 <= j < |slices| => slices[j].value)
  {
    InterleaveWellFormed(slices);
    var d := Interleave(slices);
    var v := Values(d);
    forall j | 0 <= j < |slices| ensures v[j] == slices[j].value {
      assert d[3 * j + 1] == Amount(v[j]);
    }
  }

  lemma ColoursOfInterleave(slices: seq<Slice>)
    ensures WellFormed(Interleave(slices))
    ensures Colours(Interleave(slices)) == seq(|slices|, j requires 0 <= j < |slices| => slices[j].colour)
  {
    InterleaveWellFormed(slices);
    var d := Interleave(slices);
    var c := Colours(d);
    forall j | 0 <= j < |slices| ensures c[j] == slices[j].colour {
      assert d[3 * j + 2] == Paint(c[j]);
    }
  }

  /** `values.sum()`. */
  function Sum(s: seq<real>): real
  {
    if |s| == 0 then 0.0 else Sum(s[..|s| - 1]) + s[|s| - 1]
  }

  /** `values.map { 360 * it / totalSum }`; there is no guard, so the total must not be zero. */
  function Sweeps(values: seq<real>): (r: seq<real>)
    requires Sum(values) != 0.0
    ensures |r| == |values|
    ensures forall i :: 0 <= i < |r| ==> r[i] * Sum(values) == 360.0 * values[i]
  {
    seq(|values|, i requires 0 <= i < |values| => 360.0 * values[i] / Sum(values))
  }

  /** Values proportional term by term have proportional sums. */
  lemma {:induction false} SumProportional(r: seq<real>, s: seq<real>, t: real, c: real)
    requires |r| == |s|
    requires forall i :: 0 <= i < |r| ==> r[i] * t == c * s[i]
    ensures Sum(r) * t == c * Sum(s)
  {
    if |r| > 0 {
      var n := |r| - 1;
      SumProportional(r[..n], s[..n], t, c);
      assert (Sum(r[..n]) + r[n]) * t == Sum(r[..n]) * t + r[n] * t;
      assert c * (Sum(s[..n]) + s[n]) == c * Sum(s[..n]) + c * s[n];
    }
  }

  /** The sweeps of a chart with a non-zero total sum to a full circle. */
  lemma SweepsSumTo360(values: seq<real>)
    requires Sum(values) != 0.0
    ensures Sum(Sweeps(values)) == 360.0
  {
    var total := Sum(values);
    SumProportional(Sweeps(values), values, total, 360.0);
    assert (Sum(Sweeps(values)) - 360.0) * total == 0.0;
  }

  /** The preview data 20, 30, 50 gives sweeps of 72, 108 and 180 degrees. */
  lemma PreviewSweeps()
    ensures Sum([20.0, 30.0, 50.0]) == 100.0
    ensures Sweeps([20.0, 30.0, 50.0]) == [72.0, 108.0, 180.0]
  {
    assert Sum([20.0, 30.0, 50.0]) == 100.0 by {
      assert [20.0, 30.0, 50.0][..2] == [20.0, 30.0];
      assert [20.0, 30.0][..1] == [20.0];
      assert [20.0][..0] == [];
    }
  }

  lemma {:induction false} SumNonNegative(s: seq<real>)
    requires forall i :: 0 <= i < |s| ==> s[i] >= 0.0
    ensures Sum(s) >= 0.0
  {
    if |s| > 0 { SumNonNegative(s[..|s| - 1]); }
  }

  /** Non-negative values with a non-zero total give non-negative sweeps, so every shown
      label lies inside its arc. */
  lemma SweepsNonNegative(values: seq<real>)
    requires Sum(values) != 0.0
    requires forall i :: 0 <= i < |values| ==> values[i] >= 0.0
    ensures forall i :: 0 <= i < |values| ==> Sweeps(values)[i] >= 0.0
  {
    SumNonNegative(values);
    forall i | 0 <= i < |values| ensures Sweeps(values)[i] >= 0.0 {
      assert Sweeps(values)[i] * Sum(values) == 360.0 * values[i];
    }
  }

  lemma SumPrefixStep(s: seq<real>, k: nat)
    requires k < |s|
    ensures Sum(s[..k + 1]) == Sum(s[..k]) + s[k]
  {
    assert s[..k + 1][..k] == s[..k];
  }

  /** One drawn arc; `labelAngle` is where its value label goes, when labels are shown. */
  datatype Arc = Arc(start: real, sweep: real, labelAngle: Option<real>)

  /** Arc i of a chart: it starts at the sum of the sweeps before it, and its label (when
      shown) sits at its mid-angle. */
  function ArcAt(sweeps: seq<real>, i: nat, showLabelsInArcs: bool): Arc
    requires i < |sweeps|
  {
    var start := Sum(sweeps[..i]);
    Arc(start, sweeps[i], if showLabelsInArcs then Some(start + sweeps[i] / 2.0) else None)
  }

  /** The canvas loop: arcs are drawn one after another, `lastValue` holding the
      start angle of the next one. */
  method DrawArcs(sweeps: seq<real>, showLabelsInArcs: bool) returns (arcs: seq<Arc>)
    ensures |arcs| == |sweeps|
    ensures forall i :: 0 <= i < |arcs| ==> arcs[i] == ArcAt(sweeps, i, showLabelsInArcs)
  {
    var lastValue := 0.0;
    arcs := [];
    var index := 0;
    while index < |sweeps|
      invariant 0 <= index <= |sweeps|
      invariant |arcs| == index
      invariant lastValue == Sum(sweeps[..index])
      invariant forall i :: 0 <= i < index ==> arcs[i] == ArcAt(sweeps, i, showLabelsInArcs)
    {
      var value := sweeps[index];
      var labelAngle := if showLabelsInArcs then Some(lastValue + value / 2.0) else None;
      SumPrefixStep(sweeps, index);
      arcs := arcs + [Arc(lastValue, value, labelAngle)];
      lastValue := lastValue + value;
      index := index + 1;
    }
  }

  /** Arcs are contiguous: the first starts at 0, each ends where the next starts, and the
      last ends at the sum of all sweeps. */
  lemma ArcsContiguous(sweeps: seq<real>, i: nat, showLabelsInArcs: bool)
    requires i < |sweeps|
    ensures ArcAt(sweeps, 0, showLabelsInArcs).start == 0.0
    ensures i + 1 < |sweeps| ==>
              ArcAt(sweeps, i, showLabelsInArcs).start + sweeps[i] == ArcAt(sweeps, i + 1, showLabelsInArcs).start
    ensures i + 1 == |sweeps| ==> ArcAt(sweeps, i, showLabelsInArcs).start + sweeps[i] == Sum(sweeps)
  {
    SumPrefixStep(sweeps, i);
    assert sweeps[..0] == [];
    if i + 1 == |sweeps| { assert sweeps[..i + 1] == sweeps; }
  }

  /** For a chart's own sweeps, the last arc closes the circle at 360 degrees. */
  lemma ArcsCloseCircle(values: seq<real>, showLabelsInArcs: bool)
    requires Sum(values) != 0.0 && |values| > 0
    ensures ArcAt(Sweeps(values), |values| - 1, showLabelsInArcs).start + Sweeps(values)[|values| - 1] == 360.0
  {
    ArcsContiguous(Sweeps(values), |values| - 1, showLabelsInArcs);
    SweepsSumTo360(values);
  }

  /** A shown label lies at the mid-angle of its arc, inside it when the sweep is non-negative. */
  lemma LabelInsideArc(sweeps: seq<real>, i: nat)
    requires i < |sweeps| && sweeps[i] >= 0.0
    ensures ArcAt(sweeps, i, true).labelAngle.Some?
    ensures ArcAt(sweeps, i, true).start <= ArcAt(sweeps, i, true).labelAngle.value
                                         <= ArcAt(sweeps, i, true).start + sweeps[i]
    ensures ArcAt(sweeps, i, false).labelAngle.None?
  {
  }

  const ExpandedKey := "expanded_key"

  /** The "show values" panel below the chart, whose open state is persisted. */
  class ValuesPanel {
    var expanded: bool
    var prefs: Store

    /** `sharedPreferences.getBoolean("expanded_key", false)`. */
    constructor (prefs: Store)
      requires GetBoolean(prefs, ExpandedKey, false).Ok?
      ensures this.prefs == prefs
      ensures expanded == GetBoolean(prefs, ExpandedKey, false).value
    {
      this.prefs := prefs;
      expanded := GetBoolean(prefs, ExpandedKey, false).value;
    }

    /** The caret's click: negates `expanded` and writes the new value back. */
    method OnClick()
      modifies this
      ensures expanded == !old(expanded)
      ensures prefs == old(prefs)[ExpandedKey := BoolPref(expanded)]
    {
      expanded := !expanded;
      prefs := prefs[ExpandedKey := BoolPref(expanded)];
    }
  }

  /** A chart opened after a click starts in the state the click left. */
  lemma ExpandedPersists(prefs: Store, expanded: bool)
    ensures GetBoolean(prefs[ExpandedKey := BoolPref(expanded)], ExpandedKey, false) == Ok(expanded)
  {
  }
}
