/** The discrete step selector `CustomStepSlider`: a list of labels laid out on a
    slider whose range is 0..n-1, one step per label. Three revisions exist; two
    round the dragged position to the nearest step, the oldest truncates it. */
module StepSlider {
  import opened KotlinLib

  /** How a dragged position is turned into a label index. */
  datatype Rounding =
    | RoundToNearest   // `newPosition.roundToInt()`
    | Truncate         // `newPosition.toInt()`

  /** `stepCount = values.size - 1`: the slider's range is 0..stepCount. */
  function StepCount<T>(values: seq<T>): int { |values| - 1 }

  /** The `steps` argument: the number of snap points strictly inside the range. */
  function InteriorSteps<T>(values: seq<T>): int { StepCount(values) - 1 }

  /** The snap points of a slider over lo..hi with `steps` interior points:
      steps + 2 evenly spaced positions, both ends included. With `steps == 0` (two labels)
      the Compose slider is continuous and only the two ends are distinguished positions. */
  function SnapPoints(lo: real, hi: real, steps: nat): (r: seq<real>)
    ensures |r| == steps + 2
  {
    seq(steps + 2, k => lo + (hi - lo) * (k as real) / ((steps + 1) as real))
  }

  /** With two or more labels the snap points are exactly the label indices 0..n-1. */
  lemma SnapPointsAreIndices<T>(values: seq<T>)
    requires |values| >= 2
    ensures var points := SnapPoints(0.0, StepCount(values) as real, InteriorSteps(values));
              |points| == |values| && forall k :: 0 <= k < |points| ==> points[k] == k as real
  {
    var n := StepCount(values) as real;
    forall k | 0 <= k < |values|
      ensures SnapPoints(0.0, n, InteriorSteps(values))[k] == k as real
    {
      assert (InteriorSteps(values) + 1) as real == n;
      assert 0.0 + (n - 0.0) * (k as real) / n == k as real;
    }
  }

  /** `values.indexOf(selectedValue).coerceIn(0, stepCount)`: the initial step.
      Throws for an empty list, whose range 0..-1 is empty. */
  function InitialStep<T(==)>(values: seq<T>, selected: T): (r: Outcome<nat>)
    ensures r.Throws? <==> |values| == 0
    ensures r.Ok? ==> r.value < |values|
    ensures r.Ok? && selected in values ==> values[r.value] == selected && selected !in values[..r.value]
    ensures r.Ok? && selected !in values ==> r.value == 0
  {
    var c := CoerceIn(IndexOf(values, selected), 0, StepCount(values));
    if c.Throws? then Throws(c.error) else Ok(c.value)
  }

  /** The index the position selects, before clamping. */
  function RawIndex(position: real, rounding: Rounding): int
  {
    match rounding
    case RoundToNearest => RoundToInt(position)
    case Truncate => ToInt(position)
  }

  /** The label index emitted for a dragged position, clamped into 0..stepCount. */
  function SelectedIndex<T>(values: seq<T>, position: real, rounding: Rounding): (i: nat)
    requires |values| > 0
    ensures i < |values|
    // positions left of the range select the first label, right of it the last one
    ensures position <= 0.0 ==> i == 0
    ensures position >= StepCount(values) as real ==> i == StepCount(values)
    // inside the range: the nearest step (ties upwards) ...
    ensures rounding == RoundToNearest && 0.0 <= position <= StepCount(values) as real ==>
              i as real - 1.0 / 2.0 <= position < i as real + 1.0 / 2.0
    // ... or the step at or below the position
    ensures rounding == Truncate && 0.0 <= position <= StepCount(values) as real ==>
              i as real <= position < i as real + 1.0
  {
    CoerceIn(RawIndex(position, rounding), 0, StepCount(values)).value
  }

  /** The label passed to `onValueSelected` for a dragged position. */
  function EmittedValue<T>(values: seq<T>, position: real, rounding: Rounding): (v: T)
    requires |values| > 0
    ensures v in values
  {
    values[SelectedIndex(values, position, rounding)]
  }

  /** Feeding a label's initial step back as the position emits the first occurrence
      of that label, under both rounding rules. */
  lemma InitialStepRoundTrip<T>(values: seq<T>, v: T, rounding: Rounding)
    requires v in values
    ensures InitialStep(values, v).Ok?
    ensures SelectedIndex(values, InitialStep(values, v).value as real, rounding) == IndexOf(values, v)
    ensures EmittedValue(values, InitialStep(values, v).value as real, rounding) == v
  {
  }

  /** Every snap point selects the label under it, under both rounding rules. */
  lemma SnapPointSelectsItsLabel<T>(values: seq<T>, k: nat, rounding: Rounding)
    requires |values| >= 2 && k < |values|
    ensures SelectedIndex(values, SnapPoints(0.0, StepCount(values) as real, InteriorSteps(values))[k], rounding) == k
  {
    SnapPointsAreIndices(values);
  }

  /** Position 2.6 on three labels emits the last one when rounding, position 0.2 the first. */
  lemma RoundingExample()
    ensures EmittedValue(["5", "10", "15"], 2.6, RoundToNearest) == "15"
    ensures EmittedValue(["5", "10", "15"], 0.2, RoundToNearest) == "5"
    ensures InitialStep(["5", "10", "15"], "10") == Ok(1)
  {
    assert RoundToInt(2.6) == 3;
    assert RoundToInt(0.2) == 0;
  }

  /** Position 1.6 selects index 1 when truncating, index 2 when rounding. */
  lemma TruncationExample<T>(values: seq<T>)
    requires |values| >= 3
    ensures SelectedIndex(values, 1.6, Truncate) == 1
    ensures SelectedIndex(values, 1.6, RoundToNearest) == 2
  {
    assert ToInt(1.6) == 1;
    assert RoundToInt(1.6) == 2;
  }

  /** The revision, which decides how a label's emphasis is drawn. */
  datatype Revision =
    | Fixed          // font 22 when selected, 16 otherwise
    | Scaled(fontScalingFactor: real)   // 1.5x the scaling factor when selected, 1x otherwise
    | Oldest         // primary colour when selected, `onSurface` otherwise; font 16

  /** How one label is drawn. */
  datatype LabelStyle<T> = LabelStyle(text: T, fontSize: real, primaryColour: bool)

  function FontSize(revision: Revision, selected: bool): real
  {
    match revision
    case Fixed => if selected then 22.0 else 16.0
    case Scaled(f) => if selected then f * 1.5 else f * 1.0
    case Oldest => 16.0
  }

  /** The label row: one label per value, in order; exactly the labels equal to the
      selected value are drawn emphasised. */
  function LabelRow<T(==)>(values: seq<T>, selectedValue: T, revision: Revision): (row: seq<LabelStyle<T>>)
    ensures |row| == |values|
    ensures forall i :: 0 <= i < |row| ==> row[i].text == values[i]
    ensures forall i :: 0 <= i < |row| ==> (row[i].primaryColour <==> values[i] == selectedValue)
    ensures forall i :: 0 <= i < |row| ==> row[i].fontSize == FontSize(revision, values[i] == selectedValue)
  {
    seq(|values|, i requires 0 <= i < |values| =>
      LabelStyle(values[i], FontSize(revision, values[i] == selectedValue), values[i] == selectedValue))
  }

  /** The number of emphasised labels of a row. */
  function Emphasised<T>(row: seq<LabelStyle<T>>): nat
  {
    if |row| == 0 then 0 else Emphasised(row[..|row| - 1]) + (if row[|row| - 1].primaryColour then 1 else 0)
  }

  /** The number of occurrences of `x` in `s`. */
  function Occurrences<T(==)>(s: seq<T>, x: T): nat
  {
    if |s| == 0 then 0 else Occurrences(s[..|s| - 1], x) + (if s[|s| - 1] == x then 1 else 0)
  }

  /** As many labels are emphasised as the selected value occurs; with distinct labels
      and a selected value from the list, exactly one. */
  lemma {:induction false} EmphasisCount<T>(values: seq<T>, selectedValue: T, revision: Revision)
    ensures Emphasised(LabelRow(values, selectedValue, revision)) == Occurrences(values, selectedValue)
  {
    if |values| > 0 {
      var init := values[..|values| - 1];
      EmphasisCount(init, selectedValue, revision);
      assert LabelRow(values, selectedValue, revision)[..|values| - 1] == LabelRow(init, selectedValue, revision);
    }
  }

  /** A value that occurs once is emphasised once. */
  lemma {:induction false} OccurrencesOfDistinct<T>(values: seq<T>, x: T)
    requires forall i, j :: 0 <= i < j < |values| ==> values[i] != values[j]
    ensures Occurrences(values, x) == if x in values then 1 else 0
  {
    if |values| > 0 {
      var init := values[..|values| - 1];
      OccurrencesOfDistinct(init, x);
      assert values == init + [values[|values| - 1]];
      if values[|values| - 1] == x {
        assert x !in init;
      }
    }
  }

  /** The slider widget: the labels are fixed; the raw thumb position is its state. */
  class Slider<T(==)> {
    const values: seq<T>
    const rounding: Rounding
    var sliderPosition: real

    /** `remember { mutableStateOf(currentStep.toFloat()) }`: starts at the initial step.
        An empty label list throws in InitialStep, so it is excluded here. */
    constructor (values: seq<T>, selectedValue: T, rounding: Rounding)
      requires InitialStep(values, selectedValue).Ok?
      ensures this.values == values && this.rounding == rounding
      ensures sliderPosition == InitialStep(values, selectedValue).value as real
    {
      this.values := values;
      this.rounding := rounding;
      sliderPosition := InitialStep(values, selectedValue).value as real;
    }

    /** `onValueChange`: stores the raw, unrounded position, then emits the label it selects. */
    method OnValueChange(newPosition: real) returns (emitted: T)
      requires |values| > 0
      modifies this
      ensures sliderPosition == newPosition
      ensures emitted == values[SelectedIndex(values, newPosition, rounding)]
    {
      sliderPosition := newPosition;
      var selectedIndex := CoerceIn(RawIndex(newPosition, rounding), 0, StepCount(values)).value;
      emitted := values[selectedIndex];
    }
  }
}
