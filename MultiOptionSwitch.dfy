/** `MultiOptionSwitch`: a row of equally wide options with a highlight behind the
    selected one. The highlight's geometry is integer arithmetic on the measured width. */
module MultiOptionSwitch {
  import opened KotlinLib

  /** `(widgetWidth / options.size) * selected`: the highlight's left edge. An empty option
      list divides by zero. */
  function HighlightOffset(widgetWidth: int, optionCount: int, selected: int): (r: Outcome<int>)
    ensures r.Throws? <==> optionCount == 0
    ensures r.Ok? ==> r.value == IntDiv(widgetWidth, optionCount).value * selected
  {
    var w := IntDiv(widgetWidth, optionCount);
    if w.Throws? then Throws(w.error) else Ok(w.value * selected)
  }

  /** `widgetWidth / options.size + selected`: the highlight's width, which grows by one
      pixel per position to the right. */
  function HighlightWidth(widgetWidth: int, optionCount: int, selected: int): (r: Outcome<int>)
    ensures r.Throws? <==> optionCount == 0
    ensures r.Ok? ==> r.value - selected == IntDiv(widgetWidth, optionCount).value
  {
    var w := IntDiv(widgetWidth, optionCount);
    if w.Throws? then Throws(w.error) else Ok(w.value + selected)
  }

  /** For a selected index inside the list, the selected option's slot lies inside the
      widget, and the drawn highlight overshoots the right edge by at most `selected`. */
  lemma {:induction false} HighlightInside(widgetWidth: nat, optionCount: nat, selected: nat)
    requires 0 < optionCount && selected < optionCount
    ensures HighlightOffset(widgetWidth, optionCount, selected).Ok?
    ensures 0 <= HighlightOffset(widgetWidth, optionCount, selected).value
    ensures HighlightOffset(widgetWidth, optionCount, selected).value + IntDiv(widgetWidth, optionCount).value <= widgetWidth
    ensures HighlightOffset(widgetWidth, optionCount, selected).value
            + HighlightWidth(widgetWidth, optionCount, selected).value <= widgetWidth + selected
  {
    IntDivBounds(widgetWidth, optionCount);
    var q := IntDiv(widgetWidth, optionCount).value;
    assert q * optionCount <= widgetWidth;
    assert q * selected + q == q * (selected + 1);
    assert q * (selected + 1) <= q * optionCount by {
      assert 0 <= q;
      MulMonotone(q, selected + 1, optionCount);
    }
  }

  lemma MulMonotone(q: nat, a: nat, b: nat)
    requires a <= b
    ensures q * a <= q * b
  {
    assert q * b == q * a + q * (b - a);
  }

  /** How one option is drawn: its text, its scale, whether it takes the selected colour
      (and font size), and the index its tap reports. */
  datatype Segment = Segment(text: string, scale: real, selectedStyle: bool, reports: int)

  /** `options.forEachIndexed`: one segment per option, in order. */
  function Segments(options: seq<string>, selectedOption: int, selectedScale: real, unselectedScale: real): (r: seq<Segment>)
    ensures |r| == |options|
    ensures forall i :: 0 <= i < |r| ==> r[i].text == options[i] && r[i].reports == i
    ensures forall i :: 0 <= i < |r| ==> (r[i].selectedStyle <==> i == selectedOption)
    ensures forall i :: 0 <= i < |r| ==> r[i].scale == if i == selectedOption then selectedScale else unselectedScale
  {
    seq(|options|, i requires 0 <= i < |options| =>
      Segment(options[i], if i == selectedOption then selectedScale else unselectedScale, i == selectedOption, i))
  }

  /** The number of segments drawn in the selected style. */
  function SelectedCount(segments: seq<Segment>): nat
  {
    if |segments| == 0 then 0
    else SelectedCount(segments[..|segments| - 1]) + (if segments[|segments| - 1].selectedStyle then 1 else 0)
  }

  /** Exactly one segment is styled as selected when the index is in range, none otherwise. */
  lemma {:induction false} OneSelectedSegment(options: seq<string>, selectedOption: int, selectedScale: real, unselectedScale: real)
    ensures SelectedCount(Segments(options, selectedOption, selectedScale, unselectedScale))
            == if 0 <= selectedOption < |options| then 1 else 0
  {
    if |options| > 0 {
      var init := options[..|options| - 1];
      OneSelectedSegment(init, selectedOption, selectedScale, unselectedScale);
      assert Segments(options, selectedOption, selectedScale, unselectedScale)[..|options| - 1]
          == Segments(init, selectedOption, selectedScale, unselectedScale);
    }
  }

  /** The switch's one piece of state, the measured width. */
  class Switch {
    const options: seq<string>
    var widgetWidth: int

    /** `remember { mutableIntStateOf(0) }`. */
    constructor (options: seq<string>)
      ensures this.options == options && widgetWidth == 0
    {
      this.options := options;
      widgetWidth := 0;
    }

    /** `onSizeChanged { widgetWidth = size.width }`. */
    method OnSizeChanged(width: int)
      modifies this
      ensures widgetWidth == width
    {
      widgetWidth := width;
    }
  }
}
