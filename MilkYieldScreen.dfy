/** `MilkYieldScreen`: pick a milk yield on a step slider and a green-fodder availability
    on a radio group; both are persisted per record list, and the first record with the
    chosen yield gives the feed amounts drawn as a pie chart. */
module MilkYieldScreen {
  import opened KotlinLib
  import opened Preferences
  import opened FeedData
  import opened StepSlider
  import opened PieChart

  const MilkYieldKeyPrefix: string := "selected_milk_yield_"
  const AvailabilityKeyPrefix: string := "selected_fodder_availability_"

  /** `"selected_milk_yield_$feedRecHash"`; the hash of the record list is an opaque string. */
  function MilkYieldKey(hash: string): string { MilkYieldKeyPrefix + hash }

  /** `"selected_fodder_availability_$feedRecHash"`. */
  function AvailabilityKey(hash: string): string { AvailabilityKeyPrefix + hash }

  /** The two keys never collide, whatever the hashes; each determines its hash. */
  lemma KeysDistinct(h1: string, h2: string)
    ensures MilkYieldKey(h1) != AvailabilityKey(h2)
    ensures MilkYieldKey(h1) == MilkYieldKey(h2) ==> h1 == h2
    ensures AvailabilityKey(h1) == AvailabilityKey(h2) ==> h1 == h2
  {
    assert MilkYieldKey(h1)[9] == 'm' && AvailabilityKey(h2)[9] == 'f';
    assert MilkYieldKey(h1)[|MilkYieldKeyPrefix|..] == h1 && MilkYieldKey(h2)[|MilkYieldKeyPrefix|..] == h2;
    assert AvailabilityKey(h1)[|AvailabilityKeyPrefix|..] == h1 && AvailabilityKey(h2)[|AvailabilityKeyPrefix|..] == h2;
  }

  /** `getFloat(key, feedRecommendations.last().milkYield!!)`: the default is evaluated first,
      so an empty list or a last record without a yield throws even when a value is stored. */
  function InitialMilkYield(records: seq<FeedRecommendation>, prefs: Store, hash: string): (r: Outcome<real>)
    ensures |records| == 0 ==> r == Throws(NoSuchElement)
    ensures |records| > 0 && records[|records| - 1].milkYield.None? ==> r == Throws(NullPointer)
    ensures |records| > 0 && records[|records| - 1].milkYield.Some? ==>
              (MilkYieldKey(hash) !in prefs ==> r == Ok(records[|records| - 1].milkYield.value)) &&
              (MilkYieldKey(hash) in prefs && prefs[MilkYieldKey(hash)].FloatPref? ==> r == Ok(prefs[MilkYieldKey(hash)].f)) &&
              (MilkYieldKey(hash) in prefs && !prefs[MilkYieldKey(hash)].FloatPref? ==> r == Throws(ClassCast))
  {
    if |records| == 0 then Throws(NoSuchElement)
    else
      var last := records[|records| - 1].milkYield;
      if last.None? then Throws(NullPointer)
      else GetFloat(prefs, MilkYieldKey(hash), last.value)
  }

  /** `getString(key, HIGH.name)?.let { valueOf(it) } ?: LOW`: HIGH when nothing is stored,
      the stored name otherwise; a stored text that names no constant throws. */
  function InitialAvailability(prefs: Store, hash: string): (r: Outcome<FodderAvailability>)
    ensures AvailabilityKey(hash) !in prefs ==> r == Ok(HIGH)
    ensures AvailabilityKey(hash) in prefs && prefs[AvailabilityKey(hash)].StringPref? ==>
              r == ValueOf(prefs[AvailabilityKey(hash)].s)
    ensures AvailabilityKey(hash) in prefs && !prefs[AvailabilityKey(hash)].StringPref? ==> r == Throws(ClassCast)
  {
    var stored := GetString(prefs, AvailabilityKey(hash), Some(Name(HIGH)));
    if stored.Throws? then Throws(stored.error)
    else if stored.value.None? then Ok(LOW)
    else ValueOf(stored.value.value)
  }

  /** The `?: LOW` fallback never fires: the store holds no null strings, so LOW is read
      only when "LOW" itself is stored. */
  lemma LowOnlyWhenStored(prefs: Store, hash: string)
    ensures InitialAvailability(prefs, hash) == Ok(LOW) ==>
              AvailabilityKey(hash) in prefs && prefs[AvailabilityKey(hash)] == StringPref("LOW")
  {
  }

  /** A later open of the screen with the same record list reads back what was selected,
      and storing one selection does not disturb the other. */
  lemma ReopenRestoresSelection(records: seq<FeedRecommendation>, prefs: Store, hash: string, y: real, a: FodderAvailability)
    requires |records| > 0 && records[|records| - 1].milkYield.Some?
    ensures InitialMilkYield(records, prefs[MilkYieldKey(hash) := FloatPref(y)], hash) == Ok(y)
    ensures InitialAvailability(prefs[AvailabilityKey(hash) := StringPref(Name(a))], hash) == Ok(a)
    ensures InitialMilkYield(records, prefs[AvailabilityKey(hash) := StringPref(Name(a))], hash)
         == InitialMilkYield(records, prefs, hash)
    ensures InitialAvailability(prefs[MilkYieldKey(hash) := FloatPref(y)], hash) == InitialAvailability(prefs, hash)
  {
    KeysDistinct(hash, hash);
    NameValueOf(a, Name(a));
  }

  /** `recommendations.map { it.milkYield.toString() }`: the slider labels, one per record, in
      order; a record without a yield gives the text "null" (None). */
  function SliderLabels(records: seq<FeedRecommendation>): (labels: seq<Option<real>>)
    ensures |labels| == |records|
    ensures forall i :: 0 <= i < |labels| ==> labels[i] == records[i].milkYield
  {
    seq(|records|, i requires 0 <= i < |records| => records[i].milkYield)
  }

  /** When every record has a yield, whatever position the slider is dragged to, the emitted
      label parses and some record has the parsed yield, so the lookup is not empty for that reason. */
  lemma EmittedYieldHasRecord(records: seq<FeedRecommendation>, position: real)
    requires |records| > 0
    requires forall i :: 0 <= i < |records| ==> records[i].milkYield.Some?
    ensures ParseNumber(EmittedValue(SliderLabels(records), position, RoundToNearest)).Ok?
    ensures FindByMilkYield(records, ParseNumber(EmittedValue(SliderLabels(records), position, RoundToNearest)).value).Some?
  {
    var labels := SliderLabels(records);
    var k := SelectedIndex(labels, position, RoundToNearest);
    assert EmittedValue(labels, position, RoundToNearest) == records[k].milkYield;
  }

  /** The slider starts at the selected yield's first record (or at 0 when no record has it). */
  lemma SliderStartsAtSelection(records: seq<FeedRecommendation>, y: real)
    requires |records| > 0
    ensures InitialStep(SliderLabels(records), Some(y)).Ok?
    ensures FindByMilkYield(records, y).Some? ==>
              records[InitialStep(SliderLabels(records), Some(y)).value] == FindByMilkYield(records, y).value
  {
    var labels := SliderLabels(records);
    var s := InitialStep(labels, Some(y));
    if FindByMilkYield(records, y).Some? {
      var k :| 0 <= k < |records| && records[k] == FindByMilkYield(records, y).value
               && records[k].milkYield == Some(y) && forall j :: 0 <= j < k ==> records[j].milkYield != Some(y);
      assert labels[k] == Some(y);
      assert Some(y) in labels;
      var i := s.value;
      assert labels[i] == Some(y) && Some(y) !in labels[..i];
    }
  }

  const ConcentrateColour: Colour := Colour(0xFFFFEB3B, 0.6)
  const GreenFodderColour: Colour := Colour(0xFF4CAF50, 0.6)
  const DryRoughageColour: Colour := Colour(0xFF8D6E63, 0.6)

  /** The pie triples of `RecommendationChart`, with the three captions as resolved strings;
      nothing is drawn for a null recommendation. */
  function ChartData(recommendation: Option<FeedDetails>, concentrate: string, greenFodder: string, dryRoughage: string): (d: Option<seq<PieDatum>>)
    ensures d.None? <==> recommendation.None?
    ensures d.Some? ==> WellFormed(d.value)
    ensures d.Some? ==> Labels(d.value) == [concentrate, greenFodder, dryRoughage]
    ensures d.Some? ==> Values(d.value) == [recommendation.value.concentrate, recommendation.value.greenFodder,
                                           recommendation.value.dryRoughage]
    ensures d.Some? ==> Colours(d.value) == [ConcentrateColour, GreenFodderColour, DryRoughageColour]
  {
    if recommendation.None? then None
    else
      var it := recommendation.value;
      var slices := [Slice(concentrate, it.concentrate, ConcentrateColour),
                     Slice(greenFodder, it.greenFodder, GreenFodderColour),
                     Slice(dryRoughage, it.dryRoughage, DryRoughageColour)];
      DeinterleaveInterleave(slices);
      Some(Interleave(slices))
  }

  /** One radio button of `RadioGroup`. */
  datatype RadioOption = RadioOption(option: FodderAvailability, marked: bool, rgb: int, alpha: real)

  function OptionColour(a: FodderAvailability): int
  {
    match a
    case HIGH => 0xFFFF0000
    case MODERATE => 0xFF008000
    case LOW => 0xFF5F89B4
  }

  /** `FodderAvailability.entries.forEach`: the options in enum order, exactly the selected
      one marked and drawn opaque, the others at alpha 0.6. */
  function RadioOptions(selected: FodderAvailability): (r: seq<RadioOption>)
    ensures |r| == |AllAvailabilities|
    ensures forall i :: 0 <= i < |r| ==> r[i].option == AllAvailabilities[i] && r[i].rgb == OptionColour(r[i].option)
    ensures forall i :: 0 <= i < |r| ==> (r[i].marked <==> r[i].option == selected)
    ensures forall i :: 0 <= i < |r| ==> r[i].alpha == if r[i].marked then 1.0 else 0.6
    ensures exists i :: 0 <= i < |r| && r[i].marked
    ensures forall i, j :: 0 <= i < |r| && 0 <= j < |r| && r[i].marked && r[j].marked ==> i == j
  {
    var r := seq(3, i requires 0 <= i < 3 =>
      var a := AllAvailabilities[i];
      RadioOption(a, a == selected, OptionColour(a), if a == selected then 1.0 else 0.6));
    assert r[match selected case HIGH => 0 case MODERATE => 1 case LOW => 2].marked;
    r
  }

  /** The screen's state: the two selections and the preference store they are saved in. */
  class Screen {
    const records: seq<FeedRecommendation>
    const hash: string
    var prefs: Store
    var selectedMilkYield: real
    var selectedFodderAvailability: FodderAvailability

    /** The `rememberSaveable` initialisers; they throw where InitialMilkYield or
        InitialAvailability does. */
    constructor (records: seq<FeedRecommendation>, prefs: Store, hash: string)
      requires InitialMilkYield(records, prefs, hash).Ok? && InitialAvailability(prefs, hash).Ok?
      ensures this.records == records && this.hash == hash && this.prefs == prefs
      ensures selectedMilkYield == InitialMilkYield(records, prefs, hash).value
      ensures selectedFodderAvailability == InitialAvailability(prefs, hash).value
    {
      this.records := records;
      this.hash := hash;
      this.prefs := prefs;
      selectedMilkYield := InitialMilkYield(records, prefs, hash).value;
      selectedFodderAvailability := InitialAvailability(prefs, hash).value;
    }

    /** `onMilkYieldSelected`: saves the yield, then selects it. */
    method OnMilkYieldSelected(y: real)
      modifies this
      ensures prefs == old(prefs)[MilkYieldKey(hash) := FloatPref(y)]
      ensures selectedMilkYield == y && selectedFodderAvailability == old(selectedFodderAvailability)
    {
      prefs := prefs[MilkYieldKey(hash) := FloatPref(y)];
      selectedMilkYield := y;
    }

    /** The slider's callback: the emitted label is parsed first; the text "null" throws
        and changes nothing. */
    method OnSliderLabel(text: Option<real>) returns (outcome: Outcome<real>)
      modifies this
      ensures outcome == ParseNumber(text)
      ensures outcome.Ok? ==> prefs == old(prefs)[MilkYieldKey(hash) := FloatPref(outcome.value)]
                              && selectedMilkYield == outcome.value
      ensures outcome.Throws? ==> prefs == old(prefs) && selectedMilkYield == old(selectedMilkYield)
      ensures selectedFodderAvailability == old(selectedFodderAvailability)
    {
      outcome := ParseNumber(text);
      if outcome.Ok? {
        OnMilkYieldSelected(outcome.value);
      }
    }

    /** `onFodderAvailabilitySelected`: saves the name, then selects it. */
    method OnFodderAvailabilitySelected(a: FodderAvailability)
      modifies this
      ensures prefs == old(prefs)[AvailabilityKey(hash) := StringPref(Name(a))]
      ensures selectedFodderAvailability == a && selectedMilkYield == old(selectedMilkYield)
    {
      prefs := prefs[AvailabilityKey(hash) := StringPref(Name(a))];
      selectedFodderAvailability := a;
    }

    /** `FeedRecommendationDisplay`'s lookup for the current selections. */
    function Recommendation(): (r: Option<FeedDetails>)
      reads this
      ensures r.Some? ==> exists k :: 0 <= k < |records| && FirstWithMilkYield(records, selectedMilkYield, k)
                                       && records[k].greenFodderAvailability.Some?
                                       && selectedFodderAvailability in records[k].greenFodderAvailability.value
                                       && r.value == records[k].greenFodderAvailability.value[selectedFodderAvailability]
    {
      MilkYieldRecommendation(records, selectedMilkYield, selectedFodderAvailability)
    }
  }
}
