/** `BodyWeightScreen`: pick a body weight on a step slider; it is persisted per record
    list, and the first record with that weight gives the expected daily gains, drawn as
    one bar group per body-weight bucket with a text overlay. */
module BodyWeightScreen {
  import opened KotlinLib
  import opened Preferences
  import opened FeedData
  import opened StepSlider
  import MilkYieldScreen

  const BodyWeightKeyPrefix: string := "selected_body_weight_"

  /** `"selected_body_weight_$feedRecHash"`. */
  function BodyWeightKey(hash: string): string { BodyWeightKeyPrefix + hash }

  lemma BodyWeightKeyInjective(h1: string, h2: string)
    ensures BodyWeightKey(h1) == BodyWeightKey(h2) ==> h1 == h2
  {
    assert BodyWeightKey(h1)[|BodyWeightKeyPrefix|..] == h1 && BodyWeightKey(h2)[|BodyWeightKeyPrefix|..] == h2;
  }

  /** Both screens persist into the same store, and their keys never collide. */
  lemma KeysDisjointAcrossScreens(h1: string, h2: string)
    ensures BodyWeightKey(h1) != MilkYieldScreen.MilkYieldKey(h2)
    ensures BodyWeightKey(h1) != MilkYieldScreen.AvailabilityKey(h2)
  {
    assert BodyWeightKey(h1)[9] == 'b';
    assert MilkYieldScreen.MilkYieldKey(h2)[9] == 'm' && MilkYieldScreen.AvailabilityKey(h2)[9] == 'f';
  }

  /** `getInt(key, feedRecommendations.first().bodyWeight!!)`: the default is evaluated first. */
  function InitialBodyWeight(records: seq<FeedRecommendation>, prefs: Store, hash: string): (r: Outcome<int>)
    ensures |records| == 0 ==> r == Throws(NoSuchElement)
    ensures |records| > 0 && records[0].bodyWeight.None? ==> r == Throws(NullPointer)
    ensures |records| > 0 && records[0].bodyWeight.Some? ==>
              (BodyWeightKey(hash) !in prefs ==> r == Ok(records[0].bodyWeight.value)) &&
              (BodyWeightKey(hash) in prefs && prefs[BodyWeightKey(hash)].IntPref? ==> r == Ok(prefs[BodyWeightKey(hash)].i)) &&
              (BodyWeightKey(hash) in prefs && !prefs[BodyWeightKey(hash)].IntPref? ==> r == Throws(ClassCast))
  {
    if |records| == 0 then Throws(NoSuchElement)
    else if records[0].bodyWeight.None? then Throws(NullPointer)
    else GetInt(prefs, BodyWeightKey(hash), records[0].bodyWeight.value)
  }

  /** A later open with the same record list reads back the stored weight. */
  lemma ReopenRestoresBodyWeight(records: seq<FeedRecommendation>, prefs: Store, hash: string, w: int)
    requires |records| > 0 && records[0].bodyWeight.Some?
    ensures InitialBodyWeight(records, prefs[BodyWeightKey(hash) := IntPref(w)], hash) == Ok(w)
  {
  }

  /** `recommendations.map { it.bodyWeight.toString() }`: one label per record, in order. */
  function SliderLabels(records: seq<FeedRecommendation>): (labels: seq<Option<int>>)
    ensures |labels| == |records|
    ensures forall i :: 0 <= i < |labels| ==> labels[i] == records[i].bodyWeight
  {
    seq(|records|, i requires 0 <= i < |records| => records[i].bodyWeight)
  }

  /** `find { it.bodyWeight == bodyWeight }?.expectedDailyGain` followed by `!!`: a weight no
      record has, or a record without gains, throws. */
  function GainFor(records: seq<FeedRecommendation>, w: int): (r: Outcome<ExpectedDailyGain>)
    ensures r.Throws? <==> FindByBodyWeight(records, w).None? || FindByBodyWeight(records, w).value.expectedDailyGain.None?
    ensures r.Throws? ==> r.error == NullPointer
    ensures r.Ok? ==> exists k :: 0 <= k < |records| && records[k].bodyWeight == Some(w)
                                 && (forall j :: 0 <= j < k ==> records[j].bodyWeight != Some(w))
                                 && records[k].expectedDailyGain == Some(r.value)
  {
    var rec := FindByBodyWeight(records, w);
    if rec.None? || rec.value.expectedDailyGain.None? then Throws(NullPointer)
    else Ok(rec.value.expectedDailyGain.value)
  }

  /** When every record has a weight and gains, any slider position emits a weight whose
      gains can be shown. */
  lemma EmittedWeightHasGain(records: seq<FeedRecommendation>, position: real, rounding: Rounding)
    requires |records| > 0
    requires forall i :: 0 <= i < |records| ==> records[i].bodyWeight.Some? && records[i].expectedDailyGain.Some?
    ensures ParseNumber(EmittedValue(SliderLabels(records), position, rounding)).Ok?
    ensures GainFor(records, ParseNumber(EmittedValue(SliderLabels(records), position, rounding)).value).Ok?
  {
    var labels := SliderLabels(records);
    var k := SelectedIndex(labels, position, rounding);
    var w := records[k].bodyWeight.value;
    assert EmittedValue(labels, position, rounding) == Some(w);
    var rec := FindByBodyWeight(records, w);
    assert rec.Some?;
    var k' :| 0 <= k' < |records| && records[k'] == rec.value && rec.value.bodyWeight == Some(w);
  }

  /** One bar of a group. */
  datatype Bar = Bar(intensive: bool, grams: int)

  /** One row of the bar chart: a body-weight bucket and its bars, intensive first. */
  datatype BarGroup = BarGroup(bucket: string, bars: seq<Bar>)

  /** The group of one semi-intensive bucket: `intensiveSystem[key]!!` throws for a bucket
      missing from the intensive table. */
  function GroupFor(gain: ExpectedDailyGain, bucket: string): (r: Outcome<BarGroup>)
    ensures r.Throws? <==> GainOf(gain.intensiveSystem, bucket).None? || GainOf(gain.semiIntensiveSystem, bucket).None?
    ensures r.Ok? ==> r.value == BarGroup(bucket, [Bar(true, GainOf(gain.intensiveSystem, bucket).value),
                                                     Bar(false, GainOf(gain.semiIntensiveSystem, bucket).value)])
  {
    var i := GainOf(gain.intensiveSystem, bucket);
    var s := GainOf(gain.semiIntensiveSystem, bucket);
    if i.None? || s.None? then Throws(NullPointer)
    else Ok(BarGroup(bucket, [Bar(true, i.value), Bar(false, s.value)]))
  }

  /** `semiIntensiveSystem.keys.map { key -> Bars(...) }`: every bucket's group, or the
      exception of the first bucket whose group throws (all of them throw NullPointer). */
  function Groups(gain: ExpectedDailyGain): (r: Outcome<seq<BarGroup>>)
    ensures r.Ok? <==> forall j :: 0 <= j < |gain.semiIntensiveSystem| ==>
                         GainOf(gain.intensiveSystem, gain.semiIntensiveSystem[j].bucket).Some?
    ensures r.Throws? ==> r.error == NullPointer
    ensures r.Ok? ==> |r.value| == |gain.semiIntensiveSystem|
    ensures r.Ok? ==> forall j :: 0 <= j < |r.value| ==>
                var bucket := gain.semiIntensiveSystem[j].bucket;
                r.value[j] == BarGroup(bucket, [Bar(true, GainOf(gain.intensiveSystem, bucket).value),
                                               Bar(false, GainOf(gain.semiIntensiveSystem, bucket).value)])
  {
    var semi := gain.semiIntensiveSystem;
    if forall j :: 0 <= j < |semi| ==> GroupFor(gain, semi[j].bucket).Ok? then
      Ok(seq(|semi|, j requires 0 <= j < |semi| => GroupFor(gain, semi[j].bucket).value))
    else Throws(NullPointer)
  }

  /** With distinct buckets, the semi-intensive bar of group j is entry j's own value. */
  lemma DistinctBucketGain(table: seq<GainEntry>, j: nat)
    requires j < |table|
    requires forall a, b :: 0 <= a < b < |table| ==> table[a].bucket != table[b].bucket
    ensures GainOf(table, table[j].bucket) == Some(table[j].grams)
  {
    var r := GainOf(table, table[j].bucket);
    var k :| 0 <= k < |table| && table[k] == GainEntry(table[j].bucket, r.value);
    assert k == j;
  }

  /** With the semi-intensive buckets distinct, as a map's keys are, group j names entry j
      and its second bar is entry j's own gain. */
  lemma GroupsFollowSemiTable(gain: ExpectedDailyGain, j: nat)
    requires Groups(gain).Ok? && j < |gain.semiIntensiveSystem|
    requires forall a, b :: 0 <= a < b < |gain.semiIntensiveSystem| ==>
               gain.semiIntensiveSystem[a].bucket != gain.semiIntensiveSystem[b].bucket
    ensures Groups(gain).value[j].bucket == gain.semiIntensiveSystem[j].bucket
    ensures Groups(gain).value[j].bars[1] == Bar(false, gain.semiIntensiveSystem[j].grams)
  {
    DistinctBucketGain(gain.semiIntensiveSystem, j);
  }

  /** `(size * 80 + 100).dp`, where size is the number of semi-intensive entries. */
  function ChartHeight(gain: ExpectedDailyGain): (h: int)
    ensures h >= 100
    ensures h - 100 == 80 * |gain.semiIntensiveSystem|
  {
    |gain.semiIntensiveSystem| * 80 + 100
  }

  /** One text row of `BarLabelsOverlay`; `it.semiIntensiveSystem[key]` may be null, shown as "null". */
  datatype OverlayRow = IntensiveRow(grams: Option<int>) | SemiRow(grams: Option<int>)

  /** `intensiveSystem.keys.forEach`: two rows per intensive bucket, intensive then semi-intensive. */
  function Overlay(gain: ExpectedDailyGain): (rows: seq<OverlayRow>)
    ensures |rows| == 2 * |gain.intensiveSystem|
    ensures forall j :: 0 <= j < |gain.intensiveSystem| ==>
              rows[2 * j] == IntensiveRow(GainOf(gain.intensiveSystem, gain.intensiveSystem[j].bucket)) &&
              rows[2 * j + 1] == SemiRow(GainOf(gain.semiIntensiveSystem, gain.intensiveSystem[j].bucket))
  {
    var n := |gain.intensiveSystem|;
    var rows := seq(2 * n, i requires 0 <= i < 2 * n =>
      var bucket := gain.intensiveSystem[i / 2].bucket;
      if i % 2 == 0 then IntensiveRow(GainOf(gain.intensiveSystem, bucket))
      else SemiRow(GainOf(gain.semiIntensiveSystem, bucket)));
    assert forall j :: 0 <= j < n ==> (2 * j) / 2 == j && (2 * j + 1) / 2 == j && (2 * j + 1) % 2 == 1;
    rows
  }

  /** Every intensive row shows a number; a semi-intensive row shows "null" exactly for a
      bucket the semi-intensive table lacks. */
  lemma OverlayNulls(gain: ExpectedDailyGain, j: nat)
    requires j < |gain.intensiveSystem|
    ensures Overlay(gain)[2 * j].grams.Some?
    ensures Overlay(gain)[2 * j + 1].grams.None? <==>
              forall k :: 0 <= k < |gain.semiIntensiveSystem| ==> gain.semiIntensiveSystem[k].bucket != gain.intensiveSystem[j].bucket
  {
  }

  /** The preview gains: four buckets in both tables give four groups and a 420 dp chart. */
  lemma PreviewChart()
    ensures var gain := ExpectedDailyGain(
              [GainEntry("75", 350), GainEntry("100", 370), GainEntry("150", 420), GainEntry("200", 460)],
              [GainEntry("75", 410), GainEntry("100", 430), GainEntry("150", 490), GainEntry("200", 540)]);
            ChartHeight(gain) == 420 && Groups(gain).Ok? && |Groups(gain).value| == 4
  {
    var gain := ExpectedDailyGain(
      [GainEntry("75", 350), GainEntry("100", 370), GainEntry("150", 420), GainEntry("200", 460)],
      [GainEntry("75", 410), GainEntry("100", 430), GainEntry("150", 490), GainEntry("200", 540)]);
    forall j | 0 <= j < 4 ensures GainOf(gain.intensiveSystem, gain.semiIntensiveSystem[j].bucket).Some? {
      assert gain.intensiveSystem[j].bucket == gain.semiIntensiveSystem[j].bucket;
    }
  }

  /** The screen's state: the selected weight and the store it is saved in. */
  class Screen {
    const records: seq<FeedRecommendation>
    const hash: string
    var prefs: Store
    var selectedBodyWeight: int

    constructor (records: seq<FeedRecommendation>, prefs: Store, hash: string)
      requires InitialBodyWeight(records, prefs, hash).Ok?
      ensures this.records == records && this.hash == hash && this.prefs == prefs
      ensures selectedBodyWeight == InitialBodyWeight(records, prefs, hash).value
    {
      this.records := records;
      this.hash := hash;
      this.prefs := prefs;
      selectedBodyWeight := InitialBodyWeight(records, prefs, hash).value;
    }

    /** The slider's callback: parse the label, save the weight, select it. */
    method OnSliderLabel(text: Option<int>) returns (outcome: Outcome<int>)
      modifies this
      ensures outcome == ParseNumber(text)
      ensures outcome.Ok? ==> prefs == old(prefs)[BodyWeightKey(hash) := IntPref(outcome.value)]
                              && selectedBodyWeight == outcome.value
      ensures outcome.Throws? ==> prefs == old(prefs) && selectedBodyWeight == old(selectedBodyWeight)
    {
      outcome := ParseNumber(text);
      if outcome.Ok? {
        prefs := prefs[BodyWeightKey(hash) := IntPref(outcome.value)];
        selectedBodyWeight := outcome.value;
      }
    }
  }
}
