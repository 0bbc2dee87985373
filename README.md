# Feed Chart — a Dafny model of its decision logic

Feed Chart is an Android app (Kotlin, Jetpack Compose) that shows dairy farmers how much
concentrate, green fodder and dry roughage to feed an animal. It also shows the expected
daily weight gain of a calf. Most of the app is UI over a bundled data table. This project
models the small, sequential rules underneath that UI and proves what they guarantee.

The model covers:

- **the step slider** (`CustomStepSlider`, three revisions):
  - labels mapped onto the range `0..n-1`;
  - the initial step taken from `indexOf(selected)` and clamped;
  - a dragged position mapped back to a label, by rounding (two revisions) or truncation (the oldest);
  - which label is emphasised.
- **the pie chart** (`CustomPieChart`):
  - the flat `[label, value, colour, …]` list de-interleaved by index mod 3;
  - sweep angles `360·v/Σ`;
  - the arc loop with its `lastValue` accumulator;
  - the persisted "show values" toggle.
- **the multi-option switch**: the integer geometry of the highlight, segment styling and taps.
- **the milk-yield and body-weight screens** and the view-based `DetailsActivity`:
  - the first-match lookups over an animal's ordered record list;
  - the default selections;
  - the selections persisted under `"<field>_<hash>"` in a key/value store;
  - the pie triples, bar groups, chart height and overlay rows built from a record.
- **the home screen's description card** (`HomeScreen` and `ui/main/MainActivity`):
  - the click/drag expand state machine;
  - the animal list.
- **the bottom language bar** (three revisions):
  - the `"name:code"` split;
  - the highlight rule;
  - the two separator rules;
  - the persisted locale.

Modelling decisions:

- **Exceptions.** Kotlin exceptions are values of `KotlinLib.Outcome`: `Ok(v)` or `Throws(kind)`. An operation the source lets crash is modelled with its crash wherever the crash can be reached from the app's own calls; the few preconditions that exclude a crash no caller can reach are listed under "Left out". Class constructors require the `Ok` case of the function that models their initialiser.
- **Floats and integers.** `Float`s are reals. `roundToInt` rounds to the nearest integer with ties going up. `toInt` truncates towards zero. `Int` division truncates and throws on zero.
- **The preference store.** `SharedPreferences` is a `map<string, Pref>` with typed values:
  - a missing key yields the default;
  - a value of another type throws `ClassCast`;
  - storing null removes the key, so a stored string is never null.
- **Hashes.** The record list's `hashCode()` is an opaque string.
- **Labels.** A slider label is the number it prints, `Option<real>` or `Option<int>`. `None` stands for the text `"null"`, which `toFloat()`/`toInt()` reject. Float-to-text-to-float is taken to be the identity.
- **Records.** A record has optional `milkYield`, `bodyWeight`, availability map and gain tables, because that is how the screens read it. `data/model/FeedRecommendation.kt:5-10` declares `milkYield` non-null and has no `bodyWeight` or `expectedDailyGain`. `BodyWeightScreen.kt` reads both, and `MilkYieldScreen.kt:60` applies `!!` to `milkYield`. The model follows the screens.
- **Gain tables.** A gain table is an ordered sequence of `(bucket, grams)`, because bars and overlay rows follow the map's key order. A lookup returns the first entry with the key; with distinct keys, as in a map, that is the entry.
- **Shared logic.** Revisions that differ only in a detail share one definition, parameterised by that detail:
  - `StepSlider.Rounding` and `StepSlider.Revision` for the slider;
  - `LanguageBar.SeparatorRule` and an optional current code for the language bar.

  The two copies of the expand card are one class, `AppDescription.Card`.

## Model

| member | source | states |
|---|---|---|
| KotlinLib.CoerceIn | app/src/main/java/com/jery/feedchart/util/composables/CustomStepSlider.kt:43 | `coerceIn` throws exactly for an empty range; otherwise the result lies in the range, equals x inside it and the nearer bound outside it |
| KotlinLib.RoundToInt | app/src/main/java/com/jery/feedchart/util/composables/CustomStepSlider.kt:85 | the result is within half a step of x, ties going up |
| KotlinLib.ToInt | app/src/main/java/com/jery/feedchart/ui/details/CustomStepSlider.kt:75 | truncation towards zero, for both signs |
| KotlinLib.IntDiv | app/src/main/java/com/jery/feedchart/util/composables/MultiOptionSwitch.kt:76 | `Int` division throws exactly for a zero divisor; the quotient's magnitude is the quotient of magnitudes and its sign is the product of signs |
| KotlinLib.IntDivBounds | app/src/main/java/com/jery/feedchart/util/composables/MultiOptionSwitch.kt:77 | for a ≥ 0 and b > 0 the quotient q satisfies q·b ≤ a < (q+1)·b |
| KotlinLib.QuotientOfNaturals | app/src/main/java/com/jery/feedchart/util/composables/MultiOptionSwitch.kt:76 | helper of IntDiv: the quotient of two naturals with a positive divisor is a natural |
| KotlinLib.IndexOfFirst | app/src/main/java/com/jery/feedchart/ui/details/MilkYieldScreen.kt:207 | the first index whose element satisfies p, or -1 exactly when none does |
| KotlinLib.IndexOf | app/src/main/java/com/jery/feedchart/util/composables/CustomStepSlider.kt:43 | the index of the first occurrence, or -1 exactly when the element is absent |
| KotlinLib.Find | app/src/main/java/com/jery/feedchart/ui/details/BodyWeightScreen.kt:128 | null exactly when no element matches; otherwise the first matching element |
| KotlinLib.Split | app/src/main/java/com/jery/feedchart/ui/composables/BottomLanguageBar.kt:44 | `split(":")` gives at least one field and no field contains the delimiter |
| KotlinLib.JoinSplit | app/src/main/java/com/jery/feedchart/ui/composables/BottomLanguageBar.kt:44 | joining the fields with the delimiter gives back the text |
| KotlinLib.SplitNoDelimiter | app/src/main/java/com/jery/feedchart/ui/composables/BottomLanguageBar.kt:71 | text without the delimiter is a single field |
| KotlinLib.SplitAtFirstDelimiter | app/src/main/java/com/jery/feedchart/util/composables/BottomLanguageBar.kt:30 | a delimiter-free prefix followed by the delimiter is exactly the first field |
| KotlinLib.SplitCount | app/src/main/java/com/jery/feedchart/util/BottomLanguageBar.kt:26 | there is more than one field exactly when the text contains the delimiter |
| Preferences.GetFloat | app/src/main/java/com/jery/feedchart/ui/details/MilkYieldScreen.kt:58-61 | default for a missing key, the stored float otherwise, ClassCast for another type |
| Preferences.GetInt | app/src/main/java/com/jery/feedchart/ui/details/BodyWeightScreen.kt:66-69 | default for a missing key, the stored int otherwise, ClassCast for another type |
| Preferences.GetString | app/src/main/java/com/jery/feedchart/ui/details/MilkYieldScreen.kt:66-68 | default (possibly null) for a missing key; a stored string is returned non-null; ClassCast for another type |
| Preferences.GetBoolean | app/src/main/java/com/jery/feedchart/util/composables/CustomPieChart.kt:202-205 | default for a missing key, the stored boolean otherwise, ClassCast for another type |
| FeedData.ValueOf | app/src/main/java/com/jery/feedchart/ui/details/MilkYieldScreen.kt:69 | `valueOf` succeeds exactly for the three constant names |
| FeedData.NameValueOf | app/src/main/java/com/jery/feedchart/ui/details/MilkYieldScreen.kt:94 | `valueOf(a.name) == a`, and a name maps to `a` only if it is `a.name` |
| FeedData.GainOf | app/src/main/java/com/jery/feedchart/ui/details/BodyWeightScreen.kt:168 | `table[key]` is null exactly when no entry has the key, otherwise the gain of an entry with that key |
| FeedData.FindByMilkYield | app/src/main/java/com/jery/feedchart/ui/details/MilkYieldScreen.kt:206-207 | null exactly when no record has the yield, otherwise the first record that has it |
| FeedData.FindByBodyWeight | app/src/main/java/com/jery/feedchart/ui/details/BodyWeightScreen.kt:128 | null exactly when no record has the weight, otherwise the first record that has it |
| FeedData.MilkYieldRecommendation | app/src/main/java/com/jery/feedchart/ui/details/MilkYieldScreen.kt:206-209 | non-null exactly when the first record with the yield has an availability map containing the key; then its entry |
| FeedData.FirstMatchWins | app/src/main/java/com/jery/feedchart/ui/details/DetailsActivity.kt:63-65 | appending any later records, with the same yield or not, does not change the lookup once an earlier record has the yield |
| StepSlider.SnapPoints | app/src/main/java/com/jery/feedchart/util/composables/CustomStepSlider.kt:81-82 | a range with `steps` interior points has steps + 2 snap points |
| StepSlider.SnapPointsAreIndices | app/src/main/java/com/jery/feedchart/ui/composables/CustomStepSlider.kt:93-94 | with range `0..stepCount` and `stepCount - 1` steps, the snap points are exactly the label indices 0..n-1 |
| StepSlider.InitialStep | app/src/main/java/com/jery/feedchart/util/composables/CustomStepSlider.kt:42-43 | throws exactly for an empty list; otherwise a valid index: the first occurrence of the selected value, or 0 when it is absent |
| StepSlider.SelectedIndex | app/src/main/java/com/jery/feedchart/util/composables/CustomStepSlider.kt:85 | always a valid index; positions left or right of the range give the end labels; inside it, the nearest step (rounding) or the step at or below (truncation) |
| StepSlider.EmittedValue | app/src/main/java/com/jery/feedchart/util/composables/CustomStepSlider.kt:86 | the emitted label is always an element of the list |
| StepSlider.InitialStepRoundTrip | app/src/main/java/com/jery/feedchart/ui/details/CustomStepSlider.kt:38-76 | feeding a label's initial step back as the position emits that label's first occurrence, under both rounding rules |
| StepSlider.SnapPointSelectsItsLabel | app/src/main/java/com/jery/feedchart/ui/composables/CustomStepSlider.kt:93-98 | every snap point selects the label under it |
| StepSlider.RoundingExample | app/src/main/java/com/jery/feedchart/ui/composables/CustomStepSlider.kt:97-98 | position 2.6 on three labels emits the last one |
| StepSlider.TruncationExample | app/src/main/java/com/jery/feedchart/ui/details/CustomStepSlider.kt:75-76 | position 1.6 selects index 1 when truncating, 2 when rounding |
| StepSlider.LabelRow | app/src/main/java/com/jery/feedchart/util/composables/CustomStepSlider.kt:119-125 | one label per value in order; exactly the labels equal to the selection are emphasised: 22 vs 16, 1.5× vs 1×, or the primary colour |
| StepSlider.EmphasisCount | app/src/main/java/com/jery/feedchart/ui/composables/CustomStepSlider.kt:133-135 | as many labels are emphasised as the selected value occurs |
| StepSlider.OccurrencesOfDistinct | app/src/main/java/com/jery/feedchart/ui/details/CustomStepSlider.kt:115 | with distinct labels, exactly one is emphasised when the selection is a label, none otherwise |
| StepSlider.Slider.constructor | app/src/main/java/com/jery/feedchart/util/composables/CustomStepSlider.kt:44 | the thumb starts at the initial step |
| StepSlider.Slider.OnValueChange | app/src/main/java/com/jery/feedchart/util/composables/CustomStepSlider.kt:83-87 | stores the raw position, then emits the label of the clamped rounded (or truncated) index |
| PieChart.EveryThirdAt | app/src/main/java/com/jery/feedchart/util/composables/CustomPieChart.kt:80-82 | `filterIndexed { i % 3 == r }` has ⌈(len − r)/3⌉ elements, element j being the one at 3j + r |
| PieChart.Labels | app/src/main/java/com/jery/feedchart/util/composables/CustomPieChart.kt:80 | of a well-formed list: len/3 labels, label j from position 3j |
| PieChart.Values | app/src/main/java/com/jery/feedchart/util/composables/CustomPieChart.kt:81 | len/3 values, value j from position 3j + 1 |
| PieChart.Colours | app/src/main/java/com/jery/feedchart/util/composables/CustomPieChart.kt:82 | len/3 colours, colour j from position 3j + 2 |
| PieChart.Interleave | app/src/main/java/com/jery/feedchart/ui/details/MilkYieldScreen.kt:234-238 | the flat list of k triples has length 3k with label, value, colour of triple j at 3j, 3j+1, 3j+2 |
| PieChart.InterleaveWellFormed | app/src/main/java/com/jery/feedchart/util/composables/CustomPieChart.kt:80-82 | every interleaved list passes the chart's casts |
| PieChart.DeinterleaveInterleave | app/src/main/java/com/jery/feedchart/util/composables/CustomPieChart.kt:80-82 | de-interleaving k triples gives back their k labels, values and colours, in order |
| PieChart.LabelsOfInterleave | app/src/main/java/com/jery/feedchart/util/composables/CustomPieChart.kt:80 | the labels of an interleaved list are the triples' labels |
| PieChart.ValuesOfInterleave | app/src/main/java/com/jery/feedchart/util/composables/CustomPieChart.kt:81 | the values of an interleaved list are the triples' values |
| PieChart.ColoursOfInterleave | app/src/main/java/com/jery/feedchart/util/composables/CustomPieChart.kt:82 | the colours of an interleaved list are the triples' colours |
| PieChart.Sweeps | app/src/main/java/com/jery/feedchart/util/composables/CustomPieChart.kt:88-89 | one sweep per value with sweep·Σ = 360·v; the total must be non-zero (no guard in the source) |
| PieChart.SumProportional | app/src/main/java/com/jery/feedchart/util/composables/CustomPieChart.kt:88 | term-by-term proportional values have proportional sums |
| PieChart.SweepsSumTo360 | app/src/main/java/com/jery/feedchart/util/composables/CustomPieChart.kt:89 | with a non-zero total the sweeps sum to 360 |
| PieChart.PreviewSweeps | app/src/main/java/com/jery/feedchart/util/composables/CustomPieChart.kt:46-50 | the preview values 20, 30, 50 give sweeps of 72, 108, 180 |
| PieChart.SumNonNegative | app/src/main/java/com/jery/feedchart/util/composables/CustomPieChart.kt:88 | non-negative values have a non-negative sum |
| PieChart.SweepsNonNegative | app/src/main/java/com/jery/feedchart/util/composables/CustomPieChart.kt:89 | non-negative values give non-negative sweeps |
| PieChart.SumPrefixStep | app/src/main/java/com/jery/feedchart/util/composables/CustomPieChart.kt:192 | adding the next sweep to the running sum gives the sum of the longer prefix |
| PieChart.DrawArcs | app/src/main/java/com/jery/feedchart/util/composables/CustomPieChart.kt:159-193 | one arc per sweep; arc i starts at the sum of sweeps 0..i−1 and its label, when shown, is at its mid-angle |
| PieChart.ArcsContiguous | app/src/main/java/com/jery/feedchart/util/composables/CustomPieChart.kt:162-192 | the first arc starts at 0, each arc ends where the next begins, the last ends at the total |
| PieChart.ArcsCloseCircle | app/src/main/java/com/jery/feedchart/util/composables/CustomPieChart.kt:88-92 | for a chart's own sweeps the last arc ends at 360 |
| PieChart.LabelInsideArc | app/src/main/java/com/jery/feedchart/util/composables/CustomPieChart.kt:168-169 | a shown label sits at start + sweep/2, inside the arc for a non-negative sweep; no label when labels are off |
| PieChart.ValuesPanel.constructor | app/src/main/java/com/jery/feedchart/util/composables/CustomPieChart.kt:200-207 | the panel starts from the stored `expanded_key`, default false |
| PieChart.ValuesPanel.OnClick | app/src/main/java/com/jery/feedchart/util/composables/CustomPieChart.kt:223-225 | a click negates `expanded` and writes the new value to `expanded_key` |
| PieChart.ExpandedPersists | app/src/main/java/com/jery/feedchart/util/composables/CustomPieChart.kt:224-225 | a chart opened after a click reads back the state the click left |
| MultiOptionSwitch.HighlightOffset | app/src/main/java/com/jery/feedchart/util/composables/MultiOptionSwitch.kt:76 | `(w / n) * selected` with integer division; throws exactly for an empty option list |
| MultiOptionSwitch.HighlightWidth | app/src/main/java/com/jery/feedchart/util/composables/MultiOptionSwitch.kt:77 | `w / n + selected`; throws exactly for an empty option list |
| MultiOptionSwitch.HighlightInside | app/src/main/java/com/jery/feedchart/util/composables/MultiOptionSwitch.kt:76-77 | for 0 ≤ selected < n: offset ≥ 0, offset + w/n ≤ w, and the drawn highlight ends at most `selected` pixels past w |
| MultiOptionSwitch.MulMonotone | app/src/main/java/com/jery/feedchart/util/composables/MultiOptionSwitch.kt:76 | multiplying by a natural number preserves order |
| MultiOptionSwitch.Segments | app/src/main/java/com/jery/feedchart/util/composables/MultiOptionSwitch.kt:93-117 | one segment per option in order; exactly the selected index gets the selected scale and colour; tapping segment i reports i |
| MultiOptionSwitch.OneSelectedSegment | app/src/main/java/com/jery/feedchart/util/composables/MultiOptionSwitch.kt:95-117 | exactly one segment is selected-styled when the index is in range, none otherwise |
| MultiOptionSwitch.Switch.constructor | app/src/main/java/com/jery/feedchart/util/composables/MultiOptionSwitch.kt:61 | the width starts at 0 |
| MultiOptionSwitch.Switch.OnSizeChanged | app/src/main/java/com/jery/feedchart/util/composables/MultiOptionSwitch.kt:67-68 | each size change replaces the width |
| MilkYieldScreen.KeysDistinct | app/src/main/java/com/jery/feedchart/ui/details/MilkYieldScreen.kt:59-67 | the yield key and the availability key never collide, and each determines its hash |
| MilkYieldScreen.InitialMilkYield | app/src/main/java/com/jery/feedchart/ui/details/MilkYieldScreen.kt:56-63 | empty list: NoSuchElement; last record without yield: NullPointer (even with a stored value); otherwise the stored float, or the last record's yield when nothing is stored |
| MilkYieldScreen.InitialAvailability | app/src/main/java/com/jery/feedchart/ui/details/MilkYieldScreen.kt:64-70 | HIGH when nothing is stored, `valueOf` of the stored name otherwise (throws for other text), ClassCast for a non-string |
| MilkYieldScreen.LowOnlyWhenStored | app/src/main/java/com/jery/feedchart/ui/details/MilkYieldScreen.kt:69 | the `?: LOW` fallback never fires: LOW is read only when "LOW" is stored |
| MilkYieldScreen.ReopenRestoresSelection | app/src/main/java/com/jery/feedchart/ui/details/MilkYieldScreen.kt:58-95 | after storing a yield or an availability, a reopen reads it back; storing one does not disturb the other |
| MilkYieldScreen.SliderLabels | app/src/main/java/com/jery/feedchart/ui/details/MilkYieldScreen.kt:115 | the slider labels are the records' yields, in list order |
| KotlinLib.ParseNumber | app/src/main/java/com/jery/feedchart/ui/details/MilkYieldScreen.kt:131 | `toFloat()` (likewise `toInt()` at BodyWeightScreen.kt:118) succeeds exactly for a number's text and gives that number back; "null" throws NumberFormat |
| MilkYieldScreen.EmittedYieldHasRecord | app/src/main/java/com/jery/feedchart/ui/details/MilkYieldScreen.kt:127-131 | when all records have yields, every slider position emits a label that parses to a yield some record has |
| MilkYieldScreen.SliderStartsAtSelection | app/src/main/java/com/jery/feedchart/ui/details/MilkYieldScreen.kt:129 | the slider starts at the first record having the selected yield |
| MilkYieldScreen.ChartData | app/src/main/java/com/jery/feedchart/ui/details/MilkYieldScreen.kt:233-238 | nothing drawn for a null recommendation; otherwise a well-formed list whose labels, values and colours are concentrate, green fodder, dry roughage in that order |
| MilkYieldScreen.RadioOptions | app/src/main/java/com/jery/feedchart/ui/details/MilkYieldScreen.kt:171-191 | options in enum order with their colours; exactly one marked, the selected one, drawn opaque, the others at 0.6 |
| MilkYieldScreen.Screen.constructor | app/src/main/java/com/jery/feedchart/ui/details/MilkYieldScreen.kt:56-70 | the selections start from InitialMilkYield and InitialAvailability |
| MilkYieldScreen.Screen.OnMilkYieldSelected | app/src/main/java/com/jery/feedchart/ui/details/MilkYieldScreen.kt:82-85 | stores the yield under its key and selects it, leaving the availability alone |
| MilkYieldScreen.Screen.OnSliderLabel | app/src/main/java/com/jery/feedchart/ui/details/MilkYieldScreen.kt:130-131 | the emitted label is parsed first; "null" throws and changes nothing |
| MilkYieldScreen.Screen.OnFodderAvailabilitySelected | app/src/main/java/com/jery/feedchart/ui/details/MilkYieldScreen.kt:92-95 | stores `a.name` under its key and selects `a` |
| MilkYieldScreen.Screen.Recommendation | app/src/main/java/com/jery/feedchart/ui/details/MilkYieldScreen.kt:101-105 | a shown recommendation is the entry of the first record with the selected yield |
| BodyWeightScreen.BodyWeightKeyInjective | app/src/main/java/com/jery/feedchart/ui/details/BodyWeightScreen.kt:67 | the key determines its hash |
| BodyWeightScreen.KeysDisjointAcrossScreens | app/src/main/java/com/jery/feedchart/ui/details/BodyWeightScreen.kt:63-67 | both screens share the `feed_prefs` store, and the body-weight key never equals the milk-yield or the availability key, whatever the hashes |
| BodyWeightScreen.InitialBodyWeight | app/src/main/java/com/jery/feedchart/ui/details/BodyWeightScreen.kt:64-71 | empty list: NoSuchElement; first record without weight: NullPointer; otherwise the stored int, or the first record's weight |
| BodyWeightScreen.ReopenRestoresBodyWeight | app/src/main/java/com/jery/feedchart/ui/details/BodyWeightScreen.kt:84-85 | a stored weight is read back on the next open |
| BodyWeightScreen.SliderLabels | app/src/main/java/com/jery/feedchart/ui/details/BodyWeightScreen.kt:102 | the labels are the records' weights, in list order |
| BodyWeightScreen.GainFor | app/src/main/java/com/jery/feedchart/ui/details/BodyWeightScreen.kt:128-141 | the gains of the first record with the weight; `!!` throws when no record matches or it has no gains |
| BodyWeightScreen.EmittedWeightHasGain | app/src/main/java/com/jery/feedchart/ui/details/BodyWeightScreen.kt:114-119 | when all records have weights and gains, every slider position leads to a displayable gain |
| BodyWeightScreen.GroupFor | app/src/main/java/com/jery/feedchart/ui/details/BodyWeightScreen.kt:163-187 | one bucket's group: intensive bar then semi-intensive bar; throws for a bucket missing from either table |
| BodyWeightScreen.Groups | app/src/main/java/com/jery/feedchart/ui/details/BodyWeightScreen.kt:162-188 | succeeds exactly when every semi-intensive bucket is also intensive; one group per semi-intensive entry, in key order |
| BodyWeightScreen.GroupsFollowSemiTable | app/src/main/java/com/jery/feedchart/ui/details/BodyWeightScreen.kt:178 | with distinct buckets, group j's second bar is entry j's own gain |
| BodyWeightScreen.DistinctBucketGain | app/src/main/java/com/jery/feedchart/ui/details/BodyWeightScreen.kt:168 | in a table with distinct buckets, looking up entry j's bucket gives entry j's gain |
| BodyWeightScreen.ChartHeight | app/src/main/java/com/jery/feedchart/ui/details/BodyWeightScreen.kt:212 | the height is 80 per semi-intensive entry plus 100 |
| BodyWeightScreen.Overlay | app/src/main/java/com/jery/feedchart/ui/details/BodyWeightScreen.kt:229-263 | two rows per intensive bucket, intensive then semi-intensive, in key order |
| BodyWeightScreen.OverlayNulls | app/src/main/java/com/jery/feedchart/ui/details/BodyWeightScreen.kt:241-258 | an intensive row always shows a number; a semi-intensive row shows "null" exactly for a bucket the semi table lacks |
| BodyWeightScreen.PreviewChart | app/src/main/java/com/jery/feedchart/ui/details/BodyWeightScreen.kt:270-274 | the preview tables give four groups and a 420 dp chart |
| BodyWeightScreen.Screen.constructor | app/src/main/java/com/jery/feedchart/ui/details/BodyWeightScreen.kt:64-71 | the selection starts from InitialBodyWeight |
| BodyWeightScreen.Screen.OnSliderLabel | app/src/main/java/com/jery/feedchart/ui/details/BodyWeightScreen.kt:83-86 | parses the label; on success stores and selects the weight, on "null" throws and changes nothing |
| DetailsActivity.RecordsFor | app/src/main/java/com/jery/feedchart/ui/details/DetailsActivity.kt:62 | an unknown animal has an empty record list |
| DetailsActivity.GetRecommendation | app/src/main/java/com/jery/feedchart/ui/details/DetailsActivity.kt:57-66 | null for an unknown animal; otherwise the first-match lookup |
| DetailsActivity.SpinnerItems | app/src/main/java/com/jery/feedchart/ui/details/DetailsActivity.kt:33-36 | the animal's yields in order, empty for an unknown animal |
| DetailsActivity.SpinnerItemHasRecord | app/src/main/java/com/jery/feedchart/ui/details/DetailsActivity.kt:35 | a numeric spinner item always names a record of the animal |
| DetailsActivity.ParseSelection | app/src/main/java/com/jery/feedchart/ui/details/DetailsActivity.kt:77 | yields a number exactly when an item is selected and parses |
| DetailsActivity.CheckedAvailability | app/src/main/java/com/jery/feedchart/ui/details/DetailsActivity.kt:78-83 | the first matching radio id decides; any other id means HIGH |
| DetailsActivity.Details.constructor | app/src/main/java/com/jery/feedchart/ui/details/DetailsActivity.kt:20-29 | the texts start unwritten |
| DetailsActivity.Details.DisplayRecommendation | app/src/main/java/com/jery/feedchart/ui/details/DetailsActivity.kt:68-74 | a null recommendation leaves the three texts unchanged; otherwise they show its amounts |
| DetailsActivity.Details.UpdateRecommendations | app/src/main/java/com/jery/feedchart/ui/details/DetailsActivity.kt:76-87 | no parseable selection: nothing changes; otherwise the texts show the lookup's result, if any |
| DetailsActivity.DatasetExample | app/src/main/java/com/jery/feedchart/ui/details/DetailsActivity.kt:62-65 | concrete lookups: a hit, a missing availability, a missing yield, an unknown animal |
| AppDescription.ExpandedAfterDrag | app/src/main/java/com/jery/feedchart/ui/main/MainActivity.kt:108-112 | offset > 100 expands, < −100 collapses, anything between keeps the state |
| AppDescription.Step | app/src/main/java/com/jery/feedchart/ui/main/MainActivity.kt:104-112 | a click negates `expanded` and keeps the offset; a drag adds its delta and applies the thresholds |
| AppDescription.OffsetIsDragTotal | app/src/main/java/com/jery/feedchart/ui/home/HomeScreen.kt:131 | the offset is never reset: it is the start plus every delta so far |
| AppDescription.ClicksToggle | app/src/main/java/com/jery/feedchart/ui/home/HomeScreen.kt:128 | clicks alone toggle the card, leaving the offset unchanged |
| AppDescription.ClickUndoneByNextDrag | app/src/main/java/com/jery/feedchart/ui/home/HomeScreen.kt:128-133 | once the offset is past 100, a click's collapse is undone by the next drag that keeps it there |
| AppDescription.DragExample | app/src/main/java/com/jery/feedchart/ui/home/HomeScreen.kt:130-134 | concrete drag sequences from a fresh card: expand at 110, stay at −40, collapse at −110 |
| AppDescription.VisibleText | app/src/main/java/com/jery/feedchart/ui/home/HomeScreen.kt:150-169 | the description is shown exactly when expanded, "read more" otherwise |
| AppDescription.Card.constructor | app/src/main/java/com/jery/feedchart/ui/home/HomeScreen.kt:117-118 | collapsed with offset 0 |
| AppDescription.Card.OnClick | app/src/main/java/com/jery/feedchart/ui/main/MainActivity.kt:104 | negates `expanded`, keeps the offset |
| AppDescription.Card.OnDrag | app/src/main/java/com/jery/feedchart/ui/home/HomeScreen.kt:130-134 | adds the delta, then expands above 100, collapses below −100, keeps the state in between |
| AppDescription.AnimalList | app/src/main/java/com/jery/feedchart/ui/home/HomeScreen.kt:80-86 | one item per animal type with its description and icon, item i reporting i; IndexOutOfBounds when descriptions or icons run short |
| AppDescription.MainScreenTwoAnimals | app/src/main/java/com/jery/feedchart/ui/main/MainActivity.kt:79-165 | with the two fixed icons of `MainScreen`, the list builds exactly for at most two animal types |
| LanguageBar.ParseEntry | app/src/main/java/com/jery/feedchart/ui/composables/BottomLanguageBar.kt:44 | destructuring succeeds exactly when the entry contains ':'; name and code are ':'-free |
| LanguageBar.ParseEntryOf | app/src/main/java/com/jery/feedchart/util/composables/BottomLanguageBar.kt:30 | `name:code`, with or without further fields, parses to that name and code |
| LanguageBar.EntryButton | app/src/main/java/com/jery/feedchart/ui/composables/BottomLanguageBar.kt:45-69 | the button shows the entry's name and code, highlighted exactly when its code is the current one |
| LanguageBar.EntryItems | app/src/main/java/com/jery/feedchart/ui/composables/BottomLanguageBar.kt:43-71 | an entry gives its button, then a "\|" exactly when the rule asks for one |
| LanguageBar.ItemsOk | app/src/main/java/com/jery/feedchart/util/BottomLanguageBar.kt:25-26 | the bar is built exactly when every entry contains ':' |
| LanguageBar.ButtonsAppend | app/src/main/java/com/jery/feedchart/util/BottomLanguageBar.kt:25 | the buttons of two rows joined are the buttons of each, joined |
| LanguageBar.ItemsShape | app/src/main/java/com/jery/feedchart/util/composables/BottomLanguageBar.kt:29-36 | one button per entry in list order with its name and code; the rest are separators |
| LanguageBar.AfterEveryInterleaves | app/src/main/java/com/jery/feedchart/util/BottomLanguageBar.kt:25-37 | the separate-every-entry revision interleaves exactly n buttons and n separators |
| LanguageBar.NoTrailingSeparator | app/src/main/java/com/jery/feedchart/ui/composables/BottomLanguageBar.kt:71 | under the last-name rule the bar ends with the last entry's button |
| LanguageBar.LastNameIsParsedName | app/src/main/java/com/jery/feedchart/util/composables/BottomLanguageBar.kt:36 | `languages.last().split(":").first()` is the last entry's parsed name |
| LanguageBar.DistinctNamesSeparators | app/src/main/java/com/jery/feedchart/util/composables/BottomLanguageBar.kt:36 | with distinct names, the last-name rule places n − 1 separators |
| LanguageBar.DistinctNamesBar | app/src/main/java/com/jery/feedchart/ui/composables/BottomLanguageBar.kt:43-71 | with distinct names the bar has 2n − 1 items and ends with the last button |
| LanguageBar.DuplicateLastName | app/src/main/java/com/jery/feedchart/util/composables/BottomLanguageBar.kt:29-36 | an earlier entry sharing the last entry's name gets no separator either; the other rule separates all |
| LanguageBar.EntryFacts | app/src/main/java/com/jery/feedchart/util/BottomLanguageBar.kt:37 | a one-letter `n:c` entry gives its button and, when the rule asks, a separator |
| LanguageBar.PersistedLocale | app/src/main/java/com/jery/feedchart/util/LocaleUtils.kt:21-23 | the stored `selected_language`, null when none is stored, ClassCast for a non-string value |
| LanguageBar.CurrentCode | app/src/main/java/com/jery/feedchart/ui/composables/BottomLanguageBar.kt:36 | the persisted code if any, otherwise the default language |
| LanguageBar.SetLocale | app/src/main/java/com/jery/feedchart/util/LocaleUtils.kt:16-17 | writes the code under `selected_language` |
| LanguageBar.ClickHighlightsEntry | app/src/main/java/com/jery/feedchart/ui/composables/BottomLanguageBar.kt:45-48 | after clicking entry i its code is current and exactly the buttons with that code are highlighted |

## Left out

- Compose layout, styling and animation are not modelled: themes, typography, dp/sp scaling, tweens and springs, bar stagger delays, rotation and radius animation. They do not change the settled state. The chart's arcs are modelled with the settled sweeps, not the animated ones.
- Pie-label placement uses `cos`/`sin` of the mid-angle (`CustomPieChart.kt:170-175`). Only the mid-angle is modelled.
- `lastValue` (`CustomPieChart.kt:92`) is declared outside the canvas lambda. A redraw without recomposition would start from the previous end angle. `DrawArcs` starts every drawing at 0. When the sweeps sum to 360, the two starts differ by a full turn.
- Float formatting (`FeedDetails.toIntIfNoDecimals`, `"%.2f Kg".format`) is not modelled. Float `toString`/`toFloat` is treated as an exact round trip. The texts of `DetailsActivity` hold the amounts, not their formatted strings.
- `FeedRepository` (raw-resource I/O and Gson) is not modelled. Records are parameters. Gson's key order is the order of the gain sequences.
- Android platform calls are not modelled:
  - `LocaleUtils.applyLocale` and `Locale.getDefault()`, which is a parameter;
  - `recreate`, intents and `stringResource`, whose captions are parameters;
  - `List.hashCode()`, an opaque string.
- The chart's `DisplayValues` panel and its `scrollTo` coroutine are not modelled.
- `ui/details/RecommendationChart.kt` is not part of this model.
- `LazyColumn`/`LazyRow` compose items lazily. `AnimalList` and `LanguageBar.Bar` compose every item, so a short description or icon array, or a bad entry, throws even when the item would never scroll into view.
- PieChart.Sweeps requires a non-zero total. The source divides by the sum unguarded and would produce NaN/Infinity floats, which reals do not have.
- MultiOptionSwitch.HighlightOffset does not model 32-bit `Int` overflow of `(w / n) * selected`, because widths and option counts are small. The same holds for `ChartHeight`, and for the saturation of `roundToInt`/`toInt` outside the `Int` range.
- The Compose `Slider`'s own handling of `steps < 0` (a one-label list) is not modelled. `SnapPointsAreIndices` requires two labels.
- StepSlider.Slider.constructor requires a non-empty list: for an empty list `InitialStep` returns its crash (`IllegalArgument`) as a value.
- PieChart.Labels, PieChart.Values and PieChart.Colours require a well-formed list (length a multiple of 3, each slot of its kind). The casts at `CustomPieChart.kt:80-82` are unchecked, so on any other list the source crashes where the elements are used (`values.sum()`, a label, `colors[index]`). The only caller builds its list with `Interleave`, which is proved well-formed.
- StepSlider.SelectedIndex and StepSlider.EmittedValue require a non-empty label list. For an empty list the source's `coerceIn(0, -1)` throws, which `InitialStep` models; the slider never receives a position before it has been built over a non-empty list.
