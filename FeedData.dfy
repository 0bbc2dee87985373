/** The dataset records the screens read, and the first-match lookups over an
    animal's ordered record list. */
module FeedData {
  import opened KotlinLib

  /** Green-fodder availability, in declaration (and radio-button) order. */
  datatype FodderAvailability = HIGH | MODERATE | LOW

  /** The three daily amounts, in kilograms. */
  datatype FeedDetails = FeedDetails(concentrate: real, greenFodder: real, dryRoughage: real)

  /** One body-weight bucket of a gain table and its daily gain in grams. */
  datatype GainEntry = GainEntry(bucket: string, grams: int)

  /** The two gain tables, each in the key order of the dataset. */
  datatype ExpectedDailyGain = ExpectedDailyGain(semiIntensiveSystem: seq<GainEntry>, intensiveSystem: seq<GainEntry>)

  /** A record as the screens use it; every field may be absent in the dataset. */
  datatype FeedRecommendation = FeedRecommendation(
    milkYield: Option<real>,
    bodyWeight: Option<int>,
    greenFodderAvailability: Option<map<FodderAvailability, FeedDetails>>,
    expectedDailyGain: Option<ExpectedDailyGain>)

  const AllAvailabilities: seq<FodderAvailability> := [HIGH, MODERATE, LOW]

  /** `FodderAvailability.name`. */
  function Name(a: FodderAvailability): string
  {
    match a
    case HIGH => "HIGH"
    case MODERATE => "MODERATE"
    case LOW => "LOW"
  }

  /** `FodderAvailability.valueOf(s)`: throws for a string that names no constant. */
  function ValueOf(s: string): (r: Outcome<FodderAvailability>)
    ensures r.Ok? <==> s in {"HIGH", "MODERATE", "LOW"}
  {
    if s == "HIGH" then Ok(HIGH)
    else if s == "MODERATE" then Ok(MODERATE)
    else if s == "LOW" then Ok(LOW)
    else Throws(IllegalArgument)
  }

  /** valueOf and name are inverse to each other. */
  lemma NameValueOf(a: FodderAvailability, s: string)
    ensures ValueOf(Name(a)) == Ok(a)
    ensures ValueOf(s) == Ok(a) <==> s == Name(a)
  {
  }

  /** The gain of a bucket in one table (`table[key]`), null when absent. */
  function GainOf(table: seq<GainEntry>, bucket: string): (r: Option<int>)
    ensures r.None? <==> forall j :: 0 <= j < |table| ==> table[j].bucket != bucket
    ensures r.Some? ==> exists j :: 0 <= j < |table| && table[j] == GainEntry(bucket, r.value)
  {
    var e := Find(table, (g: GainEntry) => g.bucket == bucket);
    if e.None? then None else Some(e.value.grams)
  }

  /** `records.find { it.milkYield == y }`. */
  function FindByMilkYield(records: seq<FeedRecommendation>, y: real): (r: Option<FeedRecommendation>)
    ensures r.None? <==> forall j :: 0 <= j < |records| ==> records[j].milkYield != Some(y)
    ensures r.Some? ==> exists k :: 0 <= k < |records| && records[k] == r.value && r.value.milkYield == Some(y)
                                   && forall j :: 0 <= j < k ==> records[j].milkYield != Some(y)
  {
    Find(records, (rec: FeedRecommendation) => rec.milkYield == Some(y))
  }

  /** `records.find { it.bodyWeight == w }`. */
  function FindByBodyWeight(records: seq<FeedRecommendation>, w: int): (r: Option<FeedRecommendation>)
    ensures r.None? <==> forall j :: 0 <= j < |records| ==> records[j].bodyWeight != Some(w)
    ensures r.Some? ==> exists k :: 0 <= k < |records| && records[k] == r.value && r.value.bodyWeight == Some(w)
                                   && forall j :: 0 <= j < k ==> records[j].bodyWeight != Some(w)
  {
    Find(records, (rec: FeedRecommendation) => rec.bodyWeight == Some(w))
  }

  /** `records.find { it.milkYield == y }?.greenFodderAvailability?.get(a)`: the feed amounts
      of the FIRST record with that yield, null when no record has it or its map lacks `a`. */
  function MilkYieldRecommendation(records: seq<FeedRecommendation>, y: real, a: FodderAvailability): (r: Option<FeedDetails>)
    ensures r.Some? <==> exists k :: 0 <= k < |records| && FirstWithMilkYield(records, y, k)
                                     && records[k].greenFodderAvailability.Some?
                                     && a in records[k].greenFodderAvailability.value
    ensures forall k :: 0 <= k < |records| && FirstWithMilkYield(records, y, k) && r.Some? ==>
              r.value == records[k].greenFodderAvailability.value[a]
  {
    var rec := FindByMilkYield(records, y);
    if rec.None? then None
    else if rec.value.greenFodderAvailability.None? then None
    else if a !in rec.value.greenFodderAvailability.value then None
    else Some(rec.value.greenFodderAvailability.value[a])
  }

  /** Record `k` is the first one whose milk yield is `y`. */
  ghost predicate FirstWithMilkYield(records: seq<FeedRecommendation>, y: real, k: int)
  {
    0 <= k < |records| && records[k].milkYield == Some(y)
    && forall j :: 0 <= j < k ==> records[j].milkYield != Some(y)
  }

  /** Earlier records with the same yield shadow later ones (first match wins): appending
      any records after the first one with the yield does not change the lookup. */
  lemma {:induction false} FirstMatchWins(records: seq<FeedRecommendation>, later: seq<FeedRecommendation>, y: real, a: FodderAvailability, k: nat)
    requires FirstWithMilkYield(records, y, k)
    ensures MilkYieldRecommendation(records + later, y, a) == MilkYieldRecommendation(records, y, a)
  {
    var longer := records + later;
    assert FirstWithMilkYield(longer, y, k) by {
      assert forall j :: 0 <= j <= k ==> longer[j] == records[j];
    }
    var r := FindByMilkYield(longer, y);
    var r0 := FindByMilkYield(records, y);
    assert r == Some(records[k]) by {
      var k' :| 0 <= k' < |longer| && longer[k'] == r.value && r.value.milkYield == Some(y)
                && forall j :: 0 <= j < k' ==> longer[j].milkYield != Some(y);
      assert k' == k;
    }
    assert r0 == Some(records[k]) by {
      var k' :| 0 <= k' < |records| && records[k'] == r0.value && r0.value.milkYield == Some(y)
                && forall j :: 0 <= j < k' ==> records[j].milkYield != Some(y);
      assert k' == k;
    }
  }
}
