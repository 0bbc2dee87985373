/** `DetailsActivity`, the view-based details screen: a spinner of milk yields and three
    radio buttons choose the recommendation whose amounts fill three text views. */
module DetailsActivity {
  import opened KotlinLib
  import opened FeedData

  /** The repository's records, keyed by animal id. */
  type Dataset = map<int, seq<FeedRecommendation>>

  /** `feedRecommendations[animalId] ?: emptyList()`. */
  function RecordsFor(dataset: Dataset, animalId: int): (records: seq<FeedRecommendation>)
    ensures animalId in dataset ==> records == dataset[animalId]
    ensures animalId !in dataset ==> records == []
  {
    if animalId in dataset then dataset[animalId] else []
  }

  /** `getRecommendation`: an unknown animal has no records, hence no recommendation;
      otherwise the first record with the yield decides. */
  function GetRecommendation(dataset: Dataset, animalId: int, milkYield: real, a: FodderAvailability): (r: Option<FeedDetails>)
    ensures animalId !in dataset ==> r.None?
    ensures animalId in dataset ==> r == MilkYieldRecommendation(dataset[animalId], milkYield, a)
  {
    MilkYieldRecommendation(RecordsFor(dataset, animalId), milkYield, a)
  }

  /** The spinner adapter's items: the animal's milk yields in order (None is the text
      "null"), nothing for an unknown animal. */
  function SpinnerItems(dataset: Dataset, animalId: int): (items: seq<Option<real>>)
    ensures animalId !in dataset ==> items == []
    ensures animalId in dataset ==> |items| == |dataset[animalId]|
    ensures animalId in dataset ==> forall i :: 0 <= i < |items| ==> items[i] == dataset[animalId][i].milkYield
  {
    var records := RecordsFor(dataset, animalId);
    seq(|records|, i requires 0 <= i < |records| => records[i].milkYield)
  }

  /** A spinner item that is a number always names a record of the animal. */
  lemma SpinnerItemHasRecord(dataset: Dataset, animalId: int, i: nat)
    requires i < |SpinnerItems(dataset, animalId)| && SpinnerItems(dataset, animalId)[i].Some?
    ensures FindByMilkYield(RecordsFor(dataset, animalId), SpinnerItems(dataset, animalId)[i].value).Some?
  {
    assert RecordsFor(dataset, animalId)[i].milkYield == SpinnerItems(dataset, animalId)[i];
  }

  /** `selectedItem?.toString()?.toFloatOrNull() ?: return`: no selection, or the text
      "null", gives nothing. */
  function ParseSelection(selectedItem: Option<Option<real>>): (r: Option<real>)
    ensures r.Some? <==> selectedItem.Some? && selectedItem.value.Some?
    ensures r.Some? ==> selectedItem == Some(Some(r.value))
  {
    if selectedItem.None? || selectedItem.value.None? then None else Some(selectedItem.value.value)
  }

  /** The `when` over the checked radio button id: the first matching branch wins, and any
      other id (including none checked) means HIGH. */
  function CheckedAvailability(checkedId: int, highId: int, moderateId: int, lowId: int): (a: FodderAvailability)
    ensures checkedId == highId ==> a == HIGH
    ensures checkedId != highId && checkedId == moderateId ==> a == MODERATE
    ensures checkedId != highId && checkedId != moderateId && checkedId == lowId ==> a == LOW
    ensures checkedId != highId && checkedId != moderateId && checkedId != lowId ==> a == HIGH
    ensures a == LOW ==> checkedId == lowId
    ensures a == MODERATE ==> checkedId == moderateId
  {
    if checkedId == highId then HIGH
    else if checkedId == moderateId then MODERATE
    else if checkedId == lowId then LOW
    else HIGH
  }

  /** The activity's view state: the three text views, None until first written. */
  class Details {
    const dataset: Dataset
    const animalId: int
    var concentrateText: Option<real>
    var greenFodderText: Option<real>
    var dryRoughageText: Option<real>

    constructor (dataset: Dataset, animalId: int)
      ensures this.dataset == dataset && this.animalId == animalId
      ensures concentrateText.None? && greenFodderText.None? && dryRoughageText.None?
    {
      this.dataset := dataset;
      this.animalId := animalId;
      concentrateText := None;
      greenFodderText := None;
      dryRoughageText := None;
    }

    /** `displayRecommendation`: a null recommendation leaves the texts as they were. */
    method DisplayRecommendation(recommendation: Option<FeedDetails>)
      modifies this
      ensures recommendation.None? ==>
                concentrateText == old(concentrateText) && greenFodderText == old(greenFodderText)
                && dryRoughageText == old(dryRoughageText)
      ensures recommendation.Some? ==>
                concentrateText == Some(recommendation.value.concentrate)
                && greenFodderText == Some(recommendation.value.greenFodder)
                && dryRoughageText == Some(recommendation.value.dryRoughage)
    {
      if recommendation.Some? {
        concentrateText := Some(recommendation.value.concentrate);
        greenFodderText := Some(recommendation.value.greenFodder);
        dryRoughageText := Some(recommendation.value.dryRoughage);
      }
    }

    /** `updateRecommendations`: returns early without a parseable selection, otherwise shows
        the recommendation for the selection and the checked button. */
    method UpdateRecommendations(selectedItem: Option<Option<real>>, checkedId: int, highId: int, moderateId: int, lowId: int)
      modifies this
      ensures var y := ParseSelection(selectedItem);
              var r := if y.None? then None
                       else GetRecommendation(dataset, animalId, y.value, CheckedAvailability(checkedId, highId, moderateId, lowId));
              (r.None? ==> concentrateText == old(concentrateText) && greenFodderText == old(greenFodderText)
                           && dryRoughageText == old(dryRoughageText)) &&
              (r.Some? ==> concentrateText == Some(r.value.concentrate) && greenFodderText == Some(r.value.greenFodder)
                           && dryRoughageText == Some(r.value.dryRoughage))
    {
      var milkYield := ParseSelection(selectedItem);
      if milkYield.None? {
        return;
      }
      var fodderAvailability := CheckedAvailability(checkedId, highId, moderateId, lowId);
      var recommendation := GetRecommendation(dataset, animalId, milkYield.value, fodderAvailability);
      DisplayRecommendation(recommendation);
    }
  }

  /** A one-animal dataset: yield 5 with HIGH availability finds its amounts; LOW, a yield
      no record has, and another animal find nothing. */
  lemma DatasetExample()
    ensures var d: Dataset := map[0 := [FeedRecommendation(Some(5.0), None, Some(map[HIGH := FeedDetails(2.0, 10.0, 3.0)]), None)]];
            GetRecommendation(d, 0, 5.0, HIGH) == Some(FeedDetails(2.0, 10.0, 3.0))
            && GetRecommendation(d, 0, 5.0, LOW).None?
            && GetRecommendation(d, 0, 6.0, HIGH).None?
            && GetRecommendation(d, 1, 5.0, HIGH).None?
  {
    var rec := FeedRecommendation(Some(5.0), None, Some(map[HIGH := FeedDetails(2.0, 10.0, 3.0)]), None);
    var d: Dataset := map[0 := [rec]];
    assert FirstWithMilkYield(d[0], 5.0, 0);
  }
}
