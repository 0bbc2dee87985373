/** The home screen's description card (`AppDescription` in HomeScreen, the same card
    inline in `MainScreen`) and the animal list under it. The card toggles on a click;
    vertical drags accumulate into an offset that is never reset, and crossing +100 or
    -100 expands or collapses it. */
module AppDescription {
  import opened KotlinLib

  const ExpandThreshold: real := 100.0
  const CollapseThreshold: real := -100.0

  /** The state after a drag has moved the offset to `offset`. */
  function ExpandedAfterDrag(expanded: bool, offset: real): (e: bool)
    ensures offset > ExpandThreshold ==> e
    ensures offset < CollapseThreshold ==> !e
    ensures CollapseThreshold <= offset <= ExpandThreshold ==> e == expanded
  {
    if offset > ExpandThreshold then true
    else if offset < CollapseThreshold then false
    else expanded
  }

  /** The card's state as a value, for reasoning about sequences of gestures. */
  datatype CardState = CardState(expanded: bool, dragOffset: real)

  datatype Gesture = Click | Drag(delta: real)

  const Initial: CardState := CardState(false, 0.0)

  function Step(s: CardState, g: Gesture): (t: CardState)
    ensures g.Click? ==> t == CardState(!s.expanded, s.dragOffset)
    ensures g.Drag? ==> t.dragOffset == s.dragOffset + g.delta
                        && t.expanded == ExpandedAfterDrag(s.expanded, t.dragOffset)
  {
    match g
    case Click => CardState(!s.expanded, s.dragOffset)
    case Drag(delta) => CardState(ExpandedAfterDrag(s.expanded, s.dragOffset + delta), s.dragOffset + delta)
  }

  /** The gestures applied in order. */
  function Run(s: CardState, gestures: seq<Gesture>): CardState
  {
    if |gestures| == 0 then s else Step(Run(s, gestures[..|gestures| - 1]), gestures[|gestures| - 1])
  }

  /** The sum of the drag deltas of a gesture sequence. */
  function DragTotal(gestures: seq<Gesture>): real
  {
    if |gestures| == 0 then 0.0
    else DragTotal(gestures[..|gestures| - 1])
         + (match gestures[|gestures| - 1] case Click => 0.0 case Drag(d) => d)
  }

  /** The offset is never reset: it is the start offset plus every delta dragged so far,
      whatever clicks came in between. */
  lemma {:induction false} OffsetIsDragTotal(s: CardState, gestures: seq<Gesture>)
    ensures Run(s, gestures).dragOffset == s.dragOffset + DragTotal(gestures)
  {
    if |gestures| > 0 {
      OffsetIsDragTotal(s, gestures[..|gestures| - 1]);
    }
  }

  /** The number of clicks of a gesture sequence. */
  function Clicks(gestures: seq<Gesture>): nat
  {
    if |gestures| == 0 then 0 else Clicks(gestures[..|gestures| - 1]) + (if gestures[|gestures| - 1].Click? then 1 else 0)
  }

  /** With no drags, the card is expanded exactly after an odd number of clicks. */
  lemma {:induction false} ClicksToggle(s: CardState, gestures: seq<Gesture>)
    requires forall i :: 0 <= i < |gestures| ==> gestures[i].Click?
    ensures Run(s, gestures).expanded == (if Clicks(gestures) % 2 == 0 then s.expanded else !s.expanded)
    ensures Run(s, gestures).dragOffset == s.dragOffset
  {
    if |gestures| > 0 {
      ClicksToggle(s, gestures[..|gestures| - 1]);
    }
  }

  /** Because the offset is kept, once it is past +100 a click can collapse the card only
      until the next drag that does not pull it back to 100 or below: that drag expands it again. */
  lemma ClickUndoneByNextDrag(s: CardState, delta: real)
    requires s.dragOffset + delta > ExpandThreshold
    ensures Step(Step(s, Click), Drag(delta)).expanded
  {
  }

  /** A first downward drag of more than 100 expands a fresh card; a drag back up by more
      than 200 in total collapses it. */
  lemma DragExample()
    ensures Run(Initial, [Drag(60.0), Drag(50.0)]) == CardState(true, 110.0)
    ensures Run(Initial, [Drag(60.0), Drag(50.0), Drag(-150.0)]) == CardState(true, -40.0)
    ensures Run(Initial, [Drag(60.0), Drag(50.0), Drag(-150.0), Drag(-70.0)]) == CardState(false, -110.0)
  {
    var g := [Drag(60.0), Drag(50.0), Drag(-150.0), Drag(-70.0)];
    assert g[..3] == [Drag(60.0), Drag(50.0), Drag(-150.0)];
    assert g[..3][..2] == [Drag(60.0), Drag(50.0)];
    assert g[..3][..2][..1] == [Drag(60.0)];
  }

  /** Which text sits under the title. */
  datatype CardText = Description | ReadMore

  function VisibleText(expanded: bool): (t: CardText)
    ensures t == Description <==> expanded
  {
    if expanded then Description else ReadMore
  }

  /** The card as the composable keeps it: `remember { mutableStateOf(...) }` for both. */
  class Card {
    var expanded: bool
    var dragOffset: real

    constructor ()
      ensures !expanded && dragOffset == 0.0
    {
      expanded := false;
      dragOffset := 0.0;
    }

    /** `clickable { expanded = !expanded }`. */
    method OnClick()
      modifies this
      ensures expanded == !old(expanded) && dragOffset == old(dragOffset)
      ensures CardState(expanded, dragOffset) == Step(old(CardState(expanded, dragOffset)), Click)
    {
      expanded := !expanded;
    }

    /** `rememberDraggableState { delta -> ... }`. */
    method OnDrag(delta: real)
      modifies this
      ensures dragOffset == old(dragOffset) + delta
      ensures dragOffset > ExpandThreshold ==> expanded
      ensures dragOffset < CollapseThreshold ==> !expanded
      ensures CollapseThreshold <= dragOffset <= ExpandThreshold ==> expanded == old(expanded)
      ensures CardState(expanded, dragOffset) == Step(old(CardState(expanded, dragOffset)), Drag(delta))
    {
      dragOffset := dragOffset + delta;
      if dragOffset > 100.0 {
        expanded := true;
      } else if dragOffset < -100.0 {
        expanded := false;
      }
    }
  }

  /** One `AnimalItem` of the list; `reports` is the index its click passes on. */
  datatype AnimalItem = AnimalItem(name: string, description: string, icon: int, reports: int)

  /** `items(animalTypes.indices.toList())`: one item per animal type; a description or icon
      array shorter than the type array throws when the missing item is composed. */
  function AnimalList(types: seq<string>, descriptions: seq<string>, icons: seq<int>): (r: Outcome<seq<AnimalItem>>)
    ensures r.Throws? <==> |descriptions| < |types| || |icons| < |types|
    ensures r.Throws? ==> r.error == IndexOutOfBounds
    ensures r.Ok? ==> |r.value| == |types|
    ensures r.Ok? ==> forall i :: 0 <= i < |types| ==>
              r.value[i] == AnimalItem(types[i], descriptions[i], icons[i], i)
  {
    if |descriptions| < |types| || |icons| < |types| then Throws(IndexOutOfBounds)
    else Ok(seq(|types|, i requires 0 <= i < |types| => AnimalItem(types[i], descriptions[i], icons[i], i)))
  }

  /** `MainScreen` fixes its icons to a cow and a buffalo, so a third animal type throws. */
  lemma MainScreenTwoAnimals(types: seq<string>, descriptions: seq<string>, cow: int, buffalo: int)
    requires |descriptions| >= |types|
    ensures AnimalList(types, descriptions, [cow, buffalo]).Ok? <==> |types| <= 2
  {
  }
}
