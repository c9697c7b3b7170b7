/**
 * The single-open accordion of the timeline cards (component `Section1`):
 * clicking a card opens it, or collapses it when it is the open one, so at
 * most one card is expanded at a time.
 */
module Section1 {
  import opened Wrappers

  /** The ids of the three timeline cards. */
  const ItemIds: seq<int> := [1, 2, 3]

  /** The expanded card after clicking `itemId`. */
  function Toggled(expanded: Option<int>, itemId: int): (r: Option<int>)
    ensures r == None <==> expanded == Some(itemId)
    ensures r != None ==> r == Some(itemId)
  {
    if expanded == Some(itemId) then None else Some(itemId)
  }

  /** What a card renders: its chevron points up and its long text shows. */
  predicate IsExpanded(expanded: Option<int>, itemId: int)
  {
    expanded == Some(itemId)
  }

  /** After a click, the clicked card is the only one that can be open. */
  lemma OnlyClickedOpen(expanded: Option<int>, itemId: int, other: int)
    requires other != itemId
    ensures !IsExpanded(Toggled(expanded, itemId), other)
    ensures IsExpanded(Toggled(expanded, itemId), itemId) <==> !IsExpanded(expanded, itemId)
  {
  }

  /**
   * Two clicks on the same card: from any state where that card was not the
   * open one, everything ends collapsed; from the state where it was, it
   * ends open again.
   */
  lemma ToggleTwice(expanded: Option<int>, itemId: int)
    ensures expanded != Some(itemId) ==> Toggled(Toggled(expanded, itemId), itemId) == None
    ensures expanded == Some(itemId) ==> Toggled(Toggled(expanded, itemId), itemId) == expanded
  {
  }

  class Timeline {
    var expandedItem: Option<int>

    /** Mounting: every card collapsed. */
    constructor ()
      ensures expandedItem == None
    {
      expandedItem := None;
    }

    /** A click on the card with id `itemId`. */
    method ToggleExpanded(itemId: int)
      modifies this
      ensures expandedItem == Toggled(old(expandedItem), itemId)
      ensures expandedItem == None || expandedItem == Some(itemId)
    {
      expandedItem := if expandedItem == Some(itemId) then None else Some(itemId);
    }
  }

  /** Clicking 1, then 2, then 2 again: card 2 replaces card 1, then the accordion is closed. */
  method ClickSequence() returns (afterTwo: Option<int>, afterSecondTwo: Option<int>)
    ensures afterTwo == Some(2) && afterSecondTwo == None
  {
    var timeline := new Timeline();
    timeline.ToggleExpanded(ItemIds[0]);
    timeline.ToggleExpanded(ItemIds[1]);
    afterTwo := timeline.expandedItem;
    timeline.ToggleExpanded(ItemIds[1]);
    afterSecondTwo := timeline.expandedItem;
  }
}
