/**
 * The day card of the day list: its add-item input, which asks for an item
 * to be added when Enter is pressed, and the drag-and-drop state its items
 * are reordered with.
 */
module DayListDayCard {
  import opened Wrappers
  import opened Types
  import opened DragReorder

  class Card {
    const day: DayData
    /** Whether the parent passed an `onReorderItems` handler. */
    const hasReorderHandler: bool
    var draggingId: Option<string>
    var dropTargetIndex: Option<int>
    var shouldRefocusAddInput: bool

    constructor (day: DayData, hasReorderHandler: bool)
      ensures this.day == day && this.hasReorderHandler == hasReorderHandler
      ensures draggingId == None && dropTargetIndex == None && !shouldRefocusAddInput
    {
      this.day := day;
      this.hasReorderHandler := hasReorderHandler;
      draggingId := None;
      dropTargetIndex := None;
      shouldRefocusAddInput := false;
    }

    /** Enter in the add-item input asks for an item on this card's date and keeps the focus there. */
    method HandleKeyDown(key: string) returns (addItemFor: Option<string>)
      modifies this
      ensures addItemFor == if key == "Enter" then Some(day.date) else None
      ensures shouldRefocusAddInput == (old(shouldRefocusAddInput) || key == "Enter")
      ensures draggingId == old(draggingId) && dropTargetIndex == old(dropTargetIndex)
    {
      addItemFor := None;
      if key == "Enter" {
        shouldRefocusAddInput := true;
        addItemFor := Some(day.date);
      }
    }

    method HandleDragStart(transfer: DataTransfer, itemId: string)
      modifies this, transfer
      ensures draggingId == Some(itemId)
      ensures dropTargetIndex == old(dropTargetIndex) && shouldRefocusAddInput == old(shouldRefocusAddInput)
      ensures transfer.plain == if transfer.broken then old(transfer.plain) else itemId
    {
      draggingId := Some(itemId);
      transfer.SetData(itemId);
    }

    method HandleDragEnd()
      modifies this
      ensures draggingId == None && dropTargetIndex == None
      ensures shouldRefocusAddInput == old(shouldRefocusAddInput)
    {
      draggingId := None;
      dropTargetIndex := None;
    }

    /** Dragging over item `index`, or over the trailing row with `index == |day.items|`. */
    method HandleDragOver(index: int)
      modifies this
      ensures dropTargetIndex == Some(index)
      ensures draggingId == old(draggingId) && shouldRefocusAddInput == old(shouldRefocusAddInput)
    {
      dropTargetIndex := Some(index);
    }

    method HandleDropOnIndex(transfer: DataTransfer, targetIndex: int) returns (call: Option<ReorderCall>)
      modifies this
      ensures var r := DropResult(day.items, old(draggingId), transfer.GetData(), targetIndex);
              if r.None? then call.None? && draggingId == old(draggingId) && dropTargetIndex == old(dropTargetIndex)
              else call == (if hasReorderHandler then Some(ReorderCall(day.date, r.value)) else None) &&
                   draggingId.None? && dropTargetIndex.None?
      ensures shouldRefocusAddInput == old(shouldRefocusAddInput)
    {
      call := None;
      var sourceIndex := FindSource(day.items, draggingId, transfer);
      DropResultBySource(day.items, draggingId, transfer.GetData(), targetIndex);
      if sourceIndex == -1 {
        return;
      }
      var newItems := ReorderItems(day.items, sourceIndex, targetIndex);
      if hasReorderHandler {
        call := Some(ReorderCall(day.date, newItems));
      }
      draggingId := None;
      dropTargetIndex := None;
    }
  }

  /** Dragging the first of three items by its handle and dropping it on the third item. */
  method DragFirstOntoThird() returns (ids: seq<string>)
    ensures ids == ["2", "1", "3"]
  {
    var card := new Card(DayData("2025-08-11", "Monday", TestItems(), false), true);
    var transfer := new DataTransfer(false);
    card.HandleDragStart(transfer, "1");
    card.HandleDragOver(2);
    assert transfer.GetData() == Some("1") && card.day.items == TestItems();
    DropFirstOnThird(card.draggingId);
    var call := card.HandleDropOnIndex(transfer, 2);
    var items := call.value.newItems;
    ids := [items[0].id, items[1].id, items[2].id];
  }
}
