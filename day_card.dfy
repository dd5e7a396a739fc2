/**
 * The older day card: the same add-item input and drag-and-drop reordering
 * as the day list's card, without moving the focus back after an add.
 */
module DayCard {
  import opened Wrappers
  import opened Types
  import opened DragReorder

  class Card {
    const day: DayData
    /** Whether the parent passed an `onReorderItems` handler. */
    const hasReorderHandler: bool
    var draggingId: Option<string>
    var dropTargetIndex: Option<int>

    constructor (day: DayData, hasReorderHandler: bool)
      ensures this.day == day && this.hasReorderHandler == hasReorderHandler
      ensures draggingId == None && dropTargetIndex == None
    {
      this.day := day;
      this.hasReorderHandler := hasReorderHandler;
      draggingId := None;
      dropTargetIndex := None;
    }

    /** Enter in the add-item input asks for an item on this card's date. */
    method HandleKeyDown(key: string) returns (addItemFor: Option<string>)
      ensures addItemFor == if key == "Enter" then Some(day.date) else None
    {
      addItemFor := None;
      if key == "Enter" {
        addItemFor := Some(day.date);
      }
    }

    method HandleDragStart(transfer: DataTransfer, itemId: string)
      modifies this, transfer
      ensures draggingId == Some(itemId)
      ensures dropTargetIndex == old(dropTargetIndex)
      ensures transfer.plain == if transfer.broken then old(transfer.plain) else itemId
    {
      draggingId := Some(itemId);
      transfer.SetData(itemId);
    }

    method HandleDragEnd()
      modifies this
      ensures draggingId == None && dropTargetIndex == None
    {
      draggingId := None;
      dropTargetIndex := None;
    }

    /** Dragging over item `index`, or over the trailing row with `index == |day.items|`. */
    method HandleDragOver(index: int)
      modifies this
      ensures dropTargetIndex == Some(index)
      ensures draggingId == old(draggingId)
    {
      dropTargetIndex := Some(index);
    }

    method HandleDropOnIndex(transfer: DataTransfer, targetIndex: int) returns (call: Option<ReorderCall>)
      modifies this
      ensures var r := DropResult(day.items, old(draggingId), transfer.GetData(), targetIndex);
              if r.None? then call.None? && draggingId == old(draggingId) && dropTargetIndex == old(dropTargetIndex)
              else call == (if hasReorderHandler then Some(ReorderCall(day.date, r.value)) else None) &&
                   draggingId.None? && dropTargetIndex.None?
    {
      call := None;
      var sourceIndex := FindSource(day.items, draggingId, transfer);
      DropResultBySource(day.items, draggingId, transfer.GetData(), targetIndex);
      if sourceIndex == -1 {
        return;
      }
      var newItems := ReorderItems(day.items, sourceIndex, targetIndex);
      if hasReorderHandler {
        call := Some(ReorderCall(day.date, newItems));
      }
      draggingId := None;
      dropTargetIndex := None;
    }
  }
}
