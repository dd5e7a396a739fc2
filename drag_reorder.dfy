/**
 * Drag-and-drop reordering of one day's items, shared by both day card
 * components: the id of the dragged item is taken from the drag data or,
 * failing that, from the card's `draggingId`; the item is spliced out of a
 * copy of the list and spliced back in before the drop target.
 */
module DragReorder {
  import opened Wrappers
  import opened Types
  import opened Seqs

  /** An `onReorderItems(dayDate, newItems)` call. */
  datatype ReorderCall = ReorderCall(dayDate: string, newItems: seq<Item>)

  /** `items.findIndex(it => it.id === id)`: the first item with that id, or -1. */
  function FindIndex(items: seq<Item>, id: string): (r: int)
    ensures -1 <= r < |items|
    ensures r == -1 <==> forall k :: 0 <= k < |items| ==> items[k].id != id
    ensures r >= 0 ==> items[r].id == id && forall k :: 0 <= k < r ==> items[k].id != id
  {
    if items == [] then -1
    else if items[0].id == id then 0
    else
      var j := FindIndex(items[1..], id);
      if j == -1 then -1 else j + 1
  }

  /**
   * Destination index after the source item has been removed from a list of
   * `n` items: the end for a target at or past the end, otherwise the target,
   * one less when the source preceded it, clamped into the shortened list.
   */
  function Dest(n: int, sourceIndex: int, targetIndex: int): (d: int)
    requires 0 <= sourceIndex < n
    ensures 0 <= d <= n - 1
    ensures targetIndex >= n ==> d == n - 1
    ensures 0 <= targetIndex < n ==> d == if sourceIndex < targetIndex then targetIndex - 1 else targetIndex
    ensures targetIndex < 0 ==> d == 0
  {
    var d := if targetIndex >= n then n - 1
             else targetIndex - (if sourceIndex < targetIndex then 1 else 0);
    if d < 0 then 0 else if d > n - 1 then n - 1 else d
  }

  /** The list after moving the item at `sourceIndex` to the drop target. */
  function Reordered(items: seq<Item>, sourceIndex: int, targetIndex: int): seq<Item>
    requires 0 <= sourceIndex < |items|
  {
    InsertAt(RemoveAt(items, sourceIndex), Dest(|items|, sourceIndex, targetIndex), items[sourceIndex])
  }

  /** The splice sequence of `handleDropOnIndex` on a working copy of the list. */
  method ReorderItems(items: seq<Item>, sourceIndex: int, targetIndex: int) returns (newItems: seq<Item>)
    requires 0 <= sourceIndex < |items|
    ensures newItems == Reordered(items, sourceIndex, targetIndex)
    ensures |newItems| == |items| && multiset(newItems) == multiset(items)
  {
    newItems := items;
    var moved := newItems[sourceIndex];
    newItems := newItems[..sourceIndex] + newItems[sourceIndex + 1..];
    var destIndex: int;
    if targetIndex >= |items| {
      destIndex := |newItems|;
    } else {
      destIndex := targetIndex - (if sourceIndex < targetIndex then 1 else 0);
    }
    if destIndex < 0 {
      destIndex := 0;
    }
    if destIndex > |newItems| {
      destIndex := |newItems|;
    }
    newItems := newItems[..destIndex] + [moved] + newItems[destIndex..];
    ReorderedPermutes(items, sourceIndex, targetIndex);
  }

  /** Reordering keeps every item, each as often as before. */
  lemma ReorderedPermutes(items: seq<Item>, sourceIndex: int, targetIndex: int)
    requires 0 <= sourceIndex < |items|
    ensures |Reordered(items, sourceIndex, targetIndex)| == |items|
    ensures multiset(Reordered(items, sourceIndex, targetIndex)) == multiset(items)
  {
    var rest := RemoveAt(items, sourceIndex);
    RemoveAtCount(items, sourceIndex);
    InsertAtCount(rest, Dest(|items|, sourceIndex, targetIndex), items[sourceIndex]);
  }

  /**
   * Where every element of the reordered list comes from: the moved item
   * at the destination, items between source and destination shifted by
   * one towards the source, and everything else in its old place.
   */
  lemma ReorderedAt(items: seq<Item>, sourceIndex: int, targetIndex: int, k: int)
    requires 0 <= sourceIndex < |items| && 0 <= k < |items|
    ensures var d := Dest(|items|, sourceIndex, targetIndex);
            Reordered(items, sourceIndex, targetIndex)[k] ==
              if k == d then items[sourceIndex]
              else if (k < sourceIndex && k < d) || (k > sourceIndex && k > d) then items[k]
              else if sourceIndex < d then items[k + 1]
              else items[k - 1]
  {
  }

  /** A drop at or past the end moves the item to the end and leaves the others in order. */
  lemma DropAtEnd(items: seq<Item>, sourceIndex: int, targetIndex: int)
    requires 0 <= sourceIndex < |items| <= targetIndex
    ensures Reordered(items, sourceIndex, targetIndex) == RemoveAt(items, sourceIndex) + [items[sourceIndex]]
  {
  }

  /** A drop on another item puts the moved item immediately before that item. */
  lemma DropBeforeTarget(items: seq<Item>, sourceIndex: int, targetIndex: int)
    requires 0 <= sourceIndex < |items| && 0 <= targetIndex < |items| && targetIndex != sourceIndex
    ensures var r := Reordered(items, sourceIndex, targetIndex);
            var d := Dest(|items|, sourceIndex, targetIndex);
            d + 1 < |r| && r[d] == items[sourceIndex] && r[d + 1] == items[targetIndex]
  {
    var d := Dest(|items|, sourceIndex, targetIndex);
    ReorderedAt(items, sourceIndex, targetIndex, d + 1);
  }

  /** Dropping an item on itself, or on the item right after it, changes nothing. */
  lemma DropOnItself(items: seq<Item>, sourceIndex: int, targetIndex: int)
    requires 0 <= sourceIndex < |items|
    requires targetIndex == sourceIndex || targetIndex == sourceIndex + 1
    ensures Reordered(items, sourceIndex, targetIndex) == items
  {
    InsertRemoved(items, sourceIndex);
  }

  /** Apart from the moved item, the items keep their relative order. */
  lemma OthersKeepOrder(items: seq<Item>, sourceIndex: int, targetIndex: int)
    requires 0 <= sourceIndex < |items|
    ensures RemoveAt(Reordered(items, sourceIndex, targetIndex), Dest(|items|, sourceIndex, targetIndex))
            == RemoveAt(items, sourceIndex)
  {
    RemoveInserted(RemoveAt(items, sourceIndex), Dest(|items|, sourceIndex, targetIndex), items[sourceIndex]);
  }

  /** The drag data, where it can be read, overrides the card's `draggingId`; an empty string counts as absent. */
  function SourceId(draggingId: Option<string>, transferData: Option<string>): (r: Option<string>)
    ensures transferData.Some? && transferData.value != "" ==> r == transferData
    ensures transferData.None? || transferData.value == "" ==> r == draggingId
  {
    match transferData
    case Some(fromDt) => if fromDt != "" then Some(fromDt) else draggingId
    case None => draggingId
  }

  /**
   * Index of the item a drop moves, or -1 when the drop returns early: no
   * source id (or an empty one), or no item with that id. `transferData` is
   * `None` when reading the drag data fails.
   */
  function DropSourceIndex(items: seq<Item>, draggingId: Option<string>, transferData: Option<string>): (r: int)
    ensures -1 <= r < |items|
  {
    match SourceId(draggingId, transferData)
    case None => -1
    case Some(id) => if id == "" then -1 else FindIndex(items, id)
  }

  /** The list a drop on `targetIndex` hands to the reorder callback, or `None` when the drop returns early. */
  function DropResult(items: seq<Item>, draggingId: Option<string>, transferData: Option<string>,
                      targetIndex: int): (r: Option<seq<Item>>)
    ensures r.Some? ==> |r.value| == |items| && multiset(r.value) == multiset(items)
  {
    var sourceIndex := DropSourceIndex(items, draggingId, transferData);
    if sourceIndex == -1 then None
    else
      ReorderedPermutes(items, sourceIndex, targetIndex);
      Some(Reordered(items, sourceIndex, targetIndex))
  }

  /** The drop result in terms of the source index: nothing for an early return, otherwise the reordered list. */
  lemma DropResultBySource(items: seq<Item>, draggingId: Option<string>, transferData: Option<string>,
                           targetIndex: int)
    ensures var sourceIndex := DropSourceIndex(items, draggingId, transferData);
            var r := DropResult(items, draggingId, transferData, targetIndex);
            (sourceIndex == -1 ==> r.None?) &&
            (sourceIndex != -1 ==> 0 <= sourceIndex && r == Some(Reordered(items, sourceIndex, targetIndex)))
  {
  }

  /** The first steps of a drop: the source id and the index of its item, -1 for an early return. */
  method FindSource(items: seq<Item>, draggingId: Option<string>, transfer: DataTransfer) returns (sourceIndex: int)
    ensures sourceIndex == DropSourceIndex(items, draggingId, transfer.GetData())
  {
    var sourceId := draggingId;
    var fromDt := transfer.GetData();
    if fromDt.Some? && fromDt.value != "" {
      sourceId := fromDt;
    }
    if sourceId.None? || sourceId.value == "" {
      return -1;
    }
    sourceIndex := FindIndex(items, sourceId.value);
  }

  /** A drop reorders exactly when some item carries the (non-empty) source id. */
  lemma DropNeedsKnownSource(items: seq<Item>, draggingId: Option<string>, transferData: Option<string>,
                             targetIndex: int)
    ensures var src := SourceId(draggingId, transferData);
            DropResult(items, draggingId, transferData, targetIndex).Some? <==>
              src.Some? && src.value != "" && exists k :: 0 <= k < |items| && items[k].id == src.value
  {
    var src := SourceId(draggingId, transferData);
    if src.Some? && src.value != "" && exists k :: 0 <= k < |items| && items[k].id == src.value {
      var k :| 0 <= k < |items| && items[k].id == src.value;
      assert items[k].id == src.value;
    }
  }

  /** The first item with the source id is the one that moves, and it lands at the destination index. */
  lemma DropMovesSource(items: seq<Item>, draggingId: Option<string>, transferData: Option<string>,
                        targetIndex: int)
    requires DropResult(items, draggingId, transferData, targetIndex).Some?
    ensures var id := SourceId(draggingId, transferData).value;
            var sourceIndex := FindIndex(items, id);
            0 <= sourceIndex < |items| &&
            DropResult(items, draggingId, transferData, targetIndex).value[Dest(|items|, sourceIndex, targetIndex)].id == id
  {
  }

  function TestItems(): seq<Item> {
    [Item("1", "First"), Item("2", "Second"), Item("3", "Third")]
  }

  /** Dragging the first of three items onto the third item gives the order 2, 1, 3, whatever the card remembers. */
  lemma DropFirstOnThird(draggingId: Option<string>)
    ensures var r := DropResult(TestItems(), draggingId, Some("1"), 2);
            r.Some? && |r.value| == 3 && r.value[0].id == "2" && r.value[1].id == "1" && r.value[2].id == "3"
  {
    assert FindIndex(TestItems(), "1") == 0;
    var r := Reordered(TestItems(), 0, 2);
    ReorderedAt(TestItems(), 0, 2, 0);
    ReorderedAt(TestItems(), 0, 2, 1);
    ReorderedAt(TestItems(), 0, 2, 2);
  }

  /**
   * The drag data store of one drag operation; `broken` stands for an
   * environment whose `setData`/`getData` throw.
   */
  class DataTransfer {
    var plain: string
    const broken: bool

    constructor (broken: bool)
      ensures plain == "" && this.broken == broken
    {
      plain := "";
      this.broken := broken;
    }

    method SetData(value: string)
      modifies this
      ensures plain == if broken then old(plain) else value
    {
      if !broken {
        plain := value;
      }
    }

    /** `getData('text/plain')`, `None` where it throws. */
    function GetData(): (r: Option<string>)
      reads this
      ensures r.Some? <==> !broken
      ensures r.Some? ==> r.value == plain
    {
      if broken then None else Some(plain)
    }
  }
}
