/**
  `getDragAfterElement`: while a task is dragged over a list, the sibling it is
  inserted before is the one whose vertical centre lies nearest below the pointer.
*/
module DragRule {
  import opened Wrappers

  /** An `<li>` of the list under the pointer: whether it is the one being dragged, and its box. */
  datatype ListItem = ListItem(dragging: bool, top: int, height: int)

  /**
    Twice the offset `y - top - height / 2` the source computes for a sibling.
    Doubling keeps every comparison the source makes while staying in the integers.
  */
  function Offset2(item: ListItem, y: int): int {
    2 * y - 2 * item.top - item.height
  }

  /** A sibling the pointer lies above: not the dragged item, and its centre below `y`. */
  predicate Below(items: seq<ListItem>, y: int, j: int) {
    0 <= j < |items| && !items[j].dragging && Offset2(items[j], y) < 0
  }

  /**
    The `reduce` over the siblings from position `k` on, with `best` the winner so far
    (`None` is the initial offset of negative infinity). A sibling replaces the winner
    only when its offset is negative and strictly greater, so ties keep the earlier one.
  */
  function Closest(items: seq<ListItem>, y: int, k: nat, best: Option<nat>): (r: Option<nat>)
    requires k <= |items|
    requires best.Some? ==> best.value < k && Below(items, y, best.value)
    requires best.Some? ==> forall j :: 0 <= j < k && Below(items, y, j) ==>
      Offset2(items[j], y) < Offset2(items[best.value], y)
      || (Offset2(items[j], y) == Offset2(items[best.value], y) && best.value <= j)
    requires best.None? ==> forall j :: 0 <= j < k ==> !Below(items, y, j)
    ensures r.Some? <==> exists j :: Below(items, y, j)
    ensures r.Some? ==> Below(items, y, r.value)
    ensures r.Some? ==> forall j :: Below(items, y, j) ==>
      Offset2(items[j], y) < Offset2(items[r.value], y)
      || (Offset2(items[j], y) == Offset2(items[r.value], y) && r.value <= j)
    decreases |items| - k
  {
    if k == |items| then best
    else
      var offset := Offset2(items[k], y);
      var next :=
        if !items[k].dragging && offset < 0 && (best.None? || offset > Offset2(items[best.value], y))
        then Some(k) else best;
      Closest(items, y, k + 1, next)
  }

  /**
    The sibling to insert the dragged item before, as its position among the list's items:
    among the non-dragging siblings whose centre is below `y`, the one with the greatest
    (least negative) offset, the first in document order on a tie; `None` when there is
    none, and `insertBefore(item, null)` then appends at the end.
  */
  function GetDragAfterElement(items: seq<ListItem>, y: int): (r: Option<nat>)
    ensures r.Some? <==> exists j :: Below(items, y, j)
    ensures r.Some? ==> Below(items, y, r.value)
    ensures r.Some? ==> forall j :: Below(items, y, j) ==>
      Offset2(items[j], y) < Offset2(items[r.value], y)
      || (Offset2(items[j], y) == Offset2(items[r.value], y) && r.value <= j)
  {
    Closest(items, y, 0, None)
  }
}
