/**
  The To-Do board controller: the task store it mutates in place, the copy it
  persists after every mutation, and the long-press touch gesture that drags a
  task to another position or list.
*/
module TodoManager {
  import opened Wrappers
  import opened TaskStore
  import Text
  import DragRule

  /** What a rendered `<li>` carries: its `data-id`, `data-category`, and whether it shows as completed. */
  datatype Item = Item(id: int, category: Category, completed: bool)

  /** The list under the pointer during a touch move: its id and its `<li>` children. */
  datatype TargetList = TargetList(category: Category, items: seq<DragRule.ListItem>)

  /** What a touch move does to the DOM. */
  datatype Placement =
    | Unmoved
    | InsertBefore(list: Category, sibling: nat)
    | Append(list: Category)

  /** Where the dragged item sits when the touch ends: its list and its index among that list's items. */
  datatype Drop = Drop(list: Category, index: nat)

  class Manager {
    /** The in-memory `tasks` object. */
    var tasks: Store
    /** The `tasks` entry of local storage; `None` until the first save when nothing was stored. */
    var saved: Option<Store>
    /** The long-press timer still pending, with the item it will pick up. */
    var touchTimer: Option<Item>
    /** `draggedItem` */
    var draggedItem: Option<Item>
    /** Whether `handleTouchMove` is registered on the document. */
    var listening: bool

    /** Local storage agrees with the store, except before the first save of the default store. */
    ghost predicate StoreValid()
      reads this
    {
      saved == Some(tasks) || (saved.None? && tasks == Default())
    }

    /** Only items that are not completed are picked up, and the move listener is on exactly while dragging. */
    ghost predicate Valid()
      reads this
    {
      && StoreValid()
      && (touchTimer.Some? ==> !touchTimer.value.completed && touchTimer.value.category in tasks)
      && (draggedItem.Some? ==> !draggedItem.value.completed && draggedItem.value.category in tasks)
      && (listening <==> draggedItem.Some?)
    }

    /** `initTodoManager`: load the persisted store, or start from three empty lists. */
    constructor (persisted: Option<Store>)
      ensures Valid()
      ensures tasks == Initial(persisted) && saved == persisted
      ensures touchTimer.None? && draggedItem.None? && !listening
    {
      tasks := Initial(persisted);
      saved := persisted;
      touchTimer := None;
      draggedItem := None;
      listening := false;
    }

    /** `saveTasks`: write the whole store to local storage. */
    method SaveTasks()
      modifies this
      ensures saved == Some(tasks)
      ensures tasks == old(tasks) && touchTimer == old(touchTimer)
      ensures draggedItem == old(draggedItem) && listening == old(listening)
    {
      saved := Some(tasks);
    }

    /** `handleTaskFormSubmit`, with `Date.now()` passed in as `id`. */
    method SubmitTask(category: Category, rawText: string, id: int)
      requires Valid()
      modifies this
      ensures Valid()
      ensures tasks == Added(old(tasks), category, rawText, id)
      ensures Text.Trim(rawText) == [] ==> saved == old(saved)
      ensures Text.Trim(rawText) != [] ==> saved == Some(tasks)
      ensures touchTimer == old(touchTimer) && draggedItem == old(draggedItem) && listening == old(listening)
    {
      var text := Text.Trim(rawText);
      if text != [] {
        var newTask := Task(id, text, false);
        if category !in tasks {
          tasks := tasks[category := []];
        }
        tasks := tasks[category := tasks[category] + [newTask]];
        SaveTasks();
      }
    }

    /** The checkbox `change` handler of the task rendered at `index` in `category`. */
    method ToggleTask(category: Category, index: nat, checked: bool)
      requires Valid()
      requires category in tasks && index < |tasks[category]|
      modifies this
      ensures Valid()
      ensures tasks == Toggled(old(tasks), category, index, checked)
      ensures saved == Some(tasks)
      ensures touchTimer == old(touchTimer) && draggedItem == old(draggedItem) && listening == old(listening)
    {
      var task := tasks[category][index];
      tasks := tasks[category := tasks[category][index := task.(done := checked)]];
      SaveTasks();
    }

    /** The delete button's `click` handler of a task rendered in `category`. */
    method DeleteTask(category: Category, id: int)
      requires Valid()
      requires category in tasks
      modifies this
      ensures Valid()
      ensures tasks == Deleted(old(tasks), category, id)
      ensures saved == Some(tasks)
      ensures touchTimer == old(touchTimer) && draggedItem == old(draggedItem) && listening == old(listening)
    {
      tasks := tasks[category := Without(tasks[category], id)];
      SaveTasks();
    }

    /**
      `updateTaskOrder(item, targetList)`, with the item's index among the target list's
      `<li>` children passed in as `newIndex`.
    */
    method UpdateTaskOrder(item: Item, target: Category, newIndex: nat)
      requires StoreValid()
      requires item.category in tasks
      modifies this
      ensures StoreValid() && old(tasks).Keys <= tasks.Keys
      ensures tasks == Moved(old(tasks), item.category, target, item.id, newIndex)
      ensures FindIndex(old(tasks)[item.category], item.id).None? ==> saved == old(saved)
      ensures FindIndex(old(tasks)[item.category], item.id).Some? ==> saved == Some(tasks)
      ensures touchTimer == old(touchTimer) && draggedItem == old(draggedItem) && listening == old(listening)
    {
      var source := item.category;
      var taskIndex := FindIndex(tasks[source], item.id);
      if taskIndex.None? {
        return;
      }
      var task := tasks[source][taskIndex.value];
      var removed := tasks[source := RemoveAt(tasks[source], taskIndex.value)];
      // a target list that does not exist yet starts out empty
      var into := if target in removed then removed[target] else [];
      tasks := removed[target := InsertAt(into, newIndex, task)];
      SaveTasks();
    }

    /** `handleTouchStart`: a completed item is ignored; any other arms the long-press timer. */
    method TouchStart(item: Item)
      requires Valid()
      requires item.category in tasks
      modifies this
      ensures Valid()
      ensures touchTimer == if item.completed then old(touchTimer) else Some(item)
      ensures tasks == old(tasks) && saved == old(saved)
      ensures draggedItem == old(draggedItem) && listening == old(listening)
    {
      if item.completed {
        return;
      }
      touchTimer := Some(item);
    }

    /** The timer callback, 350 ms after the touch started: the item becomes the dragged item. */
    method LongPressElapsed()
      requires Valid()
      modifies this
      ensures Valid()
      ensures old(touchTimer).Some? ==> draggedItem == old(touchTimer) && listening && touchTimer.None?
      ensures old(touchTimer).None? ==>
        draggedItem == old(draggedItem) && listening == old(listening) && touchTimer.None?
      ensures tasks == old(tasks) && saved == old(saved)
    {
      if touchTimer.Some? {
        draggedItem := touchTimer;
        touchTimer := None;
        listening := true;
      }
    }

    /**
      A `touchmove` on the document: handled only while `handleTouchMove` is registered.
      It clears the timer and, while dragging over a list, places the dragged item before
      the sibling `getDragAfterElement` picks, or at the end. The store is not touched.
    */
    method TouchMove(under: Option<TargetList>, y: int) returns (placement: Placement)
      requires Valid()
      modifies this
      ensures Valid()
      ensures !old(listening) ==> placement == Unmoved && touchTimer == old(touchTimer)
      ensures old(listening) ==> touchTimer.None?
      ensures placement != Unmoved <==> old(listening) && under.Some?
      ensures placement.InsertBefore? ==>
        && placement.list == under.value.category
        && DragRule.GetDragAfterElement(under.value.items, y) == Some(placement.sibling)
      ensures placement.Append? ==>
        && placement.list == under.value.category
        && DragRule.GetDragAfterElement(under.value.items, y).None?
      ensures tasks == old(tasks) && saved == old(saved)
      ensures draggedItem == old(draggedItem) && listening == old(listening)
    {
      if !listening {
        return Unmoved;
      }
      touchTimer := None;
      if draggedItem.None? {
        return Unmoved;
      }
      if under.None? {
        return Unmoved;
      }
      var afterElement := DragRule.GetDragAfterElement(under.value.items, y);
      if afterElement.Some? {
        placement := InsertBefore(under.value.category, afterElement.value);
      } else {
        placement := Append(under.value.category);
      }
    }

    /**
      `handleTouchEnd` (also `touchcancel`): clear the timer and the move listener; if an item
      was being dragged, commit its final list and index to the store, then drop it.
    */
    method TouchEnd(drop: Option<Drop>)
      requires Valid()
      modifies this
      ensures Valid()
      ensures touchTimer.None? && draggedItem.None? && !listening
      ensures old(draggedItem).None? || drop.None? ==> tasks == old(tasks) && saved == old(saved)
      ensures old(draggedItem).Some? && drop.Some? ==>
        tasks == Moved(old(tasks), old(draggedItem).value.category, drop.value.list,
                       old(draggedItem).value.id, drop.value.index)
      ensures old(draggedItem).Some? && drop.Some? ==>
        var item := old(draggedItem).value;
        saved == if FindIndex(old(tasks)[item.category], item.id).Some? then Some(tasks) else old(saved)
    {
      touchTimer := None;
      listening := false;
      if draggedItem.None? {
        return;
      }
      if drop.Some? {
        UpdateTaskOrder(draggedItem.value, drop.value.list, drop.value.index);
      }
      draggedItem := None;
    }
  }

  /** A touch on a completed item never starts a drag, whenever the timer would have fired. */
  method CompletedItemNeverDrags(m: Manager, item: Item, drop: Option<Drop>)
    requires m.Valid() && m.touchTimer.None? && m.draggedItem.None?
    requires item.category in m.tasks && item.completed
    modifies m
    ensures m.Valid() && m.draggedItem.None? && m.tasks == old(m.tasks)
  {
    m.TouchStart(item);
    m.LongPressElapsed();
    assert m.draggedItem.None?;
    m.TouchEnd(drop);
  }

  /** A touch that ends before the long-press timer fires starts no drag and changes no task. */
  method ShortTouchNeverDrags(m: Manager, item: Item, drop: Option<Drop>)
    requires m.Valid() && m.draggedItem.None?
    requires item.category in m.tasks
    modifies m
    ensures m.Valid() && m.draggedItem.None? && m.touchTimer.None?
    ensures m.tasks == old(m.tasks) && m.saved == old(m.saved)
  {
    m.TouchStart(item);
    m.TouchEnd(drop);
    m.LongPressElapsed();
  }

  /** A full long press: the item is picked up, and its release commits the move to the store. */
  method LongPressMovesTask(m: Manager, item: Item, drop: Drop)
    requires m.Valid() && m.draggedItem.None?
    requires item.category in m.tasks && !item.completed
    modifies m
    ensures m.Valid() && m.draggedItem.None?
    ensures m.tasks == Moved(old(m.tasks), item.category, drop.list, item.id, drop.index)
  {
    m.TouchStart(item);
    m.LongPressElapsed();
    m.TouchEnd(Some(drop));
  }

  /** Reloading the page reads back exactly the store in memory: local storage always agrees with it. */
  method ReloadRestoresStore(m: Manager) returns (reloaded: Manager)
    requires m.Valid()
    ensures reloaded.tasks == m.tasks
  {
    reloaded := new Manager(m.saved);
  }
}
