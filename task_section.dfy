/** The in-memory task list of Frontend/src/components/TaskSection.jsx:
    five starting tasks, adding a task from the input text, and toggling a
    task's completion. Each task's id is its position plus one, so ids are
    unique for as long as nothing is removed. */
module TaskSection {
  import opened Common

  datatype Item = Item(id: int, text: string, priority: string, isCompleted: bool)

  const DefaultPriority: string := "Medium"

  /** The tasks the section starts with. */
  function InitialItems(): (items: seq<Item>)
    ensures |items| == 5
    ensures forall i :: 0 <= i < |items| ==> items[i].id == i + 1 && !items[i].isCompleted
  {
    [ Item(1, "Complete LeetCode daily challenge", "High", false),
      Item(2, "Review binary tree algorithms", "Medium", false),
      Item(3, "Work on portfolio project", "High", false),
      Item(4, "Practice dynamic programming", "Low", false),
      Item(5, "Prepare for upcoming contest", "Medium", false) ]
  }

  /** Every task's id is its position plus one. */
  predicate NumberedInOrder(items: seq<Item>) {
    forall i :: 0 <= i < |items| ==> items[i].id == i + 1
  }

  /** Numbered lists have unique ids. */
  lemma NumberedIdsUnique(items: seq<Item>)
    requires NumberedInOrder(items)
    ensures forall i, j :: 0 <= i < j < |items| ==> items[i].id != items[j].id
  {
  }

  /** The list after `handleAddTask` with the given input text: unchanged
      when the text is blank, otherwise the old tasks followed by one new,
      open, medium-priority task with the trimmed text and the next id. */
  function Added(items: seq<Item>, text: string): (r: seq<Item>)
    ensures Trim(text) == "" ==> r == items
    ensures Trim(text) != "" ==>
      |r| == |items| + 1 && r[..|items|] == items
      && r[|items|] == Item(|items| + 1, Trim(text), DefaultPriority, false)
  {
    if Trim(text) != "" then items + [Item(|items| + 1, Trim(text), DefaultPriority, false)] else items
  }

  /** Adding keeps the ids unique: the new id is one past the last. */
  lemma AddedStaysNumbered(items: seq<Item>, text: string)
    requires NumberedInOrder(items)
    ensures NumberedInOrder(Added(items, text))
  {
  }

  /** The list after `handleToggleComplete(id)`: the tasks with that id are
      flipped, all others are kept. */
  function ToggledItems(items: seq<Item>, id: int): (r: seq<Item>)
    ensures |r| == |items|
    ensures forall i :: 0 <= i < |items| ==>
      r[i] == if items[i].id == id then items[i].(isCompleted := !items[i].isCompleted) else items[i]
  {
    seq(|items|, i requires 0 <= i < |items| =>
      if items[i].id == id then items[i].(isCompleted := !items[i].isCompleted) else items[i])
  }

  /** Toggling the same id twice gives back the list. */
  lemma ToggleTwiceIsIdentity(items: seq<Item>, id: int)
    ensures ToggledItems(ToggledItems(items, id), id) == items
  {
    var r := ToggledItems(ToggledItems(items, id), id);
    assert forall i :: 0 <= i < |items| ==> r[i] == items[i];
  }

  /** In a numbered list, toggling changes exactly one task when the id is
      in range and none otherwise. */
  lemma ToggleTouchesOne(items: seq<Item>, id: int)
    requires NumberedInOrder(items)
    ensures NumberedInOrder(ToggledItems(items, id))
    ensures 1 <= id <= |items| ==>
      ToggledItems(items, id) == items[id - 1 := items[id - 1].(isCompleted := !items[id - 1].isCompleted)]
    ensures !(1 <= id <= |items|) ==> ToggledItems(items, id) == items
  {
    var r := ToggledItems(items, id);
    if 1 <= id <= |items| {
      var u := items[id - 1 := items[id - 1].(isCompleted := !items[id - 1].isCompleted)];
      assert forall i :: 0 <= i < |items| ==> r[i] == u[i];
    } else {
      assert forall i :: 0 <= i < |items| ==> r[i] == items[i];
    }
  }

  class Section {
    var tasks: seq<Item>

    ghost predicate Valid()
      reads this
    {
      NumberedInOrder(tasks)
    }

    constructor ()
      ensures Valid() && tasks == InitialItems()
    {
      tasks := InitialItems();
    }

    method HandleAddTask(newTaskText: string)
      requires Valid()
      modifies this
      ensures Valid()
      ensures tasks == Added(old(tasks), newTaskText)
    {
      if Trim(newTaskText) != "" {
        tasks := tasks + [Item(|tasks| + 1, Trim(newTaskText), DefaultPriority, false)];
      }
    }

    method HandleToggleComplete(taskId: int)
      requires Valid()
      modifies this
      ensures Valid()
      ensures tasks == ToggledItems(old(tasks), taskId)
    {
      ToggleTouchesOne(tasks, taskId);
      tasks := ToggledItems(tasks, taskId);
    }
  }
}
