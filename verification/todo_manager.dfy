/** The to-do controller as an object: its handlers update the list of
    groups, the selection and the store in place. Each method is proved to
    have the effect of the matching transition of TodoHandlers. */
module Manager {
  import opened TodoData
  import H = TodoHandlers

  class TodoManager {
    /** The groups, in display order. */
    var groups: seq<GroupData>
    /** The open group's index; -1 when no group is open. */
    var currentGroupIndex: int
    /** The key-value store's entry under the save key. */
    var stored: Stored

    /** The controller's state as a value. */
    function State(): H.Model
      reads this
    {
      H.Model(groups, currentGroupIndex, stored)
    }

    /** A new controller: no groups, no group open, and whatever the store
        already holds. */
    constructor (store: Stored)
      ensures groups == [] && currentGroupIndex == -1 && stored == store
    {
      groups := [];
      currentGroupIndex := -1;
      stored := store;
    }

    /** Start: load the saved list (the UI wiring is not modelled). */
    method Start()
      modifies this
      ensures State() == H.LoadData(old(State()))
    {
      LoadData();
    }

    method AddGroup()
      modifies this
      ensures State() == H.AddGroup(old(State()))
    {
      groups := groups + [NEW_GROUP];
      SaveData();
    }

    /** Returns what the task panel shows afterwards. */
    method AddTask() returns (panel: H.Panel)
      requires currentGroupIndex < |groups|
      modifies this
      ensures State() == H.AddTask(old(State()))
      ensures panel == H.TaskPanel(State())
    {
      if currentGroupIndex < 0 {
        return H.NoGroupOpen;
      }
      var g := groups[currentGroupIndex];
      groups := groups[currentGroupIndex := g.(tasks := g.tasks + [NEW_TASK])];
      SaveData();
      panel := RefreshTaskUI();
    }

    /** The task-panel refresh, reduced to the one list access it makes:
        the open group's tasks, or a failure when the selection points past
        the end of the list. */
    method RefreshTaskUI() returns (panel: H.Panel)
      ensures panel == H.TaskPanel(State())
      ensures panel.IndexOutOfRange? <==> |groups| <= currentGroupIndex
    {
      if currentGroupIndex < 0 {
        return H.NoGroupOpen;
      }
      if currentGroupIndex >= |groups| {
        return H.IndexOutOfRange;
      }
      panel := H.Showing(groups[currentGroupIndex].tasks);
    }

    method OpenGroup(index: int) returns (panel: H.Panel)
      requires 0 <= index < |groups|
      modifies this
      ensures State() == H.OpenGroup(old(State()), index)
      ensures panel == H.Showing(groups[index].tasks)
    {
      currentGroupIndex := index;
      panel := RefreshTaskUI();
    }

    method UpdateGroupName(index: int, newName: string)
      requires 0 <= index < |groups|
      modifies this
      ensures State() == H.UpdateGroupName(old(State()), index, newName)
    {
      groups := groups[index := groups[index].(name := newName)];
      SaveData();
    }

    method UpdateTaskName(taskIndex: int, newName: string)
      requires H.HasOpenTask(State(), taskIndex)
      modifies this
      ensures State() == H.UpdateTaskName(old(State()), taskIndex, newName)
    {
      var g := groups[currentGroupIndex];
      var t := g.tasks[taskIndex];
      groups := groups[currentGroupIndex := g.(tasks := g.tasks[taskIndex := t.(taskName := newName)])];
      SaveData();
    }

    method UpdateTaskUrgency(taskIndex: int, newUrgency: int)
      requires H.HasOpenTask(State(), taskIndex)
      modifies this
      ensures State() == H.UpdateTaskUrgency(old(State()), taskIndex, newUrgency)
    {
      var g := groups[currentGroupIndex];
      var t := g.tasks[taskIndex];
      groups := groups[currentGroupIndex := g.(tasks := g.tasks[taskIndex := t.(urgency := newUrgency)])];
      SaveData();
    }

    /** Removes the group, clears the selection only when it was that group,
        saves, and refreshes the task panel; that refresh fails when the
        selection now points past the end of the list. */
    method DeleteGroup(index: int) returns (panel: H.Panel)
      requires 0 <= index < |groups|
      modifies this
      ensures State() == H.DeleteGroup(old(State()), index)
      ensures panel == H.TaskPanel(State())
      ensures old(H.SelectionInRange(State())) ==>
        (panel.IndexOutOfRange? <==> index < old(currentGroupIndex) == old(|groups|) - 1)
    {
      groups := RemoveAt(groups, index);
      if index == currentGroupIndex {
        currentGroupIndex := -1;
      }
      SaveData();
      panel := RefreshTaskUI();
    }

    method DeleteTask(taskIndex: int) returns (panel: H.Panel)
      requires H.HasOpenTask(State(), taskIndex)
      modifies this
      ensures State() == H.DeleteTask(old(State()), taskIndex)
      ensures panel == H.Showing(groups[currentGroupIndex].tasks)
    {
      var g := groups[currentGroupIndex];
      groups := groups[currentGroupIndex := g.(tasks := RemoveAt(g.tasks, taskIndex))];
      SaveData();
      panel := RefreshTaskUI();
    }

    /** Writes the whole list under the save key. */
    method SaveData()
      modifies this`stored
      ensures stored == Saved(groups)
    {
      stored := Document(Some(SaveWrapper(Some(groups))));
    }

    /** Replaces the list by the stored one when the key exists and its
        document decodes to a wrapper that has a list. */
    method LoadData()
      modifies this`groups
      ensures groups == Loaded(stored, old(groups))
    {
      if stored.Document? {
        var wrapper := stored.decoded;
        if wrapper.Some? && wrapper.value.groups.Some? {
          groups := wrapper.value.groups.value;
        }
      }
    }
  }
}
