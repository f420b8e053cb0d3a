/** The controller's state as a value, and one state transition per handler
    of the to-do controller. Each transition's contract says what the handler
    changes and that everything else stays as it was. */
module TodoHandlers {
  import opened TodoData

  /** The controller's state: the groups, the open group's index (-1 when no
      group is open) and the store entry under the save key. */
  datatype Model = Model(groups: seq<GroupData>, currentGroupIndex: int, stored: Stored)

  /** The store holds exactly the list in memory. */
  ghost predicate InSync(m: Model) {
    m.stored == Saved(m.groups)
  }

  /** The selection is "none" or names an existing group. */
  ghost predicate SelectionInRange(m: Model) {
    m.currentGroupIndex == -1 || 0 <= m.currentGroupIndex < |m.groups|
  }

  predicate HasOpenGroup(m: Model) {
    0 <= m.currentGroupIndex < |m.groups|
  }

  predicate HasOpenTask(m: Model, taskIndex: int) {
    HasOpenGroup(m) && 0 <= taskIndex < |m.groups[m.currentGroupIndex].tasks|
  }

  /** SaveData: the whole list is written under the save key. */
  function SaveData(m: Model): (r: Model)
    ensures InSync(r)
    ensures r.groups == m.groups && r.currentGroupIndex == m.currentGroupIndex
  {
    m.(stored := Saved(m.groups))
  }

  /** LoadData: the list is replaced by the stored one when there is one;
      otherwise nothing changes. */
  function LoadData(m: Model): (r: Model)
    ensures r.groups == m.groups || InSync(r)
    ensures r.currentGroupIndex == m.currentGroupIndex && r.stored == m.stored
    ensures m.stored.NoKey? ==> r == m
    ensures m.stored.Document? && m.stored.decoded.Some? && m.stored.decoded.value.groups.Some? ==>
      r.groups == m.stored.decoded.value.groups.value
  {
    m.(groups := Loaded(m.stored, m.groups))
  }

  /** AddGroup: a "New Group" with no tasks is appended, then the list is saved. */
  function AddGroup(m: Model): (r: Model)
    ensures Appended(m.groups, r.groups, NEW_GROUP)
    ensures r.currentGroupIndex == m.currentGroupIndex
    ensures InSync(r)
  {
    SaveData(m.(groups := m.groups + [NEW_GROUP]))
  }

  /** AddTask: with no group open nothing happens; otherwise a "New Task" of
      urgency 0 is appended to the open group only, then the list is saved.
      The C# handler indexes the list with the selection, hence the requires. */
  function AddTask(m: Model): (r: Model)
    requires m.currentGroupIndex < |m.groups|
    ensures m.currentGroupIndex < 0 ==> r == m
    ensures 0 <= m.currentGroupIndex ==>
      var k := m.currentGroupIndex;
      && SameExcept(m.groups, r.groups, k)
      && r.groups[k].name == m.groups[k].name
      && Appended(m.groups[k].tasks, r.groups[k].tasks, NEW_TASK)
      && r.currentGroupIndex == k
      && InSync(r)
  {
    if m.currentGroupIndex < 0 then m
    else
      var k := m.currentGroupIndex;
      var g := m.groups[k];
      SaveData(m.(groups := m.groups[k := g.(tasks := g.tasks + [NEW_TASK])]))
  }

  /** OpenGroup: the group at `index` becomes the open one; the list and the
      store are untouched. */
  function OpenGroup(m: Model, index: int): (r: Model)
    requires 0 <= index < |m.groups|
    ensures HasOpenGroup(r) && r.currentGroupIndex == index
    ensures r.groups == m.groups && r.stored == m.stored
  {
    m.(currentGroupIndex := index)
  }

  /** UpdateGroupName: only the name of the group at `index` changes, then the
      list is saved. */
  function UpdateGroupName(m: Model, index: int, newName: string): (r: Model)
    requires 0 <= index < |m.groups|
    ensures SameExcept(m.groups, r.groups, index)
    ensures r.groups[index].name == newName && r.groups[index].tasks == m.groups[index].tasks
    ensures r.currentGroupIndex == m.currentGroupIndex
    ensures InSync(r)
  {
    SaveData(m.(groups := m.groups[index := m.groups[index].(name := newName)]))
  }

  /** The open group with its task at `taskIndex` replaced by `t`. */
  function WithOpenTask(m: Model, taskIndex: int, t: TaskData): (r: Model)
    requires HasOpenTask(m, taskIndex)
    ensures HasOpenTask(r, taskIndex)
    ensures var k := m.currentGroupIndex;
      && SameExcept(m.groups, r.groups, k)
      && r.groups[k].name == m.groups[k].name
      && SameExcept(m.groups[k].tasks, r.groups[k].tasks, taskIndex)
      && r.groups[k].tasks[taskIndex] == t
    ensures r.currentGroupIndex == m.currentGroupIndex && r.stored == m.stored
  {
    var k := m.currentGroupIndex;
    var g := m.groups[k];
    m.(groups := m.groups[k := g.(tasks := g.tasks[taskIndex := t])])
  }

  /** UpdateTaskName: only the name of one task of the open group changes,
      then the list is saved. */
  function UpdateTaskName(m: Model, taskIndex: int, newName: string): (r: Model)
    requires HasOpenTask(m, taskIndex)
    ensures var k := m.currentGroupIndex;
      && SameExcept(m.groups, r.groups, k)
      && r.groups[k].name == m.groups[k].name
      && SameExcept(m.groups[k].tasks, r.groups[k].tasks, taskIndex)
      && r.groups[k].tasks[taskIndex].taskName == newName
      && r.groups[k].tasks[taskIndex].urgency == m.groups[k].tasks[taskIndex].urgency
    ensures r.currentGroupIndex == m.currentGroupIndex
    ensures InSync(r)
  {
    var t := m.groups[m.currentGroupIndex].tasks[taskIndex];
    SaveData(WithOpenTask(m, taskIndex, t.(taskName := newName)))
  }

  /** UpdateTaskUrgency: only the urgency of one task of the open group
      changes, then the list is saved. */
  function UpdateTaskUrgency(m: Model, taskIndex: int, newUrgency: int): (r: Model)
    requires HasOpenTask(m, taskIndex)
    ensures var k := m.currentGroupIndex;
      && SameExcept(m.groups, r.groups, k)
      && r.groups[k].name == m.groups[k].name
      && SameExcept(m.groups[k].tasks, r.groups[k].tasks, taskIndex)
      && r.groups[k].tasks[taskIndex].urgency == newUrgency
      && r.groups[k].tasks[taskIndex].taskName == m.groups[k].tasks[taskIndex].taskName
    ensures r.currentGroupIndex == m.currentGroupIndex
    ensures InSync(r)
  {
    var t := m.groups[m.currentGroupIndex].tasks[taskIndex];
    SaveData(WithOpenTask(m, taskIndex, t.(urgency := newUrgency)))
  }

  /** DeleteGroup as written: the group at `index` is removed; the selection
      is cleared when it was that group and is otherwise left as it was, even
      when it pointed past the removed group. Then the list is saved. */
  function DeleteGroup(m: Model, index: int): (r: Model)
    requires 0 <= index < |m.groups|
    ensures |r.groups| == |m.groups| - 1
    ensures r.groups[..index] == m.groups[..index] && r.groups[index..] == m.groups[index + 1..]
    ensures multiset(r.groups) + multiset{m.groups[index]} == multiset(m.groups)
    ensures index == m.currentGroupIndex ==> r.currentGroupIndex == -1
    ensures index != m.currentGroupIndex ==> r.currentGroupIndex == m.currentGroupIndex
    ensures InSync(r)
  {
    RemoveAtMultiset(m.groups, index);
    var cleared := if index == m.currentGroupIndex then -1 else m.currentGroupIndex;
    SaveData(m.(groups := RemoveAt(m.groups, index), currentGroupIndex := cleared))
  }

  /** DeleteTask: one task of the open group is removed, the others keep
      their order, nothing else changes; then the list is saved. */
  function DeleteTask(m: Model, taskIndex: int): (r: Model)
    requires HasOpenTask(m, taskIndex)
    ensures SameExcept(m.groups, r.groups, m.currentGroupIndex)
    ensures var k := m.currentGroupIndex;
      var before, after := m.groups[k].tasks, r.groups[k].tasks;
      && r.groups[k].name == m.groups[k].name
      && |after| == |before| - 1
      && after[..taskIndex] == before[..taskIndex] && after[taskIndex..] == before[taskIndex + 1..]
      && multiset(after) + multiset{before[taskIndex]} == multiset(before)
    ensures r.currentGroupIndex == m.currentGroupIndex
    ensures InSync(r)
  {
    var k := m.currentGroupIndex;
    var g := m.groups[k];
    RemoveAtMultiset(g.tasks, taskIndex);
    SaveData(m.(groups := m.groups[k := g.(tasks := RemoveAt(g.tasks, taskIndex))]))
  }

  /** What the task panel shows after a refresh: nothing when no group is
      open, the open group's tasks, or an index-out-of-range failure when the
      selection points past the end of the list. */
  datatype Panel = NoGroupOpen | Showing(tasks: seq<TaskData>) | IndexOutOfRange

  /** RefreshTaskUI's reading of the state. */
  function TaskPanel(m: Model): (p: Panel)
    ensures p.NoGroupOpen? <==> m.currentGroupIndex < 0
    ensures p.IndexOutOfRange? <==> |m.groups| <= m.currentGroupIndex
    ensures HasOpenGroup(m) ==> p == Showing(m.groups[m.currentGroupIndex].tasks)
  {
    if m.currentGroupIndex < 0 then NoGroupOpen
    else if m.currentGroupIndex < |m.groups| then Showing(m.groups[m.currentGroupIndex].tasks)
    else IndexOutOfRange
  }

  /** A refresh fails exactly when the selection is out of range. */
  lemma TaskPanelFailsIff(m: Model)
    requires -1 <= m.currentGroupIndex
    ensures TaskPanel(m).IndexOutOfRange? <==> !SelectionInRange(m)
  {
  }

  // ---- Partners: inverses and round trips ----

  /** Deleting the group just added gives back the list from before. */
  lemma DeleteUndoesAddGroup(m: Model)
    ensures DeleteGroup(AddGroup(m), |m.groups|).groups == m.groups
  {
  }

  /** Deleting the task just added gives back the list from before. */
  lemma DeleteUndoesAddTask(m: Model)
    requires HasOpenGroup(m)
    ensures var a := AddTask(m);
      HasOpenTask(a, |m.groups[m.currentGroupIndex].tasks|) &&
      DeleteTask(a, |m.groups[m.currentGroupIndex].tasks|).groups == m.groups
  {
    var k := m.currentGroupIndex;
    var a := AddTask(m);
    assert a.groups[k].tasks == m.groups[k].tasks + [NEW_TASK];
    RemoveAtUndoesAppend(m.groups[k].tasks, NEW_TASK);
    var d := DeleteTask(a, |m.groups[k].tasks|);
    assert d.groups[k] == m.groups[k];
    assert forall j :: 0 <= j < |m.groups| ==> d.groups[j] == m.groups[j];
  }

  /** Renaming a group back to its old name restores the list. */
  lemma RenameGroupUndone(m: Model, index: int, newName: string)
    requires 0 <= index < |m.groups|
    ensures UpdateGroupName(UpdateGroupName(m, index, newName), index, m.groups[index].name).groups == m.groups
  {
  }

  /** Setting a task's name and urgency back to their old values restores the list. */
  lemma UpdateTaskUndone(m: Model, taskIndex: int, newName: string, newUrgency: int)
    requires HasOpenTask(m, taskIndex)
    ensures var t := m.groups[m.currentGroupIndex].tasks[taskIndex];
      var r := UpdateTaskUrgency(UpdateTaskName(m, taskIndex, newName), taskIndex, newUrgency);
      HasOpenTask(r, taskIndex) &&
      UpdateTaskUrgency(UpdateTaskName(r, taskIndex, t.taskName), taskIndex, t.urgency).groups == m.groups
  {
    var k := m.currentGroupIndex;
    var r := UpdateTaskUrgency(UpdateTaskName(m, taskIndex, newName), taskIndex, newUrgency);
    var u := UpdateTaskUrgency(UpdateTaskName(r, taskIndex, m.groups[k].tasks[taskIndex].taskName),
                               taskIndex, m.groups[k].tasks[taskIndex].urgency);
    assert u.groups[k].tasks == m.groups[k].tasks;
    assert u.groups[k] == m.groups[k];
    assert u.groups == m.groups;
  }

  /** Saving and then loading leaves the list as it was saved. */
  lemma LoadAfterSave(m: Model)
    ensures LoadData(SaveData(m)) == SaveData(m)
  {
  }

  // ---- The selection after DeleteGroup ----

  /** DeleteGroup as written keeps the selection in range unless it removes
      a group before the open one while the open one is the last. */
  lemma DeleteGroupSelectionIff(m: Model, index: int)
    requires SelectionInRange(m) && 0 <= index < |m.groups|
    ensures SelectionInRange(DeleteGroup(m, index)) <==>
      !(index < m.currentGroupIndex && m.currentGroupIndex == |m.groups| - 1)
  {
  }

  /** DeleteGroup as written: after removing a group before the open one
      (and not the last group), the selection names the group that followed
      the one that was open. */
  lemma DeleteGroupShiftsOpenGroup(m: Model, index: int)
    requires 0 <= index < m.currentGroupIndex < |m.groups| - 1
    ensures var r := DeleteGroup(m, index);
      HasOpenGroup(r) && r.groups[r.currentGroupIndex] == m.groups[m.currentGroupIndex + 1]
  {
  }

  /** Three groups, the last one open; deleting the first leaves the
      selection at 2 with only two groups, and the refresh that follows fails. */
  lemma DeleteGroupLosesSelection()
    ensures var m := Model([GroupData("A", []), GroupData("B", []), GroupData("C", [])], 2, NoKey);
      var r := DeleteGroup(m, 0);
      SelectionInRange(m) && r.currentGroupIndex == 2 && |r.groups| == 2 &&
      !SelectionInRange(r) && TaskPanel(r) == IndexOutOfRange
  {
  }

  /** The selection rule the deletion needs: clear it when the open group is
      removed, move it down by one when an earlier group is removed, keep it
      otherwise. The same group stays open. */
  function ReselectAfterRemoval(groups: seq<GroupData>, current: int, removed: int): (r: int)
    requires current == -1 || 0 <= current < |groups|
    requires 0 <= removed < |groups|
    ensures r == -1 || 0 <= r < |groups| - 1
    ensures r == -1 <==> (current == -1 || current == removed)
    ensures r != -1 ==> RemoveAt(groups, removed)[r] == groups[current]
    ensures r != -1 ==> (if r < removed then r else r + 1) == current
  {
    if current == removed then -1
    else if removed < current then current - 1
    else current
  }

  /** DeleteGroup with the selection moved by ReselectAfterRemoval. */
  function DeleteGroupReselecting(m: Model, index: int): (r: Model)
    requires SelectionInRange(m) && 0 <= index < |m.groups|
    ensures r.groups == DeleteGroup(m, index).groups && InSync(r)
    ensures SelectionInRange(r)
    ensures r.currentGroupIndex == -1 <==> (m.currentGroupIndex == -1 || m.currentGroupIndex == index)
    ensures HasOpenGroup(r) ==> r.groups[r.currentGroupIndex] == m.groups[m.currentGroupIndex]
    ensures HasOpenGroup(r) ==>
      (if r.currentGroupIndex < index then r.currentGroupIndex else r.currentGroupIndex + 1) == m.currentGroupIndex
  {
    var groups := RemoveAt(m.groups, index);
    Model(groups, ReselectAfterRemoval(m.groups, m.currentGroupIndex, index), Saved(groups))
  }

  /** Three groups, the last one open; with the corrected rule, deleting the
      first leaves the same group open at index 1, even when all groups are equal. */
  lemma DeleteGroupReselectingExample()
    ensures var m := Model([NEW_GROUP, NEW_GROUP, NEW_GROUP], 2, NoKey);
      var r := DeleteGroupReselecting(m, 0);
      r.currentGroupIndex == 1 && |r.groups| == 2 && TaskPanel(r) == Showing([])
  {
  }
}
