# To-do list controller, modelled in Dafny

This project models the controller of a single-screen to-do list: `TodoManager`
in `Assets/Scripts/TodoManager.cs`. The controller keeps an ordered list of
groups. Each group has a name and an ordered list of tasks, and each task has a
name and an integer urgency (the index chosen in a dropdown). It also keeps a
selection, `currentGroupIndex`, where -1 means no group is open. UI buttons and
edits call its handlers: add a group or task, open a group, rename a group or
task, set a task's urgency, delete a group or task. Every handler that changes
the list saves the whole list under one key of a key-value store. `Start` loads
that list back.

Layout:

- `todo_data.dfy`, module `TodoData`. It holds the records `TaskData` and
  `GroupData`, the default new group and new task, and `RemoveAt` (the list
  removal the handlers use). It also holds the saved document: a `SaveWrapper`
  whose list may be null, and `Stored`, which is the store entry as the JSON
  decoder sees it. The entry is either no key, or a document that decodes to
  null or to a wrapper.
- `todo_handlers.dfy`, module `TodoHandlers`. The controller's state is the
  value `Model(groups, currentGroupIndex, stored)`. There is one transition
  function per handler. Each one's contract says what changes, that nothing
  else changes, and that the store then holds the new list. This module also
  has `TaskPanel`, which is what the task-panel refresh reads. Lemmas give
  inverses (delete undoes add, renaming back undoes a rename), the
  save/load round trip, and the behaviour of the selection after a group
  deletion.
- `todo_session.dfy`, module `TodoSession`. The UI delivers events one at a
  time, and each handler runs to completion before the next. `Run` applies a
  sequence of events. Inductive lemmas prove properties of every session:
  - the store stays in step with the list;
  - restarting the program restores the list the session ended with, from
    the very first start whatever the store held;
  - the selection never drops below -1;
  - without group deletions, the selection stays -1 or valid.
- `todo_manager.dfy`, module `Manager`. The class `TodoManager` has the fields
  `groups`, `currentGroupIndex` and `stored`. Its methods update these fields
  in place the way the C# handlers do. Each method is proved to have exactly
  the effect of the matching `TodoHandlers` transition.

A C# list access that would throw before the handler changes anything becomes
a `requires`. This covers the renames, the urgency update, the deletions, and
`AddTask` with a selection past the end. `OpenGroup` is different: it sets the
selection (line 112) before any list read, and its read at line 116 happens only
when a title widget exists. Its `requires 0 <= index < |groups|` instead states
what its only caller guarantees. That caller is the open-button listener (line
81), which captures an index of the current list. The buttons are rebuilt
(lines 44, 54 and 146) whenever the number of groups changes.

The task-panel refresh that `DeleteGroup` runs last (line 147, reading the list
at line 92) is not a precondition either: by then the group has already been removed and the list saved. So
that failure is modelled as a result, `Panel.IndexOutOfRange`.

The intended selection rule is to clear the selection when the open group is
deleted and to move it down by one when an earlier group is deleted. The code
only does the first part. The model follows the code, and the gap is recorded
under Findings.

## Model

| member | source | states |
|---|---|---|
| `TodoData.RemoveAt` | Assets/Scripts/TodoManager.cs:140 | removing index i gives a list one shorter, with the same elements before i and every later element moved down by one |
| `TodoData.RemoveAtMultiset` | Assets/Scripts/TodoManager.cs:140 | removal loses exactly the removed element (as multisets) |
| `TodoData.RemoveAtUndoesAppend` | Assets/Scripts/TodoManager.cs:52 | removing the last element undoes appending it |
| `TodoData.Saved` | Assets/Scripts/TodoManager.cs:156-161 | the saved entry is a document that decodes to a wrapper holding exactly the list |
| `TodoData.Loaded` | Assets/Scripts/TodoManager.cs:163-170 | when the key exists and its document decodes to a wrapper with a list, loading yields exactly that list; a missing key, a document that decodes to null, or a null list leaves the list in memory as it was |
| `TodoData.LoadedAfterSaved` | Assets/Scripts/TodoManager.cs:156-170 | loading a saved entry gives back the saved list, whatever was in memory |
| `TodoHandlers.SaveData` | Assets/Scripts/TodoManager.cs:156-161 | after saving, the store holds the list; the list and the selection are unchanged |
| `TodoHandlers.LoadData` | Assets/Scripts/TodoManager.cs:163-170 | the list becomes the stored one when the key exists and decodes to a wrapper with a list, and is kept otherwise (nothing changes with no key); the selection and the store are unchanged |
| `TodoHandlers.AddGroup` | Assets/Scripts/TodoManager.cs:50-55 | exactly one group, "New Group" with no tasks, is appended at the end; earlier groups and the selection are unchanged; the store holds the new list |
| `TodoHandlers.AddTask` | Assets/Scripts/TodoManager.cs:57-64 | with no group open the state is unchanged; otherwise one "New Task" of urgency 0 is appended to the open group's tasks only, and every other group, the open group's name and the selection are unchanged; the store holds the new list |
| `TodoHandlers.OpenGroup` | Assets/Scripts/TodoManager.cs:111-119 | the selection becomes the given valid index; the list and the store are untouched |
| `TodoHandlers.UpdateGroupName` | Assets/Scripts/TodoManager.cs:121-127 | only the named group's name changes, to the new name; its tasks, every other group and the selection are unchanged; the store holds the new list |
| `TodoHandlers.UpdateTaskName` | Assets/Scripts/TodoManager.cs:129-132 | only the name of one task of the open group changes; its urgency, the other tasks, the other groups and the selection are unchanged; the store holds the new list |
| `TodoHandlers.UpdateTaskUrgency` | Assets/Scripts/TodoManager.cs:134-137 | only the urgency of one task of the open group changes; its name, the other tasks, the other groups and the selection are unchanged; the store holds the new list |
| `TodoHandlers.DeleteGroup` | Assets/Scripts/TodoManager.cs:139-148 | exactly the group at the index is removed, the groups before it are kept and the ones after it move down by one; the selection becomes -1 if it was that index and is otherwise left as it was, with no decrement; the store holds the new list |
| `TodoHandlers.DeleteTask` | Assets/Scripts/TodoManager.cs:150-154 | exactly one task of the open group is removed and the others keep their order; other groups, the group name and the selection are unchanged; the store holds the new list |
| `TodoHandlers.TaskPanel` | Assets/Scripts/TodoManager.cs:86-92 | the refresh shows nothing when the selection is negative, fails exactly when the selection is at or past the end of the list, and otherwise shows the open group's tasks |
| `TodoHandlers.TaskPanelFailsIff` | Assets/Scripts/TodoManager.cs:90-92 | for a selection of at least -1, the refresh fails exactly when the selection is out of range |
| `TodoHandlers.DeleteUndoesAddGroup` | Assets/Scripts/TodoManager.cs:50-55 | deleting the group just added restores the list |
| `TodoHandlers.DeleteUndoesAddTask` | Assets/Scripts/TodoManager.cs:57-64 | deleting the task just added to the open group restores the list |
| `TodoHandlers.RenameGroupUndone` | Assets/Scripts/TodoManager.cs:121-127 | renaming a group back to its old name restores the list |
| `TodoHandlers.UpdateTaskUndone` | Assets/Scripts/TodoManager.cs:129-137 | setting a task's name and urgency back to their old values restores the list |
| `TodoHandlers.LoadAfterSave` | Assets/Scripts/TodoManager.cs:156-170 | loading right after saving changes nothing |
| `TodoHandlers.DeleteGroupSelectionIff` | Assets/Scripts/TodoManager.cs:139-147 | from a valid selection, deleting a group keeps the selection valid exactly unless an earlier group is deleted while the last group is open |
| `TodoHandlers.DeleteGroupShiftsOpenGroup` | Assets/Scripts/TodoManager.cs:139-147 | deleting a group before the open one (which is not the last) leaves the selection on the group that followed the one that was open |
| `TodoHandlers.DeleteGroupLosesSelection` | Assets/Scripts/TodoManager.cs:139-147 | with groups A, B, C and C open, deleting A leaves selection 2 over two groups, and the refresh fails |
| `TodoHandlers.ReselectAfterRemoval` | Assets/Scripts/TodoManager.cs:141-144 | corrected rule: the new selection is -1 exactly when nothing was open or the open group was removed; otherwise it is a valid index of the shortened list whose old position is the old selection (one less when an earlier group was removed, the same when a later one was), so it names the same group |
| `TodoHandlers.DeleteGroupReselecting` | Assets/Scripts/TodoManager.cs:139-145 | corrected deletion: removes the same group and saves; the selection stays valid, is cleared exactly when the open group was removed, and otherwise maps back to the old selection's position, so the same group stays open |
| `TodoHandlers.DeleteGroupReselectingExample` | Assets/Scripts/TodoManager.cs:139-145 | corrected deletion on three equal groups with the last open: deleting the first leaves index 1 open over two groups, and the refresh shows its tasks |
| `TodoSession.HandleKeepsSync` | Assets/Scripts/TodoManager.cs:50-154 | no handler leaves the store out of step with the list |
| `TodoSession.HandleSaves` | Assets/Scripts/TodoManager.cs:121-154 | every handler other than AddTask and OpenGroup leaves the store holding the list, from any state |
| `TodoSession.RunKeepsSync` | Assets/Scripts/TodoManager.cs:50-161 | over any sequence of events, a store in step with the list stays in step |
| `TodoSession.RunSyncsAfterSave` | Assets/Scripts/TodoManager.cs:50-161 | once any always-saving handler has run, the store mirrors the list at the end of the session |
| `TodoSession.RestartRestores` | Assets/Scripts/TodoManager.cs:42-43 | a new controller started on the store after any session that begins with the store in step with the list gets back the list the session ended with, with no group open |
| `TodoSession.HandleSyncsOrKeeps` | Assets/Scripts/TodoManager.cs:50-154 | every handler either leaves the store holding the list or changes neither the list nor the store |
| `TodoSession.RunSyncsOrKeeps` | Assets/Scripts/TodoManager.cs:50-161 | every session either ends with the store holding the list or leaves both the list and the store as they were |
| `TodoSession.RestartRestoresFromStart` | Assets/Scripts/TodoManager.cs:42-43 | from the first start on any store entry (no key, a document decoding to null, a saved list), a session followed by a restart gives back the list the session ended with, with no group open |
| `TodoSession.RunKeepsSelectionAboveNone` | Assets/Scripts/TodoManager.cs:37 | the selection never drops below -1, so "negative" means "no group open" |
| `TodoSession.HandleKeepsSelection` | Assets/Scripts/TodoManager.cs:57-154 | every handler except DeleteGroup keeps the selection -1 or valid |
| `TodoSession.RunKeepsSelection` | Assets/Scripts/TodoManager.cs:57-154 | a session without group deletions keeps the selection -1 or valid |
| `TodoSession.TwoGroupsAdded` | Assets/Scripts/TodoManager.cs:50-55 | from an empty list, two presses of "add group" give two "New Group" groups, nothing open, and the store holding them |
| `Manager.TodoManager.constructor` | Assets/Scripts/TodoManager.cs:36-37 | a new controller has no groups and no open group |
| `Manager.TodoManager.Start` | Assets/Scripts/TodoManager.cs:42-48 | start-up has the effect of LoadData |
| `Manager.TodoManager.AddGroup` | Assets/Scripts/TodoManager.cs:50-55 | the fields change exactly as `TodoHandlers.AddGroup` says |
| `Manager.TodoManager.AddTask` | Assets/Scripts/TodoManager.cs:57-64 | the fields change exactly as `TodoHandlers.AddTask` says; the panel shows the open group's tasks |
| `Manager.TodoManager.RefreshTaskUI` | Assets/Scripts/TodoManager.cs:86-92 | returns what the task panel shows, and fails exactly when the selection is at or past the end of the list |
| `Manager.TodoManager.OpenGroup` | Assets/Scripts/TodoManager.cs:111-119 | the fields change exactly as `TodoHandlers.OpenGroup` says; the panel shows the opened group's tasks |
| `Manager.TodoManager.UpdateGroupName` | Assets/Scripts/TodoManager.cs:121-127 | the fields change exactly as `TodoHandlers.UpdateGroupName` says |
| `Manager.TodoManager.UpdateTaskName` | Assets/Scripts/TodoManager.cs:129-132 | the fields change exactly as `TodoHandlers.UpdateTaskName` says |
| `Manager.TodoManager.UpdateTaskUrgency` | Assets/Scripts/TodoManager.cs:134-137 | the fields change exactly as `TodoHandlers.UpdateTaskUrgency` says |
| `Manager.TodoManager.DeleteGroup` | Assets/Scripts/TodoManager.cs:139-148 | the fields change exactly as `TodoHandlers.DeleteGroup` says; from a valid selection, the trailing refresh fails exactly when an earlier group was deleted while the last group was open |
| `Manager.TodoManager.DeleteTask` | Assets/Scripts/TodoManager.cs:150-154 | the fields change exactly as `TodoHandlers.DeleteTask` says; the panel shows the open group's remaining tasks |
| `Manager.TodoManager.SaveData` | Assets/Scripts/TodoManager.cs:156-161 | the store entry becomes the saved document for the current list; only `stored` changes |
| `Manager.TodoManager.LoadData` | Assets/Scripts/TodoManager.cs:163-170 | the list becomes `Loaded(stored, old list)`; only `groups` changes |

## Left out

- JSON encoding and decoding and the key-value store are not modelled as code. The store entry is represented by what the decoder returns for it. Saving is assumed to round-trip exactly, so a saved list decodes back to the same list. A payload the decoder rejects with an exception is not modelled separately. Such a payload would leave the list unchanged, the same as a payload that decodes to null, but in the source it would also stop `Start` before it wires the buttons.
- Object identity is not modelled. Groups and tasks are values, not shared references. In the source each group and task object is owned by the list alone, and saving copies the list into text, so no aliasing is observable.
- The widget work in `RefreshGroupUI` and `RefreshTaskUI` is not modelled: destroying and instantiating rows, finding child widgets, and wiring listeners through closures. Only the list read at line 92 is kept, as `TaskPanel` / `RefreshTaskUI`. `RefreshGroupUI` is called after `AddGroup`, after `DeleteGroup` and in `Start`; it reads only valid indices and changes no state.
- The `currentGroupTitle` text updates in `OpenGroup`, `UpdateGroupName` and `DeleteGroup` are display only. `OpenGroup`'s read of `groups[index]` for the title is covered by its `requires`.
- `Start`'s listener registration (lines 46-47) is UI wiring. The event alphabet in `TodoSession.Event` stands for the buttons and edits it connects.
- `UIManager.cs` (theme sprite swapping and a global flag) and `DeleteButtonUIManager.cs` (per-frame sprite polling) are UI and engine lifecycle code and are not part of this model.
- The source has no 32-bit overflow to model. Indices are bounded by list lengths, and urgency is stored as given.
- `Manager.TodoManager.DeleteGroup`: the "refresh fails exactly when" clause is stated only for a selection that was -1 or valid beforehand. From an already-invalid selection the refresh simply keeps failing, which `TaskPanel` covers.

## Findings

| source | as written | input that shows it | evidently intended | confidence | as-written member | corrected member |
|---|---|---|---|---|---|---|
| Assets/Scripts/TodoManager.cs:141-147 | `DeleteGroup` clears the selection only when the open group itself is deleted. It never moves the selection down when an earlier group is deleted. | Groups A, B, C with C open (selection 2), then delete A. The selection stays 2 over two groups, and the refresh at line 147 indexes `groups[2]` at line 92 and fails. With four groups and the third open, the same deletion silently opens the fourth group. | Move the selection down by one when an earlier group is removed, so the same group stays open and the selection stays valid. | high; not executed | `TodoHandlers.DeleteGroupLosesSelection` | `TodoHandlers.ReselectAfterRemoval` |

The class `Manager.TodoManager` keeps the as-written deletion, because it models
the shipped handler. `TodoHandlers.DeleteGroupReselecting` is the deletion with
the corrected selection rule, and it is proved to keep the selection valid and
on the same group.
