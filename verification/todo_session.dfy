/** A session: the UI delivers button presses and edits one at a time, and
    each runs its handler to completion before the next. These lemmas state
    what holds over any sequence of such events. */
module TodoSession {
  import opened TodoData
  import opened TodoHandlers

  /** The inputs the controller wires to its handlers. */
  datatype Event =
    | AddGroupPressed
    | AddTaskPressed
    | OpenPressed(index: int)
    | GroupNameEdited(index: int, newName: string)
    | TaskNameEdited(taskIndex: int, newName: string)
    | UrgencyChosen(taskIndex: int, newUrgency: int)
    | DeleteGroupPressed(index: int)
    | DeleteTaskPressed(taskIndex: int)

  /** The handler for `e` does not index past the end of a list. */
  predicate CanHandle(m: Model, e: Event) {
    match e
    case AddGroupPressed => true
    case AddTaskPressed => m.currentGroupIndex < |m.groups|
    case OpenPressed(i) => 0 <= i < |m.groups|
    case GroupNameEdited(i, _) => 0 <= i < |m.groups|
    case TaskNameEdited(t, _) => HasOpenTask(m, t)
    case UrgencyChosen(t, _) => HasOpenTask(m, t)
    case DeleteGroupPressed(i) => 0 <= i < |m.groups|
    case DeleteTaskPressed(t) => HasOpenTask(m, t)
  }

  /** The state after the handler for `e` has run. */
  function Handle(m: Model, e: Event): Model
    requires CanHandle(m, e)
  {
    match e
    case AddGroupPressed => AddGroup(m)
    case AddTaskPressed => AddTask(m)
    case OpenPressed(i) => OpenGroup(m, i)
    case GroupNameEdited(i, name) => UpdateGroupName(m, i, name)
    case TaskNameEdited(t, name) => UpdateTaskName(m, t, name)
    case UrgencyChosen(t, u) => UpdateTaskUrgency(m, t, u)
    case DeleteGroupPressed(i) => DeleteGroup(m, i)
    case DeleteTaskPressed(t) => DeleteTask(m, t)
  }

  /** Every event of `es`, in turn, can be handled. */
  predicate Executable(m: Model, es: seq<Event>)
    decreases |es|
  {
    |es| == 0 || (CanHandle(m, es[0]) && Executable(Handle(m, es[0]), es[1..]))
  }

  /** The state after the events `es`, in order. */
  function Run(m: Model, es: seq<Event>): Model
    requires Executable(m, es)
    decreases |es|
  {
    if |es| == 0 then m else Run(Handle(m, es[0]), es[1..])
  }

  /** A fresh controller (no groups, no group open) whose Start has loaded
      from the store entry `stored`. */
  function Restart(stored: Stored): Model {
    LoadData(Model([], -1, stored))
  }

  ghost predicate NoGroupDeletes(es: seq<Event>) {
    forall k :: 0 <= k < |es| ==> !es[k].DeleteGroupPressed?
  }

  /** The handlers that save unconditionally; AddTask saves only when a
      group is open and OpenGroup never saves. */
  predicate AlwaysSaves(e: Event) {
    !e.AddTaskPressed? && !e.OpenPressed?
  }

  /** No handler leaves the store out of step with the list. */
  lemma HandleKeepsSync(m: Model, e: Event)
    requires InSync(m) && CanHandle(m, e)
    ensures InSync(Handle(m, e))
  {
  }

  /** The unconditionally saving handlers leave the store in step with the list from any state. */
  lemma HandleSaves(m: Model, e: Event)
    requires CanHandle(m, e) && AlwaysSaves(e)
    ensures InSync(Handle(m, e))
  {
  }

  /** Every handler saves what it changed: a store in step with the list stays so. */
  lemma {:induction false} RunKeepsSync(m: Model, es: seq<Event>)
    requires InSync(m) && Executable(m, es)
    ensures InSync(Run(m, es))
    decreases |es|
  {
    if |es| > 0 {
      HandleKeepsSync(m, es[0]);
      RunKeepsSync(Handle(m, es[0]), es[1..]);
    }
  }

  /** A controller started on the store after any session gets back the list
      that session ended with, with no group open. */
  lemma RestartRestores(m: Model, es: seq<Event>)
    requires InSync(m) && Executable(m, es)
    ensures Restart(Run(m, es).stored).groups == Run(m, es).groups
    ensures Restart(Run(m, es).stored).currentGroupIndex == -1
  {
    RunKeepsSync(m, es);
    LoadedAfterSaved(Run(m, es).groups, []);
  }

  /** A handler either leaves the store in step with the list, or changes
      neither the list nor the store. */
  lemma HandleSyncsOrKeeps(m: Model, e: Event)
    requires CanHandle(m, e)
    ensures var h := Handle(m, e);
      InSync(h) || (h.groups == m.groups && h.stored == m.stored)
  {
  }

  /** A session either ends with the store in step with the list, or leaves
      both as they were. */
  lemma {:induction false} RunSyncsOrKeeps(m: Model, es: seq<Event>)
    requires Executable(m, es)
    ensures var r := Run(m, es);
      InSync(r) || (r.groups == m.groups && r.stored == m.stored)
    decreases |es|
  {
    if |es| > 0 {
      var h := Handle(m, es[0]);
      HandleSyncsOrKeeps(m, es[0]);
      if InSync(h) {
        RunKeepsSync(h, es[1..]);
      } else {
        RunSyncsOrKeeps(h, es[1..]);
      }
    }
  }

  /** From the very first start, whatever the store held (no key, a document
      that decodes to null, a saved list), a session followed by a restart
      gives back the list the session ended with, with no group open. */
  lemma RestartRestoresFromStart(stored: Stored, es: seq<Event>)
    requires Executable(Restart(stored), es)
    ensures Restart(Run(Restart(stored), es).stored).groups == Run(Restart(stored), es).groups
    ensures Restart(Run(Restart(stored), es).stored).currentGroupIndex == -1
  {
    var r := Run(Restart(stored), es);
    RunSyncsOrKeeps(Restart(stored), es);
    if InSync(r) {
      LoadedAfterSaved(r.groups, []);
    }
  }

  /** After the first handler that saves, the store mirrors the list for the rest of the session. */
  lemma {:induction false} RunSyncsAfterSave(m: Model, es: seq<Event>, k: nat)
    requires Executable(m, es)
    requires k < |es| && AlwaysSaves(es[k])
    ensures InSync(Run(m, es))
    decreases |es|
  {
    if k == 0 {
      HandleSaves(m, es[0]);
      RunKeepsSync(Handle(m, es[0]), es[1..]);
    } else {
      RunSyncsAfterSave(Handle(m, es[0]), es[1..], k - 1);
    }
  }

  /** The selection never drops below -1, so "less than zero" in AddTask
      means "no group open". */
  lemma {:induction false} RunKeepsSelectionAboveNone(m: Model, es: seq<Event>)
    requires -1 <= m.currentGroupIndex && Executable(m, es)
    ensures -1 <= Run(m, es).currentGroupIndex
    decreases |es|
  {
    if |es| > 0 {
      RunKeepsSelectionAboveNone(Handle(m, es[0]), es[1..]);
    }
  }

  /** Apart from deleting a group, no handler takes the selection out of range. */
  lemma HandleKeepsSelection(m: Model, e: Event)
    requires SelectionInRange(m) && CanHandle(m, e) && !e.DeleteGroupPressed?
    ensures SelectionInRange(Handle(m, e))
  {
  }

  /** A session without group deletions keeps the selection "none" or valid. */
  lemma {:induction false} RunKeepsSelection(m: Model, es: seq<Event>)
    requires SelectionInRange(m) && Executable(m, es) && NoGroupDeletes(es)
    ensures SelectionInRange(Run(m, es))
    decreases |es|
  {
    if |es| > 0 {
      HandleKeepsSelection(m, es[0]);
      assert NoGroupDeletes(es[1..]) by {
        forall k | 0 <= k < |es[1..]| ensures !es[1..][k].DeleteGroupPressed? {
          assert es[1..][k] == es[k + 1];
        }
      }
      RunKeepsSelection(Handle(m, es[0]), es[1..]);
    }
  }

  /** Spelled out: empty list, two "add group" presses. */
  lemma TwoGroupsAdded(stored: Stored)
    ensures var m := Run(Model([], -1, stored), [AddGroupPressed, AddGroupPressed]);
      m.groups == [NEW_GROUP, NEW_GROUP] && m.currentGroupIndex == -1 && InSync(m)
  {
  }
}
