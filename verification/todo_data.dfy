/** The records the to-do list is made of, the list operations the controller
    applies to them, and the shape of the saved document. */
module TodoData {

  datatype Option<T> = None | Some(value: T)

  /** One task: its name and its urgency, the index chosen in the urgency dropdown. */
  datatype TaskData = TaskData(taskName: string, urgency: int)

  /** One group: its name and its tasks, in display order. */
  datatype GroupData = GroupData(name: string, tasks: seq<TaskData>)

  /** The group the "add group" button creates. */
  const NEW_GROUP: GroupData := GroupData("New Group", [])

  /** The task the "add task" button creates. */
  const NEW_TASK: TaskData := TaskData("New Task", 0)

  /** `b` is `a` with `x` added at the end. */
  ghost predicate Appended<T>(a: seq<T>, b: seq<T>, x: T) {
    |b| == |a| + 1 && b[..|a|] == a && b[|a|] == x
  }

  /** `b` has the length of `a` and agrees with it everywhere except possibly at index `k`. */
  ghost predicate SameExcept<T>(a: seq<T>, b: seq<T>, k: int) {
    |a| == |b| && forall j :: 0 <= j < |a| && j != k ==> a[j] == b[j]
  }

  /** List.RemoveAt: the element at `i` goes, every later element moves down by one. */
  function RemoveAt<T>(s: seq<T>, i: int): (r: seq<T>)
    requires 0 <= i < |s|
    ensures |r| == |s| - 1
    ensures forall j :: 0 <= j < i ==> r[j] == s[j]
    ensures forall j :: i <= j < |r| ==> r[j] == s[j + 1]
  {
    s[..i] + s[i + 1..]
  }

  /** Removing an element loses exactly that element and nothing else. */
  lemma RemoveAtMultiset<T>(s: seq<T>, i: int)
    requires 0 <= i < |s|
    ensures multiset(RemoveAt(s, i)) + multiset{s[i]} == multiset(s)
  {
    assert s == s[..i] + [s[i]] + s[i + 1..];
  }

  /** Removing the last element undoes appending it. */
  lemma RemoveAtUndoesAppend<T>(a: seq<T>, x: T)
    ensures RemoveAt(a + [x], |a|) == a
  {
  }

  /** The wrapper object the list is saved in; `groups` is None when the
      decoded document has no list (a null field). */
  datatype SaveWrapper = SaveWrapper(groups: Option<seq<GroupData>>)

  /** What the key-value store holds under the save key, seen through the
      JSON decoder: no entry at all, or a document that decodes either to a
      wrapper or to null. */
  datatype Stored = NoKey | Document(decoded: Option<SaveWrapper>)

  /** The store entry that saving `groups` leaves behind. */
  function Saved(groups: seq<GroupData>): (st: Stored)
    ensures st.Document? && st.decoded.Some? && st.decoded.value.groups == Some(groups)
  {
    Document(Some(SaveWrapper(Some(groups))))
  }

  /** The list loading yields from the store entry `stored` when the list in
      memory is `current`: the stored list when there is a key whose document
      decodes to a wrapper with a list, `current` otherwise. */
  function Loaded(stored: Stored, current: seq<GroupData>): (r: seq<GroupData>)
    ensures r == current || stored == Saved(r)
    ensures stored.NoKey? ==> r == current
    ensures stored.Document? && stored.decoded.None? ==> r == current
    ensures stored.Document? && stored.decoded.Some? && stored.decoded.value.groups.Some? ==>
      r == stored.decoded.value.groups.value
  {
    if stored.Document? && stored.decoded.Some? && stored.decoded.value.groups.Some?
    then stored.decoded.value.groups.value
    else current
  }

  /** Loading what was saved gives back the saved list, whatever was in memory. */
  lemma LoadedAfterSaved(groups: seq<GroupData>, current: seq<GroupData>)
    ensures Loaded(Saved(groups), current) == groups
  {
  }
}
