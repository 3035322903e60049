/** The store's five synchronous mutations as pure transitions State -> State,
    with the invariant each one keeps. */
module Mutations {
  import opened Wrappers
  import opened StoreState
  import opened Getters

  /** `addTask`: append a not-done task with the counter's id, then advance the counter. */
  function AddTask(s: State, name: string, labelIds: seq<int>): (r: State)
    ensures |r.tasks| == |s.tasks| + 1
    ensures r.tasks[..|s.tasks|] == s.tasks
    ensures r.tasks[|s.tasks|] == Task(s.nextTaskId, name, labelIds, false)
    ensures r.nextTaskId == s.nextTaskId + 1
    ensures r.labels == s.labels && r.nextLabelId == s.nextLabelId && r.filter == s.filter
  {
    s.(tasks := s.tasks + [Task(s.nextTaskId, name, labelIds, false)], nextTaskId := s.nextTaskId + 1)
  }

  /** `addLabel`: append a label with the counter's id, then advance the counter. */
  function AddLabel(s: State, text: string): (r: State)
    ensures |r.labels| == |s.labels| + 1
    ensures r.labels[..|s.labels|] == s.labels
    ensures r.labels[|s.labels|] == Label(s.nextLabelId, text)
    ensures r.nextLabelId == s.nextLabelId + 1
    ensures r.tasks == s.tasks && r.nextTaskId == s.nextTaskId && r.filter == s.filter
  {
    s.(labels := s.labels + [Label(s.nextLabelId, text)], nextLabelId := s.nextLabelId + 1)
  }

  /** Flip `done` on every task whose id is `id`; all other fields and tasks stay as they were. */
  function ToggleMatching(tasks: seq<Task>, id: int): (r: seq<Task>)
    ensures |r| == |tasks|
    ensures forall i :: 0 <= i < |tasks| ==>
      && r[i].id == tasks[i].id
      && r[i].name == tasks[i].name
      && r[i].labelIds == tasks[i].labelIds
      && r[i].done == (tasks[i].done != (tasks[i].id == id))
  {
    if tasks == [] then []
    else
      var t := tasks[0];
      var t' := if t.id == id then t.(done := !t.done) else t;
      [t'] + ToggleMatching(tasks[1..], id)
  }

  /** `toggleTaskStatus`: negate `done` on exactly the tasks with the given id. */
  function ToggleTaskStatus(s: State, id: int): (r: State)
    ensures |r.tasks| == |s.tasks|
    ensures forall i :: 0 <= i < |s.tasks| ==>
      && r.tasks[i].(done := s.tasks[i].done) == s.tasks[i]
      && (r.tasks[i].done <==> (s.tasks[i].done != (s.tasks[i].id == id)))
    ensures r.labels == s.labels && r.nextTaskId == s.nextTaskId
    ensures r.nextLabelId == s.nextLabelId && r.filter == s.filter
  {
    s.(tasks := ToggleMatching(s.tasks, id))
  }

  /** `changeFilter`: replace the filter, nothing else. */
  function ChangeFilter(s: State, f: Option<int>): (r: State)
    ensures r.filter == f
    ensures r.(filter := s.filter) == s
  {
    s.(filter := f)
  }

  /** The `restore` mutation: overwrite the four persisted fields from the payload; keep `filter`. */
  function Restore(s: State, snap: Snapshot): (r: State)
    ensures r.tasks == snap.tasks && r.labels == snap.labels
    ensures r.nextTaskId == snap.nextTaskId && r.nextLabelId == snap.nextLabelId
    ensures r.filter == s.filter
  {
    State(snap.tasks, snap.labels, snap.nextTaskId, snap.nextLabelId, s.filter)
  }

  // ----- Invariant preservation -----

  lemma AddTaskPreservesValid(s: State, name: string, labelIds: seq<int>)
    requires Valid(s)
    ensures Valid(AddTask(s, name, labelIds))
  {
  }

  lemma AddLabelPreservesValid(s: State, text: string)
    requires Valid(s)
    ensures Valid(AddLabel(s, text))
  {
  }

  lemma TogglePreservesValid(s: State, id: int)
    requires Valid(s)
    ensures Valid(ToggleTaskStatus(s, id))
  {
  }

  lemma ChangeFilterPreservesValid(s: State, f: Option<int>)
    requires Valid(s)
    ensures Valid(ChangeFilter(s, f))
  {
  }

  /** `restore` checks nothing: the result is valid exactly when the payload is. */
  lemma RestoreValidIff(s: State, snap: Snapshot)
    ensures Valid(Restore(s, snap)) <==> SnapshotValid(snap)
  {
  }

  // ----- Toggle -----

  /** Toggling the same id twice gives back the original state. */
  lemma ToggleTwiceIsIdentity(s: State, id: int)
    ensures ToggleTaskStatus(ToggleTaskStatus(s, id), id) == s
  {
  }

  /** Toggling an id no task has is a no-op. */
  lemma ToggleUnknownIdIsNoOp(s: State, id: int)
    requires id !in Ids(s.tasks, TaskId)
    ensures ToggleTaskStatus(s, id) == s
  {
  }

  /** With unique ids, a toggle changes at most one task. */
  lemma ToggleChangesAtMostOne(s: State, id: int, i: int, j: int)
    requires Valid(s)
    requires 0 <= i < |s.tasks| && 0 <= j < |s.tasks|
    requires ToggleTaskStatus(s, id).tasks[i] != s.tasks[i]
    requires ToggleTaskStatus(s, id).tasks[j] != s.tasks[j]
    ensures i == j
  {
  }

  // ----- Filter view across mutations -----

  /** The view after `addTask` is the old view, plus the new task when it is visible. */
  lemma AddTaskExtendsView(s: State, name: string, labelIds: seq<int>)
    ensures var t := Task(s.nextTaskId, name, labelIds, false);
      FilteredTasks(AddTask(s, name, labelIds))
        == FilteredTasks(s) + (if NoFilter(s.filter) || s.filter.value in labelIds then [t] else [])
  {
    if !NoFilter(s.filter) {
      SelectAppend(s.tasks, Task(s.nextTaskId, name, labelIds, false), s.filter.value);
    }
  }

  /** Toggling commutes with the label selection: toggling never changes `labelIds`, so the
      same tasks stay selected, each with its `done` flag toggled. */
  lemma {:induction false} SelectToggle(tasks: seq<Task>, labelId: int, id: int)
    ensures Select(ToggleMatching(tasks, id), labelId) == ToggleMatching(Select(tasks, labelId), id)
  {
    if tasks != [] {
      var toggled := ToggleMatching(tasks, id);
      assert toggled[1..] == ToggleMatching(tasks[1..], id);
      SelectToggle(tasks[1..], labelId, id);
      if labelId in tasks[0].labelIds {
        var sel := Select(tasks, labelId);
        assert sel == [tasks[0]] + Select(tasks[1..], labelId);
        assert sel[1..] == Select(tasks[1..], labelId);
      }
    }
  }

  /** The view after a toggle is the old view with the same toggle applied. */
  lemma ToggleMapsView(s: State, id: int)
    ensures FilteredTasks(ToggleTaskStatus(s, id)) == ToggleMatching(FilteredTasks(s), id)
  {
    if !NoFilter(s.filter) {
      SelectToggle(s.tasks, s.filter.value, id);
    }
  }

  /** Adding a label never changes the visible tasks. */
  lemma AddLabelKeepsView(s: State, text: string)
    ensures FilteredTasks(AddLabel(s, text)) == FilteredTasks(s)
  {
  }

  /** The last filter set wins. */
  lemma ChangeFilterLastWins(s: State, f: Option<int>, g: Option<int>)
    ensures ChangeFilter(ChangeFilter(s, f), g) == ChangeFilter(s, g)
  {
  }

  // ----- Reachable states -----

  /** One committed mutation, with its payload. */
  datatype Step =
    | AddTaskStep(name: string, labelIds: seq<int>)
    | ToggleStep(id: int)
    | AddLabelStep(text: string)
    | ChangeFilterStep(f: Option<int>)
    | RestoreStep(snap: Snapshot)

  function Apply(s: State, step: Step): State {
    match step
    case AddTaskStep(name, labelIds) => AddTask(s, name, labelIds)
    case ToggleStep(id) => ToggleTaskStatus(s, id)
    case AddLabelStep(text) => AddLabel(s, text)
    case ChangeFilterStep(f) => ChangeFilter(s, f)
    case RestoreStep(snap) => Restore(s, snap)
  }

  /** The state after committing `steps` in order. */
  function Run(s: State, steps: seq<Step>): State
    decreases |steps|
  {
    if steps == [] then s else Run(Apply(s, steps[0]), steps[1..])
  }

  /** Restore steps whose payload keeps the id discipline. */
  predicate RestoresValid(steps: seq<Step>) {
    forall k :: 0 <= k < |steps| && steps[k].RestoreStep? ==> SnapshotValid(steps[k].snap)
  }

  /** One step keeps the invariant, provided a restore payload keeps it too. */
  lemma ApplyPreservesValid(s: State, step: Step)
    requires Valid(s)
    requires step.RestoreStep? ==> SnapshotValid(step.snap)
    ensures Valid(Apply(s, step))
  {
  }

  /** Every state reachable from a valid one by mutations (with valid restore payloads) is valid;
      in particular every state reachable from the seed. */
  lemma {:induction false} RunPreservesValid(s: State, steps: seq<Step>)
    requires Valid(s)
    requires RestoresValid(steps)
    ensures Valid(Run(s, steps))
    decreases |steps|
  {
    if steps != [] {
      ApplyPreservesValid(s, steps[0]);
      assert RestoresValid(steps[1..]) by {
        forall k | 0 <= k < |steps[1..]| && steps[1..][k].RestoreStep?
          ensures SnapshotValid(steps[1..][k].snap)
        {
          assert steps[1..][k] == steps[k + 1];
        }
      }
      RunPreservesValid(Apply(s, steps[0]), steps[1..]);
    }
  }

  lemma SeedRunsStayValid(steps: seq<Step>)
    requires RestoresValid(steps)
    ensures Valid(Run(Seed, steps))
  {
    SeedValid();
    RunPreservesValid(Seed, steps);
  }

  // ----- Scenarios on the seed -----

  /** Filtering the seed by label 2 shows only task 1. */
  lemma SeedFilterByLabelTwo()
    ensures FilteredTasks(ChangeFilter(Seed, Some(2))) == [Seed.tasks[0]]
    ensures FilteredTasks(ChangeFilter(Seed, Some(2)))[0].id == 1
  {
  }

  /** Adding "Buy bread" with label 2 to the seed issues id 3 and moves the counter to 4. */
  lemma SeedAddTask()
    ensures AddTask(Seed, "Buy bread", [2]).tasks[2] == Task(3, "Buy bread", [2], false)
    ensures AddTask(Seed, "Buy bread", [2]).nextTaskId == 4
  {
  }
}
