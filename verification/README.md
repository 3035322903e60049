# To-do store model

A Dafny model of the state container of a small Vuex to-do application
(`src/store.js`). The store holds tasks and labels, two id counters and a label
filter. It exposes a filtered view of the tasks, five synchronous mutations
(`addTask`, `toggleTaskStatus`, `addLabel`, `changeFilter`, `restore`) and two
actions that save the state to browser storage and restore it.

Every mutation is a pure function `State -> State`, and the getter is a pure
function `State -> seq<Task>`.

- `wrappers.dfy` (module `Wrappers`): `Option`.
- `store_state.dfy` (module `StoreState`): the `Task`, `Label`, `State` and
  `Snapshot` records, the hard-coded seed, and the id invariant `Valid`. Under
  `Valid`, ids are unique within each collection, and every id is positive and
  below its counter.
- `store_getters.dfy` (module `Getters`): `filteredTasks`, with an exact
  characterisation of the filter result (`SelectSpec`). The result is an order-preserving
  subsequence of the tasks. It keeps every task that carries the label, as
  often as that task occurs, and drops every other task. The lemma
  `SelectIsUnique` shows that only one sequence has these properties.
- `store_mutations.dfy` (module `Mutations`): the five mutations and the lemmas
  that each one keeps the invariant. It also proves the toggle laws and how the
  view changes under `addTask`, `addLabel` and `toggleTaskStatus`. `Run`
  applies a sequence of committed mutations. `RunPreservesValid` shows that a
  run from any valid state ends valid, and `SeedRunsStayValid` applies this to
  the seed. Both need every restore payload to be valid.
- `store_actions.dfy` (module `Actions`): the `save` and `restore` actions, and
  the save/restore round trip.

The getter's guard `!state.filter` treats both `null` and `0` as "no filter".
The model says this directly: a filter of `None` or `Some(0)` shows every task
(`Getters.NoFilter`). `Getters.ZeroIsNeverALabel` shows that in a valid state,
selecting any existing label shows exactly the tasks carrying it, so the
JavaScript falsiness never hides a real label.

`restore` (src/store.js:111-116) replaces four fields and keeps `filter`, and
the model's `Restore` does the same.

## Model

| member | source | states |
|---|---|---|
| StoreState.SeedValid | src/store.js:8-52 | The seed (tasks 1 and 2, labels 1 to 4, counters 3 and 5, no filter) satisfies the id invariant |
| Getters.Select | src/store.js:63-65 | The selection for a label is never longer than `tasks` |
| Getters.SelectSpec | src/store.js:63-65 | The tasks kept for a label form an order-preserving subsequence of `tasks`. Each one carries the label, and each task carrying the label occurs in the result exactly as often as in `tasks` |
| Getters.FilteredTasks | src/store.js:56-66 | With no filter (null or 0) the view is `tasks` itself. Otherwise the view is the order-preserving subsequence that keeps exactly the tasks carrying the filter label |
| Getters.ZeroIsNeverALabel | src/store.js:58-65 | In a valid state, setting the filter to any existing label's id shows exactly the tasks carrying that label: treating filter 0 as "no filter" never hides a label |
| Getters.FilteredIsSubsequence | src/store.js:56-66 | Whatever the filter, the view is an order-preserving subsequence of `tasks`, no longer than it |
| Getters.FilterMatchingNothingIsEmpty | src/store.js:63-65 | A filter label that no task carries gives the empty view |
| Getters.SelectIsUnique | src/store.js:63-65 | Any order-preserving subsequence of `tasks` with the filter's keep/drop counts is the filter result. The characterisation is therefore exact |
| Getters.SelectAppend | src/store.js:63-65 | Filtering `tasks + [t]` gives the filtered `tasks`, followed by `t` exactly when `t` carries the label |
| Mutations.AddTask | src/store.js:71-81 | Appends one task as the last element. The new task has the old `nextTaskId`, the given name and labelIds, and `done` false. The counter goes up by one. The earlier tasks, `labels`, `nextLabelId` and `filter` are unchanged |
| Mutations.AddLabel | src/store.js:95-103 | Appends one label with the old `nextLabelId` and the given text. The counter goes up by one. `tasks`, `nextTaskId` and `filter` are unchanged |
| Mutations.ToggleMatching | src/store.js:85-91 | Keeps the length, order, ids, names and labelIds. Negates `done` exactly on the tasks whose id matches |
| Mutations.ToggleTaskStatus | src/store.js:84-92 | Only `done` of a task can change, and it changes exactly when the task's id matches. Length, order, labels, counters and filter are unchanged |
| Mutations.ChangeFilter | src/store.js:106-108 | Sets `filter` to the given value and changes nothing else |
| Mutations.Restore | src/store.js:111-116 | Installs the payload's tasks, labels and counters, and keeps `filter` |
| Mutations.AddTaskPreservesValid | src/store.js:72-80 | `addTask` keeps ids unique and below the counter |
| Mutations.AddLabelPreservesValid | src/store.js:96-102 | `addLabel` keeps ids unique and below the counter |
| Mutations.TogglePreservesValid | src/store.js:84-92 | `toggleTaskStatus` keeps the id invariant |
| Mutations.ChangeFilterPreservesValid | src/store.js:106-108 | `changeFilter` keeps the id invariant |
| Mutations.RestoreValidIff | src/store.js:111-116 | `restore` validates nothing: the result is valid if and only if the payload is |
| Mutations.ToggleTwiceIsIdentity | src/store.js:84-92 | Toggling the same id twice gives back the original state |
| Mutations.ToggleUnknownIdIsNoOp | src/store.js:85-91 | Toggling an id that no task has leaves the state unchanged |
| Mutations.ToggleChangesAtMostOne | src/store.js:85-91 | In a valid state a toggle changes at most one task |
| Mutations.AddTaskExtendsView | src/store.js:71-81 | After `addTask` the view is the old view, plus the new task at the end when the filter is unset or the task carries the filter label |
| Mutations.SelectToggle | src/store.js:63-65 | Selecting by a label after a toggle gives the toggled selection: the same tasks stay selected, each toggled |
| Mutations.ToggleMapsView | src/store.js:84-92 | After `toggleTaskStatus` the view is the old view with the same toggle applied |
| Mutations.AddLabelKeepsView | src/store.js:95-103 | `addLabel` never changes the visible tasks |
| Mutations.ChangeFilterLastWins | src/store.js:106-108 | Two filter changes in a row have the effect of the second alone |
| Mutations.ApplyPreservesValid | src/store.js:69-117 | Each mutation keeps the invariant. For `restore`, this needs a valid payload |
| Mutations.RunPreservesValid | src/store.js:69-117 | Any sequence of mutations from a valid state ends in a valid state, provided every restore payload is valid |
| Mutations.SeedRunsStayValid | src/store.js:8-117 | Every state reachable from the seed this way is valid |
| Mutations.SeedFilterByLabelTwo | src/store.js:10-66 | On the seed, filtering by label 2 shows only task 1 |
| Mutations.SeedAddTask | src/store.js:47-81 | On the seed, adding "Buy bread" with label 2 issues task id 3 and moves the counter to 4 |
| Actions.TakeSnapshot | src/store.js:122-127 | The snapshot drops only `filter`: restoring it into the same state gives that state back |
| Actions.Save | src/store.js:121-129 | The stored entry is present afterwards and holds exactly the four persisted fields |
| Actions.RestoreFromStorage | src/store.js:132-137 | With nothing stored the state is unchanged. Otherwise the four fields come from the stored snapshot. `filter` is kept in both cases |
| Actions.SaveRestoreRoundTrip | src/store.js:121-137 | Saving then restoring reproduces the original state, filter included |
| Actions.SaveRestoreAcross | src/store.js:121-137 | Restoring a saved state into another state reproduces the saved fields and keeps the receiver's filter |
| Actions.SaveIgnoresFilter | src/store.js:122-127 | Changing the filter does not change what `save` writes |
| Actions.SavedSnapshotRestoresValid | src/store.js:121-137 | A snapshot saved from a valid state is valid and restores to a valid state |

## Left out

- Vue and Vuex wiring (`Vue.use`, the store constructor, reactivity and `commit` dispatch by name): framework plumbing. The mutations are plain functions here, and `Mutations.Step`/`Run` only model "commit in sequence".
- `localStorage.setItem`/`getItem` and their failures (storage unavailable or full): browser I/O. The stored value is an `Option<Snapshot>`.
- `JSON.stringify`/`JSON.parse`: foreign serialisation, taken as the identity on snapshots. A malformed blob, and the parse error it raises, are not modelled. Neither is a blob whose fields are missing, which would install `undefined` values.
- The `if (data)` test in the restore action also rejects an empty string. The model does not distinguish this case, because `JSON.stringify` of the snapshot is never empty.
- Falsy filter values other than null and 0 (`NaN`, `false`, `""`, `undefined`): the filter is `Option<int>`. Filter values that are not integers are not modelled either.
- Ids and counters are unbounded integers. JavaScript numbers lose exactness above 2^53, which the model ignores.
- Object identity and aliasing: the getter returns the `tasks` array itself, `addTask` stores the caller's `labelIds` array, and `restore` installs the payload's arrays. The model assumes that no task object occurs twice in `tasks`, and that callers do not keep or mutate arrays and objects they share with the store. Without that assumption the models can differ. A `restore` committed directly with one task object twice makes `toggleTaskStatus` flip that object twice, leaving it unchanged, while `ToggleMatching` flips both entries. A task object kept from the getter also changes when it is toggled.
- Task names and label texts are opaque strings.
- Referential integrity between `labelIds`/`filter` and existing labels: the code does not enforce it, and the model does not require it.
