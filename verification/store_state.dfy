/** The records held by the to-do store, its hard-coded initial state and
    the invariant its id counters are meant to keep. */
module StoreState {
  import opened Wrappers

  /** A to-do item. `labelIds` is an unchecked list of label ids. */
  datatype Task = Task(id: int, name: string, labelIds: seq<int>, done: bool)

  /** A tag that tasks may carry. */
  datatype Label = Label(id: int, text: string)

  /** The whole store. `filter` is the selected label id, or None for "show all". */
  datatype State = State(
    tasks: seq<Task>,
    labels: seq<Label>,
    nextTaskId: int,
    nextLabelId: int,
    filter: Option<int>)

  /** The persisted part of the state: everything except `filter`. */
  datatype Snapshot = Snapshot(
    tasks: seq<Task>,
    labels: seq<Label>,
    nextTaskId: int,
    nextLabelId: int)

  /** The state the store starts with: two tasks, four labels, no filter. */
  const Seed: State := State(
    [ Task(1, "牛乳を買う", [1, 2], false),
      Task(2, "Vue の本を買う", [1, 3, 4], true) ],
    [ Label(1, "買い物"), Label(2, "食料"), Label(3, "本"), Label(4, "Vue") ],
    3,
    5,
    None)

  function TaskId(t: Task): int { t.id }

  function LabelId(l: Label): int { l.id }

  /** The ids of a collection, in order, read off with `idOf`. */
  function Ids<T>(xs: seq<T>, idOf: T -> int): (ids: seq<int>)
    ensures |ids| == |xs|
    ensures forall i :: 0 <= i < |xs| ==> ids[i] == idOf(xs[i])
  {
    seq(|xs|, i requires 0 <= i < |xs| => idOf(xs[i]))
  }

  /** No id occurs twice. */
  predicate Distinct(ids: seq<int>) {
    forall i, j :: 0 <= i < j < |ids| ==> ids[i] != ids[j]
  }

  /** Every id is one the counter has already handed out: positive and below `next`. */
  predicate IssuedBelow(ids: seq<int>, next: int) {
    forall i :: 0 <= i < |ids| ==> 1 <= ids[i] < next
  }

  /** The id discipline for one collection and its counter. */
  predicate IdsConsistent(ids: seq<int>, next: int) {
    1 <= next && Distinct(ids) && IssuedBelow(ids, next)
  }

  /** The id discipline for the four persisted fields. */
  predicate Consistent(tasks: seq<Task>, labels: seq<Label>, nextTaskId: int, nextLabelId: int) {
    IdsConsistent(Ids(tasks, TaskId), nextTaskId) && IdsConsistent(Ids(labels, LabelId), nextLabelId)
  }

  /** The store invariant: ids unique per collection, and each counter above every id it issued. */
  predicate Valid(s: State) {
    Consistent(s.tasks, s.labels, s.nextTaskId, s.nextLabelId)
  }

  /** The same discipline for a snapshot about to be restored. */
  predicate SnapshotValid(snap: Snapshot) {
    Consistent(snap.tasks, snap.labels, snap.nextTaskId, snap.nextLabelId)
  }

  /** The seed satisfies the store invariant. */
  lemma SeedValid()
    ensures Valid(Seed)
    ensures Seed.filter.None?
  {
  }
}
