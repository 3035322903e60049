/** The `save` and `restore` actions. Browser storage under the fixed key is modelled
    as the value it holds, `Option<Snapshot>` (None: nothing stored); serialisation to
    and from text is taken to be the identity on snapshots. */
module Actions {
  import opened Wrappers
  import opened StoreState
  import opened Mutations

  /** The record `save` writes: the state without its filter. */
  function TakeSnapshot(s: State): (snap: Snapshot)
    ensures Restore(s, snap) == s
  {
    Snapshot(s.tasks, s.labels, s.nextTaskId, s.nextLabelId)
  }

  /** The `save` action: the storage entry afterwards holds the snapshot of `s`, whatever it held before. */
  function Save(s: State): (stored: Option<Snapshot>)
    ensures stored.Some?
    ensures stored.value.tasks == s.tasks && stored.value.labels == s.labels
    ensures stored.value.nextTaskId == s.nextTaskId && stored.value.nextLabelId == s.nextLabelId
  {
    Some(TakeSnapshot(s))
  }

  /** The `restore` action: with nothing stored the state is untouched; otherwise the
      stored snapshot is committed through the `restore` mutation. */
  function RestoreFromStorage(s: State, stored: Option<Snapshot>): (r: State)
    ensures stored.None? ==> r == s
    ensures stored.Some? ==>
      && r.tasks == stored.value.tasks && r.labels == stored.value.labels
      && r.nextTaskId == stored.value.nextTaskId && r.nextLabelId == stored.value.nextLabelId
    ensures r.filter == s.filter
  {
    match stored
    case None => s
    case Some(snap) => Restore(s, snap)
  }

  /** Saving and then restoring into the same state gives that state back, filter included. */
  lemma SaveRestoreRoundTrip(s: State)
    ensures RestoreFromStorage(s, Save(s)) == s
  {
  }

  /** Restoring a saved state into another state reproduces the four persisted fields
      and keeps the receiving state's filter. */
  lemma SaveRestoreAcross(saved: State, current: State)
    ensures RestoreFromStorage(current, Save(saved)) == saved.(filter := current.filter)
  {
  }

  /** The filter is not persisted: changing it does not change what `save` writes. */
  lemma SaveIgnoresFilter(s: State, f: Option<int>)
    ensures Save(ChangeFilter(s, f)) == Save(s)
  {
  }

  /** A snapshot saved from a valid state restores to a valid state, into any state. */
  lemma SavedSnapshotRestoresValid(saved: State, current: State)
    requires Valid(saved)
    ensures SnapshotValid(Save(saved).value)
    ensures Valid(RestoreFromStorage(current, Save(saved)))
  {
  }
}
