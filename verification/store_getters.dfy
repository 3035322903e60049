/** The `filteredTasks` getter: the tasks visible under the current filter. */
module Getters {
  import opened Wrappers
  import opened StoreState

  /** `a` can be obtained from `b` by deleting elements, keeping the order (greedy matching). */
  predicate IsSubsequence<T(==)>(a: seq<T>, b: seq<T>)
    decreases |b|
  {
    if a == [] then true
    else if b == [] then false
    else if a[0] == b[0] then IsSubsequence(a[1..], b[1..])
    else IsSubsequence(a, b[1..])
  }

  /** The getter's guard `!state.filter`: JavaScript treats both null and 0 as "no filter". */
  predicate NoFilter(f: Option<int>) {
    f.None? || f.value == 0
  }

  /** `r` holds each task carrying `labelId` as often as `tasks` does, and no other task. */
  ghost predicate KeepsExactlyLabelled(r: seq<Task>, tasks: seq<Task>, labelId: int) {
    forall t: Task :: multiset(r)[t] == (if labelId in t.labelIds then multiset(tasks)[t] else 0)
  }

  /** The tasks carrying label `labelId`, in their original order: the getter's single-pass filter. */
  function Select(tasks: seq<Task>, labelId: int): (r: seq<Task>)
    ensures |r| <= |tasks|
  {
    if tasks == [] then []
    else if labelId in tasks[0].labelIds then [tasks[0]] + Select(tasks[1..], labelId)
    else Select(tasks[1..], labelId)
  }

  /** The selection keeps only tasks carrying the label, as an order-preserving subsequence that
      holds each such task exactly as often as `tasks` does. */
  lemma {:induction false} SelectSpec(tasks: seq<Task>, labelId: int)
    ensures forall t: Task :: t in Select(tasks, labelId) ==> labelId in t.labelIds
    ensures IsSubsequence(Select(tasks, labelId), tasks)
    ensures KeepsExactlyLabelled(Select(tasks, labelId), tasks, labelId)
  {
    if tasks != [] {
      var rest := Select(tasks[1..], labelId);
      SelectSpec(tasks[1..], labelId);
      assert tasks == [tasks[0]] + tasks[1..];
      if labelId in tasks[0].labelIds {
        assert ([tasks[0]] + rest)[1..] == rest;
      } else if rest != [] {
        assert rest[0] in rest;
        assert rest[0] != tasks[0];
      }
    }
  }

  /** The derived view: all tasks when no filter is set, otherwise those carrying the filter label. */
  function FilteredTasks(s: State): (r: seq<Task>)
    ensures NoFilter(s.filter) ==> r == s.tasks
    ensures !NoFilter(s.filter) ==>
      && IsSubsequence(r, s.tasks)
      && KeepsExactlyLabelled(r, s.tasks, s.filter.value)
  {
    if NoFilter(s.filter) then s.tasks
    else
      SelectSpec(s.tasks, s.filter.value);
      Select(s.tasks, s.filter.value)
  }

  /** The falsy filter value 0 never hides a label: in a valid state no label has id 0,
      so selecting any existing label shows exactly the tasks carrying it. */
  lemma ZeroIsNeverALabel(s: State)
    requires Valid(s)
    ensures forall l :: l in s.labels ==> FilteredTasks(s.(filter := Some(l.id))) == Select(s.tasks, l.id)
  {
  }

  /** Every sequence is a subsequence of itself. */
  lemma {:induction false} SubsequenceReflexive<T>(a: seq<T>)
    ensures IsSubsequence(a, a)
  {
    if a != [] {
      SubsequenceReflexive(a[1..]);
    }
  }

  /** A subsequence uses each element at most as often as the whole. */
  lemma {:induction false} SubsequenceMultiset<T>(a: seq<T>, b: seq<T>)
    requires IsSubsequence(a, b)
    ensures multiset(a) <= multiset(b)
    decreases |b|
  {
    if a == [] {
    } else {
      assert b == [b[0]] + b[1..];
      if a[0] == b[0] {
        SubsequenceMultiset(a[1..], b[1..]);
        assert a == [a[0]] + a[1..];
      } else {
        SubsequenceMultiset(a, b[1..]);
      }
    }
  }

  /** The view is always an order-preserving subsequence of `tasks`, no longer than it. */
  lemma FilteredIsSubsequence(s: State)
    ensures IsSubsequence(FilteredTasks(s), s.tasks)
    ensures |FilteredTasks(s)| <= |s.tasks|
  {
    if NoFilter(s.filter) {
      SubsequenceReflexive(s.tasks);
    }
  }

  /** A filter label that no task carries yields the empty view. */
  lemma FilterMatchingNothingIsEmpty(s: State)
    requires !NoFilter(s.filter)
    requires forall t: Task :: t in s.tasks ==> s.filter.value !in t.labelIds
    ensures FilteredTasks(s) == []
  {
  }

  /** "Exactly": the only order-preserving subsequence of `tasks` that keeps every task carrying
      `labelId` (as often as it occurs) and drops every other task is `Select(tasks, labelId)`. */
  lemma {:induction false} SelectIsUnique(r: seq<Task>, tasks: seq<Task>, labelId: int)
    requires IsSubsequence(r, tasks)
    requires KeepsExactlyLabelled(r, tasks, labelId)
    ensures r == Select(tasks, labelId)
    decreases |tasks|
  {
    if tasks == [] {
      assert multiset(r) == multiset{};
    } else {
      var x, tail := tasks[0], tasks[1..];
      assert tasks == [x] + tail;
      assert multiset(tasks) == multiset{x} + multiset(tail);
      if r == [] {
        assert multiset(r)[x] == 0 < multiset(tasks)[x];
        forall t: Task
          ensures multiset(r)[t] == (if labelId in t.labelIds then multiset(tail)[t] else 0)
        {
          if labelId in t.labelIds { assert t != x; }
        }
        SelectIsUnique(r, tail, labelId);
      } else if r[0] == x {
        var rt := r[1..];
        assert r == [x] + rt;
        assert multiset(r) == multiset{x} + multiset(rt);
        assert labelId in x.labelIds by { assert multiset(r)[x] > 0; }
        forall t: Task
          ensures multiset(rt)[t] == (if labelId in t.labelIds then multiset(tail)[t] else 0)
        {
        }
        SelectIsUnique(rt, tail, labelId);
      } else {
        assert IsSubsequence(r, tail);
        SubsequenceMultiset(r, tail);
        assert multiset(r)[x] <= multiset(tail)[x] < multiset(tasks)[x];
        forall t: Task
          ensures multiset(r)[t] == (if labelId in t.labelIds then multiset(tail)[t] else 0)
        {
          if labelId in t.labelIds { assert t != x; }
        }
        SelectIsUnique(r, tail, labelId);
      }
    }
  }

  /** One step of the selection: the head is kept exactly when it carries the label. */
  lemma SelectUnfold(tasks: seq<Task>, labelId: int)
    requires tasks != []
    ensures Select(tasks, labelId)
      == (if labelId in tasks[0].labelIds then [tasks[0]] else []) + Select(tasks[1..], labelId)
  {
  }

  /** Appending a task extends the selection by that task exactly when it carries the label. */
  lemma {:induction false} SelectAppend(tasks: seq<Task>, t: Task, labelId: int)
    ensures Select(tasks + [t], labelId) == Select(tasks, labelId) + (if labelId in t.labelIds then [t] else [])
  {
    var ts := tasks + [t];
    SelectUnfold(ts, labelId);
    if tasks == [] {
      assert ts[1..] == [];
    } else {
      assert ts[0] == tasks[0] && ts[1..] == tasks[1..] + [t];
      SelectAppend(tasks[1..], t, labelId);
      SelectUnfold(tasks, labelId);
    }
  }
}
