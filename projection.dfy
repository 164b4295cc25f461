/**
 * The per-column view `filteredTasks` (src/components/BoardArea.tsx): keep the
 * tasks of one category that pass the status filter, then sort them with the
 * three-level comparator. `Array.prototype.sort` is stable, so the view is the
 * stable sort of the kept tasks; it is modelled as a stable insertion sort.
 */
module Projection {
  import opened TaskTypes
  import opened TaskOps
  import opened TaskHeader

  /** Whether a task belongs in the column of `category` under `filter`. */
  predicate Visible(t: Task, category: Category, filter: StatusFilter)
  {
    t.category == category && Admits(filter, t.status)
  }

  /**
   * The comparator's first two levels as one rank: High before the rest, and
   * within each, not-completed before completed. Medium and Low share a rank.
   */
  function Tier(t: Task): nat
  {
    (if t.priority == High then 0 else 2) + (if t.status == Completed then 1 else 0)
  }

  /**
   * The sort comparator, branch for branch: negative puts `a` first. It orders
   * by tier and, within a tier, newest `createdAt` first.
   */
  function Compare(a: Task, b: Task): (r: int)
    ensures Tier(a) < Tier(b) ==> r < 0
    ensures Tier(a) > Tier(b) ==> r > 0
    ensures Tier(a) == Tier(b) ==> r == b.createdAt - a.createdAt
  {
    if a.priority == High && b.priority != High then -1
    else if a.priority != High && b.priority == High then 1
    else if a.status == Completed && b.status != Completed then 1
    else if a.status != Completed && b.status == Completed then -1
    else b.createdAt - a.createdAt
  }

  /** The comparator is consistent: swapping its arguments negates it, and "not after" is transitive. */
  lemma CompareIsTotalPreorder(a: Task, b: Task, c: Task)
    ensures Compare(a, b) == -Compare(b, a)
    ensures Compare(a, b) <= 0 && Compare(b, c) <= 0 ==> Compare(a, c) <= 0
    ensures Compare(a, b) == 0 && Compare(b, c) == 0 ==> Compare(a, c) == 0
  {
  }

  /** No other field affects the order: tasks that agree on tier and createdAt compare equal. */
  lemma CompareDependsOnlyOnKey(a: Task, b: Task)
    ensures Compare(a, b) == 0 <==> Tier(a) == Tier(b) && a.createdAt == b.createdAt
  {
  }

  /** The comparator does not separate Medium from Low. */
  lemma MediumAndLowTie(a: Task)
    requires a.priority == Medium
    ensures Compare(a, a.(priority := Low)) == 0
  {
  }

  predicate Sorted(s: seq<Task>)
  {
    forall i, j :: 0 <= i < j < |s| ==> Compare(s[i], s[j]) <= 0
  }

  /** Inserts `x` before the first element it does not come after, so that it precedes its ties. */
  function Insert(x: Task, s: seq<Task>): (r: seq<Task>)
    ensures |r| == |s| + 1
    ensures multiset(r) == multiset(s) + multiset{x}
  {
    if s == [] || Compare(x, s[0]) <= 0 then [x] + s
    else
      assert s == [s[0]] + s[1..];
      [s[0]] + Insert(x, s[1..])
  }

  /** A task that comes no later than `x` and than every element of `s` comes no later than anything in the insertion. */
  lemma {:induction false} InsertLowerBound(y: Task, x: Task, s: seq<Task>)
    requires Compare(y, x) <= 0
    requires forall k :: 0 <= k < |s| ==> Compare(y, s[k]) <= 0
    ensures forall k :: 0 <= k < |s| + 1 ==> Compare(y, Insert(x, s)[k]) <= 0
  {
    if s != [] && Compare(x, s[0]) > 0 {
      InsertLowerBound(y, x, s[1..]);
    }
  }

  lemma {:induction false} InsertKeepsSorted(x: Task, s: seq<Task>)
    requires Sorted(s)
    ensures Sorted(Insert(x, s))
  {
    var r := Insert(x, s);
    if s == [] || Compare(x, s[0]) <= 0 {
      forall j | 1 <= j < |r| ensures Compare(x, r[j]) <= 0 {
        CompareIsTotalPreorder(x, s[0], r[j]);
      }
    } else {
      InsertKeepsSorted(x, s[1..]);
      CompareIsTotalPreorder(x, s[0], x);
      InsertLowerBound(s[0], x, s[1..]);
    }
  }

  /** Stable insertion sort by `Compare`: a sorted permutation of its input. */
  function SortTasks(s: seq<Task>): (r: seq<Task>)
    ensures |r| == |s|
    ensures multiset(r) == multiset(s)
    ensures Sorted(r)
  {
    if s == [] then []
    else
      assert s == [s[0]] + s[1..];
      InsertKeepsSorted(s[0], SortTasks(s[1..]));
      Insert(s[0], SortTasks(s[1..]))
  }

  /** The tasks of `s` that compare equal to `t0`, in their order in `s`. */
  function Ties(s: seq<Task>, t0: Task): seq<Task>
  {
    Filter(s, (t: Task) => Compare(t, t0) == 0)
  }

  lemma {:induction false} TiesOfInsert(x: Task, s: seq<Task>, t0: Task)
    ensures Ties(Insert(x, s), t0) == if Compare(x, t0) == 0 then [x] + Ties(s, t0) else Ties(s, t0)
  {
    if s == [] || Compare(x, s[0]) <= 0 {
      var r := [x] + s;
      assert r[0] == x && r[1..] == s;
    } else {
      var rest := Insert(x, s[1..]);
      var r := [s[0]] + rest;
      assert r[0] == s[0] && r[1..] == rest;
      TiesOfInsert(x, s[1..], t0);
      if Compare(x, t0) == 0 {
        CompareIsTotalPreorder(s[0], x, t0);
        CompareIsTotalPreorder(x, t0, s[0]);
      }
    }
  }

  /** The sort is stable: tasks that compare equal keep the order they had in the input. */
  lemma {:induction false} SortIsStable(s: seq<Task>, t0: Task)
    ensures Ties(SortTasks(s), t0) == Ties(s, t0)
  {
    if s != [] {
      SortIsStable(s[1..], t0);
      TiesOfInsert(s[0], SortTasks(s[1..]), t0);
    }
  }

  /** The column test of `filteredTasks`. */
  function Shown(category: Category, filter: StatusFilter): Task -> bool
  {
    (t: Task) => Visible(t, category, filter)
  }

  /**
   * `filteredTasks(category)` under `filter`: exactly the visible tasks, each as
   * often as in the list, High first, then not-completed before completed,
   * then newest first; ties keep the list's order.
   */
  function Project(tasks: seq<Task>, category: Category, filter: StatusFilter): (r: seq<Task>)
    ensures forall t :: multiset(r)[t] == if Visible(t, category, filter) then multiset(tasks)[t] else 0
    ensures forall i :: 0 <= i < |r| ==> r[i].category == category && Admits(filter, r[i].status)
    ensures forall i, j :: 0 <= i < j < |r| ==> Tier(r[i]) <= Tier(r[j])
    ensures forall i, j :: 0 <= i < j < |r| && Tier(r[i]) == Tier(r[j]) ==> r[i].createdAt >= r[j].createdAt
  {
    var kept := Filter(tasks, Shown(category, filter));
    var r := SortTasks(kept);
    KeptExactlyVisible(tasks, category, filter, r);
    SortedByTier(r);
    r
  }

  /** A permutation of the filtered list holds exactly the visible tasks. */
  lemma KeptExactlyVisible(tasks: seq<Task>, category: Category, filter: StatusFilter, r: seq<Task>)
    requires multiset(r) == multiset(Filter(tasks, Shown(category, filter)))
    ensures forall t :: multiset(r)[t] == if Visible(t, category, filter) then multiset(tasks)[t] else 0
    ensures forall i :: 0 <= i < |r| ==> r[i].category == category && Admits(filter, r[i].status)
  {
    forall i | 0 <= i < |r| ensures Visible(r[i], category, filter) {
      assert r[i] in multiset(r);
    }
  }

  /** A list sorted by the comparator has non-decreasing tiers, and newest first within a tier. */
  lemma SortedByTier(r: seq<Task>)
    requires Sorted(r)
    ensures forall i, j :: 0 <= i < j < |r| ==> Tier(r[i]) <= Tier(r[j])
    ensures forall i, j :: 0 <= i < j < |r| && Tier(r[i]) == Tier(r[j]) ==> r[i].createdAt >= r[j].createdAt
  {
    forall i, j | 0 <= i < j < |r| ensures Tier(r[i]) <= Tier(r[j]) {
      assert Compare(r[i], r[j]) <= 0;
    }
  }

  /** Ties in a column appear in the order they have in the task list. */
  lemma ProjectIsStable(tasks: seq<Task>, category: Category, filter: StatusFilter, t0: Task)
    ensures Ties(Project(tasks, category, filter), t0)
         == Ties(Filter(tasks, Shown(category, filter)), t0)
  {
    SortIsStable(Filter(tasks, Shown(category, filter)), t0);
  }

  /** Sorting two tasks that are already in order leaves them as they are. */
  lemma SortPair(a: Task, b: Task)
    requires Compare(a, b) <= 0
    ensures SortTasks([a, b]) == [a, b]
  {
    assert [a, b][1..] == [b] && [b][1..] == [];
    assert SortTasks([b]) == [b];
  }

  /** Sorting two tasks that are out of order swaps them. */
  lemma SortPairSwap(a: Task, b: Task)
    requires Compare(a, b) > 0
    ensures SortTasks([a, b]) == [b, a]
  {
    assert [a, b][1..] == [b] && [b][1..] == [];
    assert SortTasks([b]) == [b];
    assert Insert(a, [b]) == [b] + Insert(a, []);
  }

  /** Two tasks of the same column that both pass the filter are both kept, in order. */
  lemma ProjectPair(a: Task, b: Task, category: Category, filter: StatusFilter)
    requires Visible(a, category, filter) && Visible(b, category, filter)
    ensures Project([a, b], category, filter) == SortTasks([a, b])
  {
    FilterKeepsAll([a, b], Shown(category, filter));
  }

  /**
   * Priority dominates recency and status: a High task is listed before any
   * task that is not High, whatever their statuses and creation times and
   * whichever comes first in the list.
   */
  lemma PriorityBeforeRecency(a: Task, b: Task, category: Category, filter: StatusFilter)
    requires a.priority == High && b.priority != High
    requires Visible(a, category, filter) && Visible(b, category, filter)
    ensures Compare(a, b) < 0
    ensures Project([a, b], category, filter) == [a, b]
    ensures Project([b, a], category, filter) == [a, b]
  {
    SortPair(a, b);
    SortPairSwap(b, a);
    ProjectPair(a, b, category, filter);
    ProjectPair(b, a, category, filter);
  }

  /**
   * Completed last: of two tasks with equal priority that the filter both
   * admits, the pending one is listed first, whichever comes first in the list.
   */
  lemma CompletedLast(a: Task, b: Task, category: Category, filter: StatusFilter)
    requires a.status == Completed && b.status == Pending && a.priority == b.priority
    requires Visible(a, category, filter) && Visible(b, category, filter)
    ensures Compare(b, a) < 0
    ensures Project([a, b], category, filter) == [b, a]
    ensures Project([b, a], category, filter) == [b, a]
  {
    assert Tier(a) == Tier(b) + 1;
    SortPairSwap(a, b);
    SortPair(b, a);
    ProjectPair(a, b, category, filter);
    ProjectPair(b, a, category, filter);
  }
}
