/**
 * The array transformations the board's handlers apply to its task list
 * (src/components/BoardArea.tsx): create, edit, status change and delete.
 * Each is a function from the old list to the new one; the board class
 * installs the result as its new state.
 */
module TaskOps {
  import opened TaskTypes

  /** `Omit<Task, 'id' | 'status' | 'createdAt'>`: the fields the form supplies. */
  datatype TaskData = TaskData(
    title: string,
    description: string,
    dueDate: string,
    priority: Priority,
    category: Category)

  /** The form fields of a task. */
  function FieldsOf(t: Task): TaskData
  {
    TaskData(t.title, t.description, t.dueDate, t.priority, t.category)
  }

  function Ids(tasks: seq<Task>): set<string>
  {
    set t | t in tasks :: t.id
  }

  /** No two tasks share an id. The source does not enforce this; it is kept when every new id is fresh. */
  ghost predicate UniqueIds(tasks: seq<Task>)
  {
    forall i, j :: 0 <= i < j < |tasks| ==> tasks[i].id != tasks[j].id
  }

  /** `tasks.map(t => t.id === id ? f(t) : t)`: the shape shared by edit, status change and drag. */
  function MapWhereId(tasks: seq<Task>, id: string, f: Task -> Task): (r: seq<Task>)
    ensures |r| == |tasks|
    ensures forall i :: 0 <= i < |tasks| ==> r[i] == if tasks[i].id == id then f(tasks[i]) else tasks[i]
  {
    seq(|tasks|, i requires 0 <= i < |tasks| => if tasks[i].id == id then f(tasks[i]) else tasks[i])
  }

  /**
   * An update that keeps the id it is applied to keeps the set of ids, and
   * every task with another id is still in the list as often as before.
   */
  lemma {:induction false} MapWhereIdKeepsOthers(tasks: seq<Task>, id: string, f: Task -> Task)
    requires forall t: Task :: t.id == id ==> f(t).id == id
    ensures Ids(MapWhereId(tasks, id, f)) == Ids(tasks)
    ensures forall t: Task :: t.id != id ==> multiset(MapWhereId(tasks, id, f))[t] == multiset(tasks)[t]
  {
    if tasks != [] {
      var n := |tasks| - 1;
      var init, last := tasks[..n], tasks[n];
      assert tasks == init + [last];
      MapWhereIdKeepsOthers(init, id, f);
      MapWhereIdSnoc(init, last, id, f);
      var mapped := if last.id == id then f(last) else last;
      IdsSnoc(MapWhereId(init, id, f), mapped);
      IdsSnoc(init, last);
    }
  }

  lemma MapWhereIdSnoc(init: seq<Task>, last: Task, id: string, f: Task -> Task)
    ensures MapWhereId(init + [last], id, f) ==
      MapWhereId(init, id, f) + [if last.id == id then f(last) else last]
  {
    var tasks := init + [last];
    assert forall i :: 0 <= i < |init| ==> tasks[i] == init[i];
  }

  lemma IdsSnoc(tasks: seq<Task>, t: Task)
    ensures Ids(tasks + [t]) == Ids(tasks) + {t.id}
  {
    assert forall u :: u in tasks + [t] <==> u in tasks || u == t;
  }

  /** An id that no task has leaves a `map` over the list unchanged. */
  lemma MapWhereAbsentId(tasks: seq<Task>, id: string, f: Task -> Task)
    requires id !in Ids(tasks)
    ensures MapWhereId(tasks, id, f) == tasks
  {
    var r := MapWhereId(tasks, id, f);
    forall i | 0 <= i < |tasks| ensures r[i] == tasks[i] {
      assert tasks[i] in tasks;
    }
  }

  /** The task a create produces: the form fields, the given id and time, status pending. */
  function NewTask(data: TaskData, id: string, createdAt: int): (t: Task)
    ensures FieldsOf(t) == data
    ensures t.id == id && t.status == Pending && t.createdAt == createdAt
  {
    Task(id, data.title, data.description, data.dueDate, data.priority, data.category, Pending, createdAt)
  }

  /** Create: exactly one task is appended; everything before it is untouched and in order. */
  function AddTask(tasks: seq<Task>, data: TaskData, id: string, createdAt: int): (r: seq<Task>)
    ensures |r| == |tasks| + 1 && r[..|tasks|] == tasks
    ensures FieldsOf(r[|tasks|]) == data
    ensures r[|tasks|].id == id && r[|tasks|].status == Pending && r[|tasks|].createdAt == createdAt
    ensures Ids(r) == Ids(tasks) + {id}
  {
    var r := tasks + [NewTask(data, id, createdAt)];
    assert r[..|tasks|] == tasks;
    assert forall t :: t in r <==> t in tasks || t == r[|tasks|];
    r
  }

  /** A create with a fresh id keeps ids unique. */
  lemma AddKeepsIdsUnique(tasks: seq<Task>, data: TaskData, id: string, createdAt: int)
    requires UniqueIds(tasks) && id !in Ids(tasks)
    ensures UniqueIds(AddTask(tasks, data, id, createdAt))
  {
    var r := AddTask(tasks, data, id, createdAt);
    forall i, j | 0 <= i < j < |r| ensures r[i].id != r[j].id {
      if j == |tasks| {
        assert r[i] == tasks[i] && tasks[i] in tasks;
      } else {
        assert r[i] == tasks[i] && r[j] == tasks[j];
      }
    }
  }

  /**
   * Edit: every task whose id is the edited task's takes the submitted fields
   * and the edited task's id, status and createdAt (as they were when editing
   * began); the other tasks, the length and the order stay.
   */
  function EditTasks(tasks: seq<Task>, editing: Task, data: TaskData): (r: seq<Task>)
    ensures |r| == |tasks|
    ensures forall i :: 0 <= i < |tasks| ==> r[i].id == tasks[i].id
    ensures forall i :: 0 <= i < |tasks| && tasks[i].id != editing.id ==> r[i] == tasks[i]
    ensures forall i :: 0 <= i < |tasks| && tasks[i].id == editing.id ==>
              FieldsOf(r[i]) == data && r[i].status == editing.status && r[i].createdAt == editing.createdAt
    ensures editing.id !in Ids(tasks) ==> r == tasks
  {
    var edited := NewTask(data, editing.id, editing.createdAt).(status := editing.status);
    if editing.id !in Ids(tasks) then MapWhereAbsentId(tasks, editing.id, (t: Task) => edited); tasks
    else MapWhereId(tasks, editing.id, (t: Task) => edited)
  }

  /** Status change: only the status of the tasks with this id changes. */
  function SetStatus(tasks: seq<Task>, id: string, status: Status): (r: seq<Task>)
    ensures |r| == |tasks|
    ensures forall i :: 0 <= i < |tasks| && tasks[i].id != id ==> r[i] == tasks[i]
    ensures forall i :: 0 <= i < |tasks| && tasks[i].id == id ==> r[i] == tasks[i].(status := status)
    ensures id !in Ids(tasks) ==> r == tasks
  {
    if id !in Ids(tasks) then MapWhereAbsentId(tasks, id, (t: Task) => t.(status := status)); tasks
    else MapWhereId(tasks, id, (t: Task) => t.(status := status))
  }

  /** Category reassignment by drag: only the category of the tasks with this id changes. */
  function SetCategory(tasks: seq<Task>, id: string, category: Category): (r: seq<Task>)
    ensures |r| == |tasks|
    ensures forall i :: 0 <= i < |tasks| && tasks[i].id != id ==> r[i] == tasks[i]
    ensures forall i :: 0 <= i < |tasks| && tasks[i].id == id ==> r[i] == tasks[i].(category := category)
    ensures id !in Ids(tasks) ==> r == tasks
  {
    if id !in Ids(tasks) then MapWhereAbsentId(tasks, id, (t: Task) => t.(category := category)); tasks
    else MapWhereId(tasks, id, (t: Task) => t.(category := category))
  }

  /** `tasks.filter(keep)`: the kept tasks, each as often as before, in their old order. */
  function Filter(tasks: seq<Task>, keep: Task -> bool): (r: seq<Task>)
    ensures |r| <= |tasks|
    ensures forall i :: 0 <= i < |r| ==> keep(r[i])
    ensures forall t :: multiset(r)[t] == if keep(t) then multiset(tasks)[t] else 0
  {
    if tasks == [] then []
    else
      assert tasks == [tasks[0]] + tasks[1..];
      if keep(tasks[0]) then [tasks[0]] + Filter(tasks[1..], keep) else Filter(tasks[1..], keep)
  }

  /** Filtering works piecewise, so the survivors keep their relative order. */
  lemma {:induction false} FilterAppend(a: seq<Task>, b: seq<Task>, keep: Task -> bool)
    ensures Filter(a + b, keep) == Filter(a, keep) + Filter(b, keep)
  {
    if a == [] {
      assert a + b == b;
    } else {
      assert (a + b)[0] == a[0] && (a + b)[1..] == a[1..] + b;
      FilterAppend(a[1..], b, keep);
    }
  }

  /** Filtering keeps a list whose every element passes. */
  lemma {:induction false} FilterKeepsAll(tasks: seq<Task>, keep: Task -> bool)
    requires forall i :: 0 <= i < |tasks| ==> keep(tasks[i])
    ensures Filter(tasks, keep) == tasks
  {
    if tasks != [] {
      FilterKeepsAll(tasks[1..], keep);
    }
  }

  /**
   * Delete: after confirmation every task with the id is removed and every
   * other task stays, as often as before; without confirmation nothing changes.
   */
  function DeleteTask(tasks: seq<Task>, id: string, confirmed: bool): (r: seq<Task>)
    ensures !confirmed ==> r == tasks
    ensures confirmed ==> id !in Ids(r)
    ensures forall t: Task :: t.id != id ==> multiset(r)[t] == multiset(tasks)[t]
    ensures id !in Ids(tasks) ==> r == tasks
  {
    if !confirmed then tasks
    else
      var r := Filter(tasks, (t: Task) => t.id != id);
      assert forall t :: t in r ==> t.id != id by {
        forall t | t in r ensures t.id != id {
          var i :| 0 <= i < |r| && r[i] == t;
        }
      }
      if id !in Ids(tasks) then
        FilterKeepsAll(tasks, (t: Task) => t.id != id);
        r
      else r
  }

  /** Delete keeps the order of the survivors: it distributes over concatenation. */
  lemma DeleteKeepsOrder(a: seq<Task>, b: seq<Task>, id: string, confirmed: bool)
    ensures DeleteTask(a + b, id, confirmed) == DeleteTask(a, id, confirmed) + DeleteTask(b, id, confirmed)
  {
    if confirmed {
      FilterAppend(a, b, (t: Task) => t.id != id);
    }
  }
}
