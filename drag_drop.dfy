/**
 * `handleDragEnd` (src/components/BoardArea.tsx): a finished drag names the
 * dragged card's id and, when it ended over something, that thing's id. Both
 * are plain strings: a column's id is its category name, a card's id is its
 * task id.
 */
module DragDrop {
  import opened Wrappers
  import opened TaskTypes
  import opened TaskOps

  /** The board's columns, in display order. */
  const Categories: seq<Category> := [Work, Personal, Other]

  /** `{active, over}` as the drag-and-drop library reports it. */
  datatype DragEndEvent = DragEndEvent(activeId: string, overId: Option<string>)

  /** `CATEGORIES.includes(overId)`: exactly the ids that name a column. */
  lemma ColumnIds(overId: string)
    ensures ParseCategory(overId).Some? <==> exists c :: c in Categories && CategoryName(c) == overId
  {
    if ParseCategory(overId).Some? {
      assert ParseCategory(overId).value in Categories;
    }
  }

  /**
   * The drag-end rule. `None` means the handler returned without updating the
   * list: no drop target, the target id equal to the dragged id, no task with
   * the dragged id, or a target that is not a column. Otherwise the dragged
   * task's category becomes the target column's.
   */
  function HandleDragEnd(tasks: seq<Task>, e: DragEndEvent): (r: Option<seq<Task>>)
    ensures r.Some? <==> e.overId.Some? && e.activeId != e.overId.value &&
                         e.activeId in Ids(tasks) && ParseCategory(e.overId.value).Some?
    ensures r.Some? ==> |r.value| == |tasks|
    ensures r.Some? ==> forall i :: 0 <= i < |tasks| && tasks[i].id != e.activeId ==> r.value[i] == tasks[i]
    ensures r.Some? ==> forall i :: 0 <= i < |tasks| && tasks[i].id == e.activeId ==>
                          r.value[i] == tasks[i].(category := ParseCategory(e.overId.value).value)
  {
    match e.overId
    case None => None
    case Some(overId) =>
      if e.activeId == overId then None
      else if e.activeId !in Ids(tasks) then None
      else match ParseCategory(overId)
        case Some(c) => Some(SetCategory(tasks, e.activeId, c))
        case None => None
  }

  /** The list a drag end leaves behind, whether or not the handler updated it. */
  function AfterDragEnd(tasks: seq<Task>, e: DragEndEvent): seq<Task>
  {
    match HandleDragEnd(tasks, e)
    case Some(r) => r
    case None => tasks
  }

  /**
   * Dropping a task on the column it is already in writes the same list back:
   * nothing but the category could change, and it already has that value.
   */
  lemma DropOnOwnColumn(tasks: seq<Task>, e: DragEndEvent, c: Category)
    requires e.overId == Some(CategoryName(c))
    requires forall i :: 0 <= i < |tasks| && tasks[i].id == e.activeId ==> tasks[i].category == c
    ensures AfterDragEnd(tasks, e) == tasks
  {
    CategoryRoundTrip(c);
    if HandleDragEnd(tasks, e).Some? {
      var r := HandleDragEnd(tasks, e).value;
      forall i | 0 <= i < |tasks| ensures r[i] == tasks[i] {
      }
    }
  }

  /** A repeated drop is a no-op: the second identical drag end leaves the list as the first one did. */
  lemma {:induction false} DropIsIdempotent(tasks: seq<Task>, e: DragEndEvent)
    ensures AfterDragEnd(AfterDragEnd(tasks, e), e) == AfterDragEnd(tasks, e)
  {
    var once := AfterDragEnd(tasks, e);
    if HandleDragEnd(tasks, e).Some? {
      var c := ParseCategory(e.overId.value).value;
      assert CategoryName(c) == e.overId.value;
      DropOnOwnColumn(once, e, c);
    }
  }
}
