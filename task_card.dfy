/**
 * One task card (src/components/TaskCard.tsx): the status flip and checkbox,
 * the due-date badge and the detail-view flag. `daysDiff` (whole days from
 * today to the due date) is an input. Callback calls are returned as values.
 */
module TaskCard {
  import opened Wrappers
  import opened TaskTypes
  import opened TaskOps

  /** What `handleStatusToggle` sends: `pending` for a completed task, `completed` otherwise. */
  function ToggledStatus(s: Status): (r: Status)
    ensures r != s
    ensures r == Completed <==> s != Completed
  {
    if s == Completed then Pending else Completed
  }

  /** Toggling twice returns the original status. */
  lemma ToggleTwice(s: Status)
    ensures ToggledStatus(ToggledStatus(s)) == s
  {
  }

  /** The checkbox is checked exactly for a completed task. */
  function IsChecked(s: Status): bool
  {
    s == Completed
  }

  /** What a checkbox change sends: checking sends `completed`, unchecking `pending`. */
  function CheckboxStatus(checked: bool): (r: Status)
    ensures IsChecked(r) == checked
  {
    if checked then Completed else Pending
  }

  /** Clicking the checkbox sends the same status as `handleStatusToggle` would, and its state reads back the status. */
  lemma CheckboxAgreesWithToggle(s: Status)
    ensures CheckboxStatus(!IsChecked(s)) == ToggledStatus(s)
    ensures CheckboxStatus(IsChecked(s)) == s
  {
  }

  /**
   * Two status toggles through the board restore the list, provided every task
   * with the card's id had the card's status (as with unique ids).
   */
  lemma ToggleTwiceRestoresTasks(tasks: seq<Task>, id: string, s: Status)
    requires forall i :: 0 <= i < |tasks| && tasks[i].id == id ==> tasks[i].status == s
    ensures SetStatus(SetStatus(tasks, id, ToggledStatus(s)), id, ToggledStatus(ToggledStatus(s))) == tasks
  {
    var once := SetStatus(tasks, id, ToggledStatus(s));
    var twice := SetStatus(once, id, ToggledStatus(ToggledStatus(s)));
    forall i | 0 <= i < |tasks| ensures twice[i] == tasks[i] {
    }
  }

  /** The due badge's colour. */
  datatype Badge = Red | Orange | Green

  /** Due today or past is red, due in one or two days orange, later green. */
  function DueBadge(daysDiff: int): (b: Badge)
    ensures b == Red <==> daysDiff <= 0
    ensures b == Orange <==> 1 <= daysDiff <= 2
    ensures b == Green <==> daysDiff >= 3
  {
    if daysDiff <= 0 then Red
    else if daysDiff <= 2 then Orange
    else Green
  }

  function Urgency(b: Badge): nat
  {
    match b
    case Red => 2
    case Orange => 1
    case Green => 0
  }

  /** A later due date never gets a more urgent badge. */
  lemma BadgeMonotone(d1: int, d2: int)
    requires d1 <= d2
    ensures Urgency(DueBadge(d1)) >= Urgency(DueBadge(d2))
  {
  }

  class Card {
    const task: Task
    /** The `id` prop; the board passes the task's id. */
    const id: string
    const hasOnEdit: bool
    const hasOnStatusChange: bool
    var isDetailOpen: bool

    constructor (task: Task, id: string, onEdit: bool, onStatusChange: bool)
      ensures this.task == task && this.id == id
      ensures hasOnEdit == onEdit && hasOnStatusChange == onStatusChange
      ensures !isDetailOpen
    {
      this.task, this.id := task, id;
      hasOnEdit, hasOnStatusChange := onEdit, onStatusChange;
      isDetailOpen := false;
    }

    /** A click on the card opens the detail view unless it hit a button or the card is being dragged. */
    method HandleCardClick(onButton: bool, isDragging: bool)
      modifies this`isDetailOpen
      ensures isDetailOpen == if onButton || isDragging then old(isDetailOpen) else true
    {
      if onButton || isDragging {
        return;
      }
      isDetailOpen := true;
    }

    /** "Edit" in the detail view hands the task to `onEdit` and closes the view. */
    method HandleEditInModal() returns (edited: Option<Task>)
      modifies this`isDetailOpen
      ensures !isDetailOpen
      ensures edited == if hasOnEdit then Some(task) else None
    {
      edited := if hasOnEdit then Some(task) else None;
      isDetailOpen := false;
    }

    method HandleCloseDetail()
      modifies this`isDetailOpen
      ensures !isDetailOpen
    {
      isDetailOpen := false;
    }

    /**
     * `handleStatusToggle` sends the card's id with the flipped status. The card
     * defines it but attaches it to no element.
     */
    method HandleStatusToggle() returns (sent: Option<(string, Status)>)
      ensures hasOnStatusChange ==> sent.Some? && sent.value.0 == id && sent.value.1 != task.status
      ensures !hasOnStatusChange ==> sent == None
    {
      sent := None;
      if hasOnStatusChange {
        sent := Some((id, ToggledStatus(task.status)));
      }
    }

    /** The checkbox sends the task's id with the status its new checked state stands for. */
    method HandleCheckboxChange(checked: bool) returns (sent: Option<(string, Status)>)
      ensures hasOnStatusChange ==> sent.Some? && sent.value.0 == task.id && IsChecked(sent.value.1) == checked
      ensures !hasOnStatusChange ==> sent == None
    {
      sent := if hasOnStatusChange then Some((task.id, CheckboxStatus(checked))) else None;
    }
  }
}
