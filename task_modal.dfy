/**
 * The create/edit form (src/components/TaskModal.tsx). Its local task type has
 * a third status, `in-progress`, that the board's type lacks; the form never
 * uses the status. Its data is the five form fields. `onSubmit` and `onClose`
 * are returned as values; today's date (`new Date()` cut to `YYYY-MM-DD`) is a
 * parameter.
 */
module TaskModal {
  import opened Wrappers
  import TaskTypes
  import opened TaskOps
  import opened Text

  /** `'pending' | 'in-progress' | 'completed'`. */
  datatype ModalStatus = Pending | InProgress | Completed

  /** The form's own view of a task: no `createdAt`, and the wider status. */
  datatype ModalTask = ModalTask(
    id: string,
    title: string,
    description: string,
    dueDate: string,
    category: TaskTypes.Category,
    priority: TaskTypes.Priority,
    status: ModalStatus)

  /** A board task as the form receives it: its two statuses map to theirs, never to `in-progress`. */
  function FromBoardTask(t: TaskTypes.Task): (m: ModalTask)
    ensures m.id == t.id && TaskData(m.title, m.description, m.dueDate, m.priority, m.category) == FieldsOf(t)
    ensures m.status != InProgress
    ensures m.status == Completed <==> t.status == TaskTypes.Completed
  {
    ModalTask(t.id, t.title, t.description, t.dueDate, t.category, t.priority,
              if t.status == TaskTypes.Completed then Completed else Pending)
  }

  /** A new task's defaults: empty title and description, today's date, Work, High. */
  function DefaultForm(today: string): TaskData
  {
    TaskData("", "", today, TaskTypes.High, TaskTypes.Work)
  }

  /** The form's data for a task prop: the task minus `id` and `status`, or the defaults. */
  function InitialForm(task: Option<ModalTask>, today: string): (f: TaskData)
    ensures task.Some? ==> f.title == task.value.title && f.description == task.value.description &&
                           f.dueDate == task.value.dueDate && f.category == task.value.category &&
                           f.priority == task.value.priority
    ensures task.None? ==> f.title == "" && f.description == "" && f.dueDate == today &&
                           f.category == TaskTypes.Work && f.priority == TaskTypes.High
  {
    match task
    case Some(t) => TaskData(t.title, t.description, t.dueDate, t.priority, t.category)
    case None => DefaultForm(today)
  }

  /** Editing a board task starts from exactly its form fields. */
  lemma EditStartsFromTask(t: TaskTypes.Task, today: string)
    ensures InitialForm(Some(FromBoardTask(t)), today) == FieldsOf(t)
  {
  }

  /** The submit guard: a title that is not blank after trimming, and a due date. */
  predicate CanSubmit(f: TaskData)
  {
    Trim(f.title) != "" && f.dueDate != ""
  }

  /** The guard rejects exactly the forms whose title is all whitespace or whose due date is empty. */
  lemma CanSubmitMeaning(f: TaskData)
    ensures CanSubmit(f) <==> (exists i :: 0 <= i < |f.title| && !IsWhitespace(f.title[i])) && f.dueDate != ""
  {
  }

  /** The `name` attributes of the inputs that use the generic change handler. */
  datatype Field = TitleField | DescriptionField | DueDateField

  class Form {
    var formData: TaskData

    /** Mounting with a task prop (or none). */
    constructor (task: Option<ModalTask>, today: string)
      ensures formData == InitialForm(task, today)
    {
      formData := InitialForm(task, today);
    }

    /** The effect on a changed task prop re-initialises the form. */
    method TaskPropChanged(task: Option<ModalTask>, today: string)
      modifies this
      ensures formData == InitialForm(task, today)
    {
      formData := InitialForm(task, today);
    }

    /** `handleChange`: the named field takes the value, the others stay. */
    method HandleChange(name: Field, value: string)
      modifies this
      ensures name == TitleField ==> formData == old(formData).(title := value)
      ensures name == DescriptionField ==> formData == old(formData).(description := value)
      ensures name == DueDateField ==> formData == old(formData).(dueDate := value)
    {
      match name
      case TitleField => formData := formData.(title := value);
      case DescriptionField => formData := formData.(description := value);
      case DueDateField => formData := formData.(dueDate := value);
    }

    /** The category select: only the category changes. */
    method SelectCategory(c: TaskTypes.Category)
      modifies this
      ensures formData == old(formData).(category := c)
    {
      formData := formData.(category := c);
    }

    /** The priority select: only the priority changes. */
    method SelectPriority(p: TaskTypes.Priority)
      modifies this
      ensures formData == old(formData).(priority := p)
    {
      formData := formData.(priority := p);
    }

    /**
     * `handleSubmit`: a rejected form calls nothing and keeps its data. An
     * accepted one is passed on as it is (the title untrimmed), then the form
     * resets to the defaults and `onClose` is called.
     */
    method HandleSubmit(today: string) returns (submitted: Option<TaskData>, closed: bool)
      modifies this
      ensures !CanSubmit(old(formData)) ==> submitted == None && !closed && formData == old(formData)
      ensures CanSubmit(old(formData)) ==> submitted == Some(old(formData)) && closed
      ensures CanSubmit(old(formData)) ==> formData == DefaultForm(today)
    {
      if !CanSubmit(formData) {
        return None, false;
      }
      submitted := Some(formData);
      formData := DefaultForm(today);
      closed := true;
    }
  }
}
