/**
 * The board component (src/components/BoardArea.tsx) as an object: its React
 * state (`tasks`, `statusFilter`, `boardTitle`, the modal flags) and the
 * browser storage it writes through to. Each handler is one atomic update
 * followed by the save effect its state change triggers. The current time and
 * `Date.now()` id are parameters; `window.confirm` is a boolean parameter.
 */
module BoardArea {
  import opened Wrappers
  import opened TaskTypes
  import opened TaskOps
  import opened TaskHeader
  import opened Projection
  import opened DragDrop
  import opened Persistence

  class Board {
    var tasks: seq<Task>
    var statusFilter: StatusFilter
    var boardTitle: string
    var isModalOpen: bool
    var editingTask: Option<Task>
    var storage: Storage
    const codec: Codec

    /**
     * Storage agrees with the state: `tasks` holds the encoded list exactly when
     * the list is non-empty, and `statusFilter` holds the current filter's name.
     */
    ghost predicate Valid()
      reads this
    {
      && Faithful(codec)
      && (TasksKey in storage <==> |tasks| > 0)
      && (TasksKey in storage ==> storage[TasksKey] == codec.encode(tasks))
      && StatusFilterKey in storage && storage[StatusFilterKey] == FilterName(statusFilter)
    }

    /**
     * Mounting on `initial` storage. The first commit's effects see the first
     * render's state (filter `all`, no tasks), in declaration order: the filter
     * is loaded, `all` is written under `statusFilter`, the task list is loaded,
     * and the empty list removes `tasks`. A re-render with the loaded state then re-runs the save effect of
     * each state that changed. So a stored list is re-written only if it was
     * adopted: a parsable non-array or an empty array is removed here, by the
     * save effect, not by the load.
     */
    constructor Mount(initial: Storage, codec: Codec)
      requires Faithful(codec)
      ensures Valid()
      ensures this.codec == codec
      ensures boardTitle == InitialBoardTitle(initial)
      ensures statusFilter == (if LoadStatusFilter(initial).Some? then LoadStatusFilter(initial).value else All)
      ensures tasks == (if LoadTasks(initial, codec).adopted.Some? then LoadTasks(initial, codec).adopted.value else [])
      ensures TasksKey in storage <==> LoadTasks(initial, codec).adopted.Some?
      ensures forall k :: k in initial && k != TasksKey && k != StatusFilterKey ==> k in storage && storage[k] == initial[k]
      ensures forall k :: k in storage ==> k in initial || k == TasksKey || k == StatusFilterKey
      ensures !isModalOpen && editingTask == None
    {
      this.codec := codec;
      tasks := [];
      statusFilter := All;
      boardTitle := InitialBoardTitle(initial);
      isModalOpen := false;
      editingTask := None;
      // first commit
      var loadedFilter := LoadStatusFilter(initial);
      var st := SaveStatusFilter(initial, All);
      var load := LoadTasks(st, codec);
      st := SaveTasks(load.storage, codec, []);
      // re-render with the loaded state
      if loadedFilter.Some? && loadedFilter.value != All {
        statusFilter := loadedFilter.value;
        st := SaveStatusFilter(st, loadedFilter.value);
      }
      if load.adopted.Some? {
        tasks := load.adopted.value;
        st := SaveTasks(st, codec, load.adopted.value);
      }
      storage := st;
    }

    /** `handleTitleChange`: the new title is shown and stored. */
    method HandleTitleChange(newTitle: string)
      requires Valid()
      modifies this`boardTitle, this`storage
      ensures Valid()
      ensures boardTitle == newTitle
      ensures storage == SaveBoardTitle(old(storage), newTitle)
    {
      boardTitle := newTitle;
      storage := SaveBoardTitle(storage, newTitle);
    }

    /** The header's filter callback: the filter is set and written under `statusFilter`. */
    method HandleStatusFilterChange(filter: StatusFilter)
      requires Valid()
      modifies this`statusFilter, this`storage
      ensures Valid()
      ensures statusFilter == filter
      ensures storage == SaveStatusFilter(old(storage), filter)
    {
      statusFilter := filter;
      storage := SaveStatusFilter(storage, filter);
    }

    /** `handleEditTask`: remember the task and open the form. */
    method HandleEditTask(task: Task)
      modifies this`editingTask, this`isModalOpen
      ensures editingTask == Some(task) && isModalOpen
    {
      editingTask := Some(task);
      isModalOpen := true;
    }

    /** `handleAddTask`: forget any edited task and open the form. */
    method HandleAddTask()
      modifies this`editingTask, this`isModalOpen
      ensures editingTask == None && isModalOpen
    {
      editingTask := None;
      isModalOpen := true;
    }

    /** The form's `onClose`. */
    method CloseModal()
      modifies this`isModalOpen
      ensures !isModalOpen
    {
      isModalOpen := false;
    }

    /**
     * `handleTaskSubmit`: with a task being edited, the edit is applied and the
     * edit mode ends; otherwise a new task with id `newId` and creation time
     * `now` is appended. The form closes and the list is saved.
     */
    method HandleTaskSubmit(data: TaskData, newId: string, now: int)
      requires Valid()
      modifies this`tasks, this`editingTask, this`isModalOpen, this`storage
      ensures Valid()
      ensures old(editingTask).Some? ==> tasks == EditTasks(old(tasks), old(editingTask).value, data)
      ensures old(editingTask).None? ==> tasks == AddTask(old(tasks), data, newId, now)
      ensures editingTask == None && !isModalOpen
      ensures storage == SaveTasks(old(storage), codec, tasks)
      ensures UniqueIds(old(tasks)) && (old(editingTask).None? ==> newId !in Ids(old(tasks))) ==> UniqueIds(tasks)
    {
      if editingTask.Some? {
        tasks := EditTasks(tasks, editingTask.value, data);
        editingTask := None;
      } else {
        if UniqueIds(tasks) && newId !in Ids(tasks) {
          AddKeepsIdsUnique(tasks, data, newId, now);
        }
        tasks := AddTask(tasks, data, newId, now);
      }
      isModalOpen := false;
      storage := SaveTasks(storage, codec, tasks);
    }

    /** `handleStatusChange`: the tasks with this id get the new status; the list is saved. */
    method HandleStatusChange(taskId: string, newStatus: Status)
      requires Valid()
      modifies this`tasks, this`storage
      ensures Valid()
      ensures tasks == SetStatus(old(tasks), taskId, newStatus)
      ensures storage == SaveTasks(old(storage), codec, tasks)
    {
      tasks := SetStatus(tasks, taskId, newStatus);
      storage := SaveTasks(storage, codec, tasks);
    }

    /** `handleDeleteTask`: only a confirmed delete updates (and saves) the list. */
    method HandleDeleteTask(taskId: string, confirmed: bool)
      requires Valid()
      modifies this`tasks, this`storage
      ensures Valid()
      ensures tasks == DeleteTask(old(tasks), taskId, confirmed)
      ensures !confirmed ==> storage == old(storage)
      ensures confirmed ==> storage == SaveTasks(old(storage), codec, tasks)
    {
      if confirmed {
        tasks := DeleteTask(tasks, taskId, confirmed);
        storage := SaveTasks(storage, codec, tasks);
      }
    }

    /** `handleDragEnd`: a reassignment, when the drag-end rule makes one, is applied and saved. */
    method HandleDragEnd(e: DragEndEvent)
      requires Valid()
      modifies this`tasks, this`storage
      ensures Valid()
      ensures tasks == AfterDragEnd(old(tasks), e)
      ensures DragDrop.HandleDragEnd(old(tasks), e).None? ==> storage == old(storage)
      ensures storage == SaveTasks(old(storage), codec, tasks)
    {
      match DragDrop.HandleDragEnd(tasks, e)
      case Some(updated) =>
        tasks := updated;
        storage := SaveTasks(storage, codec, tasks);
      case None =>
    }

    /** `filteredTasks(category)`: the column view under the current filter. */
    function FilteredTasks(category: Category): seq<Task>
      reads this
    {
      Project(tasks, category, statusFilter)
    }
  }

  /**
   * Write-through pays off: a board mounted on the storage any valid board has
   * written shows the same tasks, in the same order, and the same filter.
   */
  method Reload(b: Board) returns (reloaded: Board)
    requires b.Valid()
    ensures reloaded.tasks == b.tasks && reloaded.statusFilter == b.statusFilter
    ensures reloaded.boardTitle == InitialBoardTitle(b.storage)
  {
    TasksRoundTrip(b.storage, b.codec, b.tasks);
    StatusFilterRoundTrip(b.storage, b.statusFilter);
    assert SaveStatusFilter(b.storage, b.statusFilter) == b.storage;
    reloaded := new Board.Mount(b.storage, b.codec);
  }
}
