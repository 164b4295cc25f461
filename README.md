# Task board and A* maze solver, modelled in Dafny

This project models two programs from the same repository.

**The task board** is a React kanban board. Tasks have a title, description,
due date, priority (High, Medium, Low), category (Work, Personal, Other),
status (pending, completed) and creation time. The board:

- keeps the task list, the status filter and the board title in component
  state, and writes them through to `localStorage`;
- shows one column per category, filtered by status and sorted by priority,
  completion and recency;
- moves a task to another column when it is dropped there;
- creates and edits tasks through a modal form;
- lets the header rename the board and choose the filter;
- lets a card flip its task's status.

**The maze solver** is a Tkinter program. It runs A* on a 4 by 5 grid whose
cells are numbered 1 to 20. Walls sit between neighbouring cells, and the
user picks the start and goal cells by number.

Modules, one per file:

| module | file | models |
|---|---|---|
| `Wrappers` | wrappers.dfy | the `Option` type |
| `TaskTypes` | task.dfy | the task record and its enumerations |
| `Text` | text.dfy | `String.prototype.trim` over the ECMAScript white-space and line-terminator characters |
| `TaskHeader` | task_header.dfy | the `StatusFilter` type and the header component |
| `TaskOps` | task_ops.dfy | the list updates behind the board's handlers |
| `Projection` | projection.dfy | `filteredTasks`: filter plus comparator sort |
| `DragDrop` | drag_drop.dfy | `handleDragEnd` |
| `Persistence` | persistence.dfy | the three `localStorage` keys |
| `BoardArea` | board_area.dfy | the board component as a class |
| `TaskModal` | task_modal.dfy | the create/edit form |
| `TaskCard` | task_card.dfy | one card |
| `MazeGrid` | maze_grid.dfy | cell numbering, walls, heuristic, neighbours |
| `AStar` | astar.dfy | nodes, path reconstruction, the search loop |
| `MazeGui` | maze_gui.dfy | the window state and its handlers |

Pure code is written as functions and lemmas. Components and the maze window
are classes whose fields their handlers update. Loops are methods proved
against specification functions.

**React effects.** Effects are modelled as running in declaration order on a
snapshot of the first render's state (`tasks = []`, `statusFilter = 'all'`):

- The filter is loaded, and the save effect for the filter writes `all`.
- The task list is loaded, and the save effect for the tasks removes `tasks`
  because the list is still empty.
- Loads queue state updates. On the re-render the save effect of each state
  that changed runs again with the loaded value.

Each load and save touches only its own key.

The final state proved for `Board.Mount` matches this order.

**Storage.** Storage is a `map<string, string>`. JSON is an abstract `Codec`:
one function that encodes and one that decodes. The `Faithful` predicate
states the one property that `JSON.stringify` and `JSON.parse` need to have
here: decoding the encoding of a task list gives back an array of exactly
those tasks.

**A\* search.** Pop is modelled as "some node of least f", because the heap
compares f alone. A search node's fields are constants:

- The source fills in a neighbour node's g, h, f and parent before pushing it.
- The only other write to a node is to a fresh neighbour that is never pushed.
  This happens when an already-open cell is reached with a smaller g.
- So no pushed node is ever changed.

## Model

| member | source | states |
|---|---|---|
| `TaskTypes.StatusName` | src/types/task.ts:2 | a status is written as "pending" or "completed" |
| `TaskTypes.CategoryName` | src/types/task.ts:3 | a category is written as one of "Work", "Personal", "Other" |
| `TaskTypes.ParseCategory` | src/types/task.ts:3 | a string names a category only if it is one of the three names; the category found is the one with that name |
| `TaskTypes.CategoryRoundTrip` | src/types/task.ts:3 | every category reads back from its name |
| `Text.FirstNonBlank` | src/components/TaskHeader.tsx:42-43 | the scan from the front stops at the first non-blank character, having passed only blanks, or at the end |
| `Text.EndOfNonBlank` | src/components/TaskHeader.tsx:42-43 | the scan from the back stops just past the last non-blank character, having passed only blanks, or at the lower bound |
| `Text.Trim` | src/components/TaskHeader.tsx:42-43 | the result is a slice of the input with white space cut from both ends and none left at either end; it is empty exactly when the input is all white space |
| `Text.TrimIdempotent` | src/components/TaskModal.tsx:69 | trimming twice is trimming once |
| `TaskHeader.FilterName` | src/components/TaskHeader.tsx:4 | a filter is written as "all", "pending" or "completed" |
| `TaskHeader.ParseFilter` | src/components/BoardArea.tsx:70-72 | a saved filter is accepted exactly when it is one of the three names, and then it is the filter with that name |
| `TaskHeader.FilterNameRoundTrip` | src/components/TaskHeader.tsx:4 | every filter reads back from its name; the three menu options are distinct and cover every filter |
| `TaskHeader.Header.constructor` | src/components/TaskHeader.tsx:14-22 | the title starts as the `initialTitle` prop, or "My Tasks" when the prop is absent; not editing; the filter starts at 'all' whatever the `statusFilter` prop says |
| `TaskHeader.Header.ReceiveInitialTitle` | src/components/TaskHeader.tsx:15 | a new `initialTitle` prop replaces the comparison value and leaves the edited title alone |
| `TaskHeader.Header.HandleTitleClick` | src/components/TaskHeader.tsx:32-34 | clicking the title starts editing |
| `TaskHeader.Header.HandleTitleChange` | src/components/TaskHeader.tsx:36-38 | typing replaces the title being edited |
| `TaskHeader.Header.HandleTitleBlur` | src/components/TaskHeader.tsx:40-45 | leaving the input stops editing; the trimmed title is reported exactly when there is a listener and it differs from `initialTitle` |
| `TaskHeader.Header.HandleKeyDown` | src/components/TaskHeader.tsx:47-54 | Enter acts like leaving the input; Escape restores `initialTitle` and reports nothing; any other key changes nothing |
| `TaskHeader.Header.HandleStatusChange` | src/components/TaskHeader.tsx:56-61 | choosing a filter stores it and forwards it exactly when there is a listener |
| `TaskOps.MapWhereIdKeepsOthers` | src/components/BoardArea.tsx:152-154 | an update by id that keeps the id leaves the set of ids unchanged, and every task with another id stays in the list as often as before |
| `TaskOps.MapWhereAbsentId` | src/components/BoardArea.tsx:152-154 | an update by an id no task has leaves the list unchanged |
| `TaskOps.NewTask` | src/components/BoardArea.tsx:130-135 | a new task carries the form's fields, the given id and time, and status pending |
| `TaskOps.AddTask` | src/components/BoardArea.tsx:130-136 | adding appends the new task and keeps every earlier task in place; the id set gains exactly the new id |
| `TaskOps.AddKeepsIdsUnique` | src/components/BoardArea.tsx:132-136 | adding a task with a fresh id keeps the ids unique |
| `TaskOps.EditTasks` | src/components/BoardArea.tsx:120-126 | editing keeps every id and every task whose id is not the edited one; the edited task gets the form's fields and keeps the status and creation time of the edited task snapshot; an unknown id changes nothing |
| `TaskOps.SetStatus` | src/components/BoardArea.tsx:151-155 | only the tasks with that id change, and only in status; an unknown id changes nothing |
| `TaskOps.SetCategory` | src/components/BoardArea.tsx:204-210 | only the tasks with that id change, and only in category; an unknown id changes nothing |
| `TaskOps.Filter` | src/components/BoardArea.tsx:159 | `Array.filter`: every kept task passes the test, and each task occurs as often as in the input if it passes and not at all otherwise |
| `TaskOps.FilterAppend` | src/components/BoardArea.tsx:159 | filtering distributes over concatenation, so the filter keeps the order |
| `TaskOps.FilterKeepsAll` | src/components/BoardArea.tsx:165-173 | a filter that every task passes returns the list unchanged |
| `TaskOps.DeleteTask` | src/components/BoardArea.tsx:157-161 | without confirmation nothing changes; with it no task has the id afterwards, and every task with another id keeps its count; an unknown id changes nothing |
| `TaskOps.DeleteKeepsOrder` | src/components/BoardArea.tsx:159 | deleting distributes over concatenation, so the survivors keep their order |
| `Projection.Compare` | src/components/BoardArea.tsx:174-183 | the comparator orders by tier (High before Medium/Low, pending before completed, with priority first) and within a tier puts newer tasks first |
| `Projection.CompareIsTotalPreorder` | src/components/BoardArea.tsx:174-183 | the comparator is antisymmetric and transitive, and so is its tie relation: it is a consistent comparator |
| `Projection.CompareDependsOnlyOnKey` | src/components/BoardArea.tsx:174-183 | two tasks tie exactly when they are in the same tier and were created at the same time |
| `Projection.MediumAndLowTie` | src/components/BoardArea.tsx:176-177 | Medium and Low priority are not told apart by the sort |
| `Projection.SortTasks` | src/components/BoardArea.tsx:174-183 | the sort is a permutation of its input and sorted by the comparator |
| `Projection.SortIsStable` | src/components/BoardArea.tsx:174-183 | tasks that tie keep their input order |
| `Projection.Project` | src/components/BoardArea.tsx:163-184 | a column holds exactly the tasks `Visible` admits (its category, and the status filter of lines 165-171), each as often as in the list; tiers never decrease down the column; within a tier newer tasks come first |
| `Projection.ProjectIsStable` | src/components/BoardArea.tsx:163-184 | within a column, tasks that tie appear in list order |
| `Projection.PriorityBeforeRecency` | src/components/BoardArea.tsx:176-177 | a High task is listed above any visible task that is not High, whatever their statuses and creation times and in either list order |
| `Projection.CompletedLast` | src/components/BoardArea.tsx:179-180 | of two tasks with equal priority that the filter both admits, the pending one is listed above the completed one, in either list order |
| `DragDrop.ColumnIds` | src/components/BoardArea.tsx:14-22 | with `Categories` the column list of line 14, a drop target is a column exactly when its id is one of the category names |
| `DragDrop.HandleDragEnd` | src/components/BoardArea.tsx:186-212 | the list changes only when there is a drop target, it differs from the dragged id, the dragged task exists and the target is a column; then only that task changes, and only its category, to the target's |
| `DragDrop.DropOnOwnColumn` | src/components/BoardArea.tsx:202-210 | dropping a task on its own column leaves the list unchanged |
| `DragDrop.DropIsIdempotent` | src/components/BoardArea.tsx:204-210 | repeating a drop changes nothing more |
| `Persistence.SaveTasks` | src/components/BoardArea.tsx:107-117 | a non-empty list is written under "tasks", an empty one removes the key; other keys are untouched |
| `Persistence.LoadTasks` | src/components/BoardArea.tsx:89-104 | with `SavedText` the truthiness test of line 92 (present and non-empty), the stored list is adopted exactly when the text is non-empty and parses to a non-empty array; the key is removed only when the text does not parse |
| `Persistence.LoadStatusFilter` | src/components/BoardArea.tsx:68-77 | a saved filter is used exactly when it is one of the three names |
| `Persistence.SaveStatusFilter` | src/components/BoardArea.tsx:80-86 | the filter's name is written under "statusFilter"; other keys are untouched |
| `Persistence.InitialBoardTitle` | src/components/BoardArea.tsx:54-59 | the saved title is used unless it is absent or empty (`SavedText`, the truthiness test of line 56), and then "My Tasks"; never empty |
| `Persistence.SaveBoardTitle` | src/components/BoardArea.tsx:62-65 | the title is written under "boardTitle"; other keys are untouched |
| `Persistence.TasksRoundTrip` | src/components/BoardArea.tsx:89-117 | loading what was saved gives back the same list when it was non-empty, and adopts nothing otherwise |
| `Persistence.CorruptTasksCleared` | src/components/BoardArea.tsx:99-103 | text that does not parse is not adopted and is removed from storage |
| `Persistence.StatusFilterRoundTrip` | src/components/BoardArea.tsx:68-86 | a saved filter loads back as itself |
| `Persistence.BoardTitleRoundTrip` | src/components/BoardArea.tsx:54-65 | a saved title loads back as itself, except that an empty title loads back as "My Tasks" |
| `BoardArea.Board.Mount` | src/components/BoardArea.tsx:48-117 | after the first render and its effects: the title, the filter and the tasks are what storage held, or the defaults; "tasks" stays in storage exactly when it was adopted; other keys are untouched and no key besides "tasks" and "statusFilter" is added; storage agrees with the state |
| `BoardArea.Board.HandleTitleChange` | src/components/BoardArea.tsx:62-65 | the new title is stored in state and in storage |
| `BoardArea.Board.HandleStatusFilterChange` | src/components/BoardArea.tsx:227 | the header's filter becomes the board's filter, and the save effect writes it |
| `BoardArea.Board.HandleEditTask` | src/components/BoardArea.tsx:141-144 | the task is remembered for editing and the modal opens |
| `BoardArea.Board.HandleAddTask` | src/components/BoardArea.tsx:146-149 | no task is being edited and the modal opens |
| `BoardArea.Board.CloseModal` | src/components/BoardArea.tsx:218 | the modal closes |
| `BoardArea.Board.HandleTaskSubmit` | src/components/BoardArea.tsx:119-139 | with a task being edited the list is `EditTasks`, otherwise `AddTask`; the modal closes; storage follows; unique ids stay unique when the new id is fresh |
| `BoardArea.Board.HandleStatusChange` | src/components/BoardArea.tsx:151-155 | the list becomes `SetStatus` of the old list; storage follows |
| `BoardArea.Board.HandleDeleteTask` | src/components/BoardArea.tsx:157-161 | the list becomes `DeleteTask` of the old list; without confirmation storage is untouched |
| `BoardArea.Board.HandleDragEnd` | src/components/BoardArea.tsx:186-212 | the list becomes the drop's result; a drop that returns early leaves storage untouched |
| `BoardArea.Reload` | src/components/BoardArea.tsx:54-117 | mounting again over the storage a board left behind restores its tasks and its filter |
| `TaskModal.FromBoardTask` | src/components/TaskModal.tsx:4-16 | the form's own task type keeps a board task's id and fields; its status is never 'in-progress' and is completed exactly when the board task's is |
| `TaskModal.InitialForm` | src/components/TaskModal.tsx:26-40 | editing starts from the task's fields; a new task starts with `DefaultForm`: empty texts, today's date, Work and High (the same defaults as lines 49-55 and 76-82) |
| `TaskModal.EditStartsFromTask` | src/components/TaskModal.tsx:27-31 | editing a board task shows exactly that task's fields |
| `TaskModal.CanSubmitMeaning` | src/components/TaskModal.tsx:69 | the submit guard `CanSubmit` holds exactly when its title has a non-white-space character and its due date is not empty |
| `TaskModal.Form.constructor` | src/components/TaskModal.tsx:26-40 | the form starts as `InitialForm` of the task prop |
| `TaskModal.Form.TaskPropChanged` | src/components/TaskModal.tsx:43-57 | a new task prop resets the form to `InitialForm` of it |
| `TaskModal.Form.HandleChange` | src/components/TaskModal.tsx:59-65 | a text input changes only its own field |
| `TaskModal.Form.SelectCategory` | src/components/TaskModal.tsx:185 | the category select changes only the category |
| `TaskModal.Form.SelectPriority` | src/components/TaskModal.tsx:223 | the priority select changes only the priority |
| `TaskModal.Form.HandleSubmit` | src/components/TaskModal.tsx:67-84 | a form that cannot be submitted is left as it is, with nothing sent and the modal open; otherwise its fields are sent unchanged, the form resets and the modal closes |
| `TaskCard.ToggledStatus` | src/components/TaskCard.tsx:81 | the flip always changes the status, and gives completed exactly from pending |
| `TaskCard.ToggleTwice` | src/components/TaskCard.tsx:81 | flipping twice restores the status |
| `TaskCard.CheckboxStatus` | src/components/TaskCard.tsx:114-115 | with `IsChecked` the box's checked state for a status (line 114), the status sent by the checkbox is checked exactly when the box is |
| `TaskCard.CheckboxAgreesWithToggle` | src/components/TaskCard.tsx:114-115 | unticking or ticking the box sends the same status as `handleStatusToggle` would |
| `TaskCard.ToggleTwiceRestoresTasks` | src/components/TaskCard.tsx:76-84 | two status flips of a task restore the whole list, creation times included |
| `TaskCard.DueBadge` | src/components/TaskCard.tsx:137-142 | red when due today or overdue, orange within two days, green after that |
| `TaskCard.BadgeMonotone` | src/components/TaskCard.tsx:140-142 | a later due date never shows a more urgent badge |
| `TaskCard.Card.constructor` | src/components/TaskCard.tsx:26-27 | a card starts with its detail view closed |
| `TaskCard.Card.HandleCardClick` | src/components/TaskCard.tsx:51-57 | a click opens the detail view unless it hit a button or the card is being dragged |
| `TaskCard.Card.HandleEditInModal` | src/components/TaskCard.tsx:60-65 | Edit hands the task to the listener, if any, and closes the detail view |
| `TaskCard.Card.HandleCloseDetail` | src/components/TaskCard.tsx:72-74 | the detail view closes |
| `TaskCard.Card.HandleStatusToggle` | src/components/TaskCard.tsx:76-84 | with a listener, the card's id is sent with a status different from the task's; without one nothing is sent |
| `TaskCard.Card.HandleCheckboxChange` | src/components/TaskCard.tsx:115 | with a listener, the task's id is sent with the status the box's new state stands for |
| `MazeGrid.CellOf` | astar_maze_gui.py:37-44 | every cell number names a cell of the grid |
| `MazeGrid.NumberOf` | astar_maze_gui.py:37-44 | every cell of the grid has a number from 1 to 20 |
| `MazeGrid.CellNumbering` | astar_maze_gui.py:37-44 | the two numberings are mutual inverses |
| `MazeGrid.GridCellCount` | astar_maze_gui.py:28-29 | the grid has exactly rows × cols = 20 cells |
| `MazeGrid.BuildCellMaps` | astar_maze_gui.py:37-44 | the double loop maps exactly the numbers 1 to 20 to `CellOf` and exactly the grid cells to `NumberOf`, row by row; with `CellNumbering` the two maps are mutual inverses |
| `MazeGrid.EdgeWall` | astar_maze_gui.py:186-205 | every wall a click makes joins two neighbouring cells of the grid, lower cell first |
| `MazeGrid.EveryCanonicalWallIsClickable` | astar_maze_gui.py:186-205 | every such wall can be made by some click |
| `MazeGrid.Toggle` | astar_maze_gui.py:209-216 | toggling flips the membership of that wall and of no other |
| `MazeGrid.ToggleTwice` | astar_maze_gui.py:209-216 | toggling a wall twice restores the wall set |
| `MazeGrid.Heuristic` | astar_maze_gui.py:293-295 | the Manhattan distance is non-negative and zero exactly at the goal |
| `MazeGrid.HeuristicConsistent` | astar_maze_gui.py:293-295 | one move changes the heuristic by at most one |
| `MazeGrid.HeuristicAdmissible` | astar_maze_gui.py:293-295 | no walk to the goal is shorter than the heuristic says |
| `MazeGrid.DirectionOf` | astar_maze_gui.py:300 | every orthogonal neighbour is reached by one of the four listed directions |
| `MazeGrid.GetNeighbors` | astar_maze_gui.py:297-314 | at most four cells, no repeats, in the order right, down, left, up, and a cell is listed exactly when it is in the grid, orthogonally adjacent and not walled off in either orientation |
| `AStar.Node.constructor` | astar_maze_gui.py:8-14 | f is g + h |
| `AStar.Lineage` | astar_maze_gui.py:316-323 | a node's lineage ends at the node |
| `AStar.Reversed` | astar_maze_gui.py:323 | `path[::-1]`: same length, elements in reverse order |
| `AStar.ReconstructPath` | astar_maze_gui.py:316-323 | the parent walk, reversed, is the lineage: root ancestor first, the node last |
| `AStar.PopMin` | astar_maze_gui.py:16-17 | the popped node has the least f in the open list, and the rest is the list without it |
| `AStar.FindOpen` | astar_maze_gui.py:398-402 | the scan finds the first open node on the cell, and finds none exactly when no open node is on it |
| `AStar.ClosedUnderSteps` | astar_maze_gui.py:350-420 | a set of cells that contains the start and that no move leaves contains the end of every walk from the start |
| `AStar.PopKeepsValid` | astar_maze_gui.py:352-356 | after a pop, the rest of the open list keeps its invariant with the popped cell closed, and loses exactly that cell |
| `AStar.PushKeepsValid` | astar_maze_gui.py:404-411 | pushing a reached node on a cell that is neither open nor closed keeps the open list valid |
| `AStar.ChildReached` | astar_maze_gui.py:404-411 | a child one move from a reached node is reached, and its lineage extends the parent's by its cell |
| `AStar.PushNeighbors` | astar_maze_gui.py:390-411 | after the neighbour loop, the open cells are the old ones plus the neighbours that are not closed; the open list only grows; new nodes are children of the current node with g one higher |
| `AStar.Search` | astar_maze_gui.py:341-420 | a path found runs from start to goal through wall-free moves; "No path found" only when no walk from the start reaches the goal; no cell is expanded twice, so at most 20 expansions |
| `AStar.ExpandOne` | astar_maze_gui.py:355-356 | closing an open cell shrinks the unexplored part of the grid and keeps the expansion record free of repeats |
| `MazeGui.Numeral` | astar_maze_gui.py:60 | `str(i)`: non-empty decimal digits with no leading zero, whose value is `i` |
| `MazeGui.ParseInt` | astar_maze_gui.py:154 | the model of `int()` accepts exactly an optional sign followed by ASCII digits, with the value of the digits and the sign |
| `MazeGui.NumeralParses` | astar_maze_gui.py:58-60 | every listed cell number parses back to itself |
| `MazeGui.Maze.constructor` | astar_maze_gui.py:23-117 | no walls and wall mode off; the boxes show "1" and "20"; start is cell 1 and goal cell 20, opposite corners; the cell maps number the grid |
| `MazeGui.Maze.SetStartText` | astar_maze_gui.py:58-60 | the start box holds the typed or chosen text |
| `MazeGui.Maze.SetGoalText` | astar_maze_gui.py:66-68 | the goal box holds the typed or chosen text |
| `MazeGui.Maze.UpdateStart` | astar_maze_gui.py:152-163 | a number from 1 to 20 selects that cell; anything else resets the box to "1" and the start to cell 1 |
| `MazeGui.Maze.UpdateGoal` | astar_maze_gui.py:165-176 | a number from 1 to 20 selects that cell; anything else resets the box to "20" and the goal to cell 20 |
| `MazeGui.Maze.SetWallMode` | astar_maze_gui.py:51-54 | the check box sets wall mode |
| `MazeGui.Maze.ToggleWall` | astar_maze_gui.py:209-218 | the wall set is toggled at that wall; the result says whether it was added, and names the two cell numbers |
| `MazeGui.Maze.CanvasClick` | astar_maze_gui.py:178-207 | outside wall mode nothing changes; in wall mode the wall under the pointer is toggled; if every wall joined two neighbouring cells lower cell first, they still all do |
| `MazeGui.Maze.RunAlgorithm` | astar_maze_gui.py:325-425 | a path found runs from start to goal through wall-free moves and the reported length is its number of moves; no path only when the goal cannot be reached |
| `MazeGui.Maze.ResetMaze` | astar_maze_gui.py:427-435 | every wall is removed |

## Where the model follows the code

- **Editing a task** keeps the status and creation time of the task captured
  when the modal opened (`editingTask`), not those of the current list entry.
  A status flipped while the modal is open is undone on submit.
- **An empty board title.** It is stored as the empty string, but on the next
  load it reads back as "My Tasks", because the loader treats an empty stored
  value as absent.
- **Dropping a task on its own column** is not rejected by an explicit check.
  The update rewrites the category to the value it already has, and
  `DragDrop.DropOnOwnColumn` proves that the list is unchanged.
- **A stored "tasks" value** that parses but is not a non-empty array is left
  in place by the load effect. The first save effect, which sees the empty
  initial list, then removes it. `Board.Mount` states the resulting storage.
- **The sort does not distinguish Medium from Low**
  (`Projection.MediumAndLowTie`). Such tasks are ordered by status and then
  by recency.
- **Fresh ids are not guaranteed.** The id of a new task is the clock in
  milliseconds. `Board.HandleTaskSubmit` keeps ids unique only under the
  hypothesis that the new id is fresh.
- **`handleStatusToggle` is never called.** The card defines it but attaches
  it to no element. The checkbox is the card's only caller of
  `onStatusChange`. `TaskCard.Card.HandleStatusToggle` models the handler as
  written, and `TaskCard.CheckboxAgreesWithToggle` proves that the checkbox
  sends the same status.
- **The A\* search does not always find a shortest path.** When an open cell
  is reached again by a shorter route, the code updates a fresh neighbour
  node that is never pushed, so the shorter route is dropped. `AStar.Search`
  therefore claims a wall-free path, not a shortest one.

## Left out

- Rendering is not modelled: JSX, CSS classes, icons, the header's dropdown
  toggled through the DOM, focus and selection of the title input, and the
  task detail modal (TaskDetailModal.tsx is not part of this model).
- `createdAt` is an ISO date string in the source. Here it is an integer in
  milliseconds, which is what the comparator reads through
  `new Date(...).getTime()`. An unparsable date, which gives `NaN`
  comparisons, is not modelled.
- The clock, `Date.now()` and today's date are parameters.
- `window.confirm` is the `confirmed` parameter of `HandleDeleteTask`.
- `TaskCard.DueBadge` takes the day difference as input. The date arithmetic
  with `Math.ceil` that computes it is not modelled.
- JSON is the abstract `Codec`. `Persistence.TasksRoundTrip` assumes it is
  faithful and does not prove it of `JSON.stringify` and `JSON.parse`.
- Storage exceptions (quota exceeded, storage unavailable) and the
  server-side `typeof window` branch are not modelled. Every write succeeds.
- A dnd-kit drag end is a `DragEndEvent` with the active id and an optional
  target id. Sortable-item ids, sensors and animation are not modelled.
- The delete buttons of a card only forward an id to the board. Their effect
  is `Board.HandleDeleteTask`.
- `BoardArea.Board.FilteredTasks` is the board's call of `Project` on its
  state. Its properties are stated on `Projection.Project`.
- Tkinter widgets, canvas drawing, the status-bar text, the speed slider,
  `time.sleep`, `root.update` and the `node_states` colouring are not
  modelled.
- The `running` flag guards against re-entry during `root.update()`. It is
  not modelled: each handler runs to completion.
- Pixel hit-testing in `canvas_click` is not modelled. A click is given as
  the grid line it hit, if any, and the model covers the wall that line
  produces.
- `Persistence.LoadTasks`: the source adopts any non-empty parsed array
  without checking its elements, so `[1]` or `[{}]` becomes the task list.
  The model's decoded array holds well-formed tasks only, so such arrays are
  not represented.
- `MazeGui.ParseInt` does not model the surrounding white space, digit
  underscores and non-ASCII digits that Python's `int()` also accepts. Such
  text is treated as not a number.
- `AStar.Search` does not prove shortest-path optimality, because the code
  does not have it. See the section above.
