# Task board model

A Dafny model of the kanban task board of the TodoApp (`TaskBoard.jsx`):
an ordered list of tasks spread over four fixed columns (Backlog, To-Do,
In Progress, Done), with handlers that add a task, move it to another
column, delete it after confirmation, and drag it from one column to
another; a creation form that refuses a blank title; and task cards whose
long descriptions are collapsed to an 80-character preview.

Layout, one module per file:

- `wrappers.dfy` (`Wrappers`): `Option`.
- `tasks.dfy` (`Tasks`): the `Status` of a task (one per column), the
  `Task` record, the column order, ids and titles.
- `task_list.dfy` (`TaskList`): the pure list transforms the handlers
  build their new lists with: `WithStatus` (the map of a move), `Without`
  (the filter of a delete) and `Column` (the filter of a column view),
  with lemmas about them.
- `storage.dfy` (`Storage`): the browser key-value store, holding task
  lists under keys, and `SavedTasks`, the list the board starts from.
- `board.dfy` (`Board`): the board component as the class `TaskBoard`
  with fields `tasks`, `formOpen` and `dragged`; its methods are the
  handlers. `Valid()` says that the stored entry under `"taskItems"`
  always equals `tasks`, since the component writes the list back after
  every change. `Walkthrough` runs a small user session through the
  contracts alone.
- `js_string.dfy` (`JsString`): JavaScript's `trim`, stripping the
  ECMAScript whitespace and line-terminator code points.
- `task_form.dfy` (`TaskForm`): the creation form as the class
  `TaskFormModal`; `Submit` calls the board's add handler.
- `task_card.dfy` (`TaskCard`): the description preview, the toggle
  button, and the card's expanded flag (class `TaskItem`).

Inputs the application takes from the environment are parameters: the
new task's `id` (`Date.now()` as a string) and `created` stamp (an ISO
time string), and the user's answer to the delete confirmation prompt.
Ids are never assumed unique; lemmas that need uniqueness take it as a
hypothesis.

Behaviour of the handlers worth noting:

- `handleAddTask` refuses only the empty title. A blank title such as
  `"   "` is refused by the form's submit handler, not by the board.
- A drop compares the target with the status the task had when the drag
  started (the remembered copy), not with its status in the list now.
- No handler ends a drag that is cancelled. The remembered task stays
  until the next drop or the next drag start.
- Move and delete act on every task that carries the id, not only on one.
- Reading storage does not catch parse errors. Malformed saved text is
  not modelled as an empty list (see "Left out").

## Model

| member | source | states |
|---|---|---|
| `Tasks.ColumnsAreComplete` | TodoApp/src/components/TaskBoard.jsx:5-10 | every status is one of the four entries of `BoardColumns`, and those entries are distinct |
| `Tasks.ColumnId` | TodoApp/src/components/TaskBoard.jsx:6-9 | each column's id names its status back, so no two columns share an id |
| `TaskList.WithStatus` | TodoApp/src/components/TaskBoard.jsx:39-43 | a move keeps the length and order; a task with the id gets the new status with all other fields kept; any other task is unchanged |
| `TaskList.MoveIsIdentityIff` | TodoApp/src/components/TaskBoard.jsx:39-43 | a move yields an equal list if and only if every task with the id is already in the target column (so also for an absent id) |
| `TaskList.MoveIdempotent` | TodoApp/src/components/TaskBoard.jsx:39-43 | moving twice to the same column equals moving once |
| `TaskList.MoveKeepsIds` | TodoApp/src/components/TaskBoard.jsx:39-43 | a move keeps the id sequence, hence keeps ids unique if they were |
| `TaskList.Without` | TodoApp/src/components/TaskBoard.jsx:47 | the result holds exactly the tasks whose id differs, as a subsequence in original order |
| `TaskList.RemoveCounts` | TodoApp/src/components/TaskBoard.jsx:47 | every copy of a task with the id is dropped; every other task keeps its multiplicity |
| `TaskList.TitlesKept` | TodoApp/src/components/TaskBoard.jsx:39-49 | neither a move nor a deletion can leave a task with an empty title if none had one |
| `TaskList.RemoveIsIdentityIff` | TodoApp/src/components/TaskBoard.jsx:47 | deletion yields an equal list if and only if no task carries the id |
| `TaskList.RemoveExactlyOne` | TodoApp/src/components/TaskBoard.jsx:47 | when exactly one task carries the id, deletion removes just that one and keeps the rest in order |
| `TaskList.RemoveKeepsUniqueIds` | TodoApp/src/components/TaskBoard.jsx:47 | deletion keeps ids unique |
| `TaskList.AddFreshKeepsUniqueIds` | TodoApp/src/components/TaskBoard.jsx:27-35 | appending a task whose id is new keeps ids unique (the code itself does not guarantee a new id) |
| `TaskList.Column` | TodoApp/src/components/TaskBoard.jsx:94-100 | a column view holds exactly the tasks of that status with their multiplicities, as a subsequence in list order; the header count is its length |
| `TaskList.ColumnsPartition` | TodoApp/src/components/TaskBoard.jsx:83-110 | each task shows in the column of its status and no other; the four columns together are the whole list (as multisets) and their counts sum to its length |
| `Storage.LocalStorage.GetItem` | TodoApp/src/components/TaskBoard.jsx:13 | reading a key gives its stored value, or nothing exactly when the key is absent |
| `Storage.LocalStorage.SetItem` | TodoApp/src/components/TaskBoard.jsx:21 | writing a key replaces its value and leaves every other key alone |
| `Storage.SavedTasks` | TodoApp/src/components/TaskBoard.jsx:12-15 | the initial list is the saved one, or empty when nothing is saved |
| `Board.TaskBoard.constructor` | TodoApp/src/components/TaskBoard.jsx:12-22 | mounting loads the saved list, closes the form, drags nothing, and writes the list back under the board's key |
| `Board.TaskBoard.SetTasks` | TodoApp/src/components/TaskBoard.jsx:20-22 | a new list is stored in the component and written to storage under the board's key, nothing else changes |
| `Board.TaskBoard.AddTask` | TodoApp/src/components/TaskBoard.jsx:24-37 | an empty title changes nothing; otherwise exactly one backlog task with the given fields is appended after the unchanged earlier tasks, and the form is closed; if no earlier task had an empty title, none has one afterwards |
| `Board.TaskBoard.MoveTaskToColumn` | TodoApp/src/components/TaskBoard.jsx:39-43 | the list becomes `WithStatus` of the old list; form and drag state unchanged; storage mirrors the list |
| `Board.TaskBoard.RemoveTask` | TodoApp/src/components/TaskBoard.jsx:45-49 | with confirmation the list becomes `Without` of the old list; without it nothing changes, storage included |
| `Board.TaskBoard.StartDragging` | TodoApp/src/components/TaskBoard.jsx:51-53 | the drag source becomes the given task; nothing else in the board changes |
| `Board.TaskBoard.DropTask` | TodoApp/src/components/TaskBoard.jsx:60-66 | the drag source is always cleared; the remembered task is moved exactly when it exists and its remembered status differs from the target; otherwise list and storage are unchanged |
| `Board.TaskBoard.OpenForm` | TodoApp/src/components/TaskBoard.jsx:74-77 | the "New Task" button opens the form |
| `Board.TaskBoard.CloseForm` | TodoApp/src/components/TaskBoard.jsx:125-129 | the form's close callback closes it |
| `JsString.TrimStart` | TodoApp/src/components/TaskBoard.jsx:210 | the result is a suffix of the input, all removed characters are whitespace, and it does not start with whitespace |
| `JsString.TrimEnd` | TodoApp/src/components/TaskBoard.jsx:210 | the result is a prefix of the input, all removed characters are whitespace, and it does not end with whitespace |
| `JsString.TrimSplits` | TodoApp/src/components/TaskBoard.jsx:210 | the input is whitespace, then the trimmed text, then whitespace |
| `JsString.Trim` | TodoApp/src/components/TaskBoard.jsx:210 | `trim()` is no longer than its input, and a non-empty result neither starts nor ends with whitespace |
| `JsString.IsBlank` | TodoApp/src/components/TaskBoard.jsx:210 | the guard `!taskTitle.trim()` holds if and only if every character of the title is whitespace |
| `JsString.NotBlankIsNonEmpty` | TodoApp/src/components/TaskBoard.jsx:210-215 | a title that passes the form's blank check also passes the board's empty check at line 25 |
| `TaskForm.TaskFormModal.constructor` | TodoApp/src/components/TaskBoard.jsx:202-205 | the form starts with empty title, description and error message |
| `TaskForm.TaskFormModal.EditTitle` | TodoApp/src/components/TaskBoard.jsx:236 | typing sets the title field |
| `TaskForm.TaskFormModal.EditDescription` | TodoApp/src/components/TaskBoard.jsx:247 | typing sets the description field |
| `TaskForm.TaskFormModal.Submit` | TodoApp/src/components/TaskBoard.jsx:207-219 | only while the form is shown: a blank title sets the error message and leaves board and storage unchanged; otherwise the untrimmed title and description are appended as a backlog task, storage is updated under the board's key only, the form closes, and the three fields are cleared |
| `TaskForm.TaskFormModal.Cancel` | TodoApp/src/components/TaskBoard.jsx:254-256 | the cancel button closes the form |
| `TaskCard.Prefix` | TodoApp/src/components/TaskBoard.jsx:175 | `slice(0, n)` gives the first `n` characters, or all when the string is shorter |
| `TaskCard.Collapsed` | TodoApp/src/components/TaskBoard.jsx:175 | a description of at most 80 characters shows whole; a longer one shows its first 80 characters followed by `...` |
| `TaskCard.CollapsedIsWhole` | TodoApp/src/components/TaskBoard.jsx:175 | the collapsed text equals the description exactly when it has at most 80 characters, or has 83 and already ends in `...` |
| `TaskCard.DescriptionView` | TodoApp/src/components/TaskBoard.jsx:170-176 | an empty description shows nothing; otherwise the full text when expanded and the collapsed text when not |
| `TaskCard.ToggleButton` | TodoApp/src/components/TaskBoard.jsx:178-185 | the toggle exists exactly when the description is longer than 80 characters, labelled by the expanded flag |
| `TaskCard.FlagMattersOnlyWithToggle` | TodoApp/src/components/TaskBoard.jsx:172-185 | whenever the expanded flag changes what is shown, the toggle is offered |
| `TaskCard.TaskItem.constructor` | TodoApp/src/components/TaskBoard.jsx:136-137 | a card starts collapsed |
| `TaskCard.TaskItem.ToggleDesc` | TodoApp/src/components/TaskBoard.jsx:139-141 | the toggle flips the expanded flag |

## Left out

- Serialisation: `JSON.stringify` and `JSON.parse` are foreign code. The store holds task lists directly, so the text round trip is not modelled. A saved value that fails to parse throws at line 14 in the application; the model cannot express malformed text.
- Storage.SavedTasks: an empty saved string is falsy at line 14 and also gives the empty list; a stored task list cannot be the empty string, so this case is not represented.
- Statuses outside the four columns: only hand-edited storage could produce them. `Status` has the four values only.
- Clock readings: `Date.now()` and `new Date().toISOString()` are parameters (`id`, `created`). Id uniqueness is not claimed, because two adds in the same millisecond give the same id.
- The confirmation dialog `window.confirm` is the `confirmed` parameter of `RemoveTask`.
- Drag event plumbing: `dataTransfer.setData`, `preventDefault` and `handleDragOver` carry no logic.
- Date formatting (`formatDate`, lines 144-151) depends on locale and date library behaviour.
- Presentation: markup, styling, colours, the empty-column message and the error paragraph.
- Character counting: JavaScript measures `length` and `slice` in UTF-16 code units. The model counts Dafny characters (Unicode scalar values), so the two differ only for characters outside the Basic Multilingual Plane.
- Component lifetime: a `TaskFormModal` or `TaskItem` object stands for one mounting of that component. The application unmounts the form when it closes (line 125) and re-creates a card when it moves to another column (line 99), which discards the form's fields and the card's expanded flag. The model does not destroy those objects. A closed form cannot be submitted (`Submit` requires the form to be shown), but a model form keeps its fields across `Cancel`, and a moved card keeps its flag.
- React scheduling: state updates are modelled as taking effect at once, in the order the handler issues them; the storage write that React runs after rendering is done inside the same method.
