# To-do list screen: task list and row edit mode

This project models the state logic of a small React Native to-do screen.

- **`TasksList`** (`tasks_list.dfy`) holds the `Task` record `{id, title, done}`.
- **`HomePage`** (`home.dfy`) holds the Home screen's list of tasks and its three handlers:
  - adding a title, which is rejected when a task with exactly that title already exists;
  - toggling `done` on the first task with a given id;
  - removing the first task with a given id.

  Each handler is one atomic replacement of the screen's `tasks` field in the class `Home`. The add handler is a pure function (`AddTask`). The toggle and remove updaters are methods that do what the source does: copy the list into a fresh array, scan it for the first matching id (`FindIndex`), then negate that task's `done` flag in place or splice the task out. Each updater is proved equal to a recursive reference definition (`ToggleFirst`, `RemoveFirst`). The lemmas then prove the properties promised by the source: which element changes, what the length becomes, that order is kept, that an absent id changes nothing, that toggling twice is the identity, and that ids and titles stay unique. The class `Home` keeps unique titles as its invariant `Valid()`: the empty start list has it and every handler preserves it.
- **`TaskItemRow`** (`task_item.dfy`) models one list row as the class `TaskItem`. Its fields are `isEditing` and `currentTitle` (the draft title). Each interaction is a method that updates those fields and returns the callback the row fires, if any: `toggleTaskDone`, `editTask` or `removeTask`. The model assumes the list owner supplies an `editTask` callback. In the wiring shown in src/pages/Home.tsx (lines 65-69) none is passed, so a submit there would call an undefined value and throw before `setIsEditing(false)` runs.

Ids are not assumed unique, because the source does not enforce it. Toggle and remove act on the first match, as `find` and `findIndex` do. Uniqueness of ids is proved to be preserved wherever it holds, assuming the clock gives a new id on each add.

## Model

| member | source | states |
|---|---|---|
| `TasksList.Negated` | src/pages/Home.tsx:38 | the toggled copy keeps id and title and has the opposite `done` |
| `HomePage.HasTitle` | src/pages/Home.tsx:12-13 | the short-circuit scan is true exactly when some task's title equals the given one |
| `HomePage.FirstIndex` | src/pages/Home.tsx:48-49 | -1 exactly when no task has the id; otherwise a position holding the id with no earlier task holding it (first match) |
| `HomePage.ToggleFirst` | src/pages/Home.tsx:33-42 | reference definition of toggling; keeps the length |
| `HomePage.RemoveFirst` | src/pages/Home.tsx:46-56 | reference definition of removal; the length drops by one exactly when the id is present |
| `HomePage.AddTask` | src/pages/Home.tsx:11-30 | rejected exactly when some task already has the same title; otherwise the old list followed by one new task with the given id and title and `done = false` |
| `HomePage.ToggleFirstAt` | src/pages/Home.tsx:34-41 | toggling equals the list with only the element at the first matching index negated, or the list itself when no id matches |
| `HomePage.ToggleFirstAbsent` | src/pages/Home.tsx:35-41 | toggling an id no task has gives back the list |
| `HomePage.ToggleFirstPresent` | src/pages/Home.tsx:35-41 | when the first task with the id is at `k`, toggling negates position `k` and nothing else |
| `HomePage.ToggleFirstEffect` | src/pages/Home.tsx:34-41 | toggling a present id keeps the length and all ids and titles, negates `done` on the first match and leaves all other elements equal; an absent id gives back the original list |
| `HomePage.ToggleFirstTwice` | src/pages/Home.tsx:38 | toggling the same id twice gives back the original list |
| `HomePage.ToggleFirstUnique` | src/pages/Home.tsx:34-41 | toggling keeps ids unique |
| `HomePage.ToggleFirstUniqueTitles` | src/pages/Home.tsx:34-41 | toggling keeps titles unique |
| `HomePage.RemoveFirstAt` | src/pages/Home.tsx:47-55 | removal equals the list with the element at the first matching index spliced out, or the list itself when no id matches |
| `HomePage.RemoveFirstAbsent` | src/pages/Home.tsx:48-55 | removing an id no task has gives back the list |
| `HomePage.RemoveFirstPresent` | src/pages/Home.tsx:48-55 | when the first task with the id is at `k`, removal splices out exactly position `k` |
| `HomePage.RemoveFirstEffect` | src/pages/Home.tsx:47-55 | removing a present id drops the length by one, keeps every element before the first match in place and shifts every element after it down by one; an absent id gives back the original list |
| `HomePage.RemoveFirstUnique` | src/pages/Home.tsx:47-55 | with unique ids, removal keeps ids unique and leaves no task with the removed id |
| `HomePage.RemoveFirstUniqueTitles` | src/pages/Home.tsx:47-55 | removal keeps titles unique |
| `HomePage.AddTaskUnique` | src/pages/Home.tsx:12-29 | an accepted add keeps titles unique, and keeps ids unique when the new id is not in use |
| `HomePage.AddTaskTwiceRejected` | src/pages/Home.tsx:12-20 | once a title has been added, adding it again is rejected |
| `HomePage.FindIndex` | src/pages/Home.tsx:35 | the scan over the copied array returns exactly `FirstIndex` of its contents: the first position with the id, or -1 |
| `HomePage.ToggleUpdater` | src/pages/Home.tsx:33-42 | the copy-find-negate updater returns exactly `ToggleFirst` of the previous list |
| `HomePage.RemoveUpdater` | src/pages/Home.tsx:46-56 | the copy-findIndex-splice updater returns exactly `RemoveFirst` of the previous list |
| `HomePage.Home.constructor` | src/pages/Home.tsx:9 | the screen starts with an empty list, which satisfies the unique-titles invariant |
| `HomePage.Home.TasksCounter` | src/pages/Home.tsx:61 | the header counter equals the number of tasks in the list |
| `HomePage.Home.HandleAddTask` | src/pages/Home.tsx:11-30 | a duplicate title is rejected and the list is unchanged; otherwise the new task is appended and the header counter grows by one; the unique-titles invariant is preserved, and so are unique ids when the new id is not in use |
| `HomePage.Home.HandleToggleTaskDone` | src/pages/Home.tsx:32-43 | the list becomes `ToggleFirst` of the old list; the header counter is unchanged; the unique-titles invariant and unique ids are preserved |
| `HomePage.Home.HandleRemoveTask` | src/pages/Home.tsx:45-57 | the list becomes `RemoveFirst` of the old list; the header counter drops by one exactly when the id was present; the unique-titles invariant is preserved; with unique ids, ids stay unique and no task with that id remains |
| `TaskItemRow.TaskItem.constructor` | src/components/TaskItem.tsx:22-23 | a new row is not editing and its draft equals the task's title |
| `TaskItemRow.TaskItem.TitleEditable` | src/components/TaskItem.tsx:85 | the title input is editable exactly when the trash button is disabled |
| `TaskItemRow.TaskItem.TrashEnabled` | src/components/TaskItem.tsx:134 | the trash button is enabled exactly when the row is not editing |
| `TaskItemRow.TaskItem.ReceiveTask` | src/components/TasksList.tsx:27-39 | re-rendering with the current version of the same task replaces the props and keeps `isEditing` and the draft |
| `TaskItemRow.TaskItem.HandleStartEditing` | src/components/TaskItem.tsx:27-29 | enters edit mode (input editable, trash disabled), keeps the draft, fires nothing |
| `TaskItemRow.TaskItem.HandleCancelEditing` | src/components/TaskItem.tsx:31-34 | restores the draft to the task's title, leaves edit mode, fires nothing |
| `TaskItemRow.TaskItem.HandleSubmitEditing` | src/components/TaskItem.tsx:36-42 | fires exactly one `editTask(task.id, draft)` and leaves edit mode |
| `TaskItemRow.TaskItem.ChangeText` | src/components/TaskItem.tsx:82-85 | the draft follows typed text only while the input is editable (editing) |
| `TaskItemRow.TaskItem.PressEditControl` | src/components/TaskItem.tsx:100-124 | the button beside the trash cancels while editing and starts editing otherwise; it never fires a callback |
| `TaskItemRow.TaskItem.PressTask` | src/components/TaskItem.tsx:59-63 | pressing the row fires `toggleTaskDone(task.id)` and changes no row state |
| `TaskItemRow.TaskItem.PressTrash` | src/components/TaskItem.tsx:132-140 | fires `removeTask(task.id)` exactly when not editing; while editing the button is disabled and fires nothing |
| `TaskItemRow.CancelledEdit` | src/components/TaskItem.tsx:27-34 | start, type, cancel: nothing fired, the row shows the task's title and is not editing |
| `TaskItemRow.SubmittedEdit` | src/components/TaskItem.tsx:27-42 | start, type, submit: exactly one edit event carrying the typed draft, and the trash button is enabled again |

## Left out

- Styles, icons and layout are not modelled. They are presentational.
- The focus/blur effect is not modelled (src/components/TaskItem.tsx:44-54). It only drives the platform text input.
- The alert dialog is not modelled as a dialog. A duplicate add is modelled only as the `Rejected` outcome, or `accepted = false`.
- `new Date().getTime()` is not modelled. It is a clock read, so the new id is the parameter `now`.
- React's scheduling and batching of `setTasks` and `setIsEditing` are not modelled. Each handler is one atomic state transition.
- The list rendering in src/components/TasksList.tsx is not modelled. Only its `Task` shape and its keying of rows by id are used.
- There is no list-level edit operation. src/pages/Home.tsx defines no edit handler and passes no `editTask` to `TasksList` (lines 65-69), so `EditTask` is only an event the row fires. It is never applied to the list.
- Ids are not required to be unique. The source does not enforce uniqueness, so toggle and remove are modelled with first-match behaviour. Uniqueness of ids is stated only as a conditional invariant.
- `TaskItemRow.TaskItem.HandleSubmitEditing` is modelled without a guard, as written. The platform delivers a submit only from an editable input, and that restriction is not modelled. It also assumes an `editTask` callback is supplied; with none, as in the wiring of src/pages/Home.tsx, the call would throw and edit mode would not be left.
- The `index` prop and test ids are not modelled. They serve rendering and tests only.
