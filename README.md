# Kanban task engine — a Dafny model

This project models the task engine of a small Kanban board, written in
TypeScript with React. A board shows four status columns: TODO,
IN_PROGRESS, IN_REVIEW and DONE. Tasks can be created, edited and deleted.
A filter bar narrows the board by title text, project, priority and a
due-date range. Cards are dragged within a column or between columns.
The list lives in a store hook that mirrors it into browser storage.

The repository has two versions of the board, and both are modelled:

- the current one under `app/`: `app/components/*` and `app/hooks/useTasks.ts`;
- the older one: `components/*` and `hooks/useTasks.ts`.

Files, one module each:

| file | module | what |
|---|---|---|
| types.dfy | `Types` | `Task`, `Project`, `TaskPriority`, `TaskStatus` (types/index.ts) |
| text.dfy | `Text` | `toLowerCase`, `includes`, `trim`, `replace` with a one-character pattern, `Number.prototype.toString` |
| seqs.dfy | `Seqs` | `filter`, and `splice` used to remove or insert one element |
| tasklist.dfy | `TaskList` | the pure list transitions of `createTask`, `updateTask` and `deleteTask`, and id uniqueness |
| filtering.dfy | `Filtering` | the board's filter predicate, the status columns, and filter normalisation |
| store.dfy | `Store` | the two `useTasks` hooks as classes over the task list and the storage item |
| reorder.dfy | `Reorder` | `handleDragEnd` as a function of the full and the filtered list |
| board.dfy | `Boards` | the two `KanbanBoard` components as classes |
| panels.dfy | `Panels` | the two `KanbanFilter` bars as classes |
| taskform.dfy | `TaskForm` | the older task dialog: default values, the title rule, and the submitted record |
| column.dfy | `Columns` | the two `KanbanColumn` components |
| taskbox.dfy | `TaskCards` | the two `TaskBox` cards |

Conventions of the model:

- **Dates.** A date is an integer number of milliseconds, as a JavaScript
  `Date` holds.
- **Clock.** A handler may read the clock (`Date.now()`, `new Date()`) more
  than once; `createTask` reads it three times. The readings of one handler
  are taken to be equal, and are the parameter `now`. A new task's id is
  `now` written in decimal.
- **Date parsing.** `new Date(text)` for a filter bound is the parameter
  `parse`. Its `None` result stands for an Invalid Date, and every
  comparison against one is false, as in JavaScript.
- **Storage.** The storage item under "kanban-tasks" is one of three things:
  missing, unreadable, or a saved list.
- **Handlers.** Each React handler is one atomic transition of a class.

The store, the drop handler and the older filter bar are modelled as the code
is written. The older filter bar is modelled as if it were mounted with a
project list and a filter callback; as components/KanbanBoard.tsx:150 mounts
it, with no props, it throws on its first render (see "## Left out"). Three
consequences of the code as written are stated as proved lemmas:

- A drop rebuilds the two affected columns from the filtered view. Tasks the
  filter hid in those columns are lost (`Reorder.DragDropsHiddenTasks`).
- Storage is only written when the list is non-empty. Deleting the last task
  therefore leaves it in storage (`Store.DeletingLastTaskIsNotPersisted`).
- The older filter bar's "Clear dates" button makes two changes from the same
  render. Only the end date ends up cleared
  (`Panels.LegacyFilterPanel.ClearDates`).

Two declarations the code relies on are missing:

- `FilterState` is imported from types/index.ts by the app's board and
  filter bar, but that file does not declare it. The model uses the
  five-field record both components build.
- `priorities` is imported from app/utils/constant.ts by the app's filter
  bar, but that file does not export it. The priority filter is modelled on
  the four priority literals.

## Model

| member | source | states |
|---|---|---|
| Types.Stamp | app/hooks/useTasks.ts:60-65 | `{ ...data, id, createdAt, updatedAt }` keeps every caller field and sets the three stamps |
| Types.StampOfDataOf | types/index.ts:11-22 | a task is exactly its caller fields plus id, createdAt and updatedAt |
| Types.StatusesEnumerated | types/index.ts:9 | TaskStatus has four values, listed once each in board order |
| Types.PriorityNameInjective | types/index.ts:7 | distinct priorities have distinct literals, so comparing literals compares priorities |
| Types.StatusNameInjective | types/index.ts:9 | distinct statuses have distinct literals, which are also the column ids |
| Text.ToLowerEqualIffSameUpToCase | app/components/KanbanBoard.tsx:60 | two texts lower-case to the same text exactly when they differ only in the case of ASCII letters |
| Text.ToLowerIdempotent | app/components/KanbanBoard.tsx:60 | lower-casing twice is lower-casing once |
| Text.Contains | app/components/KanbanBoard.tsx:60 | `includes` holds iff the pattern occurs at some position |
| Text.Trim | components/TaskForm.tsx:64 | `trim` returns the slice between the leading and the trailing white space, with no white space at either end |
| Text.TrimIdempotent | components/TaskForm.tsx:64 | trimming a trimmed title changes nothing |
| Text.ReplaceFirst | app/components/KanbanColumn.tsx:63 | `replace("_", " ")` changes only the first underscore, and nothing when there is none |
| Text.NatToString | app/hooks/useTasks.ts:62 | `Date.now().toString()` is a non-empty string of decimal digits |
| Text.NatToStringInjective | app/hooks/useTasks.ts:62 | two clock readings give the same id iff they are equal |
| Seqs.FilterKeepsEveryCopy | app/components/KanbanBoard.tsx:56 | `filter` keeps every copy of an element that passes and no copy of one that does not |
| Seqs.FilterIsSubsequence | app/components/KanbanBoard.tsx:56-97 | `filter` keeps the input order |
| Seqs.FilterKeepsAll | app/components/KanbanBoard.tsx:96 | a filter every element passes returns the list unchanged |
| Seqs.RemoveAt | app/components/KanbanBoard.tsx:150 | `splice(i, 1)` removes the element at `i` and shifts the rest, and is a no-op past the end |
| Seqs.InsertAt | app/components/KanbanBoard.tsx:151 | `splice(j, 0, x)` puts `x` at `j`, clamped to the length, and shifts the rest |
| Seqs.RemoveUndoesInsert | app/components/KanbanBoard.tsx:150-151 | removing what was just inserted restores the column |
| Seqs.InsertUndoesRemove | app/components/KanbanBoard.tsx:150-151 | re-inserting a removed element at its index restores the column |
| TaskList.UniqueIdsDistinct | app/hooks/useTasks.ts:82 | with unique ids, two different positions hold different ids, so `task.id === taskId` holds for at most one task |
| TaskList.DistinctIdsUnique | app/hooks/useTasks.ts:62 | pairwise distinct ids mean no id occurs twice |
| TaskList.NewTask | app/hooks/useTasks.ts:60-65 | the new task copies the caller fields, has id `now` in decimal, and both stamps `now` |
| TaskList.DeleteUndoesCreate | app/hooks/useTasks.ts:57-66 | the task just created is found by its id, and deleting that id gives the earlier list back, when every earlier id was minted at an earlier clock reading |
| TaskList.CreateKeepsIdsUnique | app/hooks/useTasks.ts:62-66 | ids stay unique after a create when every earlier id was minted at an earlier clock reading |
| TaskList.CreatedIdsCollide | app/hooks/useTasks.ts:62 | two creates get the same id iff they read the same clock value |
| TaskList.UpdateById | app/hooks/useTasks.ts:80-91 | same length and positions; a task with the id becomes the new data with its own id and createdAt and `updatedAt = now`; the others are unchanged |
| TaskList.UpdateUnknownIdIsNoOp | app/hooks/useTasks.ts:80-91 | updating an id that is not in the list changes nothing |
| TaskList.UpdateByIdAt | app/hooks/useTasks.ts:80-91 | with unique ids, an update restamps the one task with the id and leaves the rest of the list as it was |
| TaskList.UpdateKeepsIds | app/hooks/useTasks.ts:80-91 | an update keeps the id sequence, so it keeps ids unique |
| TaskList.UpdateKeepsStampsOrdered | app/hooks/useTasks.ts:86-87 | if every task was created no later than it was updated and `now` is no earlier than any createdAt, this still holds after an update |
| TaskList.ReplaceByIdAt | components/KanbanBoard.tsx:117-119 | with unique ids, the replacement takes the place of the one task with the id and nothing else changes |
| TaskList.ReplaceKeepsIds | components/KanbanBoard.tsx:110-119 | replacing by a task with the same id keeps the id sequence |
| TaskList.RemoveById | app/hooks/useTasks.ts:106 | `filter(task => task.id !== taskId)` keeps exactly the tasks with another id, every copy of each, in order |
| TaskList.RemoveUnknownIdIsNoOp | app/hooks/useTasks.ts:106 | deleting an unknown id changes nothing |
| TaskList.RemoveByIdAt | app/hooks/useTasks.ts:106 | with unique ids, deleting the id of the task at `i` removes that task and only that task |
| TaskList.RemoveKeepsIds | app/hooks/useTasks.ts:106 | a delete keeps ids unique |
| TaskList.FindIndexById | app/components/KanbanBoard.tsx:142 | `find` by id looks at the first matching position, and finds nothing iff no task has the id |
| TaskList.FindById | app/components/KanbanBoard.tsx:142 | the first task with the id is found; nothing is found iff no task has the id |
| TaskList.FindByIdAt | app/hooks/useTasks.ts:103 | with unique ids, finding the id of the task at `i` finds that task |
| Filtering.MatchesIffAllCriteria | app/components/KanbanBoard.tsx:56-97 | a task survives iff all four criteria hold: title contains the search case-insensitively, same project, same priority, due date within the bounds |
| Filtering.SearchIgnoresCase | app/components/KanbanBoard.tsx:58-63 | changing the case of letters in a title or in the search text does not change which tasks match |
| Filtering.MatchesIgnoresStatusAndStamps | app/components/KanbanBoard.tsx:56-97 | the filter does not look at status or stamps |
| Filtering.DueDateRangeInclusive | app/components/KanbanBoard.tsx:76-94 | with both bounds parsed, a task matches iff it has a due date in the closed interval |
| Filtering.UnparseableBoundOnlyNeedsDueDate | app/components/KanbanBoard.tsx:76-94 | a set bound that is an Invalid Date still excludes tasks without a due date and constrains nothing else |
| Filtering.FilterTasks | app/components/KanbanBoard.tsx:55-98 | `filteredTasks` holds exactly the matching tasks, every copy of each, in their original order |
| Filtering.EmptyFilterKeepsAll | app/components/KanbanBoard.tsx:55-98 | with all five fields empty, the whole list passes unchanged |
| Filtering.ByStatus | app/components/KanbanBoard.tsx:101-103 | a column holds exactly the tasks of that status, in order |
| Filtering.ColumnAndOthers | app/components/KanbanBoard.tsx:155 | a column and the tasks of the other statuses together are the whole list |
| Filtering.ColumnsPartition | app/components/KanbanBoard.tsx:101-103 | the four columns partition the list: each task is in exactly one, with nothing lost or repeated |
| Filtering.ColumnsCount | app/components/KanbanBoard.tsx:185 | the four column lengths add up to the list length |
| Filtering.ByStatusOfFiltered | app/components/KanbanBoard.tsx:101-103 | a column of the filtered list is the filtered column of the full list |
| Filtering.OmittedFieldsConstrainNothing | app/components/KanbanBoard.tsx:106-115 | a field the partial record leaves out constrains nothing, and an empty partial record clears the filter |
| Filtering.NormalizeWhole | app/components/KanbanBoard.tsx:106-115 | a complete record comes through normalisation unchanged |
| Store.MountLeavesStorageAlone | app/hooks/useTasks.ts:8-55 | mounting loads with the empty fallback and the save effect then leaves storage exactly as it was |
| Store.ReloadShowsLastNonEmptyList | app/hooks/useTasks.ts:51-55 | after the save effect a reload shows the list if it is non-empty, and otherwise what storage held before |
| Store.LoadAfterSave | app/hooks/useTasks.ts:51-55 | loading after saving a non-empty list gives that list back |
| Store.DeletingLastTaskIsNotPersisted | app/hooks/useTasks.ts:51-55 | deleting the only task leaves it in storage, so a reload brings it back |
| Store.DeletedTitle | app/hooks/useTasks.ts:103-104 | the notification title is the title of the first task with the id, or "Task" when that title is empty or no task has the id; it is never empty |
| Store.DeletedTitleNamesTask | app/hooks/useTasks.ts:103-104 | with unique ids, it is that task's title, or "Task" when the title is empty |
| Store.TaskStore.Mount | app/hooks/useTasks.ts:42-55 | mounting loads from storage with fallback `[]` and then runs the save rule |
| Store.TaskStore.Reload | app/hooks/useTasks.ts:8-55 | a reload shows the current list whenever that list is non-empty |
| Store.TaskStore.CreateTask | app/hooks/useTasks.ts:57-66 | appends the new task, saves, and keeps ids unique while the clock moves on |
| Store.TaskStore.UpdateTask | app/hooks/useTasks.ts:76-91 | applies `UpdateById`, runs the save rule, and keeps the ids |
| Store.TaskStore.DeleteTask | app/hooks/useTasks.ts:101-106 | applies `RemoveById`, runs the save rule, keeps ids unique, and returns the notification title |
| Store.TaskStore.SetTasks | app/hooks/useTasks.ts:42 | replaces the list and runs the save rule |
| Store.LegacyTaskStore.Mount | hooks/useTasks.ts:90-124 | the three seed projects; tasks loaded with fallback `defaultTasks`, which is empty |
| Store.LegacyTaskStore.CreateTask | hooks/useTasks.ts:126-136 | appends the new task and saves; projects unchanged |
| Store.LegacyTaskStore.UpdateTask | hooks/useTasks.ts:138-154 | applies `UpdateById` and runs the save rule; projects unchanged |
| Store.LegacyTaskStore.DeleteTask | hooks/useTasks.ts:156-158 | applies `RemoveById` and runs the save rule; projects unchanged |
| Store.LegacyTaskStore.SetTasks | hooks/useTasks.ts:119-124 | replaces the list and runs the save rule |
| Store.LegacyTaskStore.SetProjects | hooks/useTasks.ts:160-164 | replaces the projects; tasks and storage are untouched |
| Reorder.Reordered | app/components/KanbanBoard.tsx:149-151 | the column keeps its length and its tasks, the dragged task lands at the clamped destination index, and the other tasks keep their relative order |
| Reorder.ReorderedInPlace | app/components/KanbanBoard.tsx:149-151 | a drop at the source index leaves the column as it was |
| Reorder.ReorderedUndo | app/components/KanbanBoard.tsx:149-151 | dragging the task back to where it started undoes the move |
| Reorder.Moved | app/components/KanbanBoard.tsx:160-164 | the moved task has the destination status and `updatedAt = now`, and every other field unchanged |
| Reorder.DragEnd | app/components/KanbanBoard.tsx:118-182 | the handler commits a list iff there is a destination, it differs from the source, and the id is in the source column |
| Reorder.SameColumnDrag | app/components/KanbanBoard.tsx:148-157 | after a same-column move, that column is the reordered visible column and every other column is as in the full list |
| Reorder.CrossColumnDrag | app/components/KanbanBoard.tsx:158-180 | after a cross-column move, the source column loses the source index and the destination gains the moved task; the other two columns are as in the full list |
| Reorder.DraggedIsAtSourceIndex | app/components/KanbanBoard.tsx:142-150 | with unique ids and the library's guarantee, the task found by id is the one at the source index |
| Reorder.DragDropsHiddenTasks | app/components/KanbanBoard.tsx:138-179 | a task the filter hides in an affected column is missing from the committed list |
| Reorder.SameColumnDragKeepsTasks | app/components/KanbanBoard.tsx:148-157 | with no active filter, a same-column move keeps exactly the same tasks |
| Reorder.CrossColumnDragKeepsTasks | app/components/KanbanBoard.tsx:158-180 | with no active filter, a cross-column move swaps the dragged task for its moved copy and keeps everything else |
| Reorder.DragKeepsIdsUnique | app/components/KanbanBoard.tsx:118-182 | a drop keeps ids unique |
| Reorder.CrossColumnExampleSource | app/components/KanbanBoard.tsx:158-180 | example: tasks x, y in TODO and z in DONE; dragging x to DONE index 1 leaves `[y]` in TODO |
| Reorder.CrossColumnExampleTarget | app/components/KanbanBoard.tsx:158-180 | the same drop gives DONE `[z, x']`, where `x'` is `x` with status DONE and `updatedAt = now` |
| Boards.Board.HandleCreateTask | app/components/KanbanBoard.tsx:26-30 | creates through the store |
| Boards.Board.HandleUpdateTask | app/components/KanbanBoard.tsx:33-39 | does nothing when no task is being edited; otherwise updates that id through the store and stops editing |
| Boards.Board.Submit | app/components/KanbanBoard.tsx:195-197 | the form's submit updates while editing and creates otherwise |
| Boards.Board.HandleTaskEdit | app/components/KanbanBoard.tsx:42-45 | starts editing the task and opens the form |
| Boards.Board.HandleOpen | app/components/KanbanBoard.tsx:190 | the filter bar's create button opens the form |
| Boards.Board.HandleClose | app/components/KanbanBoard.tsx:48-51 | closes the form and stops editing |
| Boards.Board.HandleFilterChange | app/components/KanbanBoard.tsx:106-115 | stores the normalised filter record |
| Boards.Board.HandleDelete | app/components/TaskBox.tsx:106-108 | a card's delete removes every task with that card's id |
| Boards.Board.HandleDragEnd | app/components/KanbanBoard.tsx:118-182 | commits exactly `DragEnd` of the list and its filtered view, or leaves the list and storage untouched |
| Boards.Board.MoveWithinColumn | app/components/KanbanBoard.tsx:148-157 | the same-column branch commits `DragEnd`'s list |
| Boards.Board.MoveAcrossColumns | app/components/KanbanBoard.tsx:158-180 | the cross-column branch commits `DragEnd`'s list |
| Boards.SeedTasksWellFormed | components/KanbanBoard.tsx:42-91 | the four sample tasks have distinct ids and none was updated before it was created |
| Boards.Board.constructor | app/components/KanbanBoard.tsx:13-21 | the board starts with the filters cleared, no task being edited and the dialog closed, over a store whose storage mirrors its list |
| Boards.LegacyBoard.constructor | components/KanbanBoard.tsx:18-91 | the board starts with the sample projects and tasks, editing nothing, form closed |
| Boards.LegacyBoard.TasksByStatus | components/KanbanBoard.tsx:133-135 | a column holds exactly the tasks of that status |
| Boards.LegacyBoard.HandleCreateTask | components/KanbanBoard.tsx:93-103 | appends the new task |
| Boards.LegacyBoard.HandleEditTask | components/KanbanBoard.tsx:105-121 | does nothing unless editing; otherwise replaces the edited id with the data stamped with the edited task's id and createdAt, and stops editing |
| Boards.LegacyBoard.HandleTaskEdit | components/KanbanBoard.tsx:123-126 | starts editing the task and opens the form |
| Boards.LegacyBoard.HandleClose | components/KanbanBoard.tsx:128-131 | closes the form and stops editing |
| Boards.EditAgreesWithUpdate | components/KanbanBoard.tsx:105-121 | the older board's edit equals the store's update when the edited record's createdAt is the listed one |
| Panels.With | app/components/KanbanFilter.tsx:35 | `{ ...filters, [field]: value }` sets that field and leaves the other four |
| Panels.FieldsDetermineRecord | app/components/KanbanFilter.tsx:26-32 | a filter record is determined by its five fields |
| Panels.WithOwnValue | app/components/KanbanFilter.tsx:35 | writing back a field's own value changes nothing |
| Panels.WithTwice | app/components/KanbanFilter.tsx:35 | of two writes to the same field, the second wins |
| Panels.HasActiveFilters | app/components/KanbanFilter.tsx:52 | a filter is active iff some field is non-empty |
| Panels.ActiveIffNotCleared | app/components/KanbanFilter.tsx:40-52 | active iff the record differs from the cleared one |
| Panels.InactiveFilterShowsAll | app/components/KanbanFilter.tsx:52 | with no active filter, the board shows every task |
| Panels.FilterPanel.constructor | app/components/KanbanFilter.tsx:26-32 | starts cleared and inactive |
| Panels.FilterPanel.HandleFilterChange | app/components/KanbanFilter.tsx:34-38 | sets one field and hands the new record to the board |
| Panels.FilterPanel.ClearFilters | app/components/KanbanFilter.tsx:40-50 | clears all fields and hands the cleared record to the board |
| Panels.LegacyWith | components/KanbanFilter.tsx:42 | sets one field of the start/end-date record and leaves the other four |
| Panels.LegacyHasActiveFilters | components/KanbanFilter.tsx:59 | active iff some field is non-empty |
| Panels.LegacyActiveIffNotCleared | components/KanbanFilter.tsx:47-59 | active iff the record differs from the cleared one |
| Panels.LegacyFilterPanel.constructor | components/KanbanFilter.tsx:31-39 | starts cleared with the date range hidden |
| Panels.LegacyFilterPanel.ChangeFrom | components/KanbanFilter.tsx:41-45 | a change spreads the record of the render the handler belongs to |
| Panels.LegacyFilterPanel.HandleFilterChange | components/KanbanFilter.tsx:41-45 | sets one field and hands the new record on |
| Panels.LegacyFilterPanel.ClearFilters | components/KanbanFilter.tsx:47-57 | clears all fields; the result is inactive |
| Panels.LegacyFilterPanel.ToggleDateRange | components/KanbanFilter.tsx:103 | flips the date-range panel and nothing else |
| Panels.LegacyFilterPanel.ClearDates | components/KanbanFilter.tsx:150-153 | hands on two records, each with one date cleared; the end state has the end date cleared and the start date as before |
| TaskForm.DefaultValues | components/TaskForm.tsx:48-98 | missing project and title become "", a missing priority becomes MEDIUM, a missing date becomes "" and a given date its formatted day |
| TaskForm.SubmittedData | components/TaskForm.tsx:61-72 | trimmed title; project and priority unchanged; TODO when creating, else the initial status or TODO; no description; an empty date text is absent |
| TaskForm.EditUntouchedKeepsData | components/TaskForm.tsx:48-75 | saving the edit form untouched submits the task's data without its description and then closes, if its title is trimmed and its dates survive the date inputs |
| TaskForm.TitleAcceptedIffLongEnough | components/TaskForm.tsx:126-131 | the title rule is "at least 3 UTF-16 code units": any three characters pass, and within the Basic Multilingual Plane it is exactly "at least 3 characters" |
| TaskForm.AstralCharacterCountsTwice | components/TaskForm.tsx:126-131 | a character outside the Basic Multilingual Plane counts as two, so a two-character title can pass |
| TaskForm.AcceptedTitleCanBeSubmittedShort | components/TaskForm.tsx:126-131 | "  a" passes the rule and is submitted as "a" |
| TaskForm.TrimmedTitleSubmittedAsTyped | components/TaskForm.tsx:61-72 | an accepted title with no white space at either end is submitted unchanged |
| Columns.AccentIsSchemeShade500 | app/components/KanbanColumn.tsx:15-28 | each app status colour is the older column's scheme at shade 500 |
| Columns.StatusColoursDistinct | components/KanbanColumn.tsx:22-35 | each status has its own colour in both columns |
| Columns.FindProject | app/components/KanbanColumn.tsx:30-38 | the first project with the id, else an "Unknown Project" placeholder; either way the result has the requested id |
| Columns.AppProjectsAreHookSeed | app/utils/constant.ts:3-22 | the app's constant projects equal the older hook's seed projects |
| Columns.AppProjectLookup | app/components/KanbanColumn.tsx:30-38 | ids "1", "2" and "3" find their project; any other id gets the placeholder |
| Columns.HeaderLabel | app/components/KanbanColumn.tsx:63 | the header has the status literal's length |
| Columns.HeaderLabels | components/KanbanColumn.tsx:60 | the headers are "TODO", "IN PROGRESS", "IN REVIEW" and "DONE" |
| Columns.CardsFrom | app/components/KanbanColumn.tsx:85-93 | one card per task, in order; each card's drag index is its position and its project is the looked-up one |
| Columns.AppColumnShowsItsTasks | app/components/KanbanColumn.tsx:40-101 | a column shows exactly the tasks it is given, in order, and its message iff there are none |
| Columns.BoardShowsEachTaskOnce | app/components/KanbanBoard.tsx:200-209 | every task that passes the filter is on exactly one card of the four columns |
| Columns.DragFromCardIsConsistent | app/components/KanbanColumn.tsx:85-93 | a drag started on card `i` reports that column, that index and that task's id, as the drop handler assumes |
| Columns.LegacyColumn | components/KanbanColumn.tsx:47-85 | the badge counts the tasks given; the message shows iff there are none; the cards follow the tasks |
| Columns.BadgesAddUp | components/KanbanColumn.tsx:63 | the four badges of the older board add up to the number of tasks |
| TaskCards.PriorityColoursDistinct | app/components/TaskBox.tsx:28-41 | each priority has its own colour, and none reaches the gray default |
| TaskCards.NotSetIffAbsent | app/components/TaskBox.tsx:43-46 | "Not set" is shown iff the date is absent, when no date formats as "Not set" |
| TaskCards.OverdueStaysOverdue | app/components/TaskBox.tsx:48-49 | once overdue, a task stays overdue as time passes |
| TaskCards.OverdueBoundary | app/components/TaskBox.tsx:48-49 | the comparison is strict: due now is not overdue, and it is overdue one millisecond later |
| TaskCards.DueColourTurnsRed | app/components/TaskBox.tsx:48-133 | the due date shows gray up to and including the due moment, red one millisecond later and from then on, and never red without a due date |
| TaskCards.DueColoursAgree | components/TaskBox.tsx:69-73 | both cards colour the same tasks red |
| TaskCards.EditFromCardUpdatesThatTask | app/components/TaskBox.tsx:95-98 | with unique ids, "Edit" on a card followed by a save updates exactly that card's task |
| TaskCards.LegacyClickEditsThatTask | components/TaskBox.tsx:42 | with unique ids, a click on an older card followed by a save replaces exactly that card's task |
| TaskCards.DeleteFromCardRemovesThatTask | app/components/TaskBox.tsx:106-108 | with unique ids, a card's delete removes that task and keeps the others in order |

## Left out

- Browser storage and JSON. These cover `localStorage`, `JSON.parse`/`stringify`, the `typeof window` checks, and rebuilding `Date` objects from the saved text. They are reduced to the storage item (missing, unreadable, saved) with the empty fallback and the non-empty save rule.
- Dates. Clock readings, `toISOString().split("T")[0]`, `toLocaleDateString` and time zones are parameters. The form's date inputs are taken to hold "" or a valid day.
- Case folding. `toLowerCase` is modelled on ASCII letters only.
- Lone surrogates. JavaScript's `length` is modelled as UTF-16 code units over Unicode scalar values; lone surrogates, which a JavaScript string can hold, are not representable.
- React. `useState`, `useEffect`, `useMemo`, render timing and state batching are not modelled; each handler is one atomic transition. The older filter bar's stale record is modelled through `ChangeFrom`.
- The task context provider. Its throw when used outside the provider (app/context/TasksContext.tsx) is not part of this model.
- The app card's own store. app/components/TaskBox.tsx:16,26 calls `useTasks()` directly, which gives the card a store separate from the board's. Deletion is modelled on the single shared store (`Boards.Board.HandleDelete`).
- Third-party libraries. Chakra UI rendering, toasts, logging and react-hook-form's machinery are not modelled. Of the form library, only the title rule is kept, as a predicate.
- Drag-and-drop internals. Of a drop result, only `draggableId`, `source` and `destination` are used.
- Boards.Board.HandleDragEnd: requires that a same-column drop's source index lies inside the visible column. Without it, JavaScript would splice `undefined` into the column, which a `Task` list cannot hold. The library's stronger guarantee (`Reorder.DropConsistent`) is used only by the lemmas that need it.
- Reorder.DragEnd: takes the dropped-on column id as a status. The source casts the id string, and every column's id is its status literal.
- The older board's wiring. components/KanbanBoard.tsx:150 renders `<KanbanFilter />` with no props and has its task dialog commented out. Without `projects`, `projects.map` (components/KanbanFilter.tsx:79) throws on the first render, so the older board as wired cannot render, and `onFilter(newFilters)` (components/KanbanFilter.tsx:44) would throw as well. The older handlers are modelled as written, and the older bar as if it were mounted with a project list and a filter callback: `Panels.LegacyFilterPanel` logs the records it would hand to that callback.
- Filtering on start or due date. A rule that accepts a task when either its start date or its due date lies in the range can be described for this board, but no modelled file implements it. Only the due-date rule of app/components/KanbanBoard.tsx:75-94 is modelled. The older filter bar stores start and end dates, and nothing reads them.
- The `priorities` list. app/components/KanbanFilter.tsx imports it from app/utils/constant.ts, which does not export it; it is not part of this model.
- Presentation-only files are not part of this model: app/layout.tsx, app/components/Navbar.tsx, app/components/Footer.tsx and the app's task dialog.
- Project fallback time. The placeholder project's `createdAt` (`new Date()`) is the parameter `now`.
