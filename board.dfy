/**
 * The two board controllers: app/components/KanbanBoard.tsx, which keeps the
 * filter and the task being edited and works on the shared task store, and
 * the older components/KanbanBoard.tsx, which keeps its own seeded list.
 */
module Boards {

  import opened Types
  import opened Seqs
  import opened TaskList
  import opened Filtering
  import opened Store
  import opened Reorder

  /** app/components/KanbanBoard.tsx: board state over a shared store. */
  class Board {
    const store: TaskStore
    /** `new Date(text)`, used by the due-date filter. */
    const parse: DateParser
    var filters: FilterState
    var editingTask: Option<Task>
    var formOpen: bool

    /** The form is open whenever a task is being edited. */
    ghost predicate Valid()
      reads this, store
    {
      && (editingTask.Some? ==> formOpen)
      && store.Persisted()
    }

    constructor (store: TaskStore, parse: DateParser)
      requires store.Persisted()
      ensures this.store == store && this.parse == parse
      ensures filters == EmptyFilter && editingTask == None && !formOpen
      ensures Valid()
    {
      this.store := store;
      this.parse := parse;
      filters := EmptyFilter;
      editingTask := None;
      formOpen := false;
    }

    /** `filteredTasks`. */
    function FilteredTasks(): seq<Task>
      reads this, store
    {
      FilterTasks(store.tasks, filters, parse)
    }

    /** `getTasksByStatus(s)`: one column of the filtered list. */
    function TasksByStatus(s: Status): seq<Task>
      reads this, store
    {
      ByStatus(FilteredTasks(), s)
    }

    /** `handleCreateTask`. */
    method HandleCreateTask(data: TaskData, now: nat)
      requires Valid()
      modifies store
      ensures store.tasks == AppendTask(old(store.tasks), data, now)
      ensures store.storage == Saved(store.tasks)
      ensures Valid()
    {
      store.CreateTask(data, now);
    }

    /** `handleUpdateTask`: does nothing unless a task is being edited; then updates it and stops editing. */
    method HandleUpdateTask(data: TaskData, now: Date)
      requires Valid()
      modifies this, store
      ensures old(editingTask).None? ==> store.tasks == old(store.tasks) && store.storage == old(store.storage)
      ensures old(editingTask).Some? ==>
                store.tasks == UpdateById(old(store.tasks), data, old(editingTask).value.id, now)
                && store.storage == SaveEffect(old(store.storage), store.tasks)
      ensures editingTask == None
      ensures filters == old(filters) && formOpen == old(formOpen)
      ensures Valid()
    {
      if editingTask.None? {
        return;
      }
      store.UpdateTask(data, editingTask.value.id, now);
      editingTask := None;
    }

    /** What the form's submit is wired to: update while editing, create otherwise. */
    method Submit(data: TaskData, now: nat)
      requires Valid()
      modifies this, store
      ensures old(editingTask).None? ==> store.tasks == AppendTask(old(store.tasks), data, now)
      ensures old(editingTask).Some? ==>
                store.tasks == UpdateById(old(store.tasks), data, old(editingTask).value.id, now)
      ensures editingTask == None
      ensures Valid()
    {
      if editingTask.Some? {
        HandleUpdateTask(data, now);
      } else {
        HandleCreateTask(data, now);
      }
    }

    /** `handleTaskEdit`: start editing `t` and open the form. */
    method HandleTaskEdit(t: Task)
      requires Valid()
      modifies this
      ensures editingTask == Some(t) && formOpen
      ensures filters == old(filters)
      ensures Valid()
    {
      editingTask := Some(t);
      formOpen := true;
    }

    /** `onOpen` from the filter bar: open the form (in create mode unless already editing). */
    method HandleOpen()
      requires Valid()
      modifies this
      ensures formOpen && editingTask == old(editingTask) && filters == old(filters)
      ensures Valid()
    {
      formOpen := true;
    }

    /** `handleClose`: close the form and stop editing. */
    method HandleClose()
      requires Valid()
      modifies this
      ensures !formOpen && editingTask == None
      ensures filters == old(filters)
      ensures Valid()
    {
      formOpen := false;
      editingTask := None;
    }

    /** `handleFilterChange`: store the normalised record. */
    method HandleFilterChange(p: PartialFilter)
      requires Valid()
      modifies this
      ensures filters == Normalize(p)
      ensures editingTask == old(editingTask) && formOpen == old(formOpen)
      ensures Valid()
    {
      filters := Normalize(p);
    }

    /** The delete action of a card: delete that card's task. */
    method HandleDelete(t: Task)
      requires Valid()
      modifies store
      ensures store.tasks == RemoveById(old(store.tasks), t.id)
      ensures t !in store.tasks
      ensures Valid()
    {
      var _ := store.DeleteTask(t.id);
    }

    /**
     * `handleDragEnd`: the early returns, then the column copies spliced and
     * the rebuilt list committed to the store.
     */
    method HandleDragEnd(r: DropResult, now: Date)
      requires Valid()
      requires SourceIndexInRange(FilteredTasks(), r)
      modifies store
      ensures var res := DragEnd(old(store.tasks), old(FilteredTasks()), r, now);
              && (res.None? ==> store.tasks == old(store.tasks) && store.storage == old(store.storage))
              && (res.Some? ==> store.tasks == res.value && store.storage == SaveEffect(old(store.storage), res.value))
      ensures Valid()
    {
      if r.destination.None? {
        return;
      }
      var destination := r.destination.value;
      if destination.droppableId == r.source.droppableId && destination.index == r.source.index {
        assert destination == r.source;
        return;
      }
      var sourceTasks := TasksByStatus(r.source.droppableId);
      var task := FindById(sourceTasks, r.draggableId);
      if task.None? {
        return;
      }
      if r.source.droppableId == destination.droppableId {
        MoveWithinColumn(r, sourceTasks, now);
      } else {
        MoveAcrossColumns(r, sourceTasks, task.value, now);
      }
    }

    /** Same column: splice the copy of the column and commit it after the other statuses' tasks. */
    method MoveWithinColumn(r: DropResult, sourceTasks: seq<Task>, now: Date)
      requires Valid() && SourceIndexInRange(FilteredTasks(), r) && Moves(FilteredTasks(), r)
      requires r.destination.value.droppableId == r.source.droppableId
      requires sourceTasks == TasksByStatus(r.source.droppableId)
      modifies store
      ensures store.tasks == DragEnd(old(store.tasks), old(FilteredTasks()), r, now).value
      ensures store.storage == SaveEffect(old(store.storage), store.tasks)
      ensures Valid()
    {
      var sourceStatus := r.source.droppableId;
      var newTasks := sourceTasks;
      var removed := newTasks[r.source.index];
      newTasks := RemoveAt(newTasks, r.source.index);
      newTasks := InsertAt(newTasks, r.destination.value.index, removed);
      var committed := Others(store.tasks, sourceStatus) + newTasks;
      DragEndSameColumn(store.tasks, FilteredTasks(), r, now);
      store.SetTasks(committed);
    }

    /**
     * Different columns: the moved copy of `task`, the source column without
     * the source index, the destination column with the copy inserted.
     */
    method MoveAcrossColumns(r: DropResult, sourceTasks: seq<Task>, task: Task, now: Date)
      requires Valid() && Moves(FilteredTasks(), r)
      requires r.destination.value.droppableId != r.source.droppableId
      requires sourceTasks == TasksByStatus(r.source.droppableId)
      requires FindById(sourceTasks, r.draggableId) == Some(task)
      modifies store
      ensures store.tasks == DragEnd(old(store.tasks), old(FilteredTasks()), r, now).value
      ensures store.storage == SaveEffect(old(store.storage), store.tasks)
      ensures Valid()
    {
      var sourceStatus, destinationStatus := r.source.droppableId, r.destination.value.droppableId;
      var destinationTasks := TasksByStatus(destinationStatus);
      var newTask := task.(status := destinationStatus, updatedAt := now);
      var newSourceTasks := RemoveAt(sourceTasks, r.source.index);
      var newDestinationTasks := InsertAt(destinationTasks, r.destination.value.index, newTask);
      var committed := Filter(store.tasks, StatusIsNeither(sourceStatus, destinationStatus))
                       + newSourceTasks + newDestinationTasks;
      DragEndCrossColumn(store.tasks, FilteredTasks(), r, now);
      store.SetTasks(committed);
    }
  }

  // ---------------------------------------------------------------------
  // components/KanbanBoard.tsx

  /** The three sample projects of the older board. */
  const LegacyProjects: seq<Project> := [
    Project("1", "Website Redesign", Some("Complete redesign of company website"), 1704067200000),
    Project("2", "Mobile App", Some("New mobile application development"), 1705276800000),
    Project("3", "API Integration", Some("Third-party API integration project"), 1706745600000)
  ]

  /** The four sample tasks of the older board, one per status. */
  const SeedTasks: seq<Task> := [
    Task("1", "1", "Design homepage layout", Some("Create wireframes and mockups for the new homepage"),
         High, Todo, Some(1710460800000), Some(1709251200000), 1708387200000, 1708387200000),
    Task("2", "1", "Implement responsive design", Some("Make the design work on all device sizes"),
         Medium, InProgress, Some(1710892800000), Some(1709596800000), 1708560000000, 1708560000000),
    Task("3", "2", "User authentication", Some("Implement login and registration functionality"),
         Urgent, InReview, Some(1710028800000), Some(1708819200000), 1708819200000, 1708819200000),
    Task("4", "3", "API documentation", Some("Write comprehensive API documentation"),
         Low, Done, Some(1709078400000), Some(1707955200000), 1707955200000, 1709078400000)
  ]

  /** The seed tasks have distinct ids, and none was updated before it was created. */
  lemma SeedTasksWellFormed()
    ensures UniqueIds(SeedTasks)
    ensures forall t :: t in SeedTasks ==> t.createdAt <= t.updatedAt
  {
    DistinctIdsUnique(SeedTasks);
  }

  /** components/KanbanBoard.tsx: a board that owns its task list. */
  class LegacyBoard {
    var tasks: seq<Task>
    const projects: seq<Project>
    var editingTask: Option<Task>
    var formOpen: bool

    constructor ()
      ensures tasks == SeedTasks && projects == LegacyProjects
      ensures editingTask == None && !formOpen
    {
      tasks := SeedTasks;
      projects := LegacyProjects;
      editingTask := None;
      formOpen := false;
    }

    /** `getTasksByStatus(s)`: one column of the whole list. */
    function TasksByStatus(s: Status): (r: seq<Task>)
      reads this
      ensures forall t :: t in r <==> t in tasks && t.status == s
    {
      ByStatus(tasks, s)
    }

    /** `handleCreateTask`. */
    method HandleCreateTask(data: TaskData, now: nat)
      modifies this
      ensures tasks == AppendTask(old(tasks), data, now)
      ensures editingTask == old(editingTask) && formOpen == old(formOpen)
    {
      tasks := AppendTask(tasks, data, now);
    }

    /**
     * `handleEditTask`: no-op unless a task is being edited; otherwise every
     * task with the edited id becomes the submitted data with the edited
     * task's id and creation stamp, and editing stops.
     */
    method HandleEditTask(data: TaskData, now: Date)
      modifies this
      ensures old(editingTask).None? ==> tasks == old(tasks) && editingTask == None
      ensures old(editingTask).Some? ==>
                var e := old(editingTask).value;
                tasks == ReplaceById(old(tasks), e.id, Stamp(data, e.id, e.createdAt, now))
      ensures editingTask == None && formOpen == old(formOpen)
    {
      if editingTask.None? {
        return;
      }
      var e := editingTask.value;
      var updatedTask := Stamp(data, e.id, e.createdAt, now);
      tasks := ReplaceById(tasks, e.id, updatedTask);
      editingTask := None;
    }

    /** `handleTaskEdit`. */
    method HandleTaskEdit(t: Task)
      modifies this
      ensures editingTask == Some(t) && formOpen && tasks == old(tasks)
    {
      editingTask := Some(t);
      formOpen := true;
    }

    /** `handleClose`. */
    method HandleClose()
      modifies this
      ensures editingTask == None && !formOpen && tasks == old(tasks)
    {
      formOpen := false;
      editingTask := None;
    }
  }

  /**
   * The older board's edit agrees with the store's `updateTask` when the
   * edited record carries the creation stamp the list holds for that id.
   */
  lemma EditAgreesWithUpdate(ts: seq<Task>, e: Task, data: TaskData, now: Date)
    requires forall t :: t in ts && t.id == e.id ==> t.createdAt == e.createdAt
    ensures ReplaceById(ts, e.id, Stamp(data, e.id, e.createdAt, now)) == UpdateById(ts, data, e.id, now)
  {
    var a, b := ReplaceById(ts, e.id, Stamp(data, e.id, e.createdAt, now)), UpdateById(ts, data, e.id, now);
    forall i | 0 <= i < |ts| ensures a[i] == b[i] {
      if ts[i].id == e.id {
        assert ts[i] in ts;
      }
    }
  }
}
