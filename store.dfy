/**
 * The task store hooks: app/hooks/useTasks.ts and its older sibling
 * hooks/useTasks.ts. Each keeps the task list in component state and mirrors
 * it into browser storage under the key "kanban-tasks".
 *
 * Storage is modelled as the one item the hooks read and write. A write only
 * happens when the list is non-empty, so emptying the list leaves the last
 * non-empty list in storage.
 */
module Store {

  import opened Types
  import opened TaskList

  /** The storage item under "kanban-tasks": absent (or ""), unreadable JSON, or a saved list. */
  datatype StorageItem = Missing | Corrupt | Saved(tasks: seq<Task>)

  /**
   * `loadTasksFromStorage`: the saved list when the item is present and parses,
   * otherwise `fallback` (`[]` in the app hook, `defaultTasks` in the older one).
   */
  function LoadTasks(item: StorageItem, fallback: seq<Task>): (r: seq<Task>)
    ensures item.Saved? ==> r == item.tasks
    ensures item.Missing? || item.Corrupt? ==> r == fallback
  {
    match item
    case Saved(ts) => ts
    case _ => fallback
  }

  /** The effect on `[tasks]`: save when the list is non-empty, otherwise leave storage alone. */
  function SaveEffect(storage: StorageItem, ts: seq<Task>): (r: StorageItem)
    ensures |ts| > 0 ==> r == Saved(ts)
    ensures |ts| == 0 ==> r == storage
  {
    if |ts| > 0 then Saved(ts) else storage
  }

  /** Reloading after a save gives back the list that was saved. */
  lemma LoadAfterSave(storage: StorageItem, ts: seq<Task>, fallback: seq<Task>)
    requires |ts| > 0
    ensures LoadTasks(SaveEffect(storage, ts), fallback) == ts
  {
  }

  /** What a reload shows after the save effect: the list if it was non-empty, otherwise what was there before. */
  lemma ReloadShowsLastNonEmptyList(storage: StorageItem, ts: seq<Task>, fallback: seq<Task>)
    ensures LoadTasks(SaveEffect(storage, ts), fallback)
            == if |ts| > 0 then ts else LoadTasks(storage, fallback)
  {
  }

  /**
   * Mounting with an empty fallback never rewrites storage: whatever it loads
   * is either what storage already holds or empty, and an empty list is not saved.
   */
  lemma MountLeavesStorageAlone(item: StorageItem)
    ensures SaveEffect(item, LoadTasks(item, [])) == item
  {
  }

  /**
   * Deleting the only task leaves it in storage: the next load brings it back.
   */
  lemma DeletingLastTaskIsNotPersisted(t: Task, fallback: seq<Task>)
    ensures RemoveById([t], t.id) == []
    ensures LoadTasks(SaveEffect(Saved([t]), RemoveById([t], t.id)), fallback) == [t]
  {
    assert [t][1..] == [];
  }

  /** `defaultTasks` of hooks/useTasks.ts: every sample entry is commented out. */
  const DefaultTasks: seq<Task> := []

  /** The three projects the older hook starts with. */
  const SeedProjects: seq<Project> := [
    Project("1", "Self-Service Portal", Some("Complete redesign of company self-service portal"), 1758326400000),
    Project("2", "Online Shopping Portal", Some("New online shopping portal development"), 1758672000000),
    Project("3", "HRMS Portal", Some("New HRMS portal development"), 1758931200000)
  ]

  /** `taskToDelete?.title || "Task"`: the title shown when a task is deleted. */
  function DeletedTitle(ts: seq<Task>, id: string): (r: string)
    ensures r != ""
    ensures r == "Task" || exists t :: t in ts && t.id == id && t.title == r
    ensures (forall t :: t in ts ==> t.id != id) ==> r == "Task"
    ensures forall k :: 0 <= k < |ts| && ts[k].id == id && (forall j :: 0 <= j < k ==> ts[j].id != id) ==>
              r == if ts[k].title != "" then ts[k].title else "Task"
  {
    TitleOrDefault(FindById(ts, id))
  }

  /** With unique ids the notification names the deleted task, unless its title is empty. */
  lemma DeletedTitleNamesTask(ts: seq<Task>, i: nat)
    requires UniqueIds(ts) && i < |ts|
    ensures DeletedTitle(ts, ts[i].id) == if ts[i].title != "" then ts[i].title else "Task"
  {
    FindByIdAt(ts, i);
  }

  function TitleOrDefault(found: Option<Task>): string {
    match found
    case Some(t) => if t.title != "" then t.title else "Task"
    case None => "Task"
  }

  /** The state of app/hooks/useTasks.ts: the list and what storage holds. */
  class TaskStore {
    var tasks: seq<Task>
    var storage: StorageItem

    /** Whenever the list is non-empty, storage holds exactly that list. */
    ghost predicate Persisted()
      reads this
    {
      |tasks| > 0 ==> storage == Saved(tasks)
    }

    /** Mounting: load from storage (falling back to `[]`), then the save effect runs on the result. */
    constructor Mount(saved: StorageItem)
      ensures tasks == LoadTasks(saved, [])
      ensures storage == SaveEffect(saved, tasks)
      ensures Persisted()
    {
      tasks := LoadTasks(saved, []);
      storage := SaveEffect(saved, LoadTasks(saved, []));
    }

    /** What a page reload would show: the saved list, which is the current one whenever it is non-empty. */
    method Reload() returns (loaded: seq<Task>)
      requires Persisted()
      ensures loaded == LoadTasks(storage, [])
      ensures |tasks| > 0 ==> loaded == tasks
    {
      loaded := LoadTasks(storage, []);
    }

    /** `createTask`: appends a fresh task stamped with the clock reading `now`. */
    method CreateTask(data: TaskData, now: nat)
      modifies this
      ensures tasks == AppendTask(old(tasks), data, now)
      ensures storage == Saved(tasks)
      ensures Persisted()
      ensures UniqueIds(old(tasks)) && MintedBefore(old(tasks), now) ==> UniqueIds(tasks)
    {
      tasks := AppendTask(tasks, data, now);
      storage := SaveEffect(storage, tasks);
      if UniqueIds(old(tasks)) && MintedBefore(old(tasks), now) {
        CreateKeepsIdsUnique(old(tasks), data, now);
      }
    }

    /** `updateTask`: replaces the caller fields of the task with id `taskId`, keeping id and creation stamp. */
    method UpdateTask(data: TaskData, taskId: string, now: Date)
      modifies this
      ensures tasks == UpdateById(old(tasks), data, taskId, now)
      ensures storage == SaveEffect(old(storage), tasks)
      ensures Persisted()
      ensures Ids(tasks) == Ids(old(tasks))
    {
      tasks := UpdateById(tasks, data, taskId, now);
      storage := SaveEffect(storage, tasks);
      UpdateKeepsIds(old(tasks), data, taskId, now, 0);
    }

    /** `deleteTask`: drops every task with id `taskId`; returns the title the notification shows. */
    method DeleteTask(taskId: string) returns (shown: string)
      modifies this
      ensures shown == DeletedTitle(old(tasks), taskId)
      ensures tasks == RemoveById(old(tasks), taskId)
      ensures storage == SaveEffect(old(storage), tasks)
      ensures Persisted()
      ensures UniqueIds(old(tasks)) ==> UniqueIds(tasks)
    {
      shown := DeletedTitle(tasks, taskId);
      tasks := RemoveById(tasks, taskId);
      storage := SaveEffect(storage, tasks);
      RemoveKeepsIds(old(tasks), taskId, 0);
    }

    /** `setTasks`: the board writes a whole new list (after a drag). */
    method SetTasks(ts: seq<Task>)
      modifies this
      ensures tasks == ts
      ensures storage == SaveEffect(old(storage), ts)
      ensures Persisted()
    {
      tasks := ts;
      storage := SaveEffect(storage, ts);
    }
  }

  /** The state of hooks/useTasks.ts: as the app hook, plus a project list in plain state. */
  class LegacyTaskStore {
    var tasks: seq<Task>
    var projects: seq<Project>
    var storage: StorageItem

    ghost predicate Persisted()
      reads this
    {
      |tasks| > 0 ==> storage == Saved(tasks)
    }

    /** Mounting: the three seed projects; tasks from storage, falling back to `defaultTasks`. */
    constructor Mount(saved: StorageItem)
      ensures projects == SeedProjects
      ensures tasks == LoadTasks(saved, DefaultTasks)
      ensures storage == SaveEffect(saved, tasks)
      ensures Persisted()
    {
      projects := SeedProjects;
      tasks := LoadTasks(saved, DefaultTasks);
      storage := SaveEffect(saved, LoadTasks(saved, DefaultTasks));
    }

    method CreateTask(data: TaskData, now: nat)
      modifies this
      ensures tasks == AppendTask(old(tasks), data, now)
      ensures projects == old(projects)
      ensures storage == Saved(tasks)
      ensures Persisted()
    {
      tasks := AppendTask(tasks, data, now);
      storage := SaveEffect(storage, tasks);
    }

    method UpdateTask(data: TaskData, taskId: string, now: Date)
      modifies this
      ensures tasks == UpdateById(old(tasks), data, taskId, now)
      ensures projects == old(projects)
      ensures storage == SaveEffect(old(storage), tasks)
      ensures Persisted()
    {
      tasks := UpdateById(tasks, data, taskId, now);
      storage := SaveEffect(storage, tasks);
    }

    method DeleteTask(taskId: string)
      modifies this
      ensures tasks == RemoveById(old(tasks), taskId)
      ensures projects == old(projects)
      ensures storage == SaveEffect(old(storage), tasks)
      ensures Persisted()
    {
      tasks := RemoveById(tasks, taskId);
      storage := SaveEffect(storage, tasks);
    }

    method SetTasks(ts: seq<Task>)
      modifies this
      ensures tasks == ts && projects == old(projects)
      ensures storage == SaveEffect(old(storage), ts)
      ensures Persisted()
    {
      tasks := ts;
      storage := SaveEffect(storage, ts);
    }

    /** `setProjects`: projects are never persisted. */
    method SetProjects(ps: seq<Project>)
      modifies this
      ensures projects == ps
      ensures tasks == old(tasks) && storage == old(storage)
    {
      projects := ps;
    }
  }
}
