/**
 * The data model of the Kanban board (types/index.ts).
 *
 * Dates are integers: milliseconds since the Unix epoch, which is what a
 * JavaScript `Date` holds. Optional fields (`description?`, `dueDate?`,
 * `startDate?`) are `Option`s.
 */
module Types {

  datatype Option<+T> = None | Some(value: T) {
    /** `x ?? d` / `x || d` for a present-or-absent value. */
    function GetOr(default: T): T {
      match this
      case Some(v) => v
      case None => default
    }
  }

  /** Milliseconds since the epoch, as held by a JavaScript `Date`. */
  type Date = int

  /** `new Date(text)`: `None` stands for an Invalid Date. */
  type DateParser = string -> Option<Date>

  /** TaskPriority: "LOW" | "MEDIUM" | "HIGH" | "URGENT". */
  datatype Priority = Low | Medium | High | Urgent

  /** TaskStatus: "TODO" | "IN_PROGRESS" | "IN_REVIEW" | "DONE". */
  datatype Status = Todo | InProgress | InReview | Done

  /** The four statuses in board order; also the four column ids. */
  const AllStatuses: seq<Status> := [Todo, InProgress, InReview, Done]

  datatype Project = Project(
    id: string,
    name: string,
    description: Option<string>,
    createdAt: Date)

  datatype Task = Task(
    id: string,
    projectId: string,
    title: string,
    description: Option<string>,
    priority: Priority,
    status: Status,
    dueDate: Option<Date>,
    startDate: Option<Date>,
    createdAt: Date,
    updatedAt: Date)

  /** `Omit<Task, "id" | "createdAt" | "updatedAt">`: what forms and callers supply. */
  datatype TaskData = TaskData(
    projectId: string,
    title: string,
    description: Option<string>,
    priority: Priority,
    status: Status,
    dueDate: Option<Date>,
    startDate: Option<Date>)

  /** The string literal the source uses for a priority. */
  function PriorityName(p: Priority): string {
    match p
    case Low => "LOW"
    case Medium => "MEDIUM"
    case High => "HIGH"
    case Urgent => "URGENT"
  }

  /** The string literal the source uses for a status (also the column's droppable id). */
  function StatusName(s: Status): string {
    match s
    case Todo => "TODO"
    case InProgress => "IN_PROGRESS"
    case InReview => "IN_REVIEW"
    case Done => "DONE"
  }

  /** The caller-supplied part of a task. */
  function DataOf(t: Task): TaskData {
    TaskData(t.projectId, t.title, t.description, t.priority, t.status, t.dueDate, t.startDate)
  }

  /** `{ ...data, id, createdAt, updatedAt }`. */
  function Stamp(data: TaskData, id: string, createdAt: Date, updatedAt: Date): (t: Task)
    ensures DataOf(t) == data
    ensures t.id == id && t.createdAt == createdAt && t.updatedAt == updatedAt
  {
    Task(id, data.projectId, data.title, data.description, data.priority, data.status,
         data.dueDate, data.startDate, createdAt, updatedAt)
  }

  /** A task is its data plus its three stamps: nothing else is stored. */
  lemma StampOfDataOf(t: Task)
    ensures Stamp(DataOf(t), t.id, t.createdAt, t.updatedAt) == t
  {
  }

  /** TaskStatus has exactly four values, listed once each in `AllStatuses`. */
  lemma StatusesEnumerated(s: Status)
    ensures s in AllStatuses
    ensures |AllStatuses| == 4
    ensures forall i, j :: 0 <= i < j < |AllStatuses| ==> AllStatuses[i] != AllStatuses[j]
  {
  }

  /** Distinct priorities have distinct literals, so comparing literals compares priorities. */
  lemma PriorityNameInjective(p: Priority, q: Priority)
    ensures PriorityName(p) == PriorityName(q) <==> p == q
  {
  }

  /** Distinct statuses have distinct literals (and hence distinct column ids). */
  lemma StatusNameInjective(s: Status, u: Status)
    ensures StatusName(s) == StatusName(u) <==> s == u
  {
  }
}
