/**
 * A task card: app/components/TaskBox.tsx and the older
 * components/TaskBox.tsx. A card shows the priority badge, the due and start
 * dates, and marks an overdue task; its menu (app) or a click on it (older
 * card) hands the task back to the board.
 *
 * `toLocaleDateString` is the parameter `locale`; the clock reading
 * `new Date()` is the parameter `now`.
 */
module TaskCards {

  import opened Types
  import opened TaskList

  /** `getPriorityColor`, a `switch` over the priority literal; both cards use the same table. */
  function PriorityColour(name: string): string {
    if name == "URGENT" then "red"
    else if name == "HIGH" then "orange"
    else if name == "MEDIUM" then "yellow"
    else if name == "LOW" then "green"
    else "gray"
  }

  /** Each priority has its own colour, and none of them falls through to the gray default. */
  lemma PriorityColoursDistinct(p: Priority, q: Priority)
    ensures PriorityColour(PriorityName(p)) != "gray"
    ensures PriorityColour(PriorityName(p)) == PriorityColour(PriorityName(q)) <==> p == q
  {
  }

  /** `formatDate`: "Not set" for an absent date, else the localised date. */
  function FormatDate(d: Option<Date>, locale: Date -> string): string {
    match d
    case None => "Not set"
    case Some(v) => locale(v)
  }

  /** When no date formats as "Not set", the text says "Not set" exactly when the date is absent. */
  lemma NotSetIffAbsent(d: Option<Date>, locale: Date -> string)
    requires forall v :: locale(v) != "Not set"
    ensures FormatDate(d, locale) == "Not set" <==> d.None?
  {
  }

  /** `isTaskOverdue`: there is a due date and it is strictly before now. */
  predicate IsOverdue(t: Task, now: Date) {
    match t.dueDate
    case None => false
    case Some(due) => due < now
  }

  /** Once overdue, a task stays overdue as the clock moves on (until its due date is edited). */
  lemma OverdueStaysOverdue(t: Task, now: Date, later: Date)
    requires now <= later && IsOverdue(t, now)
    ensures IsOverdue(t, later)
  {
  }

  /** A task due exactly now is not yet overdue; one due a millisecond earlier is. */
  lemma OverdueBoundary(t: Task, now: Date)
    requires t.dueDate == Some(now)
    ensures !IsOverdue(t, now) && IsOverdue(t, now + 1)
  {
  }

  /** The app card's due-date colour. */
  function DueColour(t: Task, now: Date): (c: string)
    ensures c == "red.500" <==> IsOverdue(t, now)
    ensures c == "red.500" || c == "gray.500"
  {
    if IsOverdue(t, now) then "red.500" else "gray.500"
  }

  /** The older card's due-date colour: `task.dueDate && new Date(task.dueDate) < new Date()`. */
  function LegacyDueColour(t: Task, now: Date): (c: string)
    ensures c == "red.500" <==> (t.dueDate.Some? && t.dueDate.value < now)
    ensures c == "red.500" || c == "inherit"
  {
    if t.dueDate.Some? && t.dueDate.value < now then "red.500" else "inherit"
  }

  /**
   * A card's due date turns red exactly once: it is gray up to and including
   * the due moment, red one millisecond later, and stays red; without a due
   * date it never turns red.
   */
  lemma DueColourTurnsRed(t: Task, now: Date, later: Date)
    ensures t.dueDate.Some? ==> DueColour(t, t.dueDate.value) == "gray.500"
                                && DueColour(t, t.dueDate.value + 1) == "red.500"
    ensures now <= later && DueColour(t, now) == "red.500" ==> DueColour(t, later) == "red.500"
    ensures t.dueDate.None? ==> DueColour(t, now) == "gray.500"
  {
  }

  /** Both cards mark the same tasks red. */
  lemma DueColoursAgree(t: Task, now: Date)
    ensures DueColour(t, now) == "red.500" <==> LegacyDueColour(t, now) == "red.500"
  {
  }

  /** What a card asks of the board. */
  datatype CardAction = EditTask(task: Task) | DeleteTask(id: string)

  datatype MenuItem = EditItem | DeleteItem

  /** The app card's menu: "Edit" hands over the task, "Delete" its id. */
  function MenuAction(t: Task, item: MenuItem): (a: CardAction)
    ensures item == EditItem ==> a == EditTask(t)
    ensures item == DeleteItem ==> a == DeleteTask(t.id)
  {
    match item
    case EditItem => EditTask(t)
    case DeleteItem => DeleteTask(t.id)
  }

  /** The older card: a click anywhere hands over the task. */
  function LegacyClick(t: Task): (a: CardAction)
    ensures a.EditTask? && a.task == t
  {
    EditTask(t)
  }

  /**
   * "Edit" on the card of the task at position `i`, then saving the form,
   * updates exactly that task when ids are unique.
   */
  lemma EditFromCardUpdatesThatTask(ts: seq<Task>, i: nat, data: TaskData, now: Date)
    requires UniqueIds(ts) && i < |ts|
    ensures var a := MenuAction(ts[i], EditItem);
            a.EditTask? && UpdateById(ts, data, a.task.id, now)
                           == ts[..i] + [Stamp(data, ts[i].id, ts[i].createdAt, now)] + ts[i + 1..]
  {
    UpdateByIdAt(ts, i, data, now);
  }

  /**
   * A click on the older card of the task at position `i`, then saving the
   * form, replaces exactly that task when ids are unique.
   */
  lemma LegacyClickEditsThatTask(ts: seq<Task>, i: nat, replacement: Task)
    requires UniqueIds(ts) && i < |ts|
    ensures var a := LegacyClick(ts[i]);
            a.EditTask? && ReplaceById(ts, a.task.id, replacement) == ts[..i] + [replacement] + ts[i + 1..]
  {
    ReplaceByIdAt(ts, i, replacement);
  }

  /**
   * "Delete" on the card of the task at position `i` of a list with unique
   * ids removes exactly that task and keeps the others in order.
   */
  lemma DeleteFromCardRemovesThatTask(ts: seq<Task>, i: nat)
    requires UniqueIds(ts) && i < |ts|
    ensures var a := MenuAction(ts[i], DeleteItem);
            a.DeleteTask? && RemoveById(ts, a.id) == ts[..i] + ts[i + 1..]
  {
    RemoveByIdAt(ts, i);
  }
}
