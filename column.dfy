/**
 * A board column: app/components/KanbanColumn.tsx and the older
 * components/KanbanColumn.tsx. Each column shows a header for its status,
 * one card per task it is given (with the task's project looked up by id),
 * and a message when it has no tasks. The older column also shows a count.
 */
module Columns {

  import opened Types
  import opened Text
  import opened Filtering
  import opened Reorder
  import Store

  // ---------------------------------------------------------------------
  // Status colours

  /** `getStatusColor` of the app column, a `switch` over the status literal. */
  function StatusAccent(name: string): string {
    if name == "TODO" then "gray.500"
    else if name == "IN_PROGRESS" then "blue.500"
    else if name == "IN_REVIEW" then "purple.500"
    else if name == "DONE" then "green.500"
    else "gray.500"
  }

  /** `getStatusColor` of the older column: colour schemes without a shade. */
  function StatusScheme(name: string): string {
    if name == "TODO" then "gray"
    else if name == "IN_PROGRESS" then "blue"
    else if name == "IN_REVIEW" then "purple"
    else if name == "DONE" then "green"
    else "gray"
  }

  /** The app's colours are the older schemes at shade 500, for every status. */
  lemma AccentIsSchemeShade500(s: Status)
    ensures StatusAccent(StatusName(s)) == StatusScheme(StatusName(s)) + ".500"
  {
  }

  /** Every status gets its own colour in both columns; only the unreachable default repeats TODO's. */
  lemma StatusColoursDistinct(s: Status, u: Status)
    ensures StatusAccent(StatusName(s)) == StatusAccent(StatusName(u)) <==> s == u
    ensures StatusScheme(StatusName(s)) == StatusScheme(StatusName(u)) <==> s == u
  {
  }

  // ---------------------------------------------------------------------
  // Project lookup

  /** The object `getProjectById` builds when no project has the id; `createdAt` is `new Date()`. */
  function UnknownProject(id: string, now: Date): Project {
    Project(id, "Unknown Project", None, now)
  }

  /**
   * `getProjectById`: the first project with the id, otherwise the
   * placeholder. Either way the result carries the id asked for.
   */
  function FindProject(ps: seq<Project>, id: string, now: Date): (p: Project)
    ensures p.id == id
    ensures (exists i :: 0 <= i < |ps| && ps[i].id == id) ==>
              exists i :: 0 <= i < |ps| && ps[i] == p && forall j :: 0 <= j < i ==> ps[j].id != id
    ensures (forall i :: 0 <= i < |ps| ==> ps[i].id != id) ==> p == UnknownProject(id, now)
    decreases |ps|
  {
    if ps == [] then UnknownProject(id, now)
    else if ps[0].id == id then ps[0]
    else
      var p := FindProject(ps[1..], id, now);
      FoundInTail(ps, id);
      FirstInTail(ps, id, p);
      AbsentFromTail(ps, id);
      p
  }

  /** When the head does not have the id, a project with the id is in the tail. */
  lemma FoundInTail(ps: seq<Project>, id: string)
    requires ps != [] && ps[0].id != id
    ensures (exists i :: 0 <= i < |ps| && ps[i].id == id) ==> exists i :: 0 <= i < |ps[1..]| && ps[1..][i].id == id
  {
    if exists i :: 0 <= i < |ps| && ps[i].id == id {
      var i :| 0 <= i < |ps| && ps[i].id == id;
      assert ps[1..][i - 1].id == id;
    }
  }

  /** When the head does not have the id, the first match in the tail is the first match overall. */
  lemma FirstInTail(ps: seq<Project>, id: string, p: Project)
    requires ps != [] && ps[0].id != id
    ensures (exists i :: 0 <= i < |ps[1..]| && ps[1..][i] == p && forall j :: 0 <= j < i ==> ps[1..][j].id != id) ==>
              exists i :: 0 <= i < |ps| && ps[i] == p && forall j :: 0 <= j < i ==> ps[j].id != id
  {
    if exists i :: 0 <= i < |ps[1..]| && ps[1..][i] == p && forall j :: 0 <= j < i ==> ps[1..][j].id != id {
      var k :| 0 <= k < |ps[1..]| && ps[1..][k] == p && forall j :: 0 <= j < k ==> ps[1..][j].id != id;
      assert ps[k + 1] == p;
      forall j | 0 <= j < k + 1 ensures ps[j].id != id {
        if j > 0 { assert ps[j] == ps[1..][j - 1]; }
      }
    }
  }

  /** No project with the id in the list means none in its tail. */
  lemma AbsentFromTail(ps: seq<Project>, id: string)
    requires ps != []
    ensures (forall i :: 0 <= i < |ps| ==> ps[i].id != id) ==> forall i :: 0 <= i < |ps[1..]| ==> ps[1..][i].id != id
  {
    if forall i :: 0 <= i < |ps| ==> ps[i].id != id {
      forall i | 0 <= i < |ps[1..]| ensures ps[1..][i].id != id {
        assert ps[1..][i] == ps[i + 1];
      }
    }
  }

  /** The projects of app/utils/constant.ts, the only ones the app column knows. */
  const AppProjects: seq<Project> := [
    Project("1", "Self-Service Portal", Some("Complete redesign of company self-service portal"), 1758326400000),
    Project("2", "Online Shopping Portal", Some("New online shopping portal development"), 1758672000000),
    Project("3", "HRMS Portal", Some("New HRMS portal development"), 1758931200000)
  ]

  /** The app's constant list is the list the older hook seeds its project state with. */
  lemma AppProjectsAreHookSeed()
    ensures AppProjects == Store.SeedProjects
  {
  }

  /** In the app, each of the three ids finds its project and any other id the placeholder. */
  lemma AppProjectLookup(id: string, now: Date)
    ensures id == "1" ==> FindProject(AppProjects, id, now) == AppProjects[0]
    ensures id == "2" ==> FindProject(AppProjects, id, now) == AppProjects[1]
    ensures id == "3" ==> FindProject(AppProjects, id, now) == AppProjects[2]
    ensures id != "1" && id != "2" && id != "3" ==> FindProject(AppProjects, id, now) == UnknownProject(id, now)
  {
  }

  // ---------------------------------------------------------------------
  // Header

  /** `status.replace("_", " ")`: only the first underscore becomes a space. */
  function HeaderLabel(s: Status): (h: string)
    ensures |h| == |StatusName(s)|
  {
    ReplaceFirst(StatusName(s), '_', ' ')
  }

  /** A literal whose first underscore is its third character gets a space there. */
  lemma ReplaceThirdUnderscore(s: string)
    requires |s| > 2 && s[0] != '_' && s[1] != '_' && s[2] == '_'
    ensures ReplaceFirst(s, '_', ' ') == s[2 := ' ']
  {
    assert IndexOf(s, '_') == Some(2);
  }

  /** A literal with no underscore is shown as it is. */
  lemma NoUnderscoreUnchanged(s: string)
    requires forall i :: 0 <= i < |s| ==> s[i] != '_'
    ensures ReplaceFirst(s, '_', ' ') == s
  {
  }

  /** The two literals with an underscore have it third. */
  lemma HeaderOfTwoWordStatus(s: Status)
    requires s == InProgress || s == InReview
    ensures HeaderLabel(s) == StatusName(s)[2 := ' ']
  {
    ReplaceThirdUnderscore(StatusName(s));
  }

  /** The two literals without an underscore are shown as they are. */
  lemma HeaderOfOneWordStatus(s: Status)
    requires s == Todo || s == Done
    ensures HeaderLabel(s) == StatusName(s)
  {
    NoUnderscoreUnchanged(StatusName(s));
  }

  /** The two-word literals with their underscore turned into a space. */
  lemma InProgressSpelled()
    ensures StatusName(InProgress)[2 := ' '] == "IN PROGRESS"
  {
  }

  lemma InReviewSpelled()
    ensures StatusName(InReview)[2 := ' '] == "IN REVIEW"
  {
  }

  /** The four headers: only the underscore of the two-word statuses becomes a space. */
  lemma HeaderLabels(s: Status)
    ensures HeaderLabel(s) == match s
      case Todo => "TODO"
      case InProgress => "IN PROGRESS"
      case InReview => "IN REVIEW"
      case Done => "DONE"
  {
    match s
    case Todo => HeaderOfOneWordStatus(s);
    case InProgress => HeaderOfTwoWordStatus(s); InProgressSpelled();
    case InReview => HeaderOfTwoWordStatus(s); InReviewSpelled();
    case Done => HeaderOfOneWordStatus(s);
  }

  // ---------------------------------------------------------------------
  // Cards

  /** The props each card is rendered with (the app's cards also carry their drag index). */
  datatype Card = Card(task: Task, project: Project, index: nat)

  /** `tasks.map((task, index) => <TaskBox ... index={index} />)`, from position `start` on. */
  function CardsFrom(tasks: seq<Task>, ps: seq<Project>, start: nat, now: Date): (cards: seq<Card>)
    ensures |cards| == |tasks|
    ensures forall i :: 0 <= i < |tasks| ==>
              cards[i].task == tasks[i] && cards[i].index == start + i
              && cards[i].project == FindProject(ps, tasks[i].projectId, now)
    decreases |tasks|
  {
    if tasks == [] then []
    else [Card(tasks[0], FindProject(ps, tasks[0].projectId, now), start)] + CardsFrom(tasks[1..], ps, start + 1, now)
  }

  /** What a column shows below its header. */
  datatype ColumnBody = Message(text: string) | Cards(cards: seq<Card>)

  datatype ColumnView = ColumnView(colour: string, header: string, body: ColumnBody)

  /** The app column: accent colour, header, and the message or the cards in order. */
  function AppColumn(s: Status, tasks: seq<Task>, draggingOver: bool, now: Date): (v: ColumnView)
    ensures v.colour == StatusAccent(StatusName(s)) && v.header == HeaderLabel(s)
    ensures tasks == [] ==> v.body == Message(if draggingOver then "Drop task here" else "No tasks in this column")
    ensures tasks != [] ==> v.body == Cards(CardsFrom(tasks, AppProjects, 0, now))
  {
    ColumnView(StatusAccent(StatusName(s)), HeaderLabel(s),
               if tasks == [] then Message(if draggingOver then "Drop task here" else "No tasks in this column")
               else Cards(CardsFrom(tasks, AppProjects, 0, now)))
  }

  /** The tasks on a column's cards, in order; none while it shows its message. */
  function ShownTasks(body: ColumnBody): seq<Task> {
    match body
    case Message(_) => []
    case Cards(cards) => seq(|cards|, i requires 0 <= i < |cards| => cards[i].task)
  }

  /** An app column shows exactly the tasks it is given, in order, and its message only when there are none. */
  lemma AppColumnShowsItsTasks(s: Status, tasks: seq<Task>, draggingOver: bool, now: Date)
    ensures ShownTasks(AppColumn(s, tasks, draggingOver, now).body) == tasks
    ensures AppColumn(s, tasks, draggingOver, now).body.Message? <==> tasks == []
  {
  }

  /** Every task that passes the filter is on exactly one card of the board's four columns. */
  lemma BoardShowsEachTaskOnce(view: seq<Task>, draggingOver: Status -> bool, now: Date)
    ensures multiset(view)
            == multiset(ShownTasks(AppColumn(Todo, ByStatus(view, Todo), draggingOver(Todo), now).body))
               + multiset(ShownTasks(AppColumn(InProgress, ByStatus(view, InProgress), draggingOver(InProgress), now).body))
               + multiset(ShownTasks(AppColumn(InReview, ByStatus(view, InReview), draggingOver(InReview), now).body))
               + multiset(ShownTasks(AppColumn(Done, ByStatus(view, Done), draggingOver(Done), now).body))
  {
    AppColumnShowsItsTasks(Todo, ByStatus(view, Todo), draggingOver(Todo), now);
    AppColumnShowsItsTasks(InProgress, ByStatus(view, InProgress), draggingOver(InProgress), now);
    AppColumnShowsItsTasks(InReview, ByStatus(view, InReview), draggingOver(InReview), now);
    AppColumnShowsItsTasks(Done, ByStatus(view, Done), draggingOver(Done), now);
    ColumnsPartition(view);
  }

  /**
   * A drag that starts on card `i` of a column of the board reports that
   * column, that index and that card's task id, and so meets what the drop
   * handler relies on.
   */
  lemma DragFromCardIsConsistent(view: seq<Task>, s: Status, i: nat, dest: Option<Location>, now: Date)
    requires i < |ByStatus(view, s)|
    ensures var card := CardsFrom(ByStatus(view, s), AppProjects, 0, now)[i];
            DropConsistent(view, DropResult(card.task.id, Location(s, card.index), dest))
  {
  }

  /** The older column: scheme colour, header, count badge, and the message or the cards. */
  datatype LegacyColumnView = LegacyColumnView(scheme: string, header: string, badge: nat, body: ColumnBody)

  function LegacyColumn(s: Status, tasks: seq<Task>, ps: seq<Project>, now: Date): (v: LegacyColumnView)
    ensures v.scheme == StatusScheme(StatusName(s)) && v.header == HeaderLabel(s)
    ensures v.badge == |tasks|
    ensures tasks == [] <==> v.body.Message?
    ensures v.body.Message? ==> v.body.text == "No tasks in this column"
    ensures v.body.Cards? ==> |v.body.cards| == |tasks| && forall i :: 0 <= i < |tasks| ==>
              v.body.cards[i].task == tasks[i] && v.body.cards[i].project == FindProject(ps, tasks[i].projectId, now)
  {
    LegacyColumnView(StatusScheme(StatusName(s)), HeaderLabel(s), |tasks|,
                     if tasks == [] then Message("No tasks in this column") else Cards(CardsFrom(tasks, ps, 0, now)))
  }

  /** The four badges of the older board add up to the number of tasks. */
  lemma BadgesAddUp(tasks: seq<Task>, ps: seq<Project>, now: Date)
    ensures LegacyColumn(Todo, ByStatus(tasks, Todo), ps, now).badge
            + LegacyColumn(InProgress, ByStatus(tasks, InProgress), ps, now).badge
            + LegacyColumn(InReview, ByStatus(tasks, InReview), ps, now).badge
            + LegacyColumn(Done, ByStatus(tasks, Done), ps, now).badge == |tasks|
  {
    ColumnsCount(tasks);
  }
}
