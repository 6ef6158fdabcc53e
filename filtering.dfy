/**
 * The board's filter engine and column projection
 * (app/components/KanbanBoard.tsx: `filteredTasks`, `getTasksByStatus`,
 * `handleFilterChange`) and the unfiltered projection of
 * components/KanbanBoard.tsx.
 */
module Filtering {

  import opened Types
  import opened Text
  import opened Seqs

  /** The five filter fields; an empty string means "no constraint". */
  datatype FilterState = FilterState(
    search: string,
    projectId: string,
    priority: string,
    dueDateFrom: string,
    dueDateTo: string)

  const EmptyFilter: FilterState := FilterState("", "", "", "", "")

  /** `due < bound` with `bound = new Date(text)`: any comparison with an Invalid Date is false. */
  predicate Before(due: Date, bound: Option<Date>) {
    bound.Some? && due < bound.value
  }

  /** `due > bound`, false against an Invalid Date. */
  predicate After(due: Date, bound: Option<Date>) {
    bound.Some? && due > bound.value
  }

  /** The callback given to `tasks.filter`, with its early returns in source order. */
  predicate Matches(t: Task, f: FilterState, parse: DateParser) {
    if f.search != "" && !Contains(ToLower(t.title), ToLower(f.search)) then false
    else if f.projectId != "" && t.projectId != f.projectId then false
    else if f.priority != "" && PriorityName(t.priority) != f.priority then false
    else if f.dueDateFrom != "" || f.dueDateTo != "" then
      if t.dueDate.None? then false
      else
        var due := t.dueDate.value;
        if f.dueDateFrom != "" && f.dueDateTo != "" then
          !(Before(due, parse(f.dueDateFrom)) || After(due, parse(f.dueDateTo)))
        else if f.dueDateFrom != "" then !Before(due, parse(f.dueDateFrom))
        else !After(due, parse(f.dueDateTo))
    else true
  }

  // The four criteria, each stated on its own.

  /** Case-insensitive substring match of the search text in the title; empty search matches all. */
  ghost predicate SearchCriterion(t: Task, f: FilterState) {
    f.search == "" || exists i: nat :: OccursAt(ToLower(t.title), ToLower(f.search), i)
  }

  predicate ProjectCriterion(t: Task, f: FilterState) {
    f.projectId == "" || t.projectId == f.projectId
  }

  predicate PriorityCriterion(t: Task, f: FilterState) {
    f.priority == "" || PriorityName(t.priority) == f.priority
  }

  /**
   * With no bound set, everything matches. With a bound set, the task needs a
   * due date, and must lie on or after `from` and on or before `to`; a bound
   * whose text does not parse constrains nothing.
   */
  predicate DueDateCriterion(t: Task, f: FilterState, parse: DateParser) {
    (f.dueDateFrom == "" && f.dueDateTo == "")
    || (&& t.dueDate.Some?
        && (f.dueDateFrom == "" || parse(f.dueDateFrom).None? || parse(f.dueDateFrom).value <= t.dueDate.value)
        && (f.dueDateTo == "" || parse(f.dueDateTo).None? || t.dueDate.value <= parse(f.dueDateTo).value))
  }

  /** A task survives the filter exactly when it meets all four criteria. */
  lemma MatchesIffAllCriteria(t: Task, f: FilterState, parse: DateParser)
    ensures Matches(t, f, parse) <==>
              SearchCriterion(t, f) && ProjectCriterion(t, f) && PriorityCriterion(t, f)
              && DueDateCriterion(t, f, parse)
  {
  }

  /**
   * The search ignores case: changing the case of letters in the title or in
   * the search text does not change which tasks match.
   */
  lemma SearchIgnoresCase(t: Task, title: string, f: FilterState, search: string, parse: DateParser)
    requires SameUpToCase(t.title, title) && SameUpToCase(f.search, search)
    ensures Matches(t.(title := title), f.(search := search), parse) == Matches(t, f, parse)
  {
    ToLowerEqualIffSameUpToCase(t.title, title);
    ToLowerEqualIffSameUpToCase(f.search, search);
  }

  /** The filter looks at neither the status nor the stamps of a task. */
  lemma MatchesIgnoresStatusAndStamps(t: Task, s: Status, now: Date, f: FilterState, parse: DateParser)
    ensures Matches(t.(status := s, updatedAt := now), f, parse) == Matches(t, f, parse)
  {
  }

  /** With both bounds parsed, the date criterion is the closed interval `[from, to]` on the due date. */
  lemma DueDateRangeInclusive(t: Task, f: FilterState, parse: DateParser, from: Date, to: Date)
    requires f.search == "" && f.projectId == "" && f.priority == ""
    requires f.dueDateFrom != "" && parse(f.dueDateFrom) == Some(from)
    requires f.dueDateTo != "" && parse(f.dueDateTo) == Some(to)
    ensures Matches(t, f, parse) <==> t.dueDate.Some? && from <= t.dueDate.value <= to
  {
  }

  /** A bound that is set but does not parse still excludes the tasks that have no due date. */
  lemma UnparseableBoundOnlyNeedsDueDate(t: Task, f: FilterState, parse: DateParser)
    requires f.search == "" && f.projectId == "" && f.priority == ""
    requires f.dueDateFrom != "" && parse(f.dueDateFrom).None? && f.dueDateTo == ""
    ensures Matches(t, f, parse) <==> t.dueDate.Some?
  {
  }

  function MatchesFilter(f: FilterState, parse: DateParser): Task -> bool {
    (t: Task) => Matches(t, f, parse)
  }

  /** `filteredTasks`: the tasks that pass the filter, in their original order. */
  function FilterTasks(tasks: seq<Task>, f: FilterState, parse: DateParser): (r: seq<Task>)
    ensures forall t :: t in r ==> t in tasks && Matches(t, f, parse)
    ensures forall t :: t in tasks && Matches(t, f, parse) ==> t in r
    ensures IsSubsequence(r, tasks)
    ensures forall t {:trigger multiset(r)[t]} :: t in tasks ==> multiset(r)[t] == if Matches(t, f, parse) then multiset(tasks)[t] else 0
  {
    FilterIsSubsequence(tasks, MatchesFilter(f, parse));
    forall t | t in tasks
      ensures multiset(Filter(tasks, MatchesFilter(f, parse)))[t] == if Matches(t, f, parse) then multiset(tasks)[t] else 0
    {
      FilterKeepsEveryCopy(tasks, MatchesFilter(f, parse), t);
    }
    Filter(tasks, MatchesFilter(f, parse))
  }

  /** With every field empty the filter lets the whole list through unchanged. */
  lemma EmptyFilterKeepsAll(tasks: seq<Task>, parse: DateParser)
    ensures FilterTasks(tasks, EmptyFilter, parse) == tasks
  {
    FilterKeepsAll(tasks, MatchesFilter(EmptyFilter, parse));
  }

  // ---------------------------------------------------------------------
  // Column projection

  function StatusIs(s: Status): Task -> bool {
    (t: Task) => t.status == s
  }

  /** `getTasksByStatus(s)`: the tasks of `view` with status `s`, in order. */
  function ByStatus(view: seq<Task>, s: Status): (r: seq<Task>)
    ensures forall t :: t in r ==> t in view && t.status == s
    ensures forall t :: t in view && t.status == s ==> t in r
    ensures IsSubsequence(r, view)
    ensures multiset(r) <= multiset(view)
  {
    FilterIsSubsequence(view, StatusIs(s));
    Filter(view, StatusIs(s))
  }

  function StatusIsNot(s: Status): Task -> bool {
    (t: Task) => t.status != s
  }

  /** The tasks whose status is not `s`, in order. */
  function Others(tasks: seq<Task>, s: Status): seq<Task> {
    Filter(tasks, StatusIsNot(s))
  }

  /** A column together with the rest of the list accounts for every task exactly once. */
  lemma ColumnAndOthers(tasks: seq<Task>, s: Status)
    ensures multiset(Others(tasks, s)) + multiset(ByStatus(tasks, s)) == multiset(tasks)
  {
    FilterComplement(tasks, StatusIsNot(s), StatusIs(s));
  }

  /** The tasks of the four columns, counted together. */
  ghost function AllColumns(view: seq<Task>): multiset<Task> {
    multiset(ByStatus(view, Todo)) + multiset(ByStatus(view, InProgress))
    + multiset(ByStatus(view, InReview)) + multiset(ByStatus(view, Done))
  }

  /** A task put in front of the list is counted once more in its own column... */
  lemma ConsOwnColumn(x: Task, rest: seq<Task>)
    ensures multiset(ByStatus([x] + rest, x.status)) == multiset{x} + multiset(ByStatus(rest, x.status))
  {
    ByStatusCons(x, rest, x.status);
  }

  /** ...and leaves every other column as it was. */
  lemma ConsOtherColumn(x: Task, rest: seq<Task>, s: Status)
    requires x.status != s
    ensures ByStatus([x] + rest, s) == ByStatus(rest, s)
  {
    ByStatusCons(x, rest, s);
    assert [] + ByStatus(rest, s) == ByStatus(rest, s);
  }

  /** Adding `m` to any one of four counts adds it to their sum. */
  lemma AddToOneOfFour<T>(m: multiset<T>, a: multiset<T>, b: multiset<T>, c: multiset<T>, d: multiset<T>)
    ensures (m + a) + b + c + d == m + (a + b + c + d)
    ensures a + (m + b) + c + d == m + (a + b + c + d)
    ensures a + b + (m + c) + d == m + (a + b + c + d)
    ensures a + b + c + (m + d) == m + (a + b + c + d)
  {
  }

  /** A task put in front of the list lands in its own column and in no other. */
  lemma AllColumnsCons(x: Task, rest: seq<Task>)
    ensures AllColumns([x] + rest) == multiset{x} + AllColumns(rest)
  {
    var view := [x] + rest;
    var a, b, c, d := multiset(ByStatus(rest, Todo)), multiset(ByStatus(rest, InProgress)),
                      multiset(ByStatus(rest, InReview)), multiset(ByStatus(rest, Done));
    assert AllColumns(rest) == a + b + c + d;
    AddToOneOfFour(multiset{x}, a, b, c, d);
    ConsOwnColumn(x, rest);
    match x.status
    case Todo =>
      ConsOtherColumn(x, rest, InProgress);
      ConsOtherColumn(x, rest, InReview);
      ConsOtherColumn(x, rest, Done);
      assert AllColumns(view) == (multiset{x} + a) + b + c + d;
    case InProgress =>
      ConsOtherColumn(x, rest, Todo);
      ConsOtherColumn(x, rest, InReview);
      ConsOtherColumn(x, rest, Done);
      assert AllColumns(view) == a + (multiset{x} + b) + c + d;
    case InReview =>
      ConsOtherColumn(x, rest, Todo);
      ConsOtherColumn(x, rest, InProgress);
      ConsOtherColumn(x, rest, Done);
      assert AllColumns(view) == a + b + (multiset{x} + c) + d;
    case Done =>
      ConsOtherColumn(x, rest, Todo);
      ConsOtherColumn(x, rest, InProgress);
      ConsOtherColumn(x, rest, InReview);
      assert AllColumns(view) == a + b + c + (multiset{x} + d);
  }

  /** The four columns partition the list: every task lands in exactly one, with nothing lost or repeated. */
  lemma {:induction false} ColumnsPartition(view: seq<Task>)
    ensures multiset(view) == multiset(ByStatus(view, Todo)) + multiset(ByStatus(view, InProgress))
                              + multiset(ByStatus(view, InReview)) + multiset(ByStatus(view, Done))
    decreases |view|
  {
    if view != [] {
      var x, rest := view[0], view[1..];
      ColumnsPartition(rest);
      assert view == [x] + rest;
      AllColumnsCons(x, rest);
      assert multiset(view) == multiset{x} + multiset(rest);
    }
  }

  /** The column badges add up to the number of tasks on the board. */
  lemma ColumnsCount(view: seq<Task>)
    ensures |view| == |ByStatus(view, Todo)| + |ByStatus(view, InProgress)|
                      + |ByStatus(view, InReview)| + |ByStatus(view, Done)|
  {
    ColumnsPartition(view);
    var a, b, c, d := ByStatus(view, Todo), ByStatus(view, InProgress), ByStatus(view, InReview), ByStatus(view, Done);
    assert |multiset(view)| == |multiset(a)| + |multiset(b)| + |multiset(c)| + |multiset(d)|;
  }

  lemma ByStatusCons(x: Task, rest: seq<Task>, s: Status)
    ensures ByStatus([x] + rest, s) == (if x.status == s then [x] else []) + ByStatus(rest, s)
  {
    assert ([x] + rest)[1..] == rest;
  }

  /** Same-status tasks commute with the filter: projecting the filtered list is filtering the projection. */
  lemma ByStatusOfFiltered(tasks: seq<Task>, f: FilterState, parse: DateParser, s: Status)
    ensures ByStatus(FilterTasks(tasks, f, parse), s) == Filter(ByStatus(tasks, s), MatchesFilter(f, parse))
  {
    FilterCommute(tasks, MatchesFilter(f, parse), StatusIs(s));
  }

  // ---------------------------------------------------------------------
  // handleFilterChange (app/components/KanbanBoard.tsx)

  /** `Partial<FilterState>`: any field may be missing. */
  datatype PartialFilter = PartialFilter(
    search: Option<string>,
    projectId: Option<string>,
    priority: Option<string>,
    dueDateFrom: Option<string>,
    dueDateTo: Option<string>)

  /**
   * `value || ""` and `value ?? ""` coincide on strings: a missing field becomes
   * "" and a present one (possibly "") is kept.
   */
  function Normalize(p: PartialFilter): (f: FilterState)
    ensures f.search == (if p.search.Some? then p.search.value else "")
    ensures f.projectId == (if p.projectId.Some? then p.projectId.value else "")
    ensures f.priority == (if p.priority.Some? then p.priority.value else "")
    ensures f.dueDateFrom == (if p.dueDateFrom.Some? then p.dueDateFrom.value else "")
    ensures f.dueDateTo == (if p.dueDateTo.Some? then p.dueDateTo.value else "")
  {
    FilterState(p.search.GetOr(""), p.projectId.GetOr(""), p.priority.GetOr(""),
                p.dueDateFrom.GetOr(""), p.dueDateTo.GetOr(""))
  }

  /** A field the partial record leaves out constrains nothing once normalised. */
  lemma OmittedFieldsConstrainNothing(p: PartialFilter, t: Task, parse: DateParser)
    ensures p.search.None? ==> SearchCriterion(t, Normalize(p))
    ensures p.projectId.None? ==> ProjectCriterion(t, Normalize(p))
    ensures p.priority.None? ==> PriorityCriterion(t, Normalize(p))
    ensures p.dueDateFrom.None? && p.dueDateTo.None? ==> DueDateCriterion(t, Normalize(p), parse)
    ensures p == PartialFilter(None, None, None, None, None) ==> Normalize(p) == EmptyFilter
  {
  }

  function Whole(f: FilterState): PartialFilter {
    PartialFilter(Some(f.search), Some(f.projectId), Some(f.priority), Some(f.dueDateFrom), Some(f.dueDateTo))
  }

  /** A complete record, as the filter panel sends it, comes through normalisation unchanged. */
  lemma NormalizeWhole(f: FilterState)
    ensures Normalize(Whole(f)) == f
  {
  }
}
