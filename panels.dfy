/**
 * The filter bars: app/components/KanbanFilter.tsx over the five-field
 * record the board filters by, and components/KanbanFilter.tsx over its own
 * record with a start and an end date. Each keeps its record in state and
 * hands every new record to the board (`onFilter`); the records handed over
 * are kept here as a log.
 */
module Panels {

  import opened Types
  import opened Filtering

  /** `keyof FilterState`. */
  datatype Field = Search | ProjectId | Priority | DueDateFrom | DueDateTo

  function Get(f: FilterState, k: Field): string {
    match k
    case Search => f.search
    case ProjectId => f.projectId
    case Priority => f.priority
    case DueDateFrom => f.dueDateFrom
    case DueDateTo => f.dueDateTo
  }

  /** `{ ...f, [k]: v }`: field `k` becomes `v` and every other field keeps its value. */
  function With(f: FilterState, k: Field, v: string): (g: FilterState)
    ensures Get(g, k) == v
    ensures forall k' :: k' != k ==> Get(g, k') == Get(f, k')
  {
    match k
    case Search => f.(search := v)
    case ProjectId => f.(projectId := v)
    case Priority => f.(priority := v)
    case DueDateFrom => f.(dueDateFrom := v)
    case DueDateTo => f.(dueDateTo := v)
  }

  /** A record is determined by its five fields. */
  lemma FieldsDetermineRecord(f: FilterState, g: FilterState)
    requires forall k :: Get(f, k) == Get(g, k)
    ensures f == g
  {
    assert Get(f, Search) == Get(g, Search) && Get(f, ProjectId) == Get(g, ProjectId);
    assert Get(f, Priority) == Get(g, Priority);
    assert Get(f, DueDateFrom) == Get(g, DueDateFrom) && Get(f, DueDateTo) == Get(g, DueDateTo);
  }

  /** Writing back what a field holds changes nothing. */
  lemma WithOwnValue(f: FilterState, k: Field)
    ensures With(f, k, Get(f, k)) == f
  {
    FieldsDetermineRecord(With(f, k, Get(f, k)), f);
  }

  /** Of two writes to the same field, the second wins. */
  lemma WithTwice(f: FilterState, k: Field, v: string, w: string)
    ensures With(With(f, k, v), k, w) == With(f, k, w)
  {
    FieldsDetermineRecord(With(With(f, k, v), k, w), With(f, k, w));
  }

  /** `Object.values(filters).some(value => value !== "")`. */
  function HasActiveFilters(f: FilterState): (r: bool)
    ensures r <==> exists k :: Get(f, k) != ""
  {
    assert f.search == Get(f, Search) && f.projectId == Get(f, ProjectId) && f.priority == Get(f, Priority);
    assert f.dueDateFrom == Get(f, DueDateFrom) && f.dueDateTo == Get(f, DueDateTo);
    f.search != "" || f.projectId != "" || f.priority != "" || f.dueDateFrom != "" || f.dueDateTo != ""
  }

  /** Some field is set exactly when the record differs from the cleared one. */
  lemma ActiveIffNotCleared(f: FilterState)
    ensures HasActiveFilters(f) <==> f != EmptyFilter
  {
    if !HasActiveFilters(f) {
      FieldsDetermineRecord(f, EmptyFilter);
    }
  }

  /** With no field set, the board shows every task. */
  lemma InactiveFilterShowsAll(f: FilterState, tasks: seq<Task>, parse: DateParser)
    requires !HasActiveFilters(f)
    ensures FilterTasks(tasks, f, parse) == tasks
  {
    ActiveIffNotCleared(f);
    EmptyFilterKeepsAll(tasks, parse);
  }

  /** app/components/KanbanFilter.tsx: the record in state and the records handed to the board. */
  class FilterPanel {
    var filters: FilterState
    var emitted: seq<FilterState>

    /** The last record handed to the board is the one in state. */
    ghost predicate Valid()
      reads this
    {
      |emitted| > 0 ==> emitted[|emitted| - 1] == filters
    }

    constructor ()
      ensures filters == EmptyFilter && emitted == []
      ensures !HasActiveFilters(filters)
      ensures Valid()
    {
      filters := EmptyFilter;
      emitted := [];
    }

    /** `handleFilterChange(field, value)`. */
    method HandleFilterChange(k: Field, v: string)
      modifies this
      ensures filters == With(old(filters), k, v)
      ensures emitted == old(emitted) + [filters]
      ensures Valid()
    {
      filters := With(filters, k, v);
      emitted := emitted + [filters];
    }

    /** `clearFilters`. */
    method ClearFilters()
      modifies this
      ensures filters == EmptyFilter
      ensures emitted == old(emitted) + [EmptyFilter]
      ensures !HasActiveFilters(filters)
      ensures Valid()
    {
      filters := EmptyFilter;
      emitted := emitted + [filters];
    }
  }

  // ---------------------------------------------------------------------
  // components/KanbanFilter.tsx

  /** The older bar's record: start and end date strings instead of due-date bounds. */
  datatype LegacyFilterState = LegacyFilterState(
    search: string,
    projectId: string,
    priority: string,
    startDate: string,
    endDate: string)

  const LegacyEmptyFilter: LegacyFilterState := LegacyFilterState("", "", "", "", "")

  datatype LegacyField = LSearch | LProjectId | LPriority | StartDate | EndDate

  function LegacyGet(f: LegacyFilterState, k: LegacyField): string {
    match k
    case LSearch => f.search
    case LProjectId => f.projectId
    case LPriority => f.priority
    case StartDate => f.startDate
    case EndDate => f.endDate
  }

  function LegacyWith(f: LegacyFilterState, k: LegacyField, v: string): (g: LegacyFilterState)
    ensures LegacyGet(g, k) == v
    ensures forall k' :: k' != k ==> LegacyGet(g, k') == LegacyGet(f, k')
  {
    match k
    case LSearch => f.(search := v)
    case LProjectId => f.(projectId := v)
    case LPriority => f.(priority := v)
    case StartDate => f.(startDate := v)
    case EndDate => f.(endDate := v)
  }

  function LegacyHasActiveFilters(f: LegacyFilterState): (r: bool)
    ensures r <==> exists k :: LegacyGet(f, k) != ""
  {
    assert f.search == LegacyGet(f, LSearch) && f.projectId == LegacyGet(f, LProjectId);
    assert f.priority == LegacyGet(f, LPriority);
    assert f.startDate == LegacyGet(f, StartDate) && f.endDate == LegacyGet(f, EndDate);
    f.search != "" || f.projectId != "" || f.priority != "" || f.startDate != "" || f.endDate != ""
  }

  /** Some field is set exactly when the record differs from the cleared one. */
  lemma LegacyActiveIffNotCleared(f: LegacyFilterState)
    ensures LegacyHasActiveFilters(f) <==> f != LegacyEmptyFilter
  {
    if !LegacyHasActiveFilters(f) {
      assert LegacyGet(f, LSearch) == "" && LegacyGet(f, LProjectId) == "" && LegacyGet(f, LPriority) == "";
      assert LegacyGet(f, StartDate) == "" && LegacyGet(f, EndDate) == "";
    }
  }

  /**
   * components/KanbanFilter.tsx: record, date-range toggle, and the records it
   * hands to its `onFilter` callback. The older board mounts the bar without
   * props; the bar is modelled as if it had been given a project list and a
   * callback, whose calls `emitted` logs.
   */
  class LegacyFilterPanel {
    var filters: LegacyFilterState
    var showDateRange: bool
    var emitted: seq<LegacyFilterState>

    constructor ()
      ensures filters == LegacyEmptyFilter && !showDateRange && emitted == []
    {
      filters := LegacyEmptyFilter;
      showDateRange := false;
      emitted := [];
    }

    /**
     * `handleFilterChange(field, value)` as rendered: it spreads `captured`,
     * the record of the render the handler belongs to.
     */
    method ChangeFrom(captured: LegacyFilterState, k: LegacyField, v: string)
      modifies this
      ensures filters == LegacyWith(captured, k, v)
      ensures emitted == old(emitted) + [filters]
      ensures showDateRange == old(showDateRange)
    {
      filters := LegacyWith(captured, k, v);
      emitted := emitted + [filters];
    }

    /** One `handleFilterChange(field, value)` from a fresh render. */
    method HandleFilterChange(k: LegacyField, v: string)
      modifies this
      ensures filters == LegacyWith(old(filters), k, v)
      ensures emitted == old(emitted) + [filters]
      ensures showDateRange == old(showDateRange)
    {
      ChangeFrom(filters, k, v);
    }

    /** `clearFilters`. */
    method ClearFilters()
      modifies this
      ensures filters == LegacyEmptyFilter && emitted == old(emitted) + [LegacyEmptyFilter]
      ensures !LegacyHasActiveFilters(filters)
      ensures showDateRange == old(showDateRange)
    {
      filters := LegacyEmptyFilter;
      emitted := emitted + [filters];
      LegacyActiveIffNotCleared(filters);
    }

    /** The calendar button. */
    method ToggleDateRange()
      modifies this
      ensures showDateRange == !old(showDateRange)
      ensures filters == old(filters) && emitted == old(emitted)
    {
      showDateRange := !showDateRange;
    }

    /**
     * "Clear dates": two changes from the same render, both spreading the
     * record of that render. The second overwrites the first, so only the end
     * date ends up cleared.
     */
    method ClearDates()
      modifies this
      ensures filters == old(filters).(endDate := "")
      ensures emitted == old(emitted) + [old(filters).(startDate := ""), old(filters).(endDate := "")]
      ensures showDateRange == old(showDateRange)
    {
      var captured := filters;
      ChangeFrom(captured, StartDate, "");
      ChangeFrom(captured, EndDate, "");
    }
  }
}
