/**
 * The list rebuild behind `handleDragEnd` (app/components/KanbanBoard.tsx).
 *
 * A drop names the dragged task's id, its source column and index, and the
 * destination column and index. Indices are positions in the columns the
 * user sees, which are projections of the filtered list `view`; the rebuilt
 * list starts from the full list `tasks`.
 */
module Reorder {

  import opened Types
  import opened Seqs
  import opened TaskList
  import opened Filtering

  /** A column id and a position in that column. */
  datatype Location = Location(droppableId: Status, index: nat)

  /** The fields of a drop result the board reads. */
  datatype DropResult = DropResult(draggableId: string, source: Location, destination: Option<Location>)

  /**
   * The dragged task taken out at `i` and put back at `j` (`splice(i, 1)` then
   * `splice(j, 0, removed)`): it lands at the clamped index, and taking it out
   * there again leaves the other tasks in their original order.
   */
  function Reordered(c: seq<Task>, i: nat, j: nat): (r: seq<Task>)
    requires i < |c|
    ensures |r| == |c|
    ensures r[Clamp(j, |c| - 1)] == c[i]
    ensures RemoveAt(r, Clamp(j, |c| - 1)) == RemoveAt(c, i)
    ensures multiset(r) == multiset(c)
  {
    RemoveUndoesInsert(RemoveAt(c, i), j, c[i]);
    InsertAt(RemoveAt(c, i), j, c[i])
  }

  /** Dropping a task back where it came from leaves the column as it was. */
  lemma ReorderedInPlace(c: seq<Task>, i: nat)
    requires i < |c|
    ensures Reordered(c, i, i) == c
  {
    InsertUndoesRemove(c, i);
  }

  /** Dragging the task back from where it landed to where it started undoes the move. */
  lemma ReorderedUndo(c: seq<Task>, i: nat, j: nat)
    requires i < |c|
    ensures Reordered(Reordered(c, i, j), Clamp(j, |c| - 1), i) == c
  {
    var r := Reordered(c, i, j);
    var k := Clamp(j, |c| - 1);
    RemoveUndoesInsert(RemoveAt(c, i), j, c[i]);
    assert RemoveAt(r, k) == RemoveAt(c, i);
    InsertUndoesRemove(c, i);
  }

  /** The drop changes something: there is a destination, it differs from the source, and the id is in the source column. */
  predicate Moves(view: seq<Task>, r: DropResult) {
    && r.destination.Some?
    && r.destination.value != r.source
    && FindById(ByStatus(view, r.source.droppableId), r.draggableId).Some?
  }

  /**
   * What the handler needs of a same-column move: the index it splices out
   * exists (otherwise `removed` is undefined and is put into the column).
   */
  predicate SourceIndexInRange(view: seq<Task>, r: DropResult) {
    Moves(view, r) && r.destination.value.droppableId == r.source.droppableId
    ==> r.source.index < |ByStatus(view, r.source.droppableId)|
  }

  /** What the drag library delivers: `source.index` is the position of the dragged task in its column. */
  predicate DropConsistent(view: seq<Task>, r: DropResult) {
    && r.source.index < |ByStatus(view, r.source.droppableId)|
    && ByStatus(view, r.source.droppableId)[r.source.index].id == r.draggableId
  }

  function StatusIsNeither(s: Status, d: Status): Task -> bool {
    (t: Task) => t.status != s && t.status != d
  }

  /** The dragged task as it lands in another column. */
  function Moved(t: Task, d: Status, now: Date): (m: Task)
    ensures m.status == d && m.updatedAt == now
    ensures m.(status := t.status, updatedAt := t.updatedAt) == t
  {
    t.(status := d, updatedAt := now)
  }

  /** The task found by id in the source column. */
  function Dragged(view: seq<Task>, r: DropResult): Task
    requires Moves(view, r)
  {
    FindById(ByStatus(view, r.source.droppableId), r.draggableId).value
  }

  /**
   * The list `handleDragEnd` commits through `setTasks`, or `None` when it
   * returns without committing.
   */
  function DragEnd(tasks: seq<Task>, view: seq<Task>, r: DropResult, now: Date): (res: Option<seq<Task>>)
    requires SourceIndexInRange(view, r)
    ensures res.Some? <==> Moves(view, r)
  {
    if !Moves(view, r) then None
    else
      var s, d := r.source.droppableId, r.destination.value.droppableId;
      var src := ByStatus(view, s);
      if s == d then
        Some(Others(tasks, s) + Reordered(src, r.source.index, r.destination.value.index))
      else
        Some(Filter(tasks, StatusIsNeither(s, d))
             + RemoveAt(src, r.source.index)
             + InsertAt(ByStatus(view, d), r.destination.value.index, Moved(Dragged(view, r), d, now)))
  }

  /** The committed list of a same-column move, spelled out. */
  lemma DragEndSameColumn(tasks: seq<Task>, view: seq<Task>, r: DropResult, now: Date)
    requires SourceIndexInRange(view, r) && Moves(view, r)
    requires r.destination.value.droppableId == r.source.droppableId
    ensures var src := ByStatus(view, r.source.droppableId);
            DragEnd(tasks, view, r, now)
            == Some(Others(tasks, r.source.droppableId)
                    + InsertAt(RemoveAt(src, r.source.index), r.destination.value.index, src[r.source.index]))
  {
  }

  /** The committed list of a cross-column move, spelled out. */
  lemma DragEndCrossColumn(tasks: seq<Task>, view: seq<Task>, r: DropResult, now: Date)
    requires Moves(view, r)
    requires r.destination.value.droppableId != r.source.droppableId
    ensures var s, d := r.source.droppableId, r.destination.value.droppableId;
            DragEnd(tasks, view, r, now)
            == Some(Filter(tasks, StatusIsNeither(s, d))
                    + RemoveAt(ByStatus(view, s), r.source.index)
                    + InsertAt(ByStatus(view, d), r.destination.value.index,
                               FindById(ByStatus(view, s), r.draggableId).value.(status := d, updatedAt := now)))
  {
  }

  // ---------------------------------------------------------------------
  // Column-level effect of a drop

  lemma StatusOfReordered(c: seq<Task>, i: nat, j: nat, s: Status)
    requires i < |c| && forall t :: t in c ==> t.status == s
    ensures forall t :: t in Reordered(c, i, j) ==> t.status == s
  {
    var r := Reordered(c, i, j);
    forall t | t in r ensures t.status == s {
      assert t in multiset(r);
    }
  }

  /**
   * A same-column move: that column becomes the visible column with the
   * element at the source index moved to the destination index, and every
   * other column is exactly as in the full list.
   */
  lemma SameColumnDrag(tasks: seq<Task>, view: seq<Task>, r: DropResult, now: Date, u: Status)
    requires SourceIndexInRange(view, r) && Moves(view, r)
    requires r.destination.value.droppableId == r.source.droppableId
    ensures var s := r.source.droppableId;
            ByStatus(DragEnd(tasks, view, r, now).value, u)
            == if u == s then Reordered(ByStatus(view, s), r.source.index, r.destination.value.index)
               else ByStatus(tasks, u)
  {
    var s := r.source.droppableId;
    var src := ByStatus(view, s);
    var others := Others(tasks, s);
    var col := Reordered(src, r.source.index, r.destination.value.index);
    StatusOfReordered(src, r.source.index, r.destination.value.index, s);
    FilterConcat(others, col, StatusIs(u));
    if u == s {
      FilterDropsAll(others, StatusIs(u));
      FilterKeepsAll(col, StatusIs(u));
    } else {
      FilterNarrow(tasks, StatusIsNot(s), StatusIs(u));
      FilterDropsAll(col, StatusIs(u));
    }
  }

  /** A list whose tasks all have status `s` is its own `s` column and has no other column. */
  lemma UniformColumn(a: seq<Task>, s: Status, u: Status)
    requires forall t :: t in a ==> t.status == s
    ensures Filter(a, StatusIs(u)) == if u == s then a else []
  {
    if u == s {
      FilterKeepsAll(a, StatusIs(u));
    } else {
      FilterDropsAll(a, StatusIs(u));
    }
  }

  /** The tasks of neither status have no `s` or `d` column and the full list's other columns. */
  lemma NeitherColumn(tasks: seq<Task>, s: Status, d: Status, u: Status)
    ensures Filter(Filter(tasks, StatusIsNeither(s, d)), StatusIs(u))
            == if u == s || u == d then [] else ByStatus(tasks, u)
  {
    var neither := Filter(tasks, StatusIsNeither(s, d));
    if u == s || u == d {
      FilterDropsAll(neither, StatusIs(u));
    } else {
      FilterNarrow(tasks, StatusIsNeither(s, d), StatusIs(u));
    }
  }

  /** Columns of a list rebuilt as (tasks of neither status) ++ `a` ++ `b`. */
  lemma RebuiltColumns(tasks: seq<Task>, s: Status, d: Status, a: seq<Task>, b: seq<Task>, u: Status)
    requires s != d
    requires forall t :: t in a ==> t.status == s
    requires forall t :: t in b ==> t.status == d
    ensures ByStatus(Filter(tasks, StatusIsNeither(s, d)) + a + b, u)
            == if u == s then a else if u == d then b else ByStatus(tasks, u)
  {
    var neither := Filter(tasks, StatusIsNeither(s, d));
    assert ByStatus(neither + a + b, u) == Filter(neither, StatusIs(u)) + Filter(a, StatusIs(u)) + Filter(b, StatusIs(u)) by {
      FilterConcat(neither + a, b, StatusIs(u));
      FilterConcat(neither, a, StatusIs(u));
    }
    NeitherColumn(tasks, s, d, u);
    if u == s {
      UniformColumn(a, s, u);
      UniformColumn(b, d, u);
      assert [] + a + [] == a;
    } else if u == d {
      UniformColumn(a, s, u);
      UniformColumn(b, d, u);
      assert [] + [] + b == b;
    } else {
      UniformColumn(a, s, u);
      UniformColumn(b, d, u);
      assert ByStatus(tasks, u) + [] + [] == ByStatus(tasks, u);
    }
  }

  /**
   * A cross-column move: the source column loses the element at the source
   * index, the destination column gains the moved task at the destination
   * index, and the other two columns are exactly as in the full list.
   */
  lemma CrossColumnDrag(tasks: seq<Task>, view: seq<Task>, r: DropResult, now: Date, u: Status)
    requires SourceIndexInRange(view, r) && Moves(view, r)
    requires r.destination.value.droppableId != r.source.droppableId
    ensures var s, d := r.source.droppableId, r.destination.value.droppableId;
            ByStatus(DragEnd(tasks, view, r, now).value, u)
            == if u == s then RemoveAt(ByStatus(view, s), r.source.index)
               else if u == d then InsertAt(ByStatus(view, d), r.destination.value.index, Moved(Dragged(view, r), d, now))
               else ByStatus(tasks, u)
  {
    var s, d := r.source.droppableId, r.destination.value.droppableId;
    var a := RemoveAt(ByStatus(view, s), r.source.index);
    var b := InsertAt(ByStatus(view, d), r.destination.value.index, Moved(Dragged(view, r), d, now));
    assert DragEnd(tasks, view, r, now).value == Filter(tasks, StatusIsNeither(s, d)) + a + b;
    RebuiltColumns(tasks, s, d, a, b, u);
  }

  /** With consistent drag input and unique ids, the task that moves is the one at the source index. */
  lemma DraggedIsAtSourceIndex(view: seq<Task>, r: DropResult)
    requires UniqueIds(view) && DropConsistent(view, r)
    ensures FindById(ByStatus(view, r.source.droppableId), r.draggableId).Some?
    ensures r.destination.Some? && r.destination.value != r.source ==>
              Dragged(view, r) == ByStatus(view, r.source.droppableId)[r.source.index]
  {
    var src := ByStatus(view, r.source.droppableId);
    IdsMonotone(src, view);
    UniqueIdsShrink(src, view);
    FindByIdAt(src, r.source.index);
  }

  /**
   * A task the filter hides in a column the drop touches is gone from the
   * committed list: the rebuild only keeps the visible tasks of those columns.
   */
  lemma DragDropsHiddenTasks(tasks: seq<Task>, view: seq<Task>, r: DropResult, now: Date, h: Task)
    requires SourceIndexInRange(view, r) && Moves(view, r)
    requires h !in view && h.id != r.draggableId
    requires h.status == r.source.droppableId || h.status == r.destination.value.droppableId
    ensures h !in DragEnd(tasks, view, r, now).value
  {
    var res := DragEnd(tasks, view, r, now).value;
    var s, d, u := r.source.droppableId, r.destination.value.droppableId, h.status;
    var src := ByStatus(view, s);
    if s == d {
      SameColumnDrag(tasks, view, r, now, u);
      var col := Reordered(src, r.source.index, r.destination.value.index);
      assert h !in multiset(col);
    } else {
      CrossColumnDrag(tasks, view, r, now, u);
      if u == d {
        var m := Moved(Dragged(view, r), d, now);
        assert m.id == r.draggableId;
      }
    }
    assert h !in ByStatus(res, u);
  }

  // ---------------------------------------------------------------------
  // Whole-list effect of a drop

  lemma ThreeWaySplit(tasks: seq<Task>, s: Status, d: Status)
    requires s != d
    ensures multiset(tasks) == multiset(Filter(tasks, StatusIsNeither(s, d)))
                               + multiset(ByStatus(tasks, s)) + multiset(ByStatus(tasks, d))
  {
    var others := Others(tasks, s);
    var neither := Filter(tasks, StatusIsNeither(s, d));
    assert multiset(others) + multiset(ByStatus(tasks, s)) == multiset(tasks) by {
      ColumnAndOthers(tasks, s);
    }
    assert multiset(Filter(others, StatusIsNot(d))) + multiset(Filter(others, StatusIs(d))) == multiset(others) by {
      FilterComplement(others, StatusIsNot(d), StatusIs(d));
    }
    assert Filter(others, StatusIs(d)) == ByStatus(tasks, d) by {
      FilterNarrow(tasks, StatusIsNot(s), StatusIs(d));
    }
    assert Filter(others, StatusIsNot(d)) == neither by {
      FilterSameOn(others, StatusIsNot(d), StatusIsNeither(s, d));
      FilterNarrow(tasks, StatusIsNot(s), StatusIsNeither(s, d));
    }
  }

  lemma {:induction false} FilterSameOn(c: seq<Task>, p: Task -> bool, q: Task -> bool)
    requires forall x :: x in c ==> p(x) == q(x)
    ensures Filter(c, p) == Filter(c, q)
    decreases |c|
  {
    if c != [] {
      FilterSameOn(c[1..], p, q);
    }
  }

  /** Without an active filter, a same-column move neither loses nor duplicates a task. */
  lemma SameColumnDragKeepsTasks(tasks: seq<Task>, r: DropResult, now: Date)
    requires SourceIndexInRange(tasks, r) && Moves(tasks, r)
    requires r.destination.value.droppableId == r.source.droppableId
    ensures multiset(DragEnd(tasks, tasks, r, now).value) == multiset(tasks)
  {
    ColumnAndOthers(tasks, r.source.droppableId);
  }

  /**
   * Without an active filter, a cross-column move replaces one task by its
   * moved copy and keeps every other task.
   */
  lemma CrossColumnDragKeepsTasks(tasks: seq<Task>, r: DropResult, now: Date)
    requires Moves(tasks, r) && DropConsistent(tasks, r)
    requires r.destination.value.droppableId != r.source.droppableId
    ensures var src := ByStatus(tasks, r.source.droppableId);
            multiset(DragEnd(tasks, tasks, r, now).value) + multiset{src[r.source.index]}
            == multiset(tasks) + multiset{Moved(Dragged(tasks, r), r.destination.value.droppableId, now)}
  {
    var s, d := r.source.droppableId, r.destination.value.droppableId;
    ThreeWaySplit(tasks, s, d);
  }

  /** Ids of an insertion depend only on the id of what is inserted. */
  lemma IdsInsertSameId(c: seq<Task>, j: nat, x: Task, y: Task)
    requires x.id == y.id
    ensures Ids(InsertAt(c, j, x)) == Ids(InsertAt(c, j, y))
  {
    var a, b := InsertAt(c, j, x), InsertAt(c, j, y);
    var k := Clamp(j, |c|);
    forall i | 0 <= i < |a| ensures a[i].id == b[i].id {
      if i < k {
      } else if i == k {
      } else {
        assert a[(i - 1) + 1] == c[i - 1];
      }
    }
  }

  /**
   * Ids stay unique across a drop when the visible list is a filtering of the
   * full list and the drag input is consistent.
   */
  lemma DragKeepsIdsUnique(tasks: seq<Task>, f: FilterState, parse: DateParser, r: DropResult, now: Date)
    requires UniqueIds(tasks)
    requires DropConsistent(FilterTasks(tasks, f, parse), r)
    requires SourceIndexInRange(FilterTasks(tasks, f, parse), r) && Moves(FilterTasks(tasks, f, parse), r)
    ensures UniqueIds(DragEnd(tasks, FilterTasks(tasks, f, parse), r, now).value)
  {
    var view := FilterTasks(tasks, f, parse);
    var res := DragEnd(tasks, view, r, now).value;
    var s, d := r.source.droppableId, r.destination.value.droppableId;
    var si, di := r.source.index, r.destination.value.index;
    var src, dst := ByStatus(view, s), ByStatus(view, d);
    ByStatusOfFiltered(tasks, f, parse, s);
    ByStatusOfFiltered(tasks, f, parse, d);
    assert multiset(src) <= multiset(ByStatus(tasks, s));
    assert multiset(dst) <= multiset(ByStatus(tasks, d));
    if s == d {
      ColumnAndOthers(tasks, s);
      IdsMonotone(res, tasks);
    } else {
      IdsMonotone(view, tasks);
      UniqueIdsShrink(view, tasks);
      DraggedIsAtSourceIndex(view, r);
      var neither := Filter(tasks, StatusIsNeither(s, d));
      var back := neither + RemoveAt(src, si) + InsertAt(dst, di, src[si]);
      ThreeWaySplit(tasks, s, d);
      assert multiset(back) <= multiset(tasks);
      IdsMonotone(back, tasks);
      IdsInsertSameId(dst, di, Moved(Dragged(view, r), d, now), src[si]);
      IdsConcat(neither + RemoveAt(src, si), InsertAt(dst, di, src[si]));
      IdsConcat(neither + RemoveAt(src, si), InsertAt(dst, di, Moved(Dragged(view, r), d, now)));
      assert Ids(res) == Ids(back);
    }
    UniqueIdsShrink(res, tasks);
  }

  lemma ColumnOfOne(z: Task, u: Status)
    ensures Filter([z], StatusIs(u)) == if z.status == u then [z] else []
  {
    FilterCons(z, [], StatusIs(u));
    assert [z] + [] == [z];
  }

  /** The TODO column of three tasks, two in TODO and one in DONE. */
  lemma ExampleTodoColumn(x: Task, y: Task, z: Task)
    requires x.status == Todo && y.status == Todo && z.status == Done
    ensures ByStatus([x, y, z], Todo) == [x, y]
  {
    assert Filter([z], StatusIs(Todo)) == [] by {
      ColumnOfOne(z, Todo);
    }
    assert Filter([y, z], StatusIs(Todo)) == [y] by {
      assert [y] + [z] == [y, z];
      FilterCons(y, [z], StatusIs(Todo));
    }
    assert [x] + [y, z] == [x, y, z];
    FilterCons(x, [y, z], StatusIs(Todo));
  }

  /** The DONE column of the same three tasks. */
  lemma ExampleDoneColumn(x: Task, y: Task, z: Task)
    requires x.status == Todo && y.status == Todo && z.status == Done
    ensures ByStatus([x, y, z], Done) == [z]
  {
    assert Filter([z], StatusIs(Done)) == [z] by {
      ColumnOfOne(z, Done);
    }
    assert Filter([y, z], StatusIs(Done)) == [z] by {
      assert [y] + [z] == [y, z];
      FilterCons(y, [z], StatusIs(Done));
    }
    assert [x] + [y, z] == [x, y, z];
    FilterCons(x, [y, z], StatusIs(Done));
  }

  /** The drop of the example: the first TODO task to position 1 of DONE. */
  function ExampleDrop(x: Task): DropResult {
    DropResult(x.id, Location(Todo, 0), Some(Location(Done, 1)))
  }

  lemma ExampleMoves(x: Task, y: Task, z: Task)
    requires x.status == Todo && y.status == Todo && z.status == Done
    ensures Moves([x, y, z], ExampleDrop(x)) && Dragged([x, y, z], ExampleDrop(x)) == x
  {
    ExampleTodoColumn(x, y, z);
    assert FindIndexById([x, y], x.id) == Some(0);
  }

  /**
   * Two tasks in TODO and one in DONE, no filter: dragging the first TODO task
   * to the end of DONE leaves `[y]` in TODO ...
   */
  lemma CrossColumnExampleSource(x: Task, y: Task, z: Task, now: Date)
    requires x.status == Todo && y.status == Todo && z.status == Done
    ensures Moves([x, y, z], ExampleDrop(x))
    ensures ByStatus(DragEnd([x, y, z], [x, y, z], ExampleDrop(x), now).value, Todo) == [y]
  {
    ExampleMoves(x, y, z);
    ExampleTodoColumn(x, y, z);
    CrossColumnDrag([x, y, z], [x, y, z], ExampleDrop(x), now, Todo);
    assert RemoveAt([x, y], 0) == [y];
  }

  /** ... and `[z, x']` in DONE, where `x'` is `x` with status DONE and update stamp `now`. */
  lemma CrossColumnExampleTarget(x: Task, y: Task, z: Task, now: Date)
    requires x.status == Todo && y.status == Todo && z.status == Done
    ensures Moves([x, y, z], ExampleDrop(x))
    ensures ByStatus(DragEnd([x, y, z], [x, y, z], ExampleDrop(x), now).value, Done)
            == [z, x.(status := Done, updatedAt := now)]
  {
    ExampleMoves(x, y, z);
    ExampleDoneColumn(x, y, z);
    CrossColumnDrag([x, y, z], [x, y, z], ExampleDrop(x), now, Done);
    InsertAtEnd([z], Moved(x, Done, now));
  }
}
