/**
 * The list transitions behind `createTask`, `updateTask` and `deleteTask`
 * (app/hooks/useTasks.ts, hooks/useTasks.ts) and behind the local handlers
 * of components/KanbanBoard.tsx, together with the id bookkeeping that says
 * when ids stay unique.
 */
module TaskList {

  import opened Types
  import opened Text
  import opened Seqs

  /** The ids of `s`, position by position. */
  function Ids(s: seq<Task>): (r: seq<string>)
    ensures |r| == |s|
    ensures forall i :: 0 <= i < |s| ==> r[i] == s[i].id
  {
    seq(|s|, i requires 0 <= i < |s| => s[i].id)
  }

  lemma IdsConcat(a: seq<Task>, b: seq<Task>)
    ensures Ids(a + b) == Ids(a) + Ids(b)
  {
  }

  /** No id occurs twice in `s`. */
  ghost predicate UniqueIds(s: seq<Task>) {
    forall id :: multiset(Ids(s))[id] <= 1
  }

  /** With unique ids, two different positions hold different ids. */
  lemma UniqueIdsDistinct(s: seq<Task>, i: nat, j: nat)
    requires UniqueIds(s) && i < j < |s|
    ensures s[i].id != s[j].id
  {
    var before, after := Ids(s[..j]), Ids(s[j..]);
    IdsConcat(s[..j], s[j..]);
    assert s == s[..j] + s[j..];
    assert before[i] == s[i].id && after[0] == s[j].id;
    assert multiset(Ids(s))[s[j].id] == multiset(before)[s[j].id] + multiset(after)[s[j].id];
  }

  lemma MultisetCancel<T>(m: multiset<T>, n: multiset<T>, x: T)
    requires m + multiset{x} <= n + multiset{x}
    ensures m <= n
  {
    forall y ensures m[y] <= n[y] {
      assert (m + multiset{x})[y] <= (n + multiset{x})[y];
    }
  }

  lemma MultisetGrow<T>(m: multiset<T>, n: multiset<T>, x: T)
    requires m <= n
    ensures m + multiset{x} <= n + multiset{x}
  {
  }

  /** Leaving out the element at `k` takes exactly one of it out of the count. */
  lemma CountWithout<T>(s: seq<T>, k: nat)
    requires k < |s|
    ensures multiset(s) == multiset(s[..k] + s[k + 1..]) + multiset{s[k]}
  {
    assert s == s[..k] + [s[k]] + s[k + 1..];
  }

  /** Taking the task at `k` out of `b` takes one task and one id out of the counts. */
  lemma SplitAt(b: seq<Task>, k: nat)
    requires k < |b|
    ensures multiset(b) == multiset(b[..k] + b[k + 1..]) + multiset{b[k]}
    ensures multiset(Ids(b)) == multiset(Ids(b[..k] + b[k + 1..])) + multiset{b[k].id}
  {
    CountWithout(b, k);
    var ids := Ids(b);
    CountWithout(ids, k);
    assert Ids(b[..k] + b[k + 1..]) == ids[..k] + ids[k + 1..];
  }

  /** Taking the first task off `a` takes it and its id out of the counts. */
  lemma SplitFirst(a: seq<Task>)
    requires a != []
    ensures multiset(a) == multiset(a[1..]) + multiset{a[0]}
    ensures multiset(Ids(a)) == multiset(Ids(a[1..])) + multiset{a[0].id}
  {
    assert multiset(a) == multiset(a[1..]) + multiset{a[0]} by {
      assert a == [a[0]] + a[1..];
    }
    var ids := Ids(a);
    assert ids[1..] == Ids(a[1..]);
    assert multiset(ids) == multiset(ids[1..]) + multiset{ids[0]} by {
      assert ids == [ids[0]] + ids[1..];
    }
  }

  /** Putting a task with a new id in front keeps ids unique. */
  lemma UniqueIdsCons(x: Task, rest: seq<Task>)
    requires UniqueIds(rest) && forall t :: t in rest ==> t.id != x.id
    ensures UniqueIds([x] + rest)
  {
    IdsConcat([x], rest);
    var ids := Ids(rest);
    assert x.id !in ids by {
      forall k | 0 <= k < |ids| ensures ids[k] != x.id {
        assert rest[k] in rest;
      }
    }
    forall id ensures multiset(Ids([x] + rest))[id] <= 1 {
      assert multiset(Ids([x] + rest)) == multiset{x.id} + multiset(ids);
    }
  }

  /** Pairwise distinct ids at distinct positions give unique ids (the converse of `UniqueIdsDistinct`). */
  lemma {:induction false} DistinctIdsUnique(s: seq<Task>)
    requires forall i, j :: 0 <= i < j < |s| ==> s[i].id != s[j].id
    ensures UniqueIds(s)
    decreases |s|
  {
    if s != [] {
      var rest := s[1..];
      assert forall i, j :: 0 <= i < j < |rest| ==> rest[i].id != rest[j].id by {
        forall i, j | 0 <= i < j < |rest| ensures rest[i].id != rest[j].id {
          assert rest[i] == s[i + 1] && rest[j] == s[j + 1];
        }
      }
      DistinctIdsUnique(rest);
      assert forall t :: t in rest ==> t.id != s[0].id by {
        forall t | t in rest ensures t.id != s[0].id {
          var k :| 0 <= k < |rest| && rest[k] == t;
          assert t == s[k + 1];
        }
      }
      UniqueIdsCons(s[0], rest);
      assert s == [s[0]] + rest;
    }
  }

  /** A list made of some of the tasks of another (counted with multiplicity) has no more of each id. */
  lemma {:induction false} IdsMonotone(a: seq<Task>, b: seq<Task>)
    requires multiset(a) <= multiset(b)
    ensures multiset(Ids(a)) <= multiset(Ids(b))
    decreases |a|
  {
    if a != [] {
      var x := a[0];
      SplitFirst(a);
      assert x in b by {
        assert x in multiset(a);
      }
      var k :| 0 <= k < |b| && b[k] == x;
      var rest := b[..k] + b[k + 1..];
      assert multiset(b) == multiset(rest) + multiset{x} && multiset(Ids(b)) == multiset(Ids(rest)) + multiset{x.id} by {
        SplitAt(b, k);
      }
      assert multiset(a[1..]) <= multiset(rest) by {
        MultisetCancel(multiset(a[1..]), multiset(rest), x);
      }
      assert multiset(Ids(a[1..])) <= multiset(Ids(rest)) by {
        IdsMonotone(a[1..], rest);
      }
      MultisetGrow(multiset(Ids(a[1..])), multiset(Ids(rest)), x.id);
    }
  }

  /** Fewer of each id than a list with unique ids means unique ids. */
  lemma UniqueIdsShrink(a: seq<Task>, b: seq<Task>)
    requires UniqueIds(b) && multiset(Ids(a)) <= multiset(Ids(b))
    ensures UniqueIds(a)
  {
    forall id ensures multiset(Ids(a))[id] <= 1 {
      assert multiset(Ids(a))[id] <= multiset(Ids(b))[id];
    }
  }

  // ---------------------------------------------------------------------
  // createTask / handleCreateTask

  /** The task `createTask` builds: the caller's fields, `id = Date.now().toString()`, both stamps `now`. */
  function NewTask(data: TaskData, now: nat): (t: Task)
    ensures DataOf(t) == data
    ensures t.id == NatToString(now)
    ensures t.createdAt == now && t.updatedAt == now
  {
    Stamp(data, NatToString(now), now, now)
  }

  /** `[...prev, newTask]`. */
  function AppendTask(ts: seq<Task>, data: TaskData, now: nat): (r: seq<Task>)
    ensures |r| == |ts| + 1
    ensures r[..|ts|] == ts
    ensures r[|ts|] == NewTask(data, now)
  {
    ts + [NewTask(data, now)]
  }

  /** Every id in `ts` is the rendering of a clock reading taken before `clock`. */
  ghost predicate MintedBefore(ts: seq<Task>, clock: nat) {
    forall t :: t in ts ==> exists k: nat :: k < clock && t.id == NatToString(k)
  }

  lemma MintedBeforeLater(ts: seq<Task>, clock: nat, later: nat)
    requires MintedBefore(ts, clock) && clock <= later
    ensures MintedBefore(ts, later)
  {
  }

  /**
   * Ids stay unique under `createTask` as long as the clock has moved on since
   * every earlier id was minted; two creations in the same millisecond collide.
   */
  lemma CreateKeepsIdsUnique(ts: seq<Task>, data: TaskData, now: nat)
    requires UniqueIds(ts) && MintedBefore(ts, now)
    ensures UniqueIds(AppendTask(ts, data, now))
    ensures MintedBefore(AppendTask(ts, data, now), now + 1)
  {
    var id := NatToString(now);
    forall t | t in ts ensures t.id != id {
      var k: nat :| k < now && t.id == NatToString(k);
      NatToStringInjective(k, now);
    }
    assert id !in Ids(ts);
    IdsConcat(ts, [NewTask(data, now)]);
    var r := AppendTask(ts, data, now);
    forall t | t in r ensures exists k: nat :: k < now + 1 && t.id == NatToString(k) {
      if t !in ts {
        assert t == NewTask(data, now) && t.id == NatToString(now);
      }
    }
  }

  /**
   * A task just created is found by its id, and deleting that id gives the list
   * back as it was, as long as every earlier id was minted at an earlier reading.
   */
  lemma DeleteUndoesCreate(ts: seq<Task>, data: TaskData, now: nat)
    requires MintedBefore(ts, now)
    ensures FindById(AppendTask(ts, data, now), NatToString(now)) == Some(NewTask(data, now))
    ensures RemoveById(AppendTask(ts, data, now), NatToString(now)) == ts
  {
    var id := NatToString(now);
    var r := AppendTask(ts, data, now);
    forall t | t in ts ensures IdIsNot(id)(t) {
      var k: nat :| k < now && t.id == NatToString(k);
      NatToStringInjective(k, now);
    }
    forall j | 0 <= j < |ts| ensures r[j].id != id {
      assert r[j] == ts[j] && ts[j] in ts;
    }
    assert Filter(r, IdIsNot(id)) == ts by {
      assert r == ts + [NewTask(data, now)];
      FilterConcat(ts, [NewTask(data, now)], IdIsNot(id));
      FilterKeepsAll(ts, IdIsNot(id));
      FilterCons(NewTask(data, now), [], IdIsNot(id));
      assert [NewTask(data, now)] + [] == [NewTask(data, now)];
    }
  }

  /** Two creations get the same id exactly when they read the same clock value. */
  lemma CreatedIdsCollide(d1: TaskData, now1: nat, d2: TaskData, now2: nat)
    ensures NewTask(d1, now1).id == NewTask(d2, now2).id <==> now1 == now2
  {
    NatToStringInjective(now1, now2);
  }

  // ---------------------------------------------------------------------
  // updateTask (both hooks)

  /**
   * `prev.map(task => task.id === taskId ? { ...taskData, id: taskId, createdAt: task.createdAt,
   * updatedAt: now } : task)`.
   */
  function UpdateById(ts: seq<Task>, data: TaskData, id: string, now: Date): (r: seq<Task>)
    ensures |r| == |ts|
    ensures forall i :: 0 <= i < |ts| && ts[i].id == id ==>
              DataOf(r[i]) == data && r[i].id == ts[i].id
              && r[i].createdAt == ts[i].createdAt && r[i].updatedAt == now
    ensures forall i :: 0 <= i < |ts| && ts[i].id != id ==> r[i] == ts[i]
  {
    seq(|ts|, i requires 0 <= i < |ts| =>
      if ts[i].id == id then Stamp(data, id, ts[i].createdAt, now) else ts[i])
  }

  /** Updating an id that is not in the list changes nothing. */
  lemma UpdateUnknownIdIsNoOp(ts: seq<Task>, data: TaskData, id: string, now: Date)
    requires forall t :: t in ts ==> t.id != id
    ensures UpdateById(ts, data, id, now) == ts
  {
    var r := UpdateById(ts, data, id, now);
    assert forall i :: 0 <= i < |ts| ==> r[i] == ts[i];
  }

  /** With unique ids, updating the id of the task at `i` restamps that task and no other. */
  lemma UpdateByIdAt(ts: seq<Task>, i: nat, data: TaskData, now: Date)
    requires UniqueIds(ts) && i < |ts|
    ensures UpdateById(ts, data, ts[i].id, now)
            == ts[..i] + [Stamp(data, ts[i].id, ts[i].createdAt, now)] + ts[i + 1..]
  {
    var r := UpdateById(ts, data, ts[i].id, now);
    var e := ts[..i] + [Stamp(data, ts[i].id, ts[i].createdAt, now)] + ts[i + 1..];
    forall k | 0 <= k < |ts| ensures r[k] == e[k] {
      if k < i {
        UniqueIdsDistinct(ts, k, i);
      } else if k > i {
        UniqueIdsDistinct(ts, i, k);
      }
    }
  }

  /** An update keeps every id in its place, so unique ids stay unique and minted ids stay minted. */
  lemma UpdateKeepsIds(ts: seq<Task>, data: TaskData, id: string, now: Date, clock: nat)
    ensures Ids(UpdateById(ts, data, id, now)) == Ids(ts)
    ensures UniqueIds(ts) ==> UniqueIds(UpdateById(ts, data, id, now))
    ensures MintedBefore(ts, clock) ==> MintedBefore(UpdateById(ts, data, id, now), clock)
  {
    var r := UpdateById(ts, data, id, now);
    assert Ids(r) == Ids(ts);
    if MintedBefore(ts, clock) {
      forall t | t in r ensures exists k: nat :: k < clock && t.id == NatToString(k) {
        var i :| 0 <= i < |r| && r[i] == t;
        assert ts[i] in ts;
      }
    }
  }

  /** Stamps stay ordered when the update happens no earlier than any creation. */
  lemma UpdateKeepsStampsOrdered(ts: seq<Task>, data: TaskData, id: string, now: Date)
    requires forall t :: t in ts ==> t.createdAt <= t.updatedAt && t.createdAt <= now
    ensures forall t :: t in UpdateById(ts, data, id, now) ==> t.createdAt <= t.updatedAt
  {
    var r := UpdateById(ts, data, id, now);
    forall t | t in r ensures t.createdAt <= t.updatedAt {
      var i :| 0 <= i < |r| && r[i] == t;
      assert ts[i] in ts;
    }
  }

  // ---------------------------------------------------------------------
  // handleEditTask (components/KanbanBoard.tsx)

  /** `prev.map(task => task.id === id ? replacement : task)`. */
  function ReplaceById(ts: seq<Task>, id: string, replacement: Task): (r: seq<Task>)
    ensures |r| == |ts|
    ensures forall i :: 0 <= i < |ts| ==> r[i] == if ts[i].id == id then replacement else ts[i]
  {
    seq(|ts|, i requires 0 <= i < |ts| => if ts[i].id == id then replacement else ts[i])
  }

  /** With unique ids, replacing by the id of the task at `i` swaps in the replacement there and nowhere else. */
  lemma ReplaceByIdAt(ts: seq<Task>, i: nat, replacement: Task)
    requires UniqueIds(ts) && i < |ts|
    ensures ReplaceById(ts, ts[i].id, replacement) == ts[..i] + [replacement] + ts[i + 1..]
  {
    var r := ReplaceById(ts, ts[i].id, replacement);
    var e := ts[..i] + [replacement] + ts[i + 1..];
    forall k | 0 <= k < |ts| ensures r[k] == e[k] {
      if k < i {
        UniqueIdsDistinct(ts, k, i);
      } else if k > i {
        UniqueIdsDistinct(ts, i, k);
      }
    }
  }

  /** Replacing by a task that keeps the id keeps every id in place. */
  lemma ReplaceKeepsIds(ts: seq<Task>, id: string, replacement: Task)
    requires replacement.id == id
    ensures Ids(ReplaceById(ts, id, replacement)) == Ids(ts)
  {
  }

  // ---------------------------------------------------------------------
  // deleteTask

  function IdIsNot(id: string): Task -> bool {
    (t: Task) => t.id != id
  }

  /** `prev.filter(task => task.id !== taskId)`. */
  function RemoveById(ts: seq<Task>, id: string): (r: seq<Task>)
    ensures forall t :: t in r ==> t in ts && t.id != id
    ensures forall t :: t in ts && t.id != id ==> t in r
    ensures IsSubsequence(r, ts)
    ensures multiset(r) <= multiset(ts)
    ensures forall t {:trigger multiset(r)[t]} :: t in ts ==> multiset(r)[t] == if t.id != id then multiset(ts)[t] else 0
  {
    FilterIsSubsequence(ts, IdIsNot(id));
    forall t | t in ts ensures multiset(Filter(ts, IdIsNot(id)))[t] == if t.id != id then multiset(ts)[t] else 0 {
      FilterKeepsEveryCopy(ts, IdIsNot(id), t);
    }
    Filter(ts, IdIsNot(id))
  }

  /** Deleting an id that is not in the list changes nothing. */
  lemma RemoveUnknownIdIsNoOp(ts: seq<Task>, id: string)
    requires forall t :: t in ts ==> t.id != id
    ensures RemoveById(ts, id) == ts
  {
    FilterKeepsAll(ts, IdIsNot(id));
  }

  /** With unique ids, every task other than the one at `i` has an id different from its id. */
  lemma OthersKeepTheirIds(ts: seq<Task>, i: nat)
    requires UniqueIds(ts) && i < |ts|
    ensures forall t :: t in ts[..i] ==> IdIsNot(ts[i].id)(t)
    ensures forall t :: t in ts[i + 1..] ==> IdIsNot(ts[i].id)(t)
  {
    forall t | t in ts[..i] ensures IdIsNot(ts[i].id)(t) {
      var j :| 0 <= j < i && ts[..i][j] == t;
      UniqueIdsDistinct(ts, j, i);
    }
    forall t | t in ts[i + 1..] ensures IdIsNot(ts[i].id)(t) {
      var j :| 0 <= j < |ts| - i - 1 && ts[i + 1..][j] == t;
      UniqueIdsDistinct(ts, i, i + 1 + j);
    }
  }

  /** With unique ids, deleting the id of the task at `i` removes that task and nothing else. */
  lemma RemoveByIdAt(ts: seq<Task>, i: nat)
    requires UniqueIds(ts) && i < |ts|
    ensures RemoveById(ts, ts[i].id) == ts[..i] + ts[i + 1..]
  {
    var keep := IdIsNot(ts[i].id);
    var before, after := ts[..i], ts[i + 1..];
    OthersKeepTheirIds(ts, i);
    assert Filter(ts, keep) == Filter(before, keep) + Filter([ts[i]] + after, keep) by {
      assert ts == before + ([ts[i]] + after);
      FilterConcat(before, [ts[i]] + after, keep);
    }
    assert Filter([ts[i]] + after, keep) == Filter(after, keep) by {
      FilterCons(ts[i], after, keep);
    }
    FilterKeepsAll(before, keep);
    FilterKeepsAll(after, keep);
  }

  /** Deleting never introduces a duplicate id or an id that was not minted. */
  lemma RemoveKeepsIds(ts: seq<Task>, id: string, clock: nat)
    ensures UniqueIds(ts) ==> UniqueIds(RemoveById(ts, id))
    ensures MintedBefore(ts, clock) ==> MintedBefore(RemoveById(ts, id), clock)
  {
    IdsMonotone(RemoveById(ts, id), ts);
    if UniqueIds(ts) {
      UniqueIdsShrink(RemoveById(ts, id), ts);
    }
  }

  // ---------------------------------------------------------------------
  // Array.prototype.find by id

  /** The position of the first task with id `id`, if any (`findIndex`). */
  function FindIndexById(s: seq<Task>, id: string): (r: Option<nat>)
    ensures r.None? <==> forall i :: 0 <= i < |s| ==> s[i].id != id
    ensures r.Some? ==> r.value < |s| && s[r.value].id == id
                        && forall i :: 0 <= i < r.value ==> s[i].id != id
    decreases |s|
  {
    if s == [] then None
    else if s[0].id == id then Some(0)
    else
      match FindIndexById(s[1..], id)
      case None => None
      case Some(k) => Some(k + 1)
  }

  /** `s.find(t => t.id === id)`: the first task with the id, if any. */
  function FindById(s: seq<Task>, id: string): (r: Option<Task>)
    ensures r.None? <==> forall t :: t in s ==> t.id != id
    ensures r.Some? ==> r.value in s && r.value.id == id
    ensures forall k :: 0 <= k < |s| && s[k].id == id && (forall j :: 0 <= j < k ==> s[j].id != id) ==>
              r == Some(s[k])
  {
    match FindIndexById(s, id)
    case None => None
    case Some(k) => Some(s[k])
  }

  /** With unique ids, finding the id of the task at `i` finds that very task. */
  lemma FindByIdAt(s: seq<Task>, i: nat)
    requires UniqueIds(s) && i < |s|
    ensures FindById(s, s[i].id) == Some(s[i])
  {
    var k := FindIndexById(s, s[i].id).value;
    if k < i {
      UniqueIdsDistinct(s, k, i);
    }
  }
}
