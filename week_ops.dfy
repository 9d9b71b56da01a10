/**
 * The week-plan store's actions as functions on values: what each action
 * leaves in `currentWeek.tasks`, and what navigation leaves in
 * `currentWeek` and the `weeks` archive. The class in `planner_store.dfy`
 * performs the actions step by step and is proved to agree with these
 * functions; the lemmas here state what the actions promise.
 */
module WeekOps {
  import opened Types
  import opened Sequences

  // ---------------------------------------------------------------------
  // Queries on a task list
  // ---------------------------------------------------------------------

  /** `tasks.filter(t => t.day === d)`. */
  function DayTasks(tasks: seq<Task>, d: Day): seq<Task>
  {
    if tasks == [] then []
    else
      var last := tasks[|tasks| - 1];
      DayTasks(tasks[..|tasks| - 1], d) + (if last.day == d then [last] else [])
  }

  /** `tasks.filter(t => t.id !== id)`. */
  function WithoutId(tasks: seq<Task>, id: nat): seq<Task>
  {
    if tasks == [] then []
    else
      var last := tasks[|tasks| - 1];
      WithoutId(tasks[..|tasks| - 1], id) + (if last.id != id then [last] else [])
  }

  /** `tasks.find(t => t.id === id)`: the first task with that id. */
  function FindTask(tasks: seq<Task>, id: nat): (r: Option<Task>)
    ensures r.Some? ==> r.value in tasks && r.value.id == id
    ensures r.None? <==> forall t :: t in tasks ==> t.id != id
  {
    if tasks == [] then None
    else if tasks[0].id == id then Some(tasks[0])
    else FindTask(tasks[1..], id)
  }

  function Ids(tasks: seq<Task>): seq<nat>
  {
    seq(|tasks|, i requires 0 <= i < |tasks| => tasks[i].id)
  }

  predicate DistinctIds(tasks: seq<Task>)
  {
    forall i, j :: 0 <= i < j < |tasks| ==> tasks[i].id != tasks[j].id
  }

  function OrderOf(t: Task): int
  {
    t.order
  }

  function IdOf(t: Task): int
  {
    t.id
  }

  /** Distinct ids are distinct `IdOf` keys. */
  lemma DistinctIdsByKey(tasks: seq<Task>)
    ensures DistinctIds(tasks) <==> DistinctBy(tasks, IdOf)
  {
  }

  /**
   * The day's tasks carry the orders 0, 1, 2, ... in list order, which is
   * what repeated `addTask` calls leave behind.
   */
  ghost predicate DenseDay(tasks: seq<Task>, d: Day)
  {
    forall k :: 0 <= k < |DayTasks(tasks, d)| ==> DayTasks(tasks, d)[k].order == k
  }

  /** `DayTasks` keeps exactly the tasks of the day. */
  lemma {:induction false} DayTasksMember(tasks: seq<Task>, d: Day, t: Task)
    ensures t in DayTasks(tasks, d) <==> t in tasks && t.day == d
  {
    if tasks != [] {
      var init := tasks[..|tasks| - 1];
      assert tasks == init + [tasks[|tasks| - 1]];
      DayTasksMember(init, d, t);
    }
  }

  /** `WithoutId` keeps exactly the tasks with another id. */
  lemma {:induction false} WithoutIdMember(tasks: seq<Task>, id: nat, t: Task)
    ensures t in WithoutId(tasks, id) <==> t in tasks && t.id != id
  {
    if tasks != [] {
      var init := tasks[..|tasks| - 1];
      assert tasks == init + [tasks[|tasks| - 1]];
      WithoutIdMember(init, id, t);
    }
  }

  lemma {:induction false} DayTasksAppend(a: seq<Task>, b: seq<Task>, d: Day)
    ensures DayTasks(a + b, d) == DayTasks(a, d) + DayTasks(b, d)
    decreases |b|
  {
    if b == [] {
      assert a + b == a;
    } else {
      var bInit := b[..|b| - 1];
      assert (a + b)[..|a + b| - 1] == a + bInit;
      assert (a + b)[|a + b| - 1] == b[|b| - 1];
      DayTasksAppend(a, bInit, d);
    }
  }

  lemma {:induction false} WithoutIdAppend(a: seq<Task>, b: seq<Task>, id: nat)
    ensures WithoutId(a + b, id) == WithoutId(a, id) + WithoutId(b, id)
    decreases |b|
  {
    if b == [] {
      assert a + b == a;
    } else {
      var bInit := b[..|b| - 1];
      assert (a + b)[..|a + b| - 1] == a + bInit;
      assert (a + b)[|a + b| - 1] == b[|b| - 1];
      WithoutIdAppend(a, bInit, id);
    }
  }

  /** Permuting tasks permutes their ids. */
  lemma {:induction false} IdsOfPermutation(a: seq<Task>, b: seq<Task>)
    requires multiset(a) == multiset(b)
    ensures multiset(Ids(a)) == multiset(Ids(b))
    decreases |a|
  {
    if a != [] {
      var x := a[0];
      assert x in multiset(a);
      assert x in b;
      var k :| 0 <= k < |b| && b[k] == x;
      var bRest := RemoveAt(b, k);
      assert RemoveAt(a, 0) == a[1..];
      RemoveAtMultiset(a, 0);
      RemoveAtMultiset(b, k);
      MultisetCancel(multiset(a[1..]), multiset(bRest), x);
      IdsOfPermutation(a[1..], bRest);
      IdsRemoveAt(a, 0);
      IdsRemoveAt(b, k);
    }
  }

  lemma MultisetCancel<T>(m: multiset<T>, n: multiset<T>, x: T)
    requires m + multiset{x} == n + multiset{x}
    ensures m == n
  {
    assert forall y :: m[y] == (m + multiset{x})[y] - multiset{x}[y];
  }

  function RemoveAt<T>(s: seq<T>, k: nat): seq<T>
    requires k < |s|
  {
    s[..k] + s[k + 1..]
  }

  lemma RemoveAtMultiset<T>(s: seq<T>, k: nat)
    requires k < |s|
    ensures multiset(s) == multiset(RemoveAt(s, k)) + multiset{s[k]}
  {
    assert s == s[..k] + [s[k]] + s[k + 1..];
  }

  lemma IdsRemoveAt(s: seq<Task>, k: nat)
    requires k < |s|
    ensures multiset(Ids(s)) == multiset(Ids(RemoveAt(s, k))) + multiset{s[k].id}
  {
    var ids := Ids(s);
    assert Ids(RemoveAt(s, k)) == RemoveAt(ids, k);
    RemoveAtMultiset(ids, k);
  }

  /** A day's tasks keep the list's distinct ids. */
  lemma {:induction false} DayTasksKeepsDistinct(tasks: seq<Task>, d: Day)
    requires DistinctIds(tasks)
    ensures DistinctIds(DayTasks(tasks, d))
  {
    if tasks != [] {
      var init := tasks[..|tasks| - 1];
      var last := tasks[|tasks| - 1];
      assert tasks == init + [last];
      DistinctIdsSnoc(init, last);
      DayTasksKeepsDistinct(init, d);
      if last.day == d {
        forall t | t in DayTasks(init, d) ensures t.id != last.id {
          DayTasksMember(init, d, t);
        }
        DistinctIdsSnoc(DayTasks(init, d), last);
      }
    }
  }

  // ---------------------------------------------------------------------
  // addTask
  // ---------------------------------------------------------------------

  function NewTask(data: TaskData, id: nat, order: int): Task
  {
    Task(id, data.project, data.title, data.duration, data.startTime, data.day, data.completed, order)
  }

  /** The task list after `addTask(data)` with the fresh id `id`. */
  function AddedTasks(tasks: seq<Task>, data: TaskData, id: nat): seq<Task>
  {
    tasks + [NewTask(data, id, |DayTasks(tasks, data.day)|)]
  }

  /**
   * The new task comes last and takes as order the number of tasks its day
   * had; only its own day gains a task, and that day stays dense.
   */
  lemma AddTaskAppends(tasks: seq<Task>, data: TaskData, id: nat)
    ensures var r := AddedTasks(tasks, data, id);
      |r| == |tasks| + 1 && r[..|tasks|] == tasks &&
      r[|tasks|].order == |DayTasks(tasks, data.day)| && r[|tasks|].id == id &&
      DayTasks(r, data.day) == DayTasks(tasks, data.day) + [r[|tasks|]] &&
      forall d :: d != data.day ==> DayTasks(r, d) == DayTasks(tasks, d)
  {
    var r := AddedTasks(tasks, data, id);
    assert r[..|r| - 1] == tasks;
  }

  /** Adding to a dense day keeps every day dense. */
  lemma AddTaskKeepsDense(tasks: seq<Task>, data: TaskData, id: nat, d: Day)
    requires DenseDay(tasks, d)
    ensures DenseDay(AddedTasks(tasks, data, id), d)
  {
    AddTaskAppends(tasks, data, id);
  }

  /** Adds one task per entry of `datas`, drawing ids from `id0` upwards. */
  function AddAll(tasks: seq<Task>, datas: seq<TaskData>, id0: nat): seq<Task>
    decreases |datas|
  {
    if datas == [] then tasks
    else AddAll(AddedTasks(tasks, datas[0], id0), datas[1..], id0 + 1)
  }

  /**
   * Repeated adds into a day that starts empty give that day the orders
   * 0 .. n-1, in the order the tasks were added.
   */
  lemma {:induction false} RepeatedAddsAreDense(tasks: seq<Task>, datas: seq<TaskData>, id0: nat, d: Day)
    requires DenseDay(tasks, d)
    ensures DenseDay(AddAll(tasks, datas, id0), d)
    decreases |datas|
  {
    if datas != [] {
      AddTaskKeepsDense(tasks, datas[0], id0, d);
      RepeatedAddsAreDense(AddedTasks(tasks, datas[0], id0), datas[1..], id0 + 1, d);
    }
  }

  lemma {:induction false} EmptyDayIsDense(tasks: seq<Task>, d: Day)
    requires forall t :: t in tasks ==> t.day != d
    ensures DayTasks(tasks, d) == []
    ensures DenseDay(tasks, d)
  {
    if tasks != [] {
      var init := tasks[..|tasks| - 1];
      assert forall t :: t in init ==> t in tasks;
      EmptyDayIsDense(init, d);
    }
  }

  // ---------------------------------------------------------------------
  // updateTask, deleteTask, toggleTaskComplete
  // ---------------------------------------------------------------------

  /** `{ ...task, ...updates }`: every field present in the patch replaces the task's. */
  function ApplyPatch(t: Task, p: TaskPatch): Task
  {
    Task(t.id,
      if p.project.Some? then p.project.value else t.project,
      if p.title.Some? then p.title.value else t.title,
      if p.duration.Some? then p.duration.value else t.duration,
      if p.startTime.Some? then p.startTime.value else t.startTime,
      if p.day.Some? then p.day.value else t.day,
      if p.completed.Some? then p.completed.value else t.completed,
      if p.order.Some? then p.order.value else t.order)
  }

  function UpdatedTasks(tasks: seq<Task>, id: nat, p: TaskPatch): seq<Task>
  {
    seq(|tasks|, i requires 0 <= i < |tasks| =>
      if tasks[i].id == id then ApplyPatch(tasks[i], p) else tasks[i])
  }

  const EmptyPatch := TaskPatch(None, None, None, None, None, None, None)

  /**
   * A patch rewrites exactly the fields it carries: an empty patch changes
   * nothing, and a patch never changes an id.
   */
  lemma PatchSemantics(t: Task, p: TaskPatch)
    ensures ApplyPatch(t, EmptyPatch) == t
    ensures ApplyPatch(t, p).id == t.id
    ensures p.title.Some? ==> ApplyPatch(t, p).title == p.title.value
    ensures p.title.None? ==> ApplyPatch(t, p).title == t.title
    ensures p.day.Some? ==> ApplyPatch(t, p).day == p.day.value
    ensures p.day.None? ==> ApplyPatch(t, p).day == t.day
    ensures p.order.None? ==> ApplyPatch(t, p).order == t.order
  {
  }

  /** updateTask touches only the tasks with the given id and keeps every id. */
  lemma UpdateTouchesOnlyTarget(tasks: seq<Task>, id: nat, p: TaskPatch)
    ensures var r := UpdatedTasks(tasks, id, p);
      |r| == |tasks| && Ids(r) == Ids(tasks) &&
      (forall i :: 0 <= i < |tasks| && tasks[i].id != id ==> r[i] == tasks[i]) &&
      ((forall t :: t in tasks ==> t.id != id) ==> r == tasks)
  {
  }

  lemma {:induction false} DeleteUnknownIdKeepsTasks(tasks: seq<Task>, id: nat)
    requires forall t :: t in tasks ==> t.id != id
    ensures WithoutId(tasks, id) == tasks
  {
    if tasks != [] {
      var init := tasks[..|tasks| - 1];
      var last := tasks[|tasks| - 1];
      assert tasks == init + [last];
      assert last in tasks;
      forall t | t in init ensures t.id != id {
        assert t in tasks;
      }
      DeleteUnknownIdKeepsTasks(init, id);
      assert WithoutId(tasks, id) == WithoutId(init, id) + [last];
    }
  }

  /** A task list extended by one task keeps distinct ids iff the new id is fresh. */
  lemma DistinctIdsSnoc(a: seq<Task>, x: Task)
    ensures DistinctIds(a + [x]) <==> DistinctIds(a) && forall t :: t in a ==> t.id != x.id
  {
    var s := a + [x];
    assert forall k :: 0 <= k < |a| ==> s[k] == a[k];
    if DistinctIds(s) {
      forall t | t in a ensures t.id != x.id {
        var k :| 0 <= k < |a| && a[k] == t;
        assert s[k] == t && s[|a|] == x;
      }
    }
  }

  lemma {:induction false} WithoutIdKeepsDistinct(tasks: seq<Task>, id: nat)
    requires DistinctIds(tasks)
    ensures DistinctIds(WithoutId(tasks, id))
  {
    if tasks != [] {
      var init := tasks[..|tasks| - 1];
      var last := tasks[|tasks| - 1];
      assert tasks == init + [last];
      DistinctIdsSnoc(init, last);
      WithoutIdKeepsDistinct(init, id);
      if last.id != id {
        forall t | t in WithoutId(init, id) ensures t.id != last.id {
          WithoutIdMember(init, id, t);
        }
        DistinctIdsSnoc(WithoutId(init, id), last);
      }
    }
  }

  /**
   * Removing the id held by the task at `i` drops exactly that one task from
   * a list with distinct ids: one id fewer, the rest keep their order.
   */
  lemma WithoutPresentId(tasks: seq<Task>, i: nat)
    requires DistinctIds(tasks) && i < |tasks|
    ensures WithoutId(tasks, tasks[i].id) == tasks[..i] + tasks[i + 1..]
    ensures |WithoutId(tasks, tasks[i].id)| == |tasks| - 1
    ensures multiset(Ids(WithoutId(tasks, tasks[i].id))) + multiset{tasks[i].id} == multiset(Ids(tasks))
  {
    WithoutPresentIdSlice(tasks, i);
    IdsRemoveAt(tasks, i);
  }

  lemma {:induction false} WithoutPresentIdSlice(tasks: seq<Task>, i: nat)
    requires DistinctIds(tasks) && i < |tasks|
    ensures WithoutId(tasks, tasks[i].id) == RemoveAt(tasks, i)
  {
    var id := tasks[i].id;
    var init := tasks[..|tasks| - 1];
    var last := tasks[|tasks| - 1];
    assert tasks == init + [last];
    DistinctIdsSnoc(init, last);
    if i == |tasks| - 1 {
      DeleteUnknownIdKeepsTasks(init, id);
      assert RemoveAt(tasks, i) == init;
    } else {
      assert init[i] == tasks[i];
      assert last.id != id by {
        assert tasks[i].id != tasks[|tasks| - 1].id;
      }
      WithoutPresentIdSlice(init, i);
      assert RemoveAt(tasks, i) == RemoveAt(init, i) + [last];
    }
  }

  /**
   * deleteTask keeps the other tasks in their order and renumbers nothing:
   * an unknown id leaves the list as it was, a known one removes one task.
   */
  lemma DeleteKeepsOthers(tasks: seq<Task>, id: nat)
    requires DistinctIds(tasks)
    ensures var r := WithoutId(tasks, id);
      DistinctIds(r) &&
      (forall t :: t in r ==> t in tasks) &&
      (FindTask(tasks, id).Some? ==> |r| == |tasks| - 1) &&
      (FindTask(tasks, id).None? ==> r == tasks)
  {
    WithoutIdKeepsDistinct(tasks, id);
    forall t | t in WithoutId(tasks, id) ensures t in tasks {
      WithoutIdMember(tasks, id, t);
    }
    match FindTask(tasks, id)
    case None =>
      DeleteUnknownIdKeepsTasks(tasks, id);
    case Some(t) =>
      var i :| 0 <= i < |tasks| && tasks[i] == t;
      WithoutPresentId(tasks, i);
  }

  /** `toggleTaskComplete`. */
  function ToggledTasks(tasks: seq<Task>, id: nat): seq<Task>
  {
    seq(|tasks|, i requires 0 <= i < |tasks| =>
      if tasks[i].id == id then tasks[i].(completed := !tasks[i].completed) else tasks[i])
  }

  /** Toggling flips only the targeted tasks, and toggling twice restores the list. */
  lemma ToggleTwice(tasks: seq<Task>, id: nat)
    ensures var r := ToggledTasks(tasks, id);
      Ids(r) == Ids(tasks) &&
      (forall i :: 0 <= i < |r| ==> r[i] == (if tasks[i].id == id then tasks[i].(completed := !tasks[i].completed) else tasks[i])) &&
      ToggledTasks(r, id) == tasks
  {
  }

  // ---------------------------------------------------------------------
  // moveTask
  // ---------------------------------------------------------------------

  /** One step of moveTask's `forEach`: make room at `newOrder` in `newDay`. */
  function Bump(t: Task, newDay: Day, newOrder: int): Task
  {
    if t.day == newDay && t.order >= newOrder then t.(order := t.order + 1) else t
  }

  function BumpAll(tasks: seq<Task>, newDay: Day, newOrder: int): seq<Task>
  {
    seq(|tasks|, i requires 0 <= i < |tasks| => Bump(tasks[i], newDay, newOrder))
  }

  /** The task list after `moveTask(id, newDay, newOrder)`. */
  function MovedTasks(tasks: seq<Task>, id: nat, newDay: Day, newOrder: int): seq<Task>
  {
    match FindTask(tasks, id)
    case None => tasks
    case Some(t) => BumpAll(WithoutId(tasks, id), newDay, newOrder) + [t.(day := newDay, order := newOrder)]
  }

  lemma {:induction false} DayTasksBumpAll(tasks: seq<Task>, d: Day, newDay: Day, newOrder: int)
    ensures DayTasks(BumpAll(tasks, newDay, newOrder), d) == BumpAll(DayTasks(tasks, d), newDay, newOrder)
  {
    if tasks != [] {
      var init := tasks[..|tasks| - 1];
      DayTasksBumpAll(init, d, newDay, newOrder);
      assert BumpAll(tasks, newDay, newOrder)[..|tasks| - 1] == BumpAll(init, newDay, newOrder);
    }
  }

  /**
   * With an unknown id nothing changes. Otherwise the moved task comes last
   * with its new day and order, every other task is the old one bumped (only
   * tasks of newDay at or after newOrder move up by one), and the multiset
   * of ids is preserved.
   */
  lemma MoveShape(tasks: seq<Task>, id: nat, newDay: Day, newOrder: int)
    requires DistinctIds(tasks)
    ensures var r := MovedTasks(tasks, id, newDay, newOrder);
      (FindTask(tasks, id).None? ==> r == tasks) &&
      (FindTask(tasks, id).Some? ==>
        var t := FindTask(tasks, id).value;
        var others := WithoutId(tasks, id);
        |r| == |tasks| &&
        r[|r| - 1] == t.(day := newDay, order := newOrder) &&
        r[..|r| - 1] == BumpAll(others, newDay, newOrder) &&
        (forall i :: 0 <= i < |others| ==>
          r[i].id == others[i].id &&
          (r[i].order == others[i].order + 1 <==> (others[i].day == newDay && others[i].order >= newOrder)) &&
          (r[i] == others[i] <==> !(others[i].day == newDay && others[i].order >= newOrder))) &&
        multiset(Ids(r)) == multiset(Ids(tasks)))
  {
    if FindTask(tasks, id).Some? {
      var t := FindTask(tasks, id).value;
      var others := WithoutId(tasks, id);
      var bumped := BumpAll(others, newDay, newOrder);
      var r := MovedTasks(tasks, id, newDay, newOrder);
      assert r == bumped + [t.(day := newDay, order := newOrder)];
      var i :| 0 <= i < |tasks| && tasks[i] == t;
      WithoutPresentId(tasks, i);
      BumpAllShape(others, newDay, newOrder);
      assert r[..|r| - 1] == bumped;
      assert Ids(r) == Ids(bumped) + [id];
    }
  }

  /** Bumping keeps length and ids, and changes exactly the tasks of newDay at or after newOrder. */
  lemma BumpAllShape(others: seq<Task>, newDay: Day, newOrder: int)
    ensures |BumpAll(others, newDay, newOrder)| == |others|
    ensures Ids(BumpAll(others, newDay, newOrder)) == Ids(others)
    ensures forall i :: 0 <= i < |others| ==>
      var b := BumpAll(others, newDay, newOrder)[i];
      b.id == others[i].id &&
      (b.order == others[i].order + 1 <==> (others[i].day == newDay && others[i].order >= newOrder)) &&
      (b == others[i] <==> !(others[i].day == newDay && others[i].order >= newOrder))
  {
  }

  /** moveTask keeps task ids pairwise distinct. */
  lemma MoveKeepsDistinctIds(tasks: seq<Task>, id: nat, newDay: Day, newOrder: int)
    requires DistinctIds(tasks)
    ensures DistinctIds(MovedTasks(tasks, id, newDay, newOrder))
  {
    if FindTask(tasks, id).Some? {
      var r := MovedTasks(tasks, id, newDay, newOrder);
      var others := WithoutId(tasks, id);
      WithoutIdKeepsDistinct(tasks, id);
      forall i, j | 0 <= i < j < |r| ensures r[i].id != r[j].id {
        if j == |r| - 1 {
          assert others[i] in others;
          WithoutIdMember(tasks, id, others[i]);
        }
      }
    }
  }

  /**
   * If the other tasks of newDay have pairwise distinct orders before the
   * move, every task of newDay has a distinct order after it.
   */
  lemma MoveKeepsOrdersDistinct(tasks: seq<Task>, id: nat, newDay: Day, newOrder: int)
    requires DistinctBy(DayTasks(WithoutId(tasks, id), newDay), OrderOf)
    ensures DistinctBy(DayTasks(MovedTasks(tasks, id, newDay, newOrder), newDay), OrderOf)
  {
    if FindTask(tasks, id).Some? {
      var t := FindTask(tasks, id).value;
      var others := WithoutId(tasks, id);
      var moved := t.(day := newDay, order := newOrder);
      var before := DayTasks(others, newDay);
      DayTasksAppend(BumpAll(others, newDay, newOrder), [moved], newDay);
      DayTasksBumpAll(others, newDay, newDay, newOrder);
      assert DayTasks([moved], newDay) == [moved];
      var after := DayTasks(MovedTasks(tasks, id, newDay, newOrder), newDay);
      assert after == BumpAll(before, newDay, newOrder) + [moved];
      forall i, j | 0 <= i < j < |after| ensures after[i].order != after[j].order {
        assert before[i] in before;
        DayTasksMember(others, newDay, before[i]);
        if j < |after| - 1 {
          assert before[j] in before;
          DayTasksMember(others, newDay, before[j]);
          assert before[i].order != before[j].order;
        }
      }
    } else {
      DeleteUnknownIdKeepsTasks(tasks, id);
    }
  }

  /** The destination day after a move: the other tasks of the day, bumped, then the moved task. */
  lemma MovedDayTasks(tasks: seq<Task>, id: nat, newDay: Day, newOrder: int)
    requires FindTask(tasks, id).Some?
    ensures DayTasks(MovedTasks(tasks, id, newDay, newOrder), newDay) ==
      BumpAll(DayTasks(WithoutId(tasks, id), newDay), newDay, newOrder) +
      [FindTask(tasks, id).value.(day := newDay, order := newOrder)]
  {
    var others := WithoutId(tasks, id);
    var moved := FindTask(tasks, id).value.(day := newDay, order := newOrder);
    DayTasksAppend(BumpAll(others, newDay, newOrder), [moved], newDay);
    DayTasksBumpAll(others, newDay, newDay, newOrder);
    assert DayTasks([moved], newDay) == [moved];
  }

  /**
   * moveTask makes room: when the other tasks of newDay carry the orders
   * 0 .. n-1, the moved task sits at position min(k, n) of the day sorted by
   * order, and for k <= n the day's orders become exactly 0 .. n.
   */
  lemma MovePlacesAt(tasks: seq<Task>, id: nat, newDay: Day, k: int)
    requires FindTask(tasks, id).Some? && 0 <= k
    requires DistinctBy(DayTasks(WithoutId(tasks, id), newDay), OrderOf)
    requires forall i :: 0 <= i < |DayTasks(WithoutId(tasks, id), newDay)| ==>
      0 <= DayTasks(WithoutId(tasks, id), newDay)[i].order < |DayTasks(WithoutId(tasks, id), newDay)|
    ensures var n := |DayTasks(WithoutId(tasks, id), newDay)|;
      var sorted := SortBy(DayTasks(MovedTasks(tasks, id, newDay, k), newDay), OrderOf);
      |sorted| == n + 1 &&
      sorted[if k < n then k else n] == FindTask(tasks, id).value.(day := newDay, order := k) &&
      (k <= n ==> forall i :: 0 <= i <= n ==> sorted[i].order == i)
  {
    var before := DayTasks(WithoutId(tasks, id), newDay);
    var moved := FindTask(tasks, id).value.(day := newDay, order := k);
    MovedDayTasks(tasks, id, newDay, k);
    MoveKeepsOrdersDistinct(tasks, id, newDay, k);
    PlacedInDay(before, moved, newDay, k);
  }

  /** The placement of MovePlacesAt, on the other tasks of the day and the moved task. */
  lemma PlacedInDay(before: seq<Task>, moved: Task, newDay: Day, k: int)
    requires 0 <= k && moved.order == k
    requires DistinctBy(BumpAll(before, newDay, k) + [moved], OrderOf)
    requires forall i :: 0 <= i < |before| ==> 0 <= before[i].order < |before|
    ensures var n := |before|;
      var sorted := SortBy(BumpAll(before, newDay, k) + [moved], OrderOf);
      |sorted| == n + 1 &&
      sorted[if k < n then k else n] == moved &&
      (k <= n ==> forall i :: 0 <= i <= n ==> sorted[i].order == i)
  {
    var after := BumpAll(before, newDay, k) + [moved];
    assert after[|before|] == moved;
    if k <= |before| {
      BumpedOrdersInRange(before, moved, newDay, k);
      SortedDensePlacement(after, |before|);
    } else {
      BumpedOrdersBelow(before, moved, newDay, k);
      SortedMaxPlacement(after);
    }
  }

  /** With orders 0 .. n-1 and k <= n, the bumped day plus the moved task has orders in 0 .. n. */
  lemma BumpedOrdersInRange(before: seq<Task>, moved: Task, newDay: Day, k: int)
    requires 0 <= k <= |before| && moved.order == k
    requires forall i :: 0 <= i < |before| ==> 0 <= before[i].order < |before|
    ensures var after := BumpAll(before, newDay, k) + [moved];
      forall i :: 0 <= i < |after| ==> 0 <= OrderOf(after[i]) < |after|
  {
  }

  /** With orders 0 .. n-1 and k > n, nothing is bumped and the moved task has the largest order. */
  lemma BumpedOrdersBelow(before: seq<Task>, moved: Task, newDay: Day, k: int)
    requires |before| < k && moved.order == k
    requires forall i :: 0 <= i < |before| ==> 0 <= before[i].order < |before|
    ensures var after := BumpAll(before, newDay, k) + [moved];
      forall i :: 0 <= i < |after| ==> OrderOf(after[i]) <= OrderOf(after[|after| - 1])
  {
  }

  /** Sorting tasks whose distinct orders are 0 .. |s|-1 puts the task with order k at index k. */
  lemma SortedDensePlacement(s: seq<Task>, m: nat)
    requires m < |s| && DistinctBy(s, OrderOf)
    requires forall i :: 0 <= i < |s| ==> 0 <= OrderOf(s[i]) < |s|
    ensures var sorted := SortBy(s, OrderOf);
      (forall i :: 0 <= i < |s| ==> sorted[i].order == i) && sorted[s[m].order] == s[m]
  {
    var sorted := SortBy(s, OrderOf);
    DistinctByPermutation(s, sorted, OrderOf);
    forall j | 0 <= j < |sorted| ensures 0 <= OrderOf(sorted[j]) < |sorted| {
      assert sorted[j] in multiset(s);
    }
    DistinctSortedKeysAreDense(sorted, OrderOf);
    assert s[m] in multiset(sorted);
  }

  /** Sorting tasks with distinct orders puts the last task, whose order is the largest, last. */
  lemma SortedMaxPlacement(s: seq<Task>)
    requires |s| >= 1 && DistinctBy(s, OrderOf)
    requires forall i :: 0 <= i < |s| ==> OrderOf(s[i]) <= OrderOf(s[|s| - 1])
    ensures SortBy(s, OrderOf)[|s| - 1] == s[|s| - 1]
  {
    var sorted := SortBy(s, OrderOf);
    var last := s[|s| - 1];
    DistinctByPermutation(s, sorted, OrderOf);
    forall j | 0 <= j < |sorted| ensures OrderOf(sorted[j]) <= OrderOf(last) {
      assert sorted[j] in multiset(s);
    }
    assert last in multiset(sorted);
    var p :| 0 <= p < |sorted| && sorted[p] == last;
    var n := |s| - 1;
    assert OrderOf(sorted[p]) <= OrderOf(sorted[n]) <= OrderOf(last);
  }

  // ---------------------------------------------------------------------
  // reorderTasksInDay
  // ---------------------------------------------------------------------

  /** The callback of reorderTasksInDay's `map`. */
  function Reorder(t: Task, d: Day, orderedIds: seq<nat>): Task
  {
    if t.day != d then t
    else
      var k := IndexOf(orderedIds, t.id);
      if k >= 0 then t.(order := k) else t
  }

  function ReorderedTasks(tasks: seq<Task>, d: Day, orderedIds: seq<nat>): seq<Task>
  {
    seq(|tasks|, i requires 0 <= i < |tasks| => Reorder(tasks[i], d, orderedIds))
  }

  /**
   * Only the order of tasks in `d` whose id is listed changes, to the id's
   * position in the list; tasks of other days and unlisted tasks stay as
   * they were.
   */
  lemma ReorderTouchesOnlyDay(tasks: seq<Task>, d: Day, orderedIds: seq<nat>)
    ensures var r := ReorderedTasks(tasks, d, orderedIds);
      |r| == |tasks| && Ids(r) == Ids(tasks) &&
      forall i :: 0 <= i < |tasks| ==>
        r[i] == tasks[i].(order := r[i].order) &&
        (tasks[i].day != d || tasks[i].id !in orderedIds ==> r[i] == tasks[i]) &&
        (tasks[i].day == d && tasks[i].id in orderedIds ==>
          0 <= r[i].order < |orderedIds| && orderedIds[r[i].order] == tasks[i].id)
  {
  }

  lemma {:induction false} DayTasksReordered(tasks: seq<Task>, d: Day, orderedIds: seq<nat>)
    ensures DayTasks(ReorderedTasks(tasks, d, orderedIds), d) == ReorderedTasks(DayTasks(tasks, d), d, orderedIds)
  {
    if tasks != [] {
      var init := tasks[..|tasks| - 1];
      DayTasksReordered(init, d, orderedIds);
      assert ReorderedTasks(tasks, d, orderedIds)[..|tasks| - 1] == ReorderedTasks(init, d, orderedIds);
    }
  }

  /**
   * Within one day whose ids are distinct, reordering by a permutation of
   * those ids gives each task the position of its id, and these positions
   * are pairwise distinct and lie in 0 .. |day|-1.
   */
  lemma ReorderedDayOrders(day: seq<Task>, d: Day, orderedIds: seq<nat>)
    requires forall i :: 0 <= i < |day| ==> day[i].day == d
    requires DistinctIds(day)
    requires multiset(orderedIds) == multiset(Ids(day))
    ensures var after := ReorderedTasks(day, d, orderedIds);
      |orderedIds| == |after| &&
      (forall i :: 0 <= i < |after| ==>
        after[i].order == IndexOf(orderedIds, after[i].id) && 0 <= after[i].order < |after|) &&
      DistinctBy(after, OrderOf)
  {
    var after := ReorderedTasks(day, d, orderedIds);
    assert |orderedIds| == |day| by {
      assert |multiset(orderedIds)| == |multiset(Ids(day))|;
    }
    forall i | 0 <= i < |day| ensures day[i].id in orderedIds {
      assert day[i].id == Ids(day)[i];
      assert day[i].id in multiset(orderedIds);
    }
    forall i, j | 0 <= i < j < |after| ensures after[i].order != after[j].order {
      if after[i].order == after[j].order {
        IndexOfInjective(orderedIds, day[i].id, day[j].id);
      }
    }
  }

  /**
   * Sorting by order a list whose orders are the distinct positions of its
   * ids in `orderedIds` reads `orderedIds` back.
   */
  lemma SortedByPositionReadsBack(after: seq<Task>, orderedIds: seq<nat>)
    requires |orderedIds| == |after|
    requires forall i :: 0 <= i < |after| ==>
      after[i].order == IndexOf(orderedIds, after[i].id) && 0 <= after[i].order < |after|
    requires DistinctBy(after, OrderOf)
    ensures Ids(SortBy(after, OrderOf)) == orderedIds
  {
    var sorted := SortBy(after, OrderOf);
    DistinctByPermutation(after, sorted, OrderOf);
    PositionOrdersPermute(after, sorted, orderedIds);
    DenseOrdersReadBack(sorted, orderedIds);
  }

  /** A sorted list whose orders are 0, 1, 2, ... and the positions of its ids lists `orderedIds`. */
  lemma DenseOrdersReadBack(sorted: seq<Task>, orderedIds: seq<nat>)
    requires |orderedIds| == |sorted|
    requires SortedBy(sorted, OrderOf) && DistinctBy(sorted, OrderOf)
    requires forall k :: 0 <= k < |sorted| ==>
      0 <= OrderOf(sorted[k]) < |sorted| && OrderOf(sorted[k]) == IndexOf(orderedIds, sorted[k].id)
    ensures Ids(sorted) == orderedIds
  {
    DistinctSortedKeysAreDense(sorted, OrderOf);
    forall k | 0 <= k < |sorted| ensures Ids(sorted)[k] == orderedIds[k] {
      assert IndexOf(orderedIds, sorted[k].id) == k;
    }
  }

  /** Rearranging a list keeps "each order is the position of the id in `orderedIds`". */
  lemma PositionOrdersPermute(a: seq<Task>, b: seq<Task>, orderedIds: seq<nat>)
    requires multiset(a) == multiset(b)
    requires forall i :: 0 <= i < |a| ==>
      a[i].order == IndexOf(orderedIds, a[i].id) && 0 <= a[i].order < |a|
    ensures forall k :: 0 <= k < |b| ==>
      0 <= OrderOf(b[k]) < |b| && OrderOf(b[k]) == IndexOf(orderedIds, b[k].id)
  {
    assert |a| == |multiset(a)| == |b|;
    forall k | 0 <= k < |b|
      ensures 0 <= OrderOf(b[k]) < |b| && OrderOf(b[k]) == IndexOf(orderedIds, b[k].id)
    {
      assert b[k] in multiset(a);
      var i :| 0 <= i < |a| && a[i] == b[k];
    }
  }

  /**
   * When `orderedIds` is a permutation of the ids of the day's tasks (which
   * are distinct), sorting the reordered day by order reads `orderedIds`
   * back.
   */
  lemma ReorderReadBack(tasks: seq<Task>, d: Day, orderedIds: seq<nat>)
    requires DistinctIds(DayTasks(tasks, d))
    requires multiset(orderedIds) == multiset(Ids(DayTasks(tasks, d)))
    ensures Ids(SortBy(DayTasks(ReorderedTasks(tasks, d, orderedIds), d), OrderOf)) == orderedIds
  {
    var day := DayTasks(tasks, d);
    forall i | 0 <= i < |day| ensures day[i].day == d {
      assert day[i] in day;
      DayTasksMember(tasks, d, day[i]);
    }
    DayTasksReordered(tasks, d, orderedIds);
    ReorderedDayOrders(day, d, orderedIds);
    SortedByPositionReadsBack(ReorderedTasks(day, d, orderedIds), orderedIds);
  }

  // ---------------------------------------------------------------------
  // Sums over a task list (`filter(...).reduce((sum, t) => sum + t.duration, 0)`)
  // ---------------------------------------------------------------------

  /** Total planned minutes. */
  function Minutes(tasks: seq<Task>): int
  {
    if tasks == [] then 0
    else Minutes(tasks[..|tasks| - 1]) + tasks[|tasks| - 1].duration
  }

  /** Minutes of the tasks of one project. */
  function ProjectMinutes(tasks: seq<Task>, p: Project): int
  {
    if tasks == [] then 0
    else
      var last := tasks[|tasks| - 1];
      ProjectMinutes(tasks[..|tasks| - 1], p) + (if last.project == p then last.duration else 0)
  }

  /** Number of completed tasks. */
  function CompletedCount(tasks: seq<Task>): nat
  {
    if tasks == [] then 0
    else CompletedCount(tasks[..|tasks| - 1]) + (if tasks[|tasks| - 1].completed then 1 else 0)
  }

  /** Minutes of the completed tasks. */
  function CompletedMinutes(tasks: seq<Task>): int
  {
    if tasks == [] then 0
    else
      var last := tasks[|tasks| - 1];
      CompletedMinutes(tasks[..|tasks| - 1]) + (if last.completed then last.duration else 0)
  }

  predicate NonNegativeDurations(tasks: seq<Task>)
  {
    forall i :: 0 <= i < |tasks| ==> tasks[i].duration >= 0
  }

  /** The four per-project sums split the total. */
  lemma {:induction false} ProjectMinutesPartition(tasks: seq<Task>)
    ensures ProjectMinutes(tasks, Foundation) + ProjectMinutes(tasks, Drive)
      + ProjectMinutes(tasks, Joy) + ProjectMinutes(tasks, Reflection) == Minutes(tasks)
  {
    if tasks != [] {
      ProjectMinutesPartition(tasks[..|tasks| - 1]);
    }
  }

  /**
   * At most every task is completed, and, when no duration is negative, the
   * completed minutes do not exceed the planned minutes, nor any single
   * project's minutes the total.
   */
  lemma {:induction false} CompletedBounds(tasks: seq<Task>)
    ensures CompletedCount(tasks) <= |tasks|
    ensures NonNegativeDurations(tasks) ==> 0 <= CompletedMinutes(tasks) <= Minutes(tasks)
    ensures NonNegativeDurations(tasks) ==> forall p :: 0 <= ProjectMinutes(tasks, p) <= Minutes(tasks)
  {
    if tasks != [] {
      var init := tasks[..|tasks| - 1];
      assert NonNegativeDurations(tasks) ==> NonNegativeDurations(init);
      CompletedBounds(init);
    }
  }

  /** With positive durations the total is positive exactly when there are tasks. */
  lemma {:induction false} PositiveMinutes(tasks: seq<Task>)
    requires forall i :: 0 <= i < |tasks| ==> tasks[i].duration > 0
    ensures Minutes(tasks) > 0 <==> tasks != []
    ensures Minutes(tasks) >= 0
  {
    if tasks != [] {
      PositiveMinutes(tasks[..|tasks| - 1]);
    }
  }

  // ---------------------------------------------------------------------
  // importFromJSON, exportToJSON, clearCurrentWeek
  // ---------------------------------------------------------------------

  /** An imported entry as a task: never completed. */
  function FromImport(t: ImportTask, id: nat, order: int): Task
  {
    Task(id, t.project, t.title, t.duration, t.startTime, t.day, false, order)
  }

  /** `json.tasks.map((t, index) => ...)`: fresh ids, and order set to the index. */
  function ImportDrafts(batch: seq<ImportTask>, id0: nat): seq<Task>
  {
    seq(|batch|, j requires 0 <= j < |batch| => FromImport(batch[j], id0 + j, j))
  }

  /**
   * What the `dayGroups` pass leaves: each task's order becomes the number
   * of tasks before it in the list that share its day.
   */
  function Renumbered(ts: seq<Task>): seq<Task>
  {
    seq(|ts|, j requires 0 <= j < |ts| => ts[j].(order := |DayTasks(ts[..j], ts[j].day)|))
  }

  function ImportedBatch(batch: seq<ImportTask>, id0: nat): seq<Task>
  {
    Renumbered(ImportDrafts(batch, id0))
  }

  /** The current week after `importFromJSON(doc)`, with fresh ids from `id0`. */
  function ImportedWeek(w: WeekPlan, doc: ImportDoc, id0: nat): WeekPlan
  {
    w.(weekStart := if doc.weekStart.Some? then doc.weekStart.value else w.weekStart,
       structureOption := if TruthyNumber(doc.option) then doc.option.value else w.structureOption,
       tasks := w.tasks + ImportedBatch(doc.tasks, id0))
  }

  /** `exportToJSON`: the week as a document, one entry per task, in order. */
  function ToImport(t: Task): ImportTask
  {
    ImportTask(t.day, t.project, t.title, t.duration, t.startTime)
  }

  function ExportDoc(w: WeekPlan): ImportDoc
  {
    ImportDoc(Some(w.weekStart), Some(w.structureOption),
      seq(|w.tasks|, i requires 0 <= i < |w.tasks| => ToImport(w.tasks[i])))
  }

  /** Two task lists with the same days position by position. */
  ghost predicate SameDays(a: seq<Task>, b: seq<Task>)
  {
    |a| == |b| && forall i :: 0 <= i < |a| ==> a[i].day == b[i].day
  }

  lemma {:induction false} SameDaysSameCounts(a: seq<Task>, b: seq<Task>, d: Day)
    requires SameDays(a, b)
    ensures |DayTasks(a, d)| == |DayTasks(b, d)|
  {
    if a != [] {
      SameDaysSameCounts(a[..|a| - 1], b[..|b| - 1], d);
    }
  }

  lemma RenumberedSnoc(ts: seq<Task>, x: Task)
    ensures Renumbered(ts + [x]) == Renumbered(ts) + [x.(order := |DayTasks(ts, x.day)|)]
  {
    var s := ts + [x];
    assert s[..|ts|] == ts;
    forall j | 0 <= j < |ts| ensures s[..j] == ts[..j] {
    }
  }

  /** The renumbering changes only orders, and leaves every day dense. */
  lemma {:induction false} RenumberedIsDense(ts: seq<Task>, d: Day)
    ensures SameDays(Renumbered(ts), ts)
    ensures DenseDay(Renumbered(ts), d)
  {
    if ts != [] {
      var init := ts[..|ts| - 1];
      var x := ts[|ts| - 1];
      assert ts == init + [x];
      RenumberedSnoc(init, x);
      RenumberedIsDense(init, d);
      SameDaysSameCounts(Renumbered(init), init, d);
      var y := x.(order := |DayTasks(init, x.day)|);
      assert Renumbered(ts) == Renumbered(init) + [y];
      assert Renumbered(ts)[..|ts| - 1] == Renumbered(init);
    }
  }

  /**
   * importFromJSON keeps the existing tasks as an unchanged prefix; each
   * imported task gets a fresh id, the document's fields, `completed =
   * false`, and as order the number of earlier imported tasks of its day, so
   * every day of the batch is numbered 0, 1, 2, ...; weekStart and
   * structureOption change only when the document's values are truthy.
   */
  lemma ImportShape(w: WeekPlan, doc: ImportDoc, id0: nat)
    ensures var r := ImportedWeek(w, doc, id0);
      var batch := ImportedBatch(doc.tasks, id0);
      r.tasks == w.tasks + batch && |batch| == |doc.tasks| &&
      (forall j :: 0 <= j < |batch| ==>
        batch[j].id == id0 + j && !batch[j].completed &&
        ToImport(batch[j]) == doc.tasks[j] &&
        batch[j].order == |DayTasks(batch[..j], batch[j].day)|) &&
      (forall d :: DenseDay(batch, d)) &&
      r.id == w.id && r.reflection == w.reflection && r.budgetHours == w.budgetHours &&
      r.weekStart == (if doc.weekStart.Some? then doc.weekStart.value else w.weekStart) &&
      r.structureOption == (if TruthyNumber(doc.option) then doc.option.value else w.structureOption)
  {
    var drafts := ImportDrafts(doc.tasks, id0);
    BatchEntries(doc.tasks, id0);
    RenumberedOrders(drafts);
    forall d ensures DenseDay(Renumbered(drafts), d) {
      RenumberedIsDense(drafts, d);
    }
  }

  /** Each imported task carries its fresh id, `completed = false` and the document's fields. */
  lemma BatchEntries(tasks: seq<ImportTask>, id0: nat)
    ensures var batch := ImportedBatch(tasks, id0);
      |batch| == |tasks| &&
      forall j :: 0 <= j < |batch| ==>
        batch[j].id == id0 + j && !batch[j].completed && ToImport(batch[j]) == tasks[j]
  {
  }

  /** Each renumbered task's order counts the earlier tasks of its day. */
  lemma RenumberedOrders(drafts: seq<Task>)
    ensures var batch := Renumbered(drafts);
      forall j :: 0 <= j < |batch| ==> batch[j].order == |DayTasks(batch[..j], batch[j].day)|
  {
    var batch := Renumbered(drafts);
    forall j | 0 <= j < |batch| ensures batch[j].order == |DayTasks(batch[..j], batch[j].day)| {
      RenumberedPrefix(drafts, j);
      RenumberedIsDense(drafts[..j], batch[j].day);
      SameDaysSameCounts(Renumbered(drafts[..j]), drafts[..j], batch[j].day);
    }
  }

  lemma RenumberedPrefix(ts: seq<Task>, j: nat)
    requires j <= |ts|
    ensures Renumbered(ts)[..j] == Renumbered(ts[..j])
  {
    forall k | 0 <= k < j ensures ts[..k] == ts[..j][..k] {
    }
  }

  /** Exporting after an import lists the old tuples followed by the document's. */
  lemma ExportAfterImport(w: WeekPlan, doc: ImportDoc, id0: nat)
    ensures ExportDoc(ImportedWeek(w, doc, id0)).tasks == ExportDoc(w).tasks + doc.tasks
  {
    ImportShape(w, doc, id0);
  }

  /**
   * Importing an export into a week without tasks reproduces the export:
   * the same tuples in the same order, the same weekStart and, when it is
   * truthy, the same structure option.
   */
  lemma ExportImportRoundTrip(v: WeekPlan, w: WeekPlan, id0: nat)
    requires w.tasks == [] && v.structureOption != 0
    ensures ExportDoc(ImportedWeek(w, ExportDoc(v), id0)) == ExportDoc(v)
  {
    ExportAfterImport(w, ExportDoc(v), id0);
  }

  /** `createEmptyReflection`: every note empty, not marked saved. */
  function EmptyReflection(): WeeklyReflection
  {
    WeeklyReflection(ProjectNotes("", "", ""), ProjectNotes("", "", ""), "", None)
  }

  /** `clearCurrentWeek`. */
  function ClearedWeek(w: WeekPlan): WeekPlan
  {
    w.(tasks := [], reflection := EmptyReflection())
  }

  // ---------------------------------------------------------------------
  // The archive of weeks and navigation
  // ---------------------------------------------------------------------

  /** `createEmptyWeekPlan()` with its weekStart replaced by `ws`. */
  function EmptyWeek(id: nat, ws: Date): WeekPlan
  {
    WeekPlan(id, ws, 1, [], EmptyReflection(), None)
  }

  function WeekStarts(weeks: seq<WeekPlan>): seq<Date>
  {
    seq(|weeks|, i requires 0 <= i < |weeks| => weeks[i].weekStart)
  }

  /** `weeks.findIndex(w => w.weekStart === ws)`. */
  function WeekIndex(weeks: seq<WeekPlan>, ws: Date): (i: int)
    ensures -1 <= i < |weeks|
    ensures i >= 0 ==> weeks[i].weekStart == ws && forall j :: 0 <= j < i ==> weeks[j].weekStart != ws
    ensures i == -1 <==> forall j :: 0 <= j < |weeks| ==> weeks[j].weekStart != ws
  {
    var starts := WeekStarts(weeks);
    assert forall j :: 0 <= j < |weeks| ==> starts[j] == weeks[j].weekStart;
    IndexOf(starts, ws)
  }

  /** `weeks.find(w => w.weekStart === ws)`. */
  function FindWeek(weeks: seq<WeekPlan>, ws: Date): Option<WeekPlan>
  {
    var i := WeekIndex(weeks, ws);
    if i >= 0 then Some(weeks[i]) else None
  }

  /** No two archived weeks share a weekStart. */
  predicate DistinctWeekStarts(weeks: seq<WeekPlan>)
  {
    forall i, j :: 0 <= i < j < |weeks| ==> weeks[i].weekStart != weeks[j].weekStart
  }

  /** Save `w` into the archive: replace the entry with its weekStart, else append. */
  function Archive(weeks: seq<WeekPlan>, w: WeekPlan): seq<WeekPlan>
  {
    var i := WeekIndex(weeks, w.weekStart);
    if i >= 0 then weeks[i := w] else weeks + [w]
  }

  /**
   * Archiving stores the week under its weekStart, leaves the lookup of
   * every other weekStart as it was, grows the archive only when the key is
   * new, and keeps keys distinct.
   */
  lemma ArchiveStores(weeks: seq<WeekPlan>, w: WeekPlan)
    ensures var r := Archive(weeks, w);
      FindWeek(r, w.weekStart) == Some(w) &&
      (forall ws :: ws != w.weekStart ==> FindWeek(r, ws) == FindWeek(weeks, ws)) &&
      |r| == |weeks| + (if FindWeek(weeks, w.weekStart).Some? then 0 else 1) &&
      (DistinctWeekStarts(weeks) ==> DistinctWeekStarts(r))
  {
    var r := Archive(weeks, w);
    var i := WeekIndex(weeks, w.weekStart);
    if i >= 0 {
      assert r[i] == w;
      assert WeekIndex(r, w.weekStart) == i;
    } else {
      assert r[|weeks|] == w;
      assert WeekIndex(r, w.weekStart) == |weeks|;
    }
    forall ws | ws != w.weekStart ensures FindWeek(r, ws) == FindWeek(weeks, ws) {
      var a := WeekIndex(r, ws);
      var b := WeekIndex(weeks, ws);
      if b >= 0 {
        assert r[b] == weeks[b];
        assert a == b;
      } else {
        assert a == -1;
      }
    }
  }

  /** The store's `currentWeek` and `weeks` together. */
  datatype Nav = Nav(current: WeekPlan, weeks: seq<WeekPlan>)

  /** `goToWeek(ws)`, with `freshId` for a week that has to be created. */
  function GoTo(cur: WeekPlan, weeks: seq<WeekPlan>, ws: Date, freshId: nat): Nav
  {
    var archived := Archive(weeks, cur);
    match FindWeek(archived, ws)
    case Some(target) => Nav(target, archived)
    case None => Nav(EmptyWeek(freshId, ws), archived + [EmptyWeek(freshId, ws)])
  }

  /**
   * After goToWeek(ws) the current week has weekStart ws and is what the
   * archive holds for ws: the outgoing week itself when ws is its own date,
   * else the archived week, else a fresh empty week that is appended. The
   * outgoing week is archived, every other key is left alone, and keys stay
   * distinct.
   */
  lemma GoToOpensTarget(cur: WeekPlan, weeks: seq<WeekPlan>, ws: Date, freshId: nat)
    ensures var r := GoTo(cur, weeks, ws, freshId);
      r.current.weekStart == ws &&
      FindWeek(r.weeks, ws) == Some(r.current) &&
      FindWeek(r.weeks, cur.weekStart) == Some(cur) &&
      r.current == (if ws == cur.weekStart then cur
                    else if FindWeek(weeks, ws).Some? then FindWeek(weeks, ws).value
                    else EmptyWeek(freshId, ws)) &&
      (forall k :: k != ws && k != cur.weekStart ==> FindWeek(r.weeks, k) == FindWeek(weeks, k)) &&
      (DistinctWeekStarts(weeks) ==> DistinctWeekStarts(r.weeks))
  {
    var archived := Archive(weeks, cur);
    ArchiveStores(weeks, cur);
    if FindWeek(archived, ws).None? {
      ArchiveStores(archived, EmptyWeek(freshId, ws));
      assert Archive(archived, EmptyWeek(freshId, ws)) == archived + [EmptyWeek(freshId, ws)];
    } else {
      var i := WeekIndex(archived, ws);
      assert archived[i].weekStart == ws;
    }
  }

  /**
   * Going from week A to week B and back returns to A's week exactly as it
   * was left, and the archive then holds B's week as it was left.
   */
  lemma GoToRoundTrip(a: WeekPlan, weeks: seq<WeekPlan>, b: Date, edited: WeekPlan, id1: nat, id2: nat)
    requires b != a.weekStart
    requires edited.weekStart == b
    ensures var there := GoTo(a, weeks, b, id1);
      var back := GoTo(edited, there.weeks, a.weekStart, id2);
      back.current == a && FindWeek(back.weeks, b) == Some(edited)
  {
    var there := GoTo(a, weeks, b, id1);
    GoToOpensTarget(a, weeks, b, id1);
    GoToOpensTarget(edited, there.weeks, a.weekStart, id2);
  }

  /**
   * `createNewWeek`: an empty week seven days after the current one, with
   * the current structure option, while the outgoing week is archived. The
   * new week is not put in the archive.
   */
  function NextWeek(cur: WeekPlan, weeks: seq<WeekPlan>, freshId: nat): Nav
  {
    Nav(EmptyWeek(freshId, AddDays(cur.weekStart, 7)).(structureOption := cur.structureOption),
        Archive(weeks, cur))
  }

  /**
   * The week createNewWeek opens has no tasks and an empty reflection even
   * when the archive already holds a week at that date; that archived week
   * stays untouched until the next navigation, which overwrites it with the
   * new week.
   */
  lemma NextWeekIgnoresArchive(cur: WeekPlan, weeks: seq<WeekPlan>, freshId: nat, edited: WeekPlan, id2: nat)
    requires edited.weekStart == AddDays(cur.weekStart, 7)
    ensures var r := NextWeek(cur, weeks, freshId);
      var next := AddDays(cur.weekStart, 7);
      r.current.weekStart == next && r.current.tasks == [] &&
      r.current.reflection == EmptyReflection() &&
      r.current.structureOption == cur.structureOption &&
      FindWeek(r.weeks, cur.weekStart) == Some(cur) &&
      FindWeek(r.weeks, next) == FindWeek(weeks, next) &&
      (DistinctWeekStarts(weeks) ==> DistinctWeekStarts(r.weeks)) &&
      FindWeek(GoTo(edited, r.weeks, cur.weekStart, id2).weeks, next) == Some(edited)
  {
    var r := NextWeek(cur, weeks, freshId);
    ArchiveStores(weeks, cur);
    GoToOpensTarget(edited, r.weeks, cur.weekStart, id2);
  }
}
