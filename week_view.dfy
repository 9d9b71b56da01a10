/**
 * The week board: what a finished drag asks of the store (copy, move to a
 * column, move onto a card of another day, or reorder within the day), the
 * weekly statistics in the sidebar, and the weekly time budget.
 */
module WeekView {
  import opened Types
  import opened Sequences
  import opened WeekOps
  import opened PlannerStore

  /** What the card was dropped on: a day column, or another card. */
  datatype DropTarget = Column(day: Day) | Card(id: nat)

  /** The store action a drop issues, if any. */
  datatype StoreCall =
    | NoCall
    | AddCall(data: TaskData)
    | MoveCall(id: nat, newDay: Day, newOrder: int)
    | ReorderCall(day: Day, orderedIds: seq<nat>)

  /** The task list after `call`, with `freshId` for a task that is added. */
  function CallEffect(tasks: seq<Task>, call: StoreCall, freshId: nat): seq<Task>
  {
    match call
    case NoCall => tasks
    case AddCall(data) => AddedTasks(tasks, data, freshId)
    case MoveCall(id, d, o) => MovedTasks(tasks, id, d, o)
    case ReorderCall(d, ids) => ReorderedTasks(tasks, d, ids)
  }

  /** The day a copy lands on: the column's day, else the hovered card's day, else the original's. */
  function CopyDay(tasks: seq<Task>, task: Task, over: DropTarget): Day
  {
    match over
    case Column(d) => d
    case Card(oid) =>
      match FindTask(tasks, oid)
      case Some(ot) => ot.day
      case None => task.day
  }

  /** The copy keeps the project, title, duration and start time, and is not completed. */
  function CopyData(task: Task, day: Day): TaskData
  {
    TaskData(task.project, task.title, task.duration, task.startTime, day, false)
  }

  /** A day's ids in card order: `dayTasks.map(t => t.id)` after sorting by order. */
  function DayIds(tasks: seq<Task>, d: Day): seq<nat>
  {
    Ids(SortBy(DayTasks(tasks, d), OrderOf))
  }

  /** The card order lists exactly the ids of the day's tasks. */
  lemma DayIdsArePermutation(tasks: seq<Task>, d: Day)
    ensures multiset(DayIds(tasks, d)) == multiset(Ids(DayTasks(tasks, d)))
  {
    IdsOfPermutation(SortBy(DayTasks(tasks, d), OrderOf), DayTasks(tasks, d));
  }

  /** A task of the week has its id among the ids of its own day. */
  lemma OwnIdInDay(tasks: seq<Task>, t: Task)
    requires t in tasks
    ensures t.id in DayIds(tasks, t.day)
  {
    DayTasksMember(tasks, t.day, t);
    DayIdsArePermutation(tasks, t.day);
    var day := DayTasks(tasks, t.day);
    var i :| 0 <= i < |day| && day[i] == t;
    assert Ids(day)[i] == t.id;
    assert t.id in multiset(Ids(day));
  }

  /**
   * `call` reorders the day of `task` so that its id takes the index the
   * card `oid` held in the day's card order: the other ids keep their
   * order, and the new list is a permutation of the day's ids.
   */
  predicate ReordersOnto(tasks: seq<Task>, task: Task, oid: nat, call: StoreCall)
  {
    var ids := DayIds(tasks, task.day);
    var oldIndex := IndexOf(ids, task.id);
    var newIndex := IndexOf(ids, oid);
    call.ReorderCall? && call.day == task.day &&
    0 <= oldIndex < |ids| && 0 <= newIndex < |ids| &&
    |call.orderedIds| == |ids| &&
    call.orderedIds[newIndex] == task.id &&
    call.orderedIds[..newIndex] + call.orderedIds[newIndex + 1..] == ids[..oldIndex] + ids[oldIndex + 1..] &&
    multiset(call.orderedIds) == multiset(Ids(DayTasks(tasks, task.day)))
  }

  /**
   * The call a plain (not duplicating) drop of `task` on `target` makes: a
   * column of another day moves it to the end of that day, its own column
   * does nothing, an unknown card does nothing, a card of another day moves
   * it to that card's order, and a card of its own day reorders the day.
   */
  predicate PlainDrop(tasks: seq<Task>, task: Task, target: DropTarget, call: StoreCall)
  {
    if target.Column? then
      call == (if task.day != target.day then MoveCall(task.id, target.day, |DayTasks(tasks, target.day)|) else NoCall)
    else if FindTask(tasks, target.id).None? then
      call == NoCall
    else
      var ot := FindTask(tasks, target.id).value;
      if ot.day != task.day then call == MoveCall(task.id, ot.day, ot.order)
      else ReordersOnto(tasks, task, target.id, call)
  }

  /**
   * `handleDragEnd`: the store call a drop of the card `activeId` on `over`
   * makes, with `isDuplicating` the Ctrl/Cmd state. A reorder removes the
   * dragged id from the day's card order and inserts it at the hovered
   * card's former position.
   */
  method DragEndCall(tasks: seq<Task>, activeId: nat, over: Option<DropTarget>, isDuplicating: bool)
    returns (call: StoreCall)
    ensures over.None? || FindTask(tasks, activeId).None? ==> call == NoCall
    ensures over.Some? && FindTask(tasks, activeId).Some? ==>
      var task := FindTask(tasks, activeId).value;
      if isDuplicating then call == AddCall(CopyData(task, CopyDay(tasks, task, over.value)))
      else PlainDrop(tasks, task, over.value, call)
  {
    if over.None? {
      return NoCall;
    }
    var found := FindTask(tasks, activeId);
    if found.None? {
      return NoCall;
    }
    var task := found.value;
    if isDuplicating {
      var targetDay := task.day;
      match over.value {
        case Column(d) =>
          targetDay := d;
        case Card(oid) =>
          var overTask := FindTask(tasks, oid);
          if overTask.Some? {
            targetDay := overTask.value.day;
          }
      }
      return AddCall(CopyData(task, targetDay));
    }
    call := PlaceCall(tasks, task, over.value);
  }

  /** The move or reorder a plain (not duplicating) drop of `task` on `target` makes. */
  method PlaceCall(tasks: seq<Task>, task: Task, target: DropTarget) returns (call: StoreCall)
    requires task in tasks
    ensures PlainDrop(tasks, task, target, call)
  {
    match target {
      case Column(newDay) =>
        if task.day != newDay {
          var tasksInNewDay := DayTasks(tasks, newDay);
          call := MoveCall(task.id, newDay, |tasksInNewDay|);
        } else {
          call := NoCall;
        }
      case Card(oid) =>
        var overTask := FindTask(tasks, oid);
        if overTask.None? {
          return NoCall;
        }
        var ot := overTask.value;
        if task.day == ot.day {
          call := ReorderOnCard(tasks, task, ot);
        } else {
          call := MoveCall(task.id, ot.day, ot.order);
        }
    }
  }

  /**
   * The reorder branch of `handleDragEnd`: the dragged card `task` dropped
   * on the card `ot` of the same day takes the place `ot` held in the
   * day's card order.
   */
  method ReorderOnCard(tasks: seq<Task>, task: Task, ot: Task) returns (call: StoreCall)
    requires task in tasks && ot in tasks && task.day == ot.day
    ensures ReordersOnto(tasks, task, ot.id, call)
  {
    var ids := DayIds(tasks, task.day);
    OwnIdInDay(tasks, task);
    OwnIdInDay(tasks, ot);
    var oldIndex := IndexOf(ids, task.id);
    var newIndex := IndexOf(ids, ot.id);
    var newOrderedIds := ids;
    newOrderedIds := newOrderedIds[..oldIndex] + newOrderedIds[oldIndex + 1..];
    newOrderedIds := newOrderedIds[..newIndex] + [task.id] + newOrderedIds[newIndex..];
    SpliceFacts(ids, oldIndex, newIndex, task.id);
    DayIdsArePermutation(tasks, task.day);
    call := ReorderCall(task.day, newOrderedIds);
  }

  /**
   * Removing position `i` and inserting `x` at position `j` puts `x` at `j`,
   * keeps everything else in order, and is a permutation when `x` was at `i`.
   */
  lemma SpliceFacts(ids: seq<nat>, i: nat, j: nat, x: nat)
    requires i < |ids| && j < |ids| && ids[i] == x
    ensures var removed := ids[..i] + ids[i + 1..];
      var r := removed[..j] + [x] + removed[j..];
      |r| == |ids| && r[j] == x && r[..j] + r[j + 1..] == removed &&
      multiset(r) == multiset(ids)
  {
    var removed := ids[..i] + ids[i + 1..];
    var r := removed[..j] + [x] + removed[j..];
    assert r[..j] == removed[..j];
    assert r[j + 1..] == removed[j..];
    assert removed[..j] + removed[j..] == removed;
    assert ids == ids[..i] + [x] + ids[i + 1..];
    assert multiset(ids) == multiset(removed) + multiset{x};
    assert multiset(r) == multiset(removed[..j]) + multiset{x} + multiset(removed[j..]);
  }

  /**
   * A reorder issued by a drop takes effect: afterwards the day's cards,
   * sorted by order, list exactly the new id sequence.
   */
  lemma DropReorderTakesEffect(tasks: seq<Task>, d: Day, orderedIds: seq<nat>)
    requires DistinctIds(tasks)
    requires multiset(orderedIds) == multiset(Ids(DayTasks(tasks, d)))
    ensures DayIds(CallEffect(tasks, ReorderCall(d, orderedIds), 0), d) == orderedIds
  {
    var after := ReorderedTasks(tasks, d, orderedIds);
    assert CallEffect(tasks, ReorderCall(d, orderedIds), 0) == after;
    DayTasksKeepsDistinct(tasks, d);
    ReorderReadBack(tasks, d, orderedIds);
    assert DayIds(after, d) == Ids(SortBy(DayTasks(after, d), OrderOf));
  }

  /**
   * A move onto another day's column appends the task at the end of that
   * day: when the day's orders were 0, 1, 2, ... they still are, with the
   * moved task last.
   */
  lemma DropOnColumnKeepsDense(tasks: seq<Task>, t: Task, d: Day)
    requires DistinctIds(tasks) && t in tasks && t.day != d
    requires DenseDay(tasks, d)
    ensures var r := MovedTasks(tasks, t.id, d, |DayTasks(tasks, d)|);
      DenseDay(r, d) &&
      DayTasks(r, d) == DayTasks(tasks, d) + [t.(day := d, order := |DayTasks(tasks, d)|)]
  {
    var n := |DayTasks(tasks, d)|;
    var found := FindTask(tasks, t.id);
    assert found.Some?;
    var u := found.value;
    assert u == t by {
      var i :| 0 <= i < |tasks| && tasks[i] == t;
      var j :| 0 <= j < |tasks| && tasks[j] == u;
      assert tasks[i].id == tasks[j].id;
    }
    var others := WithoutId(tasks, t.id);
    var moved := t.(day := d, order := n);
    var day := DayTasks(tasks, d);
    var r := MovedTasks(tasks, t.id, d, n);
    assert r == BumpAll(others, d, n) + [moved];
    OffDayRemoval(tasks, t.id, d);
    DayTasksBumpAll(others, d, d, n);
    BumpBelowIsIdentity(day, d, n);
    DayTasksAppend(BumpAll(others, d, n), [moved], d);
    assert DayTasks([moved], d) == [moved];
    assert DayTasks(r, d) == day + [moved];
    forall k | 0 <= k < |day| + 1 ensures DayTasks(r, d)[k].order == k {
      if k < |day| {
        assert DayTasks(r, d)[k] == day[k];
      }
    }
  }

  /** Removing an id none of whose tasks is on `d` leaves `d`'s tasks alone. */
  lemma {:induction false} OffDayRemoval(tasks: seq<Task>, id: nat, d: Day)
    requires forall t :: t in tasks && t.id == id ==> t.day != d
    ensures DayTasks(WithoutId(tasks, id), d) == DayTasks(tasks, d)
  {
    if tasks != [] {
      var init := tasks[..|tasks| - 1];
      var last := tasks[|tasks| - 1];
      assert tasks == init + [last];
      assert forall t :: t in init ==> t in tasks;
      OffDayRemoval(init, id, d);
      WithoutIdAppend(init, [last], id);
      DayTasksAppend(init, [last], d);
      DayTasksAppend(WithoutId(init, id), WithoutId([last], id), d);
      assert WithoutId([last], id) == (if last.id == id then [] else [last]) by {
        assert [last][..0] == [];
      }
    }
  }

  /** Bumping from an order past every order of the day changes nothing. */
  lemma BumpBelowIsIdentity(day: seq<Task>, d: Day, n: int)
    requires forall k :: 0 <= k < |day| ==> day[k].order < n
    ensures BumpAll(day, d, n) == day
  {
  }

  /** `handleDragEnd` on the live store: the call is decided and then issued. */
  method HandleDragEnd(store: Store, activeId: nat, over: Option<DropTarget>, isDuplicating: bool)
    returns (call: StoreCall)
    requires store.Valid()
    modifies store
    ensures store.Valid()
    ensures store.currentWeek == old(store.currentWeek).(tasks := CallEffect(old(store.currentWeek.tasks), call, old(store.nextId)))
    ensures store.weeks == old(store.weeks)
    ensures store.nextId == old(store.nextId) + (if call.AddCall? then 1 else 0)
    ensures call.ReorderCall? ==> DayIds(store.currentWeek.tasks, call.day) == call.orderedIds
  {
    call := DragEndCall(store.currentWeek.tasks, activeId, over, isDuplicating);
    match call {
      case NoCall =>
      case AddCall(data) =>
        store.AddTask(data);
      case MoveCall(id, d, o) =>
        store.MoveTask(id, d, o);
      case ReorderCall(d, ids) =>
        DropReorderTakesEffect(store.currentWeek.tasks, d, ids);
        store.ReorderTasksInDay(d, ids);
    }
  }

  /** The sidebar's figures. */
  datatype WeekStats = WeekStats(
    totalTasks: nat,
    completedTasks: nat,
    totalPlannedMinutes: int,
    completedMinutes: int,
    foundation: int,
    drive: int,
    joy: int,
    reflection: int)

  function Stats(tasks: seq<Task>): WeekStats
  {
    WeekStats(|tasks|, CompletedCount(tasks), Minutes(tasks), CompletedMinutes(tasks),
      ProjectMinutes(tasks, Foundation), ProjectMinutes(tasks, Drive),
      ProjectMinutes(tasks, Joy), ProjectMinutes(tasks, Reflection))
  }

  /**
   * The four project sums add up to the planned minutes, no more tasks are
   * completed than exist, and with non-negative durations the completed
   * minutes and each project's minutes lie between 0 and the planned total.
   */
  lemma StatsConsistent(tasks: seq<Task>)
    ensures var s := Stats(tasks);
      s.foundation + s.drive + s.joy + s.reflection == s.totalPlannedMinutes &&
      s.completedTasks <= s.totalTasks
    ensures NonNegativeDurations(tasks) ==>
      var s := Stats(tasks);
      0 <= s.completedMinutes <= s.totalPlannedMinutes &&
      0 <= s.foundation <= s.totalPlannedMinutes && 0 <= s.drive <= s.totalPlannedMinutes &&
      0 <= s.joy <= s.totalPlannedMinutes && 0 <= s.reflection <= s.totalPlannedMinutes
  {
    ProjectMinutesPartition(tasks);
    CompletedBounds(tasks);
  }

  /** `currentWeek.budgetHours ?? 10`: only a missing budget falls back. */
  function ShownBudget(budgetHours: Option<int>): (h: int)
    ensures budgetHours.None? ==> h == 10
    ensures budgetHours.Some? ==> h == budgetHours.value
  {
    if budgetHours.Some? then budgetHours.value else 10
  }

  /**
   * `Math.max(1, parseInt(value) || 10)`: `parsed` is None for NaN. A zero
   * or unparsable entry becomes 10, a negative one 1, and a positive one is
   * kept.
   */
  function BudgetWritten(parsed: Option<int>): (h: int)
    ensures h >= 1
    ensures parsed.None? || parsed.value == 0 ==> h == 10
    ensures parsed.Some? && parsed.value >= 1 ==> h == parsed.value
    ensures parsed.Some? && parsed.value < 0 ==> h == 1
  {
    var n := if parsed.Some? && parsed.value != 0 then parsed.value else 10;
    if n > 1 then n else 1
  }
}
