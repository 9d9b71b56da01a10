/**
 * The week-plan store: the current week, the archive of weeks, and the
 * actions that replace them. Ids that the store draws from a uuid
 * generator come here from the counter `nextId`, which every draw advances.
 */
module PlannerStore {
  import opened Types
  import opened Sequences
  import opened WeekOps
  import opened StructureOptions

  /** Task ids in the week are distinct and all drawn before `bound`. */
  ghost predicate WellFormedWeek(w: WeekPlan, bound: nat)
  {
    DistinctIds(w.tasks) && forall i :: 0 <= i < |w.tasks| ==> w.tasks[i].id < bound
  }

  /** The positions in `ts` of the tasks of day `d`, in list order. */
  function Positions(ts: seq<Task>, d: Day): seq<nat>
  {
    if ts == [] then []
    else Positions(ts[..|ts| - 1], d) + (if ts[|ts| - 1].day == d then [|ts| - 1] else [])
  }

  /**
   * `Positions` lists, in increasing order, exactly the positions whose
   * task has day `d`; the k-th of them is preceded by k tasks of that day.
   */
  lemma PositionsFacts(ts: seq<Task>, d: Day)
    ensures forall k :: 0 <= k < |Positions(ts, d)| ==>
      Positions(ts, d)[k] < |ts| && ts[Positions(ts, d)[k]].day == d &&
      |DayTasks(ts[..Positions(ts, d)[k]], d)| == k
    ensures forall k, l :: 0 <= k < l < |Positions(ts, d)| ==> Positions(ts, d)[k] < Positions(ts, d)[l]
    ensures forall p :: 0 <= p < |ts| && ts[p].day == d ==> p in Positions(ts, d)
  {
    PositionsBound(ts, d);
    PositionsComplete(ts, d);
    forall k | 0 <= k < |Positions(ts, d)|
      ensures |DayTasks(ts[..Positions(ts, d)[k]], d)| == k
    {
      PositionsRankOf(ts, d, k);
    }
  }

  lemma {:induction false} PositionsBound(ts: seq<Task>, d: Day)
    ensures forall k :: 0 <= k < |Positions(ts, d)| ==>
      Positions(ts, d)[k] < |ts| && ts[Positions(ts, d)[k]].day == d
    ensures forall k, l :: 0 <= k < l < |Positions(ts, d)| ==> Positions(ts, d)[k] < Positions(ts, d)[l]
  {
    if ts != [] {
      var init := ts[..|ts| - 1];
      PositionsBound(init, d);
      var qs := Positions(init, d);
      var ps := Positions(ts, d);
      assert ps == qs + (if ts[|ts| - 1].day == d then [|ts| - 1] else []);
      forall k | 0 <= k < |qs| ensures ps[k] == qs[k] && qs[k] < |init| && ts[qs[k]] == init[qs[k]] {
      }
    }
  }

  lemma {:induction false} PositionsComplete(ts: seq<Task>, d: Day)
    ensures forall p :: 0 <= p < |ts| && ts[p].day == d ==> p in Positions(ts, d)
  {
    if ts != [] {
      var init := ts[..|ts| - 1];
      PositionsComplete(init, d);
      forall p | 0 <= p < |init| && ts[p].day == d ensures p in Positions(ts, d) {
        assert init[p] == ts[p];
      }
    }
  }

  lemma {:induction false} PositionsRankOf(ts: seq<Task>, d: Day, k: nat)
    requires k < |Positions(ts, d)|
    ensures Positions(ts, d)[k] < |ts|
    ensures |DayTasks(ts[..Positions(ts, d)[k]], d)| == k
  {
    PositionsBound(ts, d);
    var init := ts[..|ts| - 1];
    var qs := Positions(init, d);
    var ps := Positions(ts, d);
    if k < |qs| {
      PositionsRankOf(init, d, k);
      assert ps[k] == qs[k];
      assert ts[..qs[k]] == init[..qs[k]];
    } else {
      assert ps[k] == |ts| - 1;
      assert ts[..ps[k]] == init;
      PositionsCount(init, d);
    }
  }

  lemma {:induction false} PositionsCount(ts: seq<Task>, d: Day)
    ensures |Positions(ts, d)| == |DayTasks(ts, d)|
  {
    if ts != [] {
      PositionsCount(ts[..|ts| - 1], d);
    }
  }

  lemma PositionsSnoc(ts: seq<Task>, j: nat)
    requires j < |ts|
    ensures forall d :: Positions(ts[..j + 1], d) == Positions(ts[..j], d) + (if ts[j].day == d then [j] else [])
  {
    assert ts[..j + 1][..j] == ts[..j];
  }

  /** Tasks with distinct ids in two lists that share no id have distinct ids together. */
  lemma DistinctIdsConcat(a: seq<Task>, b: seq<Task>)
    requires DistinctIds(a) && DistinctIds(b)
    requires forall i, k :: 0 <= i < |a| && 0 <= k < |b| ==> a[i].id != b[k].id
    ensures DistinctIds(a + b)
  {
    var c := a + b;
    forall i, j | 0 <= i < j < |c| ensures c[i].id != c[j].id {
      if j < |a| {
        assert c[i] == a[i] && c[j] == a[j];
      } else if i < |a| {
        assert c[i] == a[i] && c[j] == b[j - |a|];
      } else {
        assert c[i] == b[i - |a|] && c[j] == b[j - |a|];
      }
    }
  }

  /** A position of day `d` is found in `Positions` at its per-day rank. */
  lemma PositionRank(ts: seq<Task>, d: Day, p: nat)
    requires p < |ts| && ts[p].day == d
    ensures p in Positions(ts, d)
    ensures IndexOf(Positions(ts, d), p) == |DayTasks(ts[..p], d)|
  {
    PositionsFacts(ts, d);
  }

  /** The id bound of a well-formed week survives a larger bound. */
  lemma WellFormedGrows(w: WeekPlan, bound: nat, larger: nat)
    requires WellFormedWeek(w, bound) && bound <= larger
    ensures WellFormedWeek(w, larger)
  {
  }

  /** Every week of the archive after `Archive` is the saved week or an old one. */
  lemma ArchiveWellFormed(weeks: seq<WeekPlan>, w: WeekPlan, bound: nat)
    requires WellFormedWeek(w, bound)
    requires forall i :: 0 <= i < |weeks| ==> WellFormedWeek(weeks[i], bound)
    ensures forall i :: 0 <= i < |Archive(weeks, w)| ==> WellFormedWeek(Archive(weeks, w)[i], bound)
  {
  }

  /**
   * goToWeek keeps the store well formed: ids stay below the counter (which
   * grows by one when a week is created) and archived weekStarts stay
   * distinct.
   */
  lemma GoToKeepsWellFormed(cur: WeekPlan, weeks: seq<WeekPlan>, ws: Date, bound: nat)
    requires WellFormedWeek(cur, bound) && DistinctWeekStarts(weeks)
    requires forall i :: 0 <= i < |weeks| ==> WellFormedWeek(weeks[i], bound)
    ensures var n := GoTo(cur, weeks, ws, bound);
      var larger := bound + (if FindWeek(Archive(weeks, cur), ws).None? then 1 else 0);
      WellFormedWeek(n.current, larger) && DistinctWeekStarts(n.weeks) &&
      forall i :: 0 <= i < |n.weeks| ==> WellFormedWeek(n.weeks[i], larger)
  {
    var archived := Archive(weeks, cur);
    ArchiveWellFormed(weeks, cur, bound);
    GoToOpensTarget(cur, weeks, ws, bound);
    var n := GoTo(cur, weeks, ws, bound);
    if FindWeek(archived, ws).None? {
      forall i | 0 <= i < |n.weeks| ensures WellFormedWeek(n.weeks[i], bound + 1) {
        if i < |archived| {
          WellFormedGrows(archived[i], bound, bound + 1);
        }
      }
    } else {
      assert n.current in archived;
    }
  }

  /** The `dayGroups` record after the grouping pass has visited `ts`. */
  function Groups(ts: seq<Task>): map<Day, seq<nat>>
  {
    if ts == [] then map[]
    else
      var g := Groups(ts[..|ts| - 1]);
      var day := ts[|ts| - 1].day;
      g[day := (if day in g then g[day] else []) + [|ts| - 1]]
  }

  /** The record's keys in insertion order: each day where it first occurs. */
  function GroupKeys(ts: seq<Task>): seq<Day>
  {
    if ts == [] then []
    else
      var ks := GroupKeys(ts[..|ts| - 1]);
      var day := ts[|ts| - 1].day;
      if day in ks then ks else ks + [day]
  }

  /** The record's keys are the days that occur, each once. */
  lemma GroupKeysAreDays(ts: seq<Task>)
    ensures forall d :: d in Groups(ts) <==> d in GroupKeys(ts)
    ensures forall k, l :: 0 <= k < l < |GroupKeys(ts)| ==> GroupKeys(ts)[k] != GroupKeys(ts)[l]
    ensures forall j :: 0 <= j < |ts| ==> ts[j].day in GroupKeys(ts)
  {
    GroupKeysMatch(ts);
    GroupKeysDistinct(ts);
    GroupKeysCover(ts);
  }

  lemma {:induction false} GroupKeysMatch(ts: seq<Task>)
    ensures forall d :: d in Groups(ts) <==> d in GroupKeys(ts)
  {
    if ts != [] {
      GroupKeysMatch(ts[..|ts| - 1]);
    }
  }

  lemma {:induction false} GroupKeysDistinct(ts: seq<Task>)
    ensures forall k, l :: 0 <= k < l < |GroupKeys(ts)| ==> GroupKeys(ts)[k] != GroupKeys(ts)[l]
  {
    if ts != [] {
      var ks := GroupKeys(ts[..|ts| - 1]);
      var day := ts[|ts| - 1].day;
      GroupKeysDistinct(ts[..|ts| - 1]);
      if day !in ks {
        var grown := ks + [day];
        forall k, l | 0 <= k < l < |grown| ensures grown[k] != grown[l] {
          if l == |ks| {
            assert grown[k] == ks[k] && ks[k] in ks;
          }
        }
      }
    }
  }

  lemma {:induction false} GroupKeysCover(ts: seq<Task>)
    ensures forall j :: 0 <= j < |ts| ==> ts[j].day in GroupKeys(ts)
  {
    if ts != [] {
      var init := ts[..|ts| - 1];
      GroupKeysCover(init);
      forall j | 0 <= j < |init| ensures ts[j].day in GroupKeys(ts) {
        assert ts[j] == init[j];
      }
    }
  }

  /** The record holds, under each day, the positions of that day's tasks in list order. */
  lemma {:induction false} GroupsArePositions(ts: seq<Task>)
    ensures forall d :: Positions(ts, d) == if d in Groups(ts) then Groups(ts)[d] else []
  {
    if ts != [] {
      GroupsArePositions(ts[..|ts| - 1]);
    }
  }

  /** The grouping pass of importFromJSON, a loop that fills `dayGroups`. */
  method GroupByDay(tasks: seq<Task>) returns (dayGroups: map<Day, seq<nat>>, keys: seq<Day>)
    ensures dayGroups == Groups(tasks) && keys == GroupKeys(tasks)
  {
    dayGroups := map[];
    keys := [];
    var j := 0;
    while j < |tasks|
      invariant 0 <= j <= |tasks|
      invariant dayGroups == Groups(tasks[..j]) && keys == GroupKeys(tasks[..j])
    {
      var day := tasks[j].day;
      assert tasks[..j + 1][..j] == tasks[..j];
      GroupKeysMatch(tasks[..j]);
      if day !in dayGroups {
        dayGroups := dayGroups[day := []];
        keys := keys + [day];
      }
      dayGroups := dayGroups[day := dayGroups[day] + [j]];
      j := j + 1;
    }
    assert tasks[..|tasks|] == tasks;
  }

  /**
   * `group.forEach((task, idx) => task.order = idx)`: the group holds
   * positions into `ts`, and the task at the idx-th of them gets order idx.
   */
  method RenumberGroup(ts: seq<Task>, group: seq<nat>) returns (r: seq<Task>)
    requires forall k :: 0 <= k < |group| ==> group[k] < |ts|
    requires forall k, l :: 0 <= k < l < |group| ==> group[k] != group[l]
    ensures |r| == |ts|
    ensures forall p :: 0 <= p < |ts| ==>
      r[p] == (if p in group then ts[p].(order := IndexOf(group, p)) else ts[p])
  {
    r := ts;
    var idx := 0;
    while idx < |group|
      invariant 0 <= idx <= |group|
      invariant |r| == |ts|
      invariant forall p :: 0 <= p < |ts| ==>
        r[p] == (if p in group[..idx] then ts[p].(order := IndexOf(group, p)) else ts[p])
    {
      var p := group[idx];
      IndexOfDistinct(group, idx);
      r := r[p := r[p].(order := idx)];
      forall q | 0 <= q < |ts|
        ensures r[q] == (if q in group[..idx + 1] then ts[q].(order := IndexOf(group, q)) else ts[q])
      {
        PrefixSnoc(group, idx, q);
      }
      idx := idx + 1;
    }
    assert group[..|group|] == group;
  }

  /** In a sequence without repeats, `indexOf` finds each element at its own position. */
  lemma IndexOfDistinct<T>(xs: seq<T>, k: nat)
    requires k < |xs| && forall i, j :: 0 <= i < j < |xs| ==> xs[i] != xs[j]
    ensures IndexOf(xs, xs[k]) == k
  {
  }

  /**
   * Renumbering one group after the groups of `keys[..g]` gives the tasks of
   * `keys[g]` their per-day rank as well.
   */
  lemma RenumberGroupStep(drafts: seq<Task>, tasks: seq<Task>, renumbered: seq<Task>, keys: seq<Day>, g: nat)
    requires g < |keys| && forall k, l :: 0 <= k < l < |keys| ==> keys[k] != keys[l]
    requires |tasks| == |drafts| == |renumbered|
    requires forall j :: 0 <= j < |drafts| ==>
      tasks[j] == (if drafts[j].day in keys[..g] then Renumbered(drafts)[j] else drafts[j])
    requires forall p :: 0 <= p < |tasks| ==>
      renumbered[p] == (if p in Positions(drafts, keys[g]) then tasks[p].(order := IndexOf(Positions(drafts, keys[g]), p)) else tasks[p])
    ensures forall j :: 0 <= j < |drafts| ==>
      renumbered[j] == (if drafts[j].day in keys[..g + 1] then Renumbered(drafts)[j] else drafts[j])
  {
    var d := keys[g];
    FreshKey(keys, g);
    forall j | 0 <= j < |drafts|
      ensures renumbered[j] == (if drafts[j].day in keys[..g + 1] then Renumbered(drafts)[j] else drafts[j])
    {
      PrefixSnoc(keys, g, drafts[j].day);
      RenumberAt(drafts, d, j, tasks[j], renumbered[j], drafts[j].day in keys[..g]);
    }
  }

  /** One position of the step above: renumbering the group of `d` settles the tasks of `d`. */
  lemma RenumberAt(drafts: seq<Task>, d: Day, j: nat, before: Task, after: Task, done: bool)
    requires j < |drafts|
    requires done ==> drafts[j].day != d
    requires before == (if done then Renumbered(drafts)[j] else drafts[j])
    requires after == (if j in Positions(drafts, d) then before.(order := IndexOf(Positions(drafts, d), j)) else before)
    ensures after == (if done || drafts[j].day == d then Renumbered(drafts)[j] else drafts[j])
  {
    if drafts[j].day == d {
      PositionRank(drafts, d, j);
    } else {
      NotInPositions(drafts, d, j);
    }
  }

  lemma PrefixSnoc<T>(xs: seq<T>, g: nat, x: T)
    requires g < |xs|
    ensures x in xs[..g + 1] <==> x in xs[..g] || x == xs[g]
  {
    assert xs[..g + 1] == xs[..g] + [xs[g]];
  }

  lemma FreshKey<T>(xs: seq<T>, g: nat)
    requires g < |xs| && forall k, l :: 0 <= k < l < |xs| ==> xs[k] != xs[l]
    ensures xs[g] !in xs[..g]
  {
  }

  /** A task of another day has no position in the group of `d`. */
  lemma NotInPositions(ts: seq<Task>, d: Day, p: nat)
    requires p < |ts| && ts[p].day != d
    ensures p !in Positions(ts, d)
  {
    PositionsBound(ts, d);
  }

  /**
   * The renumbering of importFromJSON: group the tasks by day, then give the
   * idx-th task of each group the order idx, group after group.
   */
  method RenumberPerDay(drafts: seq<Task>) returns (tasks: seq<Task>)
    ensures tasks == Renumbered(drafts)
  {
    var dayGroups, keys := GroupByDay(drafts);
    GroupKeysAreDays(drafts);
    GroupsArePositions(drafts);
    tasks := drafts;
    var g := 0;
    while g < |keys|
      invariant 0 <= g <= |keys|
      invariant |tasks| == |drafts|
      invariant forall j :: 0 <= j < |drafts| ==>
        tasks[j] == (if drafts[j].day in keys[..g] then Renumbered(drafts)[j] else drafts[j])
    {
      var group := dayGroups[keys[g]];
      PositionsAreIndices(drafts, keys[g]);
      var renumbered := RenumberGroup(tasks, group);
      RenumberGroupStep(drafts, tasks, renumbered, keys, g);
      tasks := renumbered;
      g := g + 1;
    }
    RenumberAllGroups(drafts, tasks, keys);
  }

  /** The positions of a day are distinct indices of the list. */
  lemma PositionsAreIndices(ts: seq<Task>, d: Day)
    ensures forall k :: 0 <= k < |Positions(ts, d)| ==> Positions(ts, d)[k] < |ts|
    ensures forall k, l :: 0 <= k < l < |Positions(ts, d)| ==> Positions(ts, d)[k] != Positions(ts, d)[l]
  {
    PositionsBound(ts, d);
  }

  /** Once every day of the list has been renumbered, the list is `Renumbered`. */
  lemma RenumberAllGroups(drafts: seq<Task>, tasks: seq<Task>, keys: seq<Day>)
    requires |tasks| == |drafts|
    requires forall j :: 0 <= j < |drafts| ==> drafts[j].day in keys
    requires forall j :: 0 <= j < |drafts| ==>
      tasks[j] == (if drafts[j].day in keys[..|keys|] then Renumbered(drafts)[j] else drafts[j])
    ensures tasks == Renumbered(drafts)
  {
    assert keys[..|keys|] == keys;
  }

  /**
   * The loop of moveTask over the other tasks: a task of newDay at or
   * after newOrder moves one place down.
   */
  method BumpDay(others: seq<Task>, newDay: Day, newOrder: int) returns (bumped: seq<Task>)
    ensures bumped == BumpAll(others, newDay, newOrder)
  {
    bumped := others;
    var i := 0;
    while i < |bumped|
      invariant 0 <= i <= |bumped| == |others|
      invariant forall k :: 0 <= k < i ==> bumped[k] == Bump(others[k], newDay, newOrder)
      invariant forall k :: i <= k < |bumped| ==> bumped[k] == others[k]
    {
      if bumped[i].day == newDay && bumped[i].order >= newOrder {
        bumped := bumped[i := bumped[i].(order := bumped[i].order + 1)];
      }
      i := i + 1;
    }
  }

  /** Moving a task keeps every id below the store's fresh-id counter. */
  lemma MoveKeepsIdBound(tasks: seq<Task>, id: nat, newDay: Day, newOrder: int, bound: nat)
    requires forall k :: 0 <= k < |tasks| ==> tasks[k].id < bound
    ensures forall k :: 0 <= k < |MovedTasks(tasks, id, newDay, newOrder)| ==>
      MovedTasks(tasks, id, newDay, newOrder)[k].id < bound
  {
    if FindTask(tasks, id).Some? {
      var others := WithoutId(tasks, id);
      var r := MovedTasks(tasks, id, newDay, newOrder);
      forall k | 0 <= k < |r| ensures r[k].id < bound {
        if k < |others| {
          assert others[k] in others;
          WithoutIdMember(tasks, id, others[k]);
        } else {
          assert r[k] == FindTask(tasks, id).value.(day := newDay, order := newOrder);
        }
      }
    }
  }

  /**
   * The archiving step shared by goToWeek and createNewWeek: the outgoing
   * week replaces the archived week with its weekStart, or is appended.
   */
  method ArchiveWeek(weeks: seq<WeekPlan>, w: WeekPlan) returns (updated: seq<WeekPlan>)
    ensures updated == Archive(weeks, w)
  {
    var existingIndex := WeekIndex(weeks, w.weekStart);
    updated := weeks;
    if existingIndex >= 0 {
      updated := updated[existingIndex := w];
    } else {
      updated := updated + [w];
    }
  }

  class Store {
    var currentWeek: WeekPlan
    var weeks: seq<WeekPlan>
    var nextId: nat

    ghost predicate Valid()
      reads this
    {
      WellFormedWeek(currentWeek, nextId) &&
      DistinctWeekStarts(weeks) &&
      forall i :: 0 <= i < |weeks| ==> WellFormedWeek(weeks[i], nextId)
    }

    /**
     * The initial state: an empty week starting on `weekStart`, the Monday
     * of the current week, and an empty archive.
     */
    constructor(weekStart: Date)
      ensures Valid()
      ensures currentWeek == EmptyWeek(0, weekStart) && weeks == [] && nextId == 1
    {
      currentWeek := EmptyWeek(0, weekStart);
      weeks := [];
      nextId := 1;
    }

    method AddTask(taskData: TaskData)
      requires Valid()
      modifies this
      ensures Valid()
      ensures currentWeek == old(currentWeek).(tasks := AddedTasks(old(currentWeek.tasks), taskData, old(nextId)))
      ensures weeks == old(weeks) && nextId == old(nextId) + 1
    {
      var tasksInDay := DayTasks(currentWeek.tasks, taskData.day);
      var newTask := NewTask(taskData, nextId, |tasksInDay|);
      DistinctIdsSnoc(currentWeek.tasks, newTask);
      currentWeek := currentWeek.(tasks := currentWeek.tasks + [newTask]);
      nextId := nextId + 1;
    }

    method UpdateTask(taskId: nat, updates: TaskPatch)
      requires Valid()
      modifies this
      ensures Valid()
      ensures currentWeek == old(currentWeek).(tasks := UpdatedTasks(old(currentWeek.tasks), taskId, updates))
      ensures weeks == old(weeks) && nextId == old(nextId)
    {
      UpdateTouchesOnlyTarget(currentWeek.tasks, taskId, updates);
      currentWeek := currentWeek.(tasks := UpdatedTasks(currentWeek.tasks, taskId, updates));
    }

    method DeleteTask(taskId: nat)
      requires Valid()
      modifies this
      ensures Valid()
      ensures currentWeek == old(currentWeek).(tasks := WithoutId(old(currentWeek.tasks), taskId))
      ensures weeks == old(weeks) && nextId == old(nextId)
    {
      var kept := WithoutId(currentWeek.tasks, taskId);
      DeleteKeepsOthers(currentWeek.tasks, taskId);
      assert forall i :: 0 <= i < |kept| ==> kept[i] in currentWeek.tasks;
      currentWeek := currentWeek.(tasks := kept);
    }

    method MoveTask(taskId: nat, newDay: Day, newOrder: int)
      requires Valid()
      modifies this
      ensures Valid()
      ensures currentWeek == old(currentWeek).(tasks := MovedTasks(old(currentWeek.tasks), taskId, newDay, newOrder))
      ensures weeks == old(weeks) && nextId == old(nextId)
    {
      var task := FindTask(currentWeek.tasks, taskId);
      if task.None? {
        return;
      }
      var otherTasks := WithoutId(currentWeek.tasks, taskId);
      var bumped := BumpDay(otherTasks, newDay, newOrder);
      var updatedTask := task.value.(day := newDay, order := newOrder);
      ghost var tasks := currentWeek.tasks;
      assert bumped + [updatedTask] == MovedTasks(tasks, taskId, newDay, newOrder);
      MoveKeepsDistinctIds(tasks, taskId, newDay, newOrder);
      MoveKeepsIdBound(tasks, taskId, newDay, newOrder, nextId);
      currentWeek := currentWeek.(tasks := bumped + [updatedTask]);
    }

    method ToggleTaskComplete(taskId: nat)
      requires Valid()
      modifies this
      ensures Valid()
      ensures currentWeek == old(currentWeek).(tasks := ToggledTasks(old(currentWeek.tasks), taskId))
      ensures weeks == old(weeks) && nextId == old(nextId)
    {
      currentWeek := currentWeek.(tasks := ToggledTasks(currentWeek.tasks, taskId));
    }

    method ReorderTasksInDay(day: Day, orderedIds: seq<nat>)
      requires Valid()
      modifies this
      ensures Valid()
      ensures currentWeek == old(currentWeek).(tasks := ReorderedTasks(old(currentWeek.tasks), day, orderedIds))
      ensures weeks == old(weeks) && nextId == old(nextId)
    {
      currentWeek := currentWeek.(tasks := ReorderedTasks(currentWeek.tasks, day, orderedIds));
    }

    method SetStructureOption(option: StructureId)
      requires Valid()
      modifies this
      ensures Valid()
      ensures currentWeek == old(currentWeek).(structureOption := option)
      ensures weeks == old(weeks) && nextId == old(nextId)
    {
      currentWeek := currentWeek.(structureOption := option);
    }

    method SaveReflection(reflection: WeeklyReflection)
      requires Valid()
      modifies this
      ensures Valid()
      ensures currentWeek == old(currentWeek).(reflection := reflection)
      ensures weeks == old(weeks) && nextId == old(nextId)
    {
      currentWeek := currentWeek.(reflection := reflection);
    }

    method ImportFromJSON(json: ImportDoc)
      requires Valid()
      modifies this
      ensures Valid()
      ensures currentWeek == ImportedWeek(old(currentWeek), json, old(nextId))
      ensures weeks == old(weeks) && nextId == old(nextId) + |json.tasks|
    {
      var tasks := ImportDrafts(json.tasks, nextId);
      tasks := RenumberPerDay(tasks);
      ImportShape(currentWeek, json, nextId);
      DistinctIdsConcat(currentWeek.tasks, tasks);
      currentWeek := currentWeek.(
        weekStart := if json.weekStart.Some? then json.weekStart.value else currentWeek.weekStart,
        structureOption := if TruthyNumber(json.option) then json.option.value else currentWeek.structureOption,
        tasks := currentWeek.tasks + tasks);
      nextId := nextId + |json.tasks|;
    }

    /** The week as the document `exportToJSON` serialises. */
    function ExportToJSON(): ImportDoc
      reads this
    {
      ExportDoc(currentWeek)
    }

    method ClearCurrentWeek()
      requires Valid()
      modifies this
      ensures Valid()
      ensures currentWeek == ClearedWeek(old(currentWeek))
      ensures currentWeek.id == old(currentWeek).id && currentWeek.weekStart == old(currentWeek).weekStart
      ensures currentWeek.structureOption == old(currentWeek).structureOption
      ensures currentWeek.tasks == [] && currentWeek.reflection == EmptyReflection()
      ensures weeks == old(weeks) && nextId == old(nextId)
    {
      currentWeek := currentWeek.(tasks := [], reflection := EmptyReflection());
    }

    method GoToWeek(weekStart: Date)
      requires Valid()
      modifies this
      ensures Valid()
      ensures var n := GoTo(old(currentWeek), old(weeks), weekStart, old(nextId));
        currentWeek == n.current && weeks == n.weeks
      ensures nextId == old(nextId) + (if FindWeek(Archive(old(weeks), old(currentWeek)), weekStart).None? then 1 else 0)
    {
      var updatedWeeks := ArchiveWeek(weeks, currentWeek);
      GoToKeepsWellFormed(currentWeek, weeks, weekStart, nextId);
      var targetWeek := FindWeek(updatedWeeks, weekStart);
      var target: WeekPlan;
      if targetWeek.None? {
        target := EmptyWeek(nextId, weekStart);
        updatedWeeks := updatedWeeks + [target];
        nextId := nextId + 1;
      } else {
        target := targetWeek.value;
      }
      currentWeek := target;
      weeks := updatedWeeks;
    }

    method CreateNewWeek()
      requires Valid()
      modifies this
      ensures Valid()
      ensures var n := NextWeek(old(currentWeek), old(weeks), old(nextId));
        currentWeek == n.current && weeks == n.weeks
      ensures nextId == old(nextId) + 1
    {
      var updatedWeeks := ArchiveWeek(weeks, currentWeek);
      ArchiveWellFormed(weeks, currentWeek, nextId);
      ArchiveStores(weeks, currentWeek);
      var newWeekStart := AddDays(currentWeek.weekStart, 7);
      var newWeek := EmptyWeek(nextId, newWeekStart).(structureOption := currentWeek.structureOption);
      currentWeek := newWeek;
      weeks := updatedWeeks;
      nextId := nextId + 1;
    }
  }
}
