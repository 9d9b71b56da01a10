/**
 * What one day column derives from the tasks of its day: the order in which
 * the cards are listed, the weekend flag, and the actual minutes per project
 * shown in the column's footer.
 */
module DayColumn {
  import opened Types
  import opened Sequences
  import opened WeekOps

  /** Saturday and Sunday columns are drawn as weekend columns. */
  predicate IsWeekend(d: Day)
  {
    d == Sat || d == Sun
  }

  /** The weekend columns are the last two of the week. */
  lemma WeekendIsLastTwoDays(d: Day)
    ensures IsWeekend(d) <==> DayIndex(d) >= 5
  {
  }

  /**
   * The cards of a column, `[...tasks].sort((a, b) => a.order - b.order)`:
   * the same tasks, listed by ascending order.
   */
  function SortedTasks(tasks: seq<Task>): (r: seq<Task>)
    ensures multiset(r) == multiset(tasks)
    ensures SortedBy(r, OrderOf)
  {
    SortBy(tasks, OrderOf)
  }

  /** The sortable ids handed to the drag-and-drop context, in card order. */
  function TaskIds(tasks: seq<Task>): (r: seq<nat>)
    ensures |r| == |tasks|
  {
    Ids(SortedTasks(tasks))
  }

  /** The sortable ids are exactly the ids of the column's tasks. */
  lemma TaskIdsArePermutation(tasks: seq<Task>)
    ensures multiset(TaskIds(tasks)) == multiset(Ids(tasks))
  {
    IdsOfPermutation(SortedTasks(tasks), tasks);
  }

  /** A column over a day's tasks lists each of them once, in ascending order. */
  lemma ColumnListsDayInOrder(tasks: seq<Task>, d: Day)
    requires DistinctIds(tasks)
    ensures var col := SortedTasks(DayTasks(tasks, d));
      DistinctIds(col) && SortedBy(col, OrderOf) &&
      (forall t :: t in col <==> t in tasks && t.day == d)
  {
    var day := DayTasks(tasks, d);
    var col := SortedTasks(day);
    DayTasksKeepsDistinct(tasks, d);
    DistinctIdsByKey(day);
    DistinctByPermutation(day, col, IdOf);
    DistinctIdsByKey(col);
    forall t ensures t in col <==> t in tasks && t.day == d {
      assert t in col <==> t in multiset(col);
      assert t in day <==> t in multiset(day);
      DayTasksMember(tasks, d, t);
    }
  }

  /** The per-project minutes of the footer. */
  datatype ProjectTimes = ProjectTimes(foundation: int, drive: int, joy: int, reflection: int)

  function ActualTime(tasks: seq<Task>): ProjectTimes
  {
    ProjectTimes(ProjectMinutes(tasks, Foundation), ProjectMinutes(tasks, Drive),
                 ProjectMinutes(tasks, Joy), ProjectMinutes(tasks, Reflection))
  }

  /** The footer is shown when the four project totals add up to more than zero. */
  predicate HasAnyTime(tasks: seq<Task>)
  {
    var a := ActualTime(tasks);
    a.foundation + a.drive + a.joy + a.reflection > 0
  }

  /**
   * The footer's totals partition the column's minutes, so it is shown
   * exactly when the column holds time; with positive durations that is
   * exactly when the column is not empty.
   */
  lemma HasAnyTimeIffMinutes(tasks: seq<Task>)
    ensures HasAnyTime(tasks) <==> Minutes(tasks) > 0
    ensures (forall i :: 0 <= i < |tasks| ==> tasks[i].duration > 0) ==> (HasAnyTime(tasks) <==> tasks != [])
  {
    ProjectMinutesPartition(tasks);
    if forall i :: 0 <= i < |tasks| ==> tasks[i].duration > 0 {
      PositiveMinutes(tasks);
    }
  }
}
