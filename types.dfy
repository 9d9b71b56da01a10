/**
 * The planner's domain vocabulary: project categories, days of the week,
 * tasks, weekly reflections, week plans, the shape of an imported plan and
 * the five preset time structures.
 *
 * Calendar dates are abstract day numbers; `AddDays` is the only date
 * arithmetic the model needs.
 */
module Types {

  datatype Option<T> = None | Some(value: T)

  /** The four project buckets: Ф Фундамент, Д Драйв, К Кайф, Р Рефлексия. */
  datatype Project = Foundation | Drive | Joy | Reflection

  /** Monday-first days of the week: ПН ВТ СР ЧТ ПТ СБ ВС. */
  datatype Day = Mon | Tue | Wed | Thu | Fri | Sat | Sun

  /** A calendar date, counted in days. */
  type Date = int

  function AddDays(date: Date, days: int): Date
  {
    date + days
  }

  /** The one-letter code each project has in the interface and in imported plans. */
  function ProjectCode(p: Project): char
  {
    match p
    case Foundation => 'Ф'
    case Drive => 'Д'
    case Joy => 'К'
    case Reflection => 'Р'
  }

  function ProjectFromCode(c: char): (p: Option<Project>)
    ensures p.Some? ==> ProjectCode(p.value) == c
  {
    if c == 'Ф' then Some(Foundation)
    else if c == 'Д' then Some(Drive)
    else if c == 'К' then Some(Joy)
    else if c == 'Р' then Some(Reflection)
    else None
  }

  lemma ProjectCodeRoundTrip(p: Project)
    ensures ProjectFromCode(ProjectCode(p)) == Some(p)
  {
  }

  /** The two-letter code of each day. */
  function DayCode(d: Day): string
  {
    match d
    case Mon => "ПН"
    case Tue => "ВТ"
    case Wed => "СР"
    case Thu => "ЧТ"
    case Fri => "ПТ"
    case Sat => "СБ"
    case Sun => "ВС"
  }

  /** All days in their fixed display order. */
  const DaysOfWeek: seq<Day> := [Mon, Tue, Wed, Thu, Fri, Sat, Sun]

  /** The position of a day in `DaysOfWeek`. */
  function DayIndex(d: Day): (i: nat)
    ensures i < |DaysOfWeek| && DaysOfWeek[i] == d
  {
    match d
    case Mon => 0
    case Tue => 1
    case Wed => 2
    case Thu => 3
    case Fri => 4
    case Sat => 5
    case Sun => 6
  }

  /** `DaysOfWeek` lists every day exactly once, Monday first. */
  lemma DaysOfWeekEnumeratesDays()
    ensures |DaysOfWeek| == 7 && DaysOfWeek[0] == Mon
    ensures forall d: Day :: d in DaysOfWeek
    ensures forall i, j :: 0 <= i < j < |DaysOfWeek| ==> DaysOfWeek[i] != DaysOfWeek[j]
  {
    forall d: Day ensures d in DaysOfWeek {
      var i := DayIndex(d);
    }
  }

  /** Display names of the projects. */
  function ProjectName(p: Project): string
  {
    match p
    case Foundation => "Фундамент"
    case Drive => "Драйв"
    case Joy => "Кайф"
    case Reflection => "Рефлексия"
  }

  /** Display colours of the projects. */
  function ProjectColor(p: Project): string
  {
    match p
    case Foundation => "#4ADE80"
    case Drive => "#A78BFA"
    case Joy => "#FACC15"
    case Reflection => "#FB923C"
  }

  /** The name and colour tables tell the four projects apart. */
  lemma ProjectTablesAreInjective(p: Project, q: Project)
    ensures ProjectName(p) == ProjectName(q) ==> p == q
    ensures ProjectColor(p) == ProjectColor(q) ==> p == q
    ensures ProjectCode(p) == ProjectCode(q) ==> p == q
  {
  }

  /** A scheduled task. `order` is its sort position within its day. */
  datatype Task = Task(
    id: nat,
    project: Project,
    title: string,
    duration: int,              // minutes
    startTime: Option<string>,  // "HH:MM", absent when unscheduled
    day: Day,
    completed: bool,
    order: int)

  /** A task as callers hand it to `addTask`: a task without id and order. */
  datatype TaskData = TaskData(
    project: Project,
    title: string,
    duration: int,
    startTime: Option<string>,
    day: Day,
    completed: bool)

  /** `Partial<Task>`: every present field replaces the task's field. */
  datatype TaskPatch = TaskPatch(
    project: Option<Project>,
    title: Option<string>,
    duration: Option<int>,
    startTime: Option<Option<string>>,  // Some(None): the key is present with value undefined
    day: Option<Day>,
    completed: Option<bool>,
    order: Option<int>)

  /** One free-text note per self-reported project (Рефлексия has none). */
  datatype ProjectNotes = ProjectNotes(foundation: string, drive: string, joy: string)

  /**
   * The weekly reflection. The declared type has no `saved` flag, but the
   * reflection panel stores and reads one, so it is an optional field here.
   */
  datatype WeeklyReflection = WeeklyReflection(
    done: ProjectNotes,
    notDone: ProjectNotes,
    adjustments: string,
    saved: Option<bool>)

  /**
   * One calendar week. `structureOption` is declared as 1..5, but an import
   * may write any truthy number into it, so it is an `int`. `budgetHours` is
   * read and written by the week view but not declared in the type.
   */
  datatype WeekPlan = WeekPlan(
    id: nat,
    weekStart: Date,
    structureOption: int,
    tasks: seq<Task>,
    reflection: WeeklyReflection,
    budgetHours: Option<int>)

  /** An entry of an imported or exported plan. */
  datatype ImportTask = ImportTask(
    day: Day,
    project: Project,
    title: string,
    duration: int,
    startTime: Option<string>)

  /**
   * `AIJsonImport`. `weekStart` is None when the document's value is falsy
   * (missing or empty); `option` is whatever number the document holds.
   */
  datatype ImportDoc = ImportDoc(
    weekStart: Option<Date>,
    option: Option<int>,
    tasks: seq<ImportTask>)

  /** JavaScript truthiness of an optional number. */
  predicate TruthyNumber(n: Option<int>)
  {
    n.Some? && n.value != 0
  }
}
