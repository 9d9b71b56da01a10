/**
 * The task form: how it is filled when it opens (from the edited task, or
 * with defaults and a suggested project for a new one), how a submission is
 * normalised and dispatched to the store, and the duration field's clamp.
 */
module TaskModal {
  import opened Types
  import opened WeekOps
  import opened JsText
  import opened PlannerStore

  /** `tasks.some(t => t.project === p)`. */
  predicate HasProject(tasks: seq<Task>, p: Project)
  {
    exists i :: 0 <= i < |tasks| && tasks[i].project == p
  }

  /** A day has a task of project `p` exactly when some task of the week is on that day with `p`. */
  lemma HasProjectInDay(tasks: seq<Task>, d: Day, p: Project)
    ensures HasProject(DayTasks(tasks, d), p) <==> exists t :: t in tasks && t.day == d && t.project == p
  {
    var day := DayTasks(tasks, d);
    if HasProject(day, p) {
      var i :| 0 <= i < |day| && day[i].project == p;
      DayTasksMember(tasks, d, day[i]);
    }
    if exists t :: t in tasks && t.day == d && t.project == p {
      var t :| t in tasks && t.day == d && t.project == p;
      DayTasksMember(tasks, d, t);
      var i :| 0 <= i < |day| && day[i] == t;
    }
  }

  /** `defaultDay || 'ПН'`. */
  function TargetDay(defaultDay: Option<Day>): Day
  {
    if defaultDay.Some? then defaultDay.value else Mon
  }

  /**
   * The suggested project follows the cycle Ф → Д → К → Ф from the latest
   * project of that cycle present in the day: a К task wins over a Д task,
   * which wins over an Ф task.
   */
  function SuggestedProject(hasF: bool, hasD: bool, hasK: bool): (p: Project)
    ensures p != Reflection
    ensures hasK ==> p == Foundation
    ensures !hasK && hasD ==> p == Joy
    ensures !hasK && !hasD && hasF ==> p == Drive
    ensures !hasK && !hasD && !hasF ==> p == Foundation
  {
    if hasK then Foundation else if hasD then Joy else if hasF then Drive else Foundation
  }

  /** The project chosen for a new task by three successive overwrites. */
  method DefaultProject(tasks: seq<Task>, defaultDay: Option<Day>) returns (defaultProject: Project)
    ensures var tasksInDay := DayTasks(tasks, TargetDay(defaultDay));
      defaultProject == SuggestedProject(HasProject(tasksInDay, Foundation), HasProject(tasksInDay, Drive), HasProject(tasksInDay, Joy))
    ensures defaultProject != Reflection
  {
    var targetDay := TargetDay(defaultDay);
    var tasksInDay := DayTasks(tasks, targetDay);
    var hasF := HasProject(tasksInDay, Foundation);
    var hasD := HasProject(tasksInDay, Drive);
    var hasK := HasProject(tasksInDay, Joy);
    defaultProject := Foundation;
    if hasF {
      defaultProject := Drive;
    }
    if hasD {
      defaultProject := Joy;
    }
    if hasK {
      defaultProject := Foundation;
    }
  }

  /** The form's fields; an unscheduled task has the empty start time. */
  datatype Form = Form(project: Project, title: string, duration: int, day: Day, startTime: string)

  /** `task.startTime || ''`. */
  function StartTimeText(startTime: Option<string>): string
  {
    if startTime.Some? then startTime.value else ""
  }

  /** `startTime || undefined`. */
  function StartTimeValue(text: string): Option<string>
  {
    if text == "" then None else Some(text)
  }

  /** An absent start time and a present non-empty one survive the form unchanged. */
  lemma StartTimeRoundTrip(startTime: Option<string>, text: string)
    ensures startTime != Some("") ==> StartTimeValue(StartTimeText(startTime)) == startTime
    ensures StartTimeText(StartTimeValue(text)) == text
  {
  }

  /** The form of an edited task. */
  function FormFromTask(t: Task): Form
  {
    Form(t.project, t.title, t.duration, t.day, StartTimeText(t.startTime))
  }

  /** The effect that fills the form each time it opens. */
  method OpenForm(tasks: seq<Task>, task: Option<Task>, defaultDay: Option<Day>) returns (form: Form)
    ensures task.Some? ==> form == FormFromTask(task.value)
    ensures task.None? ==>
      form.title == "" && form.duration == 30 && form.day == TargetDay(defaultDay) && form.startTime == "" &&
      var tasksInDay := DayTasks(tasks, TargetDay(defaultDay));
      form.project == SuggestedProject(HasProject(tasksInDay, Foundation), HasProject(tasksInDay, Drive), HasProject(tasksInDay, Joy))
  {
    if task.Some? {
      var t := task.value;
      form := Form(t.project, t.title, t.duration, t.day, StartTimeText(t.startTime));
    } else {
      var targetDay := TargetDay(defaultDay);
      var defaultProject := DefaultProject(tasks, defaultDay);
      form := Form(defaultProject, "", 30, targetDay, "");
    }
  }

  /** The update an edit submits: every form field, trimmed title; completion and order are kept. */
  function PatchOf(form: Form): TaskPatch
  {
    TaskPatch(Some(form.project), Some(Trim(form.title)), Some(form.duration),
              Some(StartTimeValue(form.startTime)), Some(form.day), None, None)
  }

  /** What a new task submits: every form field, trimmed title, not completed. */
  function DataOf(form: Form): TaskData
  {
    TaskData(form.project, Trim(form.title), form.duration, StartTimeValue(form.startTime), form.day, false)
  }

  /**
   * Opening a task and submitting the form untouched — when its title is
   * already trimmed and its start time is not the empty string — leaves the
   * task as it was.
   */
  lemma UntouchedEditKeepsTask(t: Task)
    requires Trim(t.title) == t.title
    requires t.startTime != Some("")
    ensures ApplyPatch(t, PatchOf(FormFromTask(t))) == t
  {
    StartTimeRoundTrip(t.startTime, "");
  }

  /** A submitted title is non-blank and has no surrounding whitespace. */
  lemma SubmittedTitleIsClean(form: Form)
    requires Trim(form.title) != []
    ensures var title := DataOf(form).title;
      title == PatchOf(form).title.value && title != [] && Trim(title) == title &&
      !IsWhite(title[0]) && !IsWhite(title[|title| - 1])
  {
    TrimIdempotent(form.title);
    TrimEnds(form.title);
  }

  /**
   * `handleSubmit`: nothing happens for a blank title; otherwise an edit
   * calls updateTask on the task's id and a new task calls addTask.
   */
  method HandleSubmit(store: Store, form: Form, task: Option<Task>) returns (submitted: bool)
    requires store.Valid()
    modifies store
    ensures store.Valid()
    ensures submitted <==> Trim(form.title) != []
    ensures !submitted ==>
      store.currentWeek == old(store.currentWeek) && store.weeks == old(store.weeks) && store.nextId == old(store.nextId)
    ensures submitted && task.Some? ==>
      store.currentWeek == old(store.currentWeek).(tasks := UpdatedTasks(old(store.currentWeek.tasks), task.value.id, PatchOf(form))) &&
      store.weeks == old(store.weeks) && store.nextId == old(store.nextId)
    ensures submitted && task.None? ==>
      store.currentWeek == old(store.currentWeek).(tasks := AddedTasks(old(store.currentWeek.tasks), DataOf(form), old(store.nextId))) &&
      store.weeks == old(store.weeks) && store.nextId == old(store.nextId) + 1
  {
    if Trim(form.title) == [] {
      return false;
    }
    if task.Some? {
      store.UpdateTask(task.value.id, PatchOf(form));
    } else {
      store.AddTask(DataOf(form));
    }
    submitted := true;
  }

  /**
   * The duration field's `Math.max(1, parseInt(value) || 0)`: `parsed` is
   * None when the text is not a number (NaN).
   */
  function FormDuration(parsed: Option<int>): (d: int)
    ensures d >= 1
    ensures parsed.Some? && parsed.value >= 1 ==> d == parsed.value
    ensures parsed.None? || parsed.value < 1 ==> d == 1
  {
    var n := if parsed.Some? then parsed.value else 0;
    if n > 1 then n else 1
  }
}
