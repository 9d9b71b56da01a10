/**
 * The plan-import dialog: validating pasted text as it changes, and
 * importing the validated plan into the current week, either replacing or
 * appending to its tasks.
 */
module JsonImportModal {
  import opened Types
  import opened WeekOps
  import opened JsText
  import opened PlannerStore

  /**
   * One entry of the parsed `tasks` array. A field that is missing or falsy
   * (the empty string, the number 0, NaN) is None; an empty title is "".
   */
  datatype RawTask = RawTask(
    day: Option<Day>,
    project: Option<Project>,
    title: string,
    duration: Option<int>,
    startTime: Option<string>)

  /** The parsed document; `tasks` is None when it is missing or not an array. */
  datatype RawDoc = RawDoc(weekStart: Option<Date>, option: Option<int>, tasks: Option<seq<RawTask>>)

  /**
   * What `JSON.parse` and the first property read produce: the error message
   * of a syntax error (or of reading a property of `null`), or a document.
   */
  datatype ParseOutcome = ParseFailed(message: string) | Parsed(doc: RawDoc)

  const TasksNotArray: string := "Поле \"tasks\" должно быть массивом"
  const TaskMissingField: string := "Каждая задача должна содержать: day, project, title, duration"

  /** `task.day && task.project && task.title && task.duration`. */
  predicate Complete(t: RawTask)
  {
    t.day.Some? && t.project.Some? && t.title != "" && t.duration.Some? && t.duration.value != 0
  }

  function ToImportTask(t: RawTask): ImportTask
    requires Complete(t)
  {
    ImportTask(t.day.value, t.project.value, t.title, t.duration.value, t.startTime)
  }

  /** The document as the store receives it once every task is complete. */
  function ToImportDoc(doc: RawDoc): (d: ImportDoc)
    requires doc.tasks.Some? && forall i :: 0 <= i < |doc.tasks.value| ==> Complete(doc.tasks.value[i])
    ensures |d.tasks| == |doc.tasks.value|
  {
    var ts := doc.tasks.value;
    ImportDoc(doc.weekStart, doc.option, seq(|ts|, i requires 0 <= i < |ts| => ToImportTask(ts[i])))
  }

  /** The outcome of checking non-blank text: an error message, or the plan. */
  datatype Checked = Rejected(message: string) | Accepted(plan: ImportDoc)

  function Check(parse: ParseOutcome): Checked
  {
    match parse
    case ParseFailed(m) => Rejected(m)
    case Parsed(doc) =>
      if doc.tasks.None? then Rejected(TasksNotArray)
      else if exists i :: 0 <= i < |doc.tasks.value| && !Complete(doc.tasks.value[i]) then Rejected(TaskMissingField)
      else Accepted(ToImportDoc(doc))
  }

  /** The message the dialog shows for an outcome; none for an accepted plan. */
  function ErrorOf(c: Checked): string
  {
    match c
    case Rejected(m) => m
    case Accepted(_) => ""
  }

  /** The plan the dialog keeps for an outcome; none for a rejection. */
  function PlanOf(c: Checked): Option<ImportDoc>
  {
    match c
    case Rejected(_) => None
    case Accepted(p) => Some(p)
  }

  /**
   * Text is accepted exactly when it parses, has a `tasks` array, and every
   * task has a day, a project, a non-empty title and a non-zero duration.
   * The accepted plan keeps the document's header and its tasks one-to-one,
   * in order; a missing array and an incomplete task each get their message.
   */
  lemma CheckSemantics(parse: ParseOutcome)
    ensures Check(parse).Accepted? <==>
      parse.Parsed? && parse.doc.tasks.Some? &&
      forall i :: 0 <= i < |parse.doc.tasks.value| ==> Complete(parse.doc.tasks.value[i])
    ensures Check(parse).Accepted? ==>
      var raw := parse.doc.tasks.value;
      var plan := Check(parse).plan;
      plan.weekStart == parse.doc.weekStart && plan.option == parse.doc.option &&
      |plan.tasks| == |raw| &&
      forall i :: 0 <= i < |raw| ==>
        plan.tasks[i].title == raw[i].title && plan.tasks[i].title != "" &&
        plan.tasks[i].duration != 0 && Some(plan.tasks[i].day) == raw[i].day &&
        Some(plan.tasks[i].project) == raw[i].project && plan.tasks[i].startTime == raw[i].startTime
    ensures parse.Parsed? && parse.doc.tasks.None? ==> Check(parse) == Rejected(TasksNotArray)
    ensures (parse.Parsed? && parse.doc.tasks.Some? &&
             exists i :: 0 <= i < |parse.doc.tasks.value| && !Complete(parse.doc.tasks.value[i]))
      ==> Check(parse) == Rejected(TaskMissingField)
  {
  }

  /**
   * The `for (const task of data.tasks)` loop of `handleTextChange`: it
   * stops at the first incomplete task.
   */
  method AllComplete(tasks: seq<RawTask>) returns (complete: bool)
    ensures complete <==> forall k :: 0 <= k < |tasks| ==> Complete(tasks[k])
  {
    var i := 0;
    while i < |tasks|
      invariant 0 <= i <= |tasks|
      invariant forall k :: 0 <= k < i ==> Complete(tasks[k])
    {
      if !Complete(tasks[i]) {
        return false;
      }
      i := i + 1;
    }
    return true;
  }

  /** `!text.trim()`: the text is blank exactly when it is all whitespace. */
  method IsBlank(text: string) returns (blank: bool)
    ensures blank <==> AllWhite(text)
  {
    TrimEmpty(text);
    blank := |Trim(text)| == 0;
  }

  /**
   * The checks `handleTextChange` runs on non-blank text: the parse error,
   * a missing `tasks` array, the first incomplete task, or the plan.
   */
  method Validate(parse: ParseOutcome) returns (error: string, plan: Option<ImportDoc>)
    ensures error == ErrorOf(Check(parse)) && plan == PlanOf(Check(parse))
  {
    if parse.ParseFailed? {
      return parse.message, None;
    }
    var data := parse.doc;
    if data.tasks.None? {
      return TasksNotArray, None;
    }
    var complete := AllComplete(data.tasks.value);
    if !complete {
      return TaskMissingField, None;
    }
    return "", Some(ToImportDoc(data));
  }

  /** The dialog's state. */
  class ImportModal {
    var jsonText: string
    var error: string
    var parsedData: Option<ImportDoc>

    constructor()
      ensures jsonText == "" && error == "" && parsedData == None
    {
      jsonText := "";
      error := "";
      parsedData := None;
    }

    /**
     * `handleTextChange(text)`, with `parse` standing for what
     * `JSON.parse(text)` yields. The previous error and plan are cleared
     * first; blank text stops there; otherwise the tasks are checked one by
     * one, stopping at the first incomplete one.
     */
    method HandleTextChange(text: string, parse: ParseOutcome)
      modifies this
      ensures jsonText == text
      ensures AllWhite(text) ==> error == "" && parsedData == None
      ensures !AllWhite(text) ==> error == ErrorOf(Check(parse)) && parsedData == PlanOf(Check(parse))
    {
      jsonText := text;
      error := "";
      parsedData := None;
      var blank := IsBlank(text);
      if blank {
        return;
      }
      error, parsedData := Validate(parse);
    }

    /**
     * `handleImport(replace)`: nothing without a validated plan; otherwise
     * the week is cleared first when replacing, the plan is imported, and
     * the text and plan are cleared.
     */
    method HandleImport(store: Store, replace: bool)
      requires store.Valid()
      modifies this, store
      ensures store.Valid()
      ensures old(parsedData).None? ==>
        store.currentWeek == old(store.currentWeek) && store.weeks == old(store.weeks) &&
        store.nextId == old(store.nextId) && jsonText == old(jsonText) && parsedData == None
      ensures old(parsedData).Some? ==>
        var plan := old(parsedData).value;
        var start := if replace then ClearedWeek(old(store.currentWeek)) else old(store.currentWeek);
        store.currentWeek == ImportedWeek(start, plan, old(store.nextId)) &&
        store.weeks == old(store.weeks) && store.nextId == old(store.nextId) + |plan.tasks| &&
        jsonText == "" && parsedData == None
      ensures error == old(error)
    {
      if parsedData.None? {
        return;
      }
      var plan := parsedData.value;
      if replace {
        store.ClearCurrentWeek();
      }
      store.ImportFromJSON(plan);
      jsonText := "";
      parsedData := None;
    }
  }

  /**
   * Importing with replace leaves exactly the imported tasks and an empty
   * reflection; importing without it keeps the old tasks as a prefix.
   */
  lemma ReplaceOrAppend(w: WeekPlan, plan: ImportDoc, id0: nat)
    ensures ImportedWeek(ClearedWeek(w), plan, id0).tasks == ImportedBatch(plan.tasks, id0)
    ensures ImportedWeek(ClearedWeek(w), plan, id0).reflection == EmptyReflection()
    ensures ExportDoc(ImportedWeek(ClearedWeek(w), plan, id0)).tasks == plan.tasks
    ensures ImportedWeek(w, plan, id0).tasks[..|w.tasks|] == w.tasks
    ensures ExportDoc(ImportedWeek(w, plan, id0)).tasks == ExportDoc(w).tasks + plan.tasks
  {
    ImportShape(ClearedWeek(w), plan, id0);
    ImportShape(w, plan, id0);
    ExportAfterImport(ClearedWeek(w), plan, id0);
    ExportAfterImport(w, plan, id0);
    assert ExportDoc(ClearedWeek(w)).tasks == [];
  }
}
