# NeuroSprint week planner — a Dafny model of the week-plan store

The planner organises tasks into a Monday-to-Sunday grid. Each task belongs to one of four
project buckets: Ф Фундамент, Д Драйв, К Кайф and Р Рефлексия. The week-plan store holds the
live `currentWeek` and a `weeks` archive keyed by `weekStart`. Its actions add, update,
delete, move, toggle and reorder tasks. They also import a plan document, export the week,
clear the week, and navigate between weeks.

This project models that store as a Dafny class, `PlannerStore.Store`, with the fields
`currentWeek`, `weeks` and `nextId`. Each action is a method, and its `ensures` ties the new
state to a function on values in `WeekOps`. The lemmas beside those functions state what the
actions promise. Examples:

- the per-day `order` produced by `addTask` is dense;
- `moveTask` makes room in the destination day, placing the moved task at the requested
  position, and keeps the ids;
- `reorderTasksInDay` reads back the given id order;
- importing an export reproduces it;
- archiving is insert-or-replace by `weekStart`.

The components around the store are modelled in their own modules:

- `WeekView`: the intent a drag-end resolves to, the sidebar statistics and the budget.
- `JsonImportModal`: validation of pasted plans, and replace versus append on import.
- `TaskModal`: the default-project rotation, form normalisation and the duration clamp.
- `ReflectionPanel`: the reset-point sprint label, note edits, save and the edit mode.
- `MonthView`: the four-week sprint cycle, the eight-week window, week lookup and row figures.
- `DayColumn`: card order, the weekend flag and per-project minutes.
- `Types` and `StructureOptions`: the vocabulary and the five preset tables.

Modelling choices:

- Dates are abstract day numbers, and `Types.AddDays` is the only date arithmetic.
- Ids are natural numbers drawn from the store's `nextId` counter, in place of uuid v4.
- Text handling is reduced to `JsText.Trim`, which is ECMAScript `trim`, and the decimal
  rendering of a natural number.
- Each action of the store reassigns `currentWeek` and `weeks` as whole values. The
  `dayGroups` pass of `importFromJSON` and the `forEach` bump of `moveTask` are loops over
  sequences.

In several places the code behaves differently from what its names suggest. The model
follows the code:

- `goToWeek` appends a newly created target week to `weeks` straight away
  (src/store/plannerStore.ts:254-261).
- `createNewWeek` does not put the new week in `weeks`. It also ignores an archived week that
  already has that date; that archived week is overwritten at the next navigation
  (`WeekOps.NextWeekIgnoresArchive`).
- `importFromJSON` itself validates nothing. The validation lives in the import dialog, so the
  store action is total.
- `reflection.saved` and `budgetHours` are read and written by components but are not
  declared in the types. They are `Option` fields here. The store has no `setBudgetHours`
  action, so the model only gives the value the week view computes for it.
- `moveTask` and `deleteTask` leave gaps in `order`. Nothing renumbers, and the model keeps
  those gaps.
- In the reflection panel, a week list with no reset week labels its earliest week "1.2",
  because the reset index starts at -1 (`ReflectionPanel.NoResetCountsFromMinusOne`). The
  model keeps that behaviour.

## Model

| member | source | states |
|---|---|---|
| `Types.ProjectFromCode` | src/types/index.ts:2 | a decoded project code encodes back to the same character |
| `Types.ProjectCodeRoundTrip` | src/types/index.ts:2 | each of the four projects decodes from its own code |
| `Types.DayIndex` | src/types/index.ts:132 | every day has a position in `DAYS_OF_WEEK` holding that day |
| `Types.DaysOfWeekEnumeratesDays` | src/types/index.ts:131-132 | `DAYS_OF_WEEK` has seven entries, starts with ПН, lists every day, and lists none twice |
| `Types.ProjectTablesAreInjective` | src/types/index.ts:115-129 | the name, colour and code tables are total and tell the four projects apart |
| `StructureOptions.Preset1` | src/types/index.ts:63-72 | option 1 plans 90 minutes on every day |
| `StructureOptions.Preset2` | src/types/index.ts:73-82 | option 2 plans 45 minutes on weekdays and 180 on СБ and ВС |
| `StructureOptions.Preset3` | src/types/index.ts:83-92 | option 3 plans 60 minutes on weekdays and 150 on СБ and ВС |
| `StructureOptions.Preset4` | src/types/index.ts:93-102 | option 4 plans 150 minutes on ПН, СР, ПТ and ВС, and 0 on the other days |
| `StructureOptions.Preset5` | src/types/index.ts:103-112 | option 5 plans 180 minutes on ПН, СР and ВС, and 0 on the other days |
| `StructureOptions.Structure` | src/types/index.ts:62-113 | in every option, only ВС plans Рефлексия time, and it plans 30 minutes |
| `JsText.TrimEmpty` | src/components/TaskModal/TaskModal.tsx:57 | `trim` yields the empty string exactly when the text is all whitespace |
| `JsText.TrimIsSlice` | src/components/TaskModal/TaskModal.tsx:62 | `trim` removes only whitespace, and only from both ends |
| `JsText.TrimIdempotent` | src/components/TaskModal/TaskModal.tsx:62 | trimming a trimmed title changes nothing |
| `JsText.NatToStringRoundTrip` | src/components/ReflectionPanel/ReflectionPanel.tsx:21 | the digits rendered into a label read back as the number |
| `JsText.NatToString` | src/components/ReflectionPanel/ReflectionPanel.tsx:21 | a rendered number is a non-empty run of decimal digits with no leading zero |
| `WeekOps.FindTask` | src/store/plannerStore.ts:112 | `find` returns a task of the list with that id, and returns none exactly when no task has it |
| `WeekOps.DayTasksMember` | src/store/plannerStore.ts:75 | the day filter keeps exactly the tasks of that day |
| `WeekOps.AddTaskAppends` | src/store/plannerStore.ts:74-88 | the new task comes last with the fresh id and order equal to the day's earlier count; the old tasks are an unchanged prefix; only its day gains a task |
| `WeekOps.AddTaskKeepsDense` | src/store/plannerStore.ts:74-88 | a day whose orders are 0..n-1 keeps that property after an add |
| `WeekOps.RepeatedAddsAreDense` | src/store/plannerStore.ts:74-88 | any sequence of adds into a dense or empty day leaves its orders 0..n-1 |
| `WeekOps.PatchSemantics` | src/store/plannerStore.ts:90-99 | `{...task, ...updates}` replaces exactly the fields the patch carries; the patch has no `id` key, so the id is kept |
| `WeekOps.UpdateTouchesOnlyTarget` | src/store/plannerStore.ts:90-99 | updateTask changes only tasks with the id, keeps every id (patches carry no `id`) and position, and leaves the list as it was for an unknown id |
| `WeekOps.DeleteUnknownIdKeepsTasks` | src/store/plannerStore.ts:101-108 | deleting an id no task has leaves the list unchanged |
| `WeekOps.DeleteKeepsOthers` | src/store/plannerStore.ts:101-108 | deleteTask removes exactly one task for a known id, keeps ids distinct, and adds nothing |
| `WeekOps.WithoutPresentId` | src/store/plannerStore.ts:105 | removing a present id removes exactly that task; the other tasks keep their order and their `order` values |
| `WeekOps.ToggleTwice` | src/store/plannerStore.ts:134-143 | toggling flips `completed` only on the matching tasks, and toggling twice restores the list |
| `WeekOps.MoveShape` | src/store/plannerStore.ts:110-131 | an unknown id changes nothing; otherwise the moved task comes last with the new day and order, and only other tasks of newDay with order >= newOrder gain +1; the id multiset is preserved |
| `WeekOps.MoveKeepsDistinctIds` | src/store/plannerStore.ts:110-131 | moveTask keeps task ids pairwise distinct |
| `WeekOps.MoveKeepsOrdersDistinct` | src/store/plannerStore.ts:116-123 | if the other tasks of newDay had distinct orders, every task of newDay has a distinct order afterwards |
| `WeekOps.MovedDayTasks` | src/store/plannerStore.ts:115-127 | the destination day after a move is its other tasks, bumped, followed by the moved task |
| `WeekOps.MovePlacesAt` | src/store/plannerStore.ts:110-131 | when the other tasks of newDay have orders 0..n-1, the moved task sits at sorted position min(k, n), and for k <= n the day's orders become exactly 0..n |
| `WeekOps.SortedDensePlacement` | src/components/DayColumn/DayColumn.tsx:19 | sorting tasks with distinct orders 0..n-1 puts every task at the index of its order |
| `WeekOps.SortedMaxPlacement` | src/components/DayColumn/DayColumn.tsx:19 | sorting tasks with distinct orders puts the one with the largest order last |
| `WeekOps.ReorderTouchesOnlyDay` | src/store/plannerStore.ts:145-156 | a listed task of the day gets its id's index as order; unlisted tasks and other days are unchanged |
| `WeekOps.ReorderReadBack` | src/store/plannerStore.ts:145-156 | when the ids are a permutation of the day's ids, sorting the day by order yields exactly the given ids |
| `WeekOps.ProjectMinutesPartition` | src/components/DayColumn/DayColumn.tsx:29-33 | the four per-project minute sums add up to the total minutes |
| `WeekOps.CompletedBounds` | src/components/WeekView/WeekView.tsx:150-155 | completed tasks are at most all tasks; with non-negative durations, completed minutes and each project's minutes lie between 0 and the total |
| `WeekOps.ImportShape` | src/store/plannerStore.ts:180-213 | old tasks stay as a prefix; imported tasks get fresh ids, the document's fields, `completed = false`, and their index among same-day imported tasks as order; weekStart and option are overwritten only when truthy |
| `WeekOps.ExportAfterImport` | src/store/plannerStore.ts:215-229 | exporting after an import lists the old tuples followed by the document's tuples |
| `WeekOps.ExportImportRoundTrip` | src/store/plannerStore.ts:180-229 | importing an export into a week with no tasks reproduces the same export |
| `WeekOps.WeekIndex` | src/store/plannerStore.ts:245 | `findIndex` returns the first week with that weekStart, or -1 exactly when there is none |
| `WeekOps.ArchiveStores` | src/store/plannerStore.ts:244-251 | insert-or-replace stores the week under its key, leaves other keys alone, grows only for a new key, and keeps keys distinct |
| `WeekOps.GoToOpensTarget` | src/store/plannerStore.ts:241-267 | the outgoing week is archived; the new current week is the archived one or a fresh empty week that is also appended; keys stay distinct |
| `WeekOps.GoToRoundTrip` | src/store/plannerStore.ts:241-267 | going from A to B and back reopens A exactly as it was left, with B archived as it was left |
| `WeekOps.NextWeekIgnoresArchive` | src/store/plannerStore.ts:269-300 | the new week is empty, 7 days on, carries the structure option, and is not archived; an archived week at that date stays until the next navigation overwrites it |
| `PlannerStore.GroupByDay` | src/store/plannerStore.ts:192-197 | `dayGroups` maps each day that occurs to its tasks' positions in list order, with keys in first-occurrence order |
| `PlannerStore.GroupKeysAreDays` | src/store/plannerStore.ts:192-197 | the record's keys are exactly the days that occur, each listed once |
| `PlannerStore.GroupsArePositions` | src/store/plannerStore.ts:192-197 | under each day the record holds the positions of that day's tasks, in list order |
| `PlannerStore.RenumberGroup` | src/store/plannerStore.ts:199-203 | the task at the idx-th position of a group gets order idx, and the rest is unchanged |
| `PlannerStore.RenumberPerDay` | src/store/plannerStore.ts:192-203 | grouping then renumbering group after group gives every task its index among the same-day tasks, which is the order the imported week carries |
| `PlannerStore.BumpDay` | src/store/plannerStore.ts:119-121 | the bump loop moves exactly the other tasks of newDay with order >= newOrder one place down |
| `PlannerStore.MoveKeepsIdBound` | src/store/plannerStore.ts:110-131 | after a move every id is still below the fresh-id counter |
| `PlannerStore.ArchiveWeek` | src/store/plannerStore.ts:244-251 | the outgoing week replaces the archived week with its weekStart, or is appended |
| `PlannerStore.GoToKeepsWellFormed` | src/store/plannerStore.ts:241-267 | after goToWeek ids stay below the counter, which grows only when the target is created, and archived weekStarts stay distinct |
| `PlannerStore.Store.constructor` | src/store/plannerStore.ts:7-36 | the initial state is an empty week with option 1, an empty reflection and an empty archive |
| `PlannerStore.Store.AddTask` | src/store/plannerStore.ts:74-88 | the week gains the added task, the archive is unchanged, and one id is drawn |
| `PlannerStore.Store.UpdateTask` | src/store/plannerStore.ts:90-99 | the tasks are replaced by the patched list and nothing else changes |
| `PlannerStore.Store.DeleteTask` | src/store/plannerStore.ts:101-108 | the tasks are replaced by the list without that id and nothing else changes |
| `PlannerStore.Store.MoveTask` | src/store/plannerStore.ts:110-131 | the bump loop and the append give exactly the moved list; ids stay distinct |
| `PlannerStore.Store.ToggleTaskComplete` | src/store/plannerStore.ts:134-143 | the tasks are replaced by the toggled list and nothing else changes |
| `PlannerStore.Store.ReorderTasksInDay` | src/store/plannerStore.ts:145-156 | the tasks are replaced by the reordered list and nothing else changes |
| `PlannerStore.Store.SetStructureOption` | src/store/plannerStore.ts:158-165 | only the week's structure option changes |
| `PlannerStore.Store.SaveReflection` | src/store/plannerStore.ts:167-174 | the reflection is replaced wholesale and nothing else changes |
| `PlannerStore.Store.ImportFromJSON` | src/store/plannerStore.ts:180-213 | the grouping and renumbering loops give exactly the imported week, and one id is drawn per task |
| `PlannerStore.Store.ClearCurrentWeek` | src/store/plannerStore.ts:231-239 | the tasks become empty and the reflection empty; id, weekStart and option are kept |
| `PlannerStore.Store.GoToWeek` | src/store/plannerStore.ts:241-267 | the new state is the goToWeek result, and an id is drawn only when the target week is created |
| `PlannerStore.Store.CreateNewWeek` | src/store/plannerStore.ts:269-300 | the new state is the createNewWeek result, and one id is drawn |
| `WeekView.DayIdsArePermutation` | src/components/WeekView/WeekView.tsx:129-136 | the sorted card ids of a day are a permutation of that day's ids |
| `WeekView.DragEndCall` | src/components/WeekView/WeekView.tsx:77-146 | no target or unknown card gives no call; duplicate gives one add with copied fields and the resolved day; a column drop moves to the end only for another day; a card drop moves to another day at the card's order, or reorders with the card's index |
| `WeekView.PlaceCall` | src/components/WeekView/WeekView.tsx:114-145 | a column drop moves to the end of another day and does nothing on its own day; a card drop on another day moves to that card's order, and on the same day reorders so that the dragged id takes the card's index |
| `WeekView.ReorderOnCard` | src/components/WeekView/WeekView.tsx:127-140 | the new id list puts the dragged id at the target's index, keeps the other ids in their order, and is a permutation of the day's ids |
| `WeekView.SpliceFacts` | src/components/WeekView/WeekView.tsx:136-138 | remove-then-insert puts the dragged id at the new index, keeps the others in order, and is a permutation |
| `WeekView.DropReorderTakesEffect` | src/components/WeekView/WeekView.tsx:127-140 | after a same-day drop the day's cards, sorted by order, list exactly the new id sequence |
| `WeekView.DropOnColumnKeepsDense` | src/components/WeekView/WeekView.tsx:115-122 | a drop on another day's column appends the task to a dense day and keeps it dense |
| `WeekView.HandleDragEnd` | src/components/WeekView/WeekView.tsx:77-146 | the store ends in the chosen call's effect, and a reorder reads back its id list |
| `WeekView.StatsConsistent` | src/components/WeekView/WeekView.tsx:149-163 | the project sums add up to the planned minutes; completed count and minutes are bounded by the totals |
| `WeekView.ShownBudget` | src/components/WeekView/WeekView.tsx:29 | a missing budget shows 10, and a present one shows as it is |
| `WeekView.BudgetWritten` | src/components/WeekView/WeekView.tsx:191 | the value the budget field hands to `setBudgetHours` is at least 1: 0 or NaN gives 10, a negative gives 1, and a positive is kept |
| `JsonImportModal.CheckSemantics` | src/components/JsonImportModal/JsonImportModal.tsx:27-44 | text is accepted iff it parses, `tasks` is an array and every task has truthy day, project, title and duration; each rejection has its message |
| `JsonImportModal.AllComplete` | src/components/JsonImportModal/JsonImportModal.tsx:35-39 | the loop over the tasks succeeds exactly when every task is complete |
| `JsonImportModal.IsBlank` | src/components/JsonImportModal/JsonImportModal.tsx:24 | text counts as blank exactly when it is all whitespace |
| `JsonImportModal.Validate` | src/components/JsonImportModal/JsonImportModal.tsx:26-44 | a rejection sets only its message, and an accepted document sets only the plan |
| `JsonImportModal.ImportModal.constructor` | src/components/JsonImportModal/JsonImportModal.tsx:14-16 | the dialog opens with no text, no error and no plan |
| `JsonImportModal.ImportModal.HandleTextChange` | src/components/JsonImportModal/JsonImportModal.tsx:20-45 | error and plan are cleared first; blank text sets neither; otherwise exactly one of error and plan is set, by the check |
| `JsonImportModal.ImportModal.HandleImport` | src/components/JsonImportModal/JsonImportModal.tsx:47-58 | without a plan nothing happens; with one the week is cleared when replacing, then imported, and the dialog is reset |
| `JsonImportModal.ReplaceOrAppend` | src/components/JsonImportModal/JsonImportModal.tsx:50-54 | replace leaves exactly the imported tasks; append keeps the old tasks as a prefix |
| `TaskModal.HasProjectInDay` | src/components/TaskModal/TaskModal.tsx:32-35 | a day has a project's task iff some task of the week is on that day with that project |
| `TaskModal.SuggestedProject` | src/components/TaskModal/TaskModal.tsx:37-42 | К in the day gives Ф, else Д gives К, else Ф gives Д, else Ф; never Р |
| `TaskModal.DefaultProject` | src/components/TaskModal/TaskModal.tsx:30-43 | the three successive overwrites select the suggested project for the target day |
| `TaskModal.StartTimeRoundTrip` | src/components/TaskModal/TaskModal.tsx:28 | a missing start time shows as '' and '' is submitted as missing |
| `TaskModal.OpenForm` | src/components/TaskModal/TaskModal.tsx:22-50 | editing pre-fills from the task; a new task gets an empty title, 30 minutes, the target day and the suggested project |
| `TaskModal.UntouchedEditKeepsTask` | src/components/TaskModal/TaskModal.tsx:22-66 | submitting an untouched edit of a clean task leaves the task unchanged |
| `TaskModal.SubmittedTitleIsClean` | src/components/TaskModal/TaskModal.tsx:57-75 | a submitted title is non-empty and starts and ends with a non-whitespace character |
| `TaskModal.HandleSubmit` | src/components/TaskModal/TaskModal.tsx:54-79 | a blank title makes no call; an edit updates `task.id`; a new task is added, not completed |
| `TaskModal.FormDuration` | src/components/TaskModal/TaskModal.tsx:142 | the duration field is at least 1, and keeps a parsed value of at least 1 |
| `ReflectionPanel.SortedWeeks` | src/components/ReflectionPanel/ReflectionPanel.tsx:8 | the sorted list is a permutation of the archived dates plus this week, in ascending order |
| `ReflectionPanel.LastResetIsLatest` | src/components/ReflectionPanel/ReflectionPanel.tsx:11-18 | the reset index is the largest index at or below weekIndex held by a reset week, or -1 |
| `ReflectionPanel.FindResetIndex` | src/components/ReflectionPanel/ReflectionPanel.tsx:11-18 | the loop over the reset weeks ends with the latest reset index at or below weekIndex, or -1 |
| `ReflectionPanel.WeekIsListed` | src/components/ReflectionPanel/ReflectionPanel.tsx:8-9 | `indexOf` finds the week in the sorted list, so weekIndex >= 0 |
| `ReflectionPanel.SprintLabel` | src/components/ReflectionPanel/ReflectionPanel.tsx:21 | the label starts with "1." and its remaining digits read back as the sprint week |
| `ReflectionPanel.SprintWeek` | src/components/ReflectionPanel/ReflectionPanel.tsx:8-21 | the sprint week is weekIndex - resetIndex + 1, with weekIndex >= 0 |
| `ReflectionPanel.GetSprintNumber` | src/components/ReflectionPanel/ReflectionPanel.tsx:7-22 | an absent reset list makes the `for...of` throw, and only then; otherwise the label is "1." followed by the sprint week, weekIndex - resetIndex + 1 |
| `ReflectionPanel.ResetWeekStartsOver` | src/components/ReflectionPanel/ReflectionPanel.tsx:13-21 | a reset week is its own reset point, so its sprint week is 1 and it is labelled "1.1" |
| `ReflectionPanel.NoResetCountsFromMinusOne` | src/components/ReflectionPanel/ReflectionPanel.tsx:12-18 | with no reset week in the list the reset index stays -1, so the sprint week is weekIndex + 2 |
| `ReflectionPanel.UpdateDone` | src/components/ReflectionPanel/ReflectionPanel.tsx:62-67 | only the named `done` note changes |
| `ReflectionPanel.UpdateNotDone` | src/components/ReflectionPanel/ReflectionPanel.tsx:69-74 | only the named `notDone` note changes |
| `ReflectionPanel.SavedReflection` | src/components/ReflectionPanel/ReflectionPanel.tsx:53-56 | the saved draft has `saved = true` and every other field unchanged |
| `ReflectionPanel.EditModeOnLoad` | src/components/ReflectionPanel/ReflectionPanel.tsx:44-51 | the panel opens in edit mode iff the reflection is not saved; a saved one reopens read-only, an empty one editable |
| `MonthView.JsRem` | src/components/MonthView/MonthView.tsx:15 | JavaScript `%` agrees with Dafny's on non-negative operands and truncates toward zero on negative ones |
| `MonthView.SprintCycle` | src/components/MonthView/MonthView.tsx:14-16 | for weekOfYear >= 1 the number is in 0..3, is 0 iff weekOfYear is divisible by 4, and is otherwise ((w-1) mod 4) + 1 |
| `MonthView.SprintPeriodic` | src/components/MonthView/MonthView.tsx:15 | the sprint number repeats with period 4 |
| `MonthView.WeekLabels` | src/components/MonthView/MonthView.tsx:19-26 | the week type is integration iff the number is 0; the label is "Интеграция" then, else "Спринт " and the digit |
| `MonthView.GenerateWeeksForView` | src/components/MonthView/MonthView.tsx:39-54 | eight week starts 7 days apart, starting 14 days before the current week, which is at index 2 |
| `MonthView.GetWeekDataIsArchivedView` | src/components/MonthView/MonthView.tsx:62-67 | the row's week is the current week for its own date, else the first archived week, which is what opening it shows |
| `MonthView.RowStatsBounds` | src/components/MonthView/MonthView.tsx:93-95 | a week without data shows zeros; otherwise completed <= total and the rounded percentage lies in 0..100 |
| `MonthView.PercentBounds` | src/components/MonthView/MonthView.tsx:120 | the rounded completion percentage is 0 with nothing done and 100 with everything done |
| `DayColumn.WeekendIsLastTwoDays` | src/components/DayColumn/DayColumn.tsx:18 | a column is a weekend iff its day is СБ or ВС, the last two days |
| `Sequences.SortByStable` | src/components/DayColumn/DayColumn.tsx:19 | the sort is stable: for every order value, the tasks that share it keep their input order (equal orders arise after an append import or a day change in the edit form) |
| `DayColumn.SortedTasks` | src/components/DayColumn/DayColumn.tsx:19 | the cards are a permutation of the tasks, non-decreasing by order |
| `DayColumn.TaskIdsArePermutation` | src/components/DayColumn/DayColumn.tsx:20 | the sortable ids are exactly the column's task ids, in card order |
| `DayColumn.ColumnListsDayInOrder` | src/components/DayColumn/DayColumn.tsx:19-20 | the column lists each task of its day once, in ascending order |
| `DayColumn.HasAnyTimeIffMinutes` | src/components/DayColumn/DayColumn.tsx:29-36 | the footer shows iff the column's minutes total more than 0, which with positive durations means the column is not empty |

## Left out

- React rendering, CSS modules, the dnd-kit sensors and collision detection, and the
  Ctrl/Cmd key listeners. A drop reaches the model as a `DropTarget` and a duplicate flag.
- zustand `create`/`persist` and localStorage persistence. The store is a plain class.
- `JSON.parse`/`JSON.stringify` text handling. The model works on the parsed document
  (`ParseOutcome`, `ImportDoc`) and on the exported record.
- Imported `day` and `project` strings outside the vocabulary. A raw field is either a known
  value or missing/falsy, so an unknown but truthy string cannot be represented.
- The export download through Blob and an anchor click, and the Header's date arithmetic
  around `goToWeek`.
- JS `Date` and timezone arithmetic: `getCurrentWeekStart`, the Monday the constructor
  receives, the +7-day date in createNewWeek, `getDateForDay`, date formatting, and the
  weekOfYear computation. Dates are integer day numbers, and weekOfYear is an input to
  `MonthView.SprintNumber`.
- `ReflectionPanel.SortedWeeks`: sorts dates numerically. This stands for the lexicographic
  sort of ISO date strings, which is chronological.
- `MonthView.CompletionPercent`: floating-point percentages and progress widths are not
  modelled. The function computes `Math.round` of the ratio exactly on integers, so it can
  differ by one from the IEEE-double result. For 23 done out of 40, `23 / 40 * 100` is
  57.49999999999999 in doubles and the month view shows 57, while the model gives 58. The
  bounds of `MonthView.PercentBounds` hold for both.
- uuid generation. Fresh ids come from the counter `nextId`.
- Timers: the save-reminder popup and the saved-message timeout.
- App view routing, `setActiveView` and the task card component. They only forward clicks.
- The aliasing in moveTask, where its `forEach` mutates task objects shared with the previous
  state. The model updates values.
- `setBudgetHours` and `sprintResetWeeks`: no store code defines them. The budget is an
  optional field of the week. The reset weeks are an optional parameter of the label, and
  `ReflectionPanel.GetSprintNumber` returns `NotIterable` when they are absent. That is the
  only case the current store code produces (a legacy value merged back from localStorage by
  `persist` takes the other branch): the `for...of` loop throws, and the panel does
  not render.
- `WeekOps.PatchSemantics`: a patch that carries an `id` key is not modelled. `Partial<Task>`
  accepts one, and `{...task, ...updates}` would then overwrite the task's id and could break
  the store's distinct ids. The only caller, src/components/TaskModal/TaskModal.tsx:60-66,
  never passes `id`. The same holds for `WeekOps.UpdateTouchesOnlyTarget` and
  `PlannerStore.Store.UpdateTask`.
- `WeekOps.UpdateTouchesOnlyTarget`: "keeps every id" holds for the modelled patches, which
  have no `id` key (see the line above).
- `JsonImportModal.CheckSemantics`: each entry of `tasks` is taken to be an object with a
  string title and an integer duration. Null entries are not modelled; the source reads
  `task.day` of null and shows the resulting TypeError's message. Ill-typed fields are not
  modelled either: a string or fractional `duration`, or a non-string truthy `title`, passes
  the source's truthiness check.
- Month settings, configurable sprint cycles, and full-backup import and export: no code
  implements them.
