/**
 * The weekly reflection panel: the sprint label computed from the sorted
 * week dates and the reset weeks, the draft edits of the done / not-done
 * notes, saving, and the mode the panel opens in.
 */
module ReflectionPanel {
  import opened Types
  import opened Sequences
  import opened JsText
  import opened WeekOps

  function DateKey(d: Date): int
  {
    d
  }

  /**
   * `[...allWeeks, weekStart].sort()`. The dates are ISO `YYYY-MM-DD`
   * strings, whose string order is their chronological order.
   */
  function SortedWeeks(allWeeks: seq<Date>, weekStart: Date): (r: seq<Date>)
    ensures multiset(r) == multiset(allWeeks) + multiset{weekStart}
    ensures SortedBy(r, DateKey)
  {
    SortBy(allWeeks + [weekStart], DateKey)
  }

  /**
   * The value of `resetIndex` after the loop has visited `resets`: a reset
   * week's sorted position replaces it when it lies at or below `weekIndex`
   * and above the current value.
   */
  function LastReset(sorted: seq<Date>, weekIndex: int, resets: seq<Date>): int
  {
    if resets == [] then -1
    else
      var r := LastReset(sorted, weekIndex, resets[..|resets| - 1]);
      var idx := IndexOf(sorted, resets[|resets| - 1]);
      if idx <= weekIndex && idx > r then idx else r
  }

  /**
   * `resetIndex` is the latest sorted position at or below `weekIndex` held
   * by a reset week that occurs in the list, or -1 when there is none; reset
   * weeks missing from the list are ignored.
   */
  lemma LastResetSnoc(sorted: seq<Date>, weekIndex: int, resets: seq<Date>, x: Date)
    ensures var r := LastReset(sorted, weekIndex, resets);
      var idx := IndexOf(sorted, x);
      LastReset(sorted, weekIndex, resets + [x]) == if idx <= weekIndex && idx > r then idx else r
  {
    assert (resets + [x])[..|resets|] == resets;
  }

  lemma {:induction false} LastResetRange(sorted: seq<Date>, weekIndex: int, resets: seq<Date>)
    requires weekIndex >= 0
    ensures -1 <= LastReset(sorted, weekIndex, resets) <= weekIndex
  {
    if resets != [] {
      LastResetRange(sorted, weekIndex, resets[..|resets| - 1]);
    }
  }

  lemma {:induction false} LastResetIsLatest(sorted: seq<Date>, weekIndex: int, resets: seq<Date>)
    requires weekIndex >= 0
    ensures var r := LastReset(sorted, weekIndex, resets);
      (r >= 0 ==> exists k :: 0 <= k < |resets| && IndexOf(sorted, resets[k]) == r) &&
      (forall k :: 0 <= k < |resets| && IndexOf(sorted, resets[k]) <= weekIndex ==> IndexOf(sorted, resets[k]) <= r)
  {
    if resets != [] {
      var init := resets[..|resets| - 1];
      LastResetIsLatest(sorted, weekIndex, init);
      var r0 := LastReset(sorted, weekIndex, init);
      var r := LastReset(sorted, weekIndex, resets);
      if r >= 0 {
        if r == r0 {
          var k :| 0 <= k < |init| && IndexOf(sorted, init[k]) == r;
          assert resets[k] == init[k];
        } else {
          assert IndexOf(sorted, resets[|resets| - 1]) == r;
        }
      }
      forall k | 0 <= k < |resets| && IndexOf(sorted, resets[k]) <= weekIndex
        ensures IndexOf(sorted, resets[k]) <= r
      {
        if k < |init| {
          assert resets[k] == init[k];
        }
      }
    }
  }

  /** The week itself is in the sorted list, so `indexOf` finds it. */
  lemma WeekIsListed(allWeeks: seq<Date>, weekStart: Date)
    ensures 0 <= IndexOf(SortedWeeks(allWeeks, weekStart), weekStart)
  {
    assert weekStart in multiset(SortedWeeks(allWeeks, weekStart));
  }

  /**
   * The `for (const reset of sprintResetWeeks)` loop of `getSprintNumber`:
   * `resetIndex` stays equal to `LastReset` of the reset weeks visited so far.
   */
  method FindResetIndex(sortedWeeks: seq<Date>, weekIndex: int, sprintResetWeeks: seq<Date>)
    returns (resetIndex: int)
    ensures resetIndex == LastReset(sortedWeeks, weekIndex, sprintResetWeeks)
  {
    resetIndex := -1;
    var i := 0;
    while i < |sprintResetWeeks|
      invariant 0 <= i <= |sprintResetWeeks|
      invariant resetIndex == LastReset(sortedWeeks, weekIndex, sprintResetWeeks[..i])
    {
      var reset := sprintResetWeeks[i];
      var resetIdx := IndexOf(sortedWeeks, reset);
      assert sprintResetWeeks[..i + 1] == sprintResetWeeks[..i] + [reset];
      LastResetSnoc(sortedWeeks, weekIndex, sprintResetWeeks[..i], reset);
      if resetIdx <= weekIndex && resetIdx > resetIndex {
        resetIndex := resetIdx;
      }
      i := i + 1;
    }
    assert sprintResetWeeks[..i] == sprintResetWeeks;
  }

  /** The label `1.${n}`: the major number 1, a dot, and the sprint week `n` in decimal. */
  function SprintLabel(n: nat): (text: string)
    ensures |text| >= 3 && text[..2] == "1." && ParseDigits(text[2..]) == n
  {
    NatToStringRoundTrip(n);
    assert ("1." + NatToString(n))[2..] == NatToString(n);
    "1." + NatToString(n)
  }

  /**
   * The week's number within its sprint: its distance from the latest
   * reset week at or before it, plus one.
   */
  function SprintWeek(weekStart: Date, allWeeks: seq<Date>, resets: seq<Date>): (n: nat)
    ensures var sorted := SortedWeeks(allWeeks, weekStart);
      var weekIndex := IndexOf(sorted, weekStart);
      0 <= weekIndex && n == weekIndex - LastReset(sorted, weekIndex, resets) + 1
  {
    var sorted := SortedWeeks(allWeeks, weekStart);
    WeekIsListed(allWeeks, weekStart);
    var weekIndex := IndexOf(sorted, weekStart);
    LastResetRange(sorted, weekIndex, resets);
    weekIndex - LastReset(sorted, weekIndex, resets) + 1
  }

  /**
   * What `getSprintNumber` yields: the label, or the TypeError that
   * `for (const reset of sprintResetWeeks)` throws when the list is
   * `undefined` (the store declares no such field), which stops the panel
   * from rendering.
   */
  datatype SprintOutcome = Label(text: string) | NotIterable

  /** `getSprintNumber` (the panel's sprint label), with the reset list possibly absent. */
  method GetSprintNumber(weekStart: Date, allWeeks: seq<Date>, sprintResetWeeks: Option<seq<Date>>)
    returns (outcome: SprintOutcome)
    ensures sprintResetWeeks.None? <==> outcome.NotIterable?
    ensures sprintResetWeeks.Some? ==>
      outcome == Label(SprintLabel(SprintWeek(weekStart, allWeeks, sprintResetWeeks.value)))
  {
    var sortedWeeks := SortedWeeks(allWeeks, weekStart);
    WeekIsListed(allWeeks, weekStart);
    var weekIndex := IndexOf(sortedWeeks, weekStart);
    if sprintResetWeeks.None? {
      return NotIterable;
    }
    var resets := sprintResetWeeks.value;
    var resetIndex := FindResetIndex(sortedWeeks, weekIndex, resets);
    LastResetRange(sortedWeeks, weekIndex, resets);
    var sprintNum := weekIndex - resetIndex;
    assert sprintNum + 1 == SprintWeek(weekStart, allWeeks, resets);
    outcome := Label(SprintLabel(sprintNum + 1));
  }

  /** A reset week counts 1, so it is labelled "1.1". */
  lemma ResetWeekStartsOver(weekStart: Date, allWeeks: seq<Date>, resets: seq<Date>)
    requires weekStart in resets
    ensures SprintWeek(weekStart, allWeeks, resets) == 1
  {
    var sorted := SortedWeeks(allWeeks, weekStart);
    assert weekStart in multiset(sorted);
    var weekIndex := IndexOf(sorted, weekStart);
    var k :| 0 <= k < |resets| && resets[k] == weekStart;
    ResetAtWeek(sorted, weekIndex, resets, k);
  }

  lemma ResetAtWeek(sorted: seq<Date>, weekIndex: int, resets: seq<Date>, k: nat)
    requires weekIndex >= 0 && k < |resets| && IndexOf(sorted, resets[k]) == weekIndex
    ensures LastReset(sorted, weekIndex, resets) == weekIndex
  {
    LastResetRange(sorted, weekIndex, resets);
    LastResetIsLatest(sorted, weekIndex, resets);
  }

  /**
   * Without a reset week in the list the reset index stays -1, so the week
   * counts `weekIndex + 2` and the earliest week is labelled "1.2".
   */
  lemma NoResetCountsFromMinusOne(weekStart: Date, allWeeks: seq<Date>, resets: seq<Date>)
    requires forall k :: 0 <= k < |resets| ==> resets[k] !in allWeeks && resets[k] != weekStart
    ensures SprintWeek(weekStart, allWeeks, resets) == IndexOf(SortedWeeks(allWeeks, weekStart), weekStart) + 2
  {
    var sorted := SortedWeeks(allWeeks, weekStart);
    assert weekStart in multiset(sorted);
    var weekIndex := IndexOf(sorted, weekStart);
    LastResetRange(sorted, weekIndex, resets);
    LastResetIsLatest(sorted, weekIndex, resets);
    forall k | 0 <= k < |resets| ensures IndexOf(sorted, resets[k]) == -1 {
      assert resets[k] !in multiset(allWeeks + [weekStart]);
      assert resets[k] !in multiset(sorted);
    }
  }

  /** The three note fields of `done` and `notDone`. */
  datatype NoteField = FoundationNote | DriveNote | JoyNote

  function NoteOf(notes: ProjectNotes, field: NoteField): string
  {
    match field
    case FoundationNote => notes.foundation
    case DriveNote => notes.drive
    case JoyNote => notes.joy
  }

  /** `{ ...notes, [field]: value }`. */
  function SetNote(notes: ProjectNotes, field: NoteField, value: string): (r: ProjectNotes)
    ensures NoteOf(r, field) == value
    ensures forall g :: g != field ==> NoteOf(r, g) == NoteOf(notes, g)
  {
    match field
    case FoundationNote => notes.(foundation := value)
    case DriveNote => notes.(drive := value)
    case JoyNote => notes.(joy := value)
  }

  /** `updateDone`: only the named note of `done` changes. */
  function UpdateDone(draft: WeeklyReflection, field: NoteField, value: string): (r: WeeklyReflection)
    ensures NoteOf(r.done, field) == value
    ensures forall g :: g != field ==> NoteOf(r.done, g) == NoteOf(draft.done, g)
    ensures r.notDone == draft.notDone && r.adjustments == draft.adjustments && r.saved == draft.saved
  {
    draft.(done := SetNote(draft.done, field, value))
  }

  /** `updateNotDone`: only the named note of `notDone` changes. */
  function UpdateNotDone(draft: WeeklyReflection, field: NoteField, value: string): (r: WeeklyReflection)
    ensures NoteOf(r.notDone, field) == value
    ensures forall g :: g != field ==> NoteOf(r.notDone, g) == NoteOf(draft.notDone, g)
    ensures r.done == draft.done && r.adjustments == draft.adjustments && r.saved == draft.saved
  {
    draft.(notDone := SetNote(draft.notDone, field, value))
  }

  /** `{ ...reflection, saved: true }`, the record `handleSave` hands to `saveReflection`. */
  function SavedReflection(draft: WeeklyReflection): (r: WeeklyReflection)
    ensures r.saved == Some(true)
    ensures r.done == draft.done && r.notDone == draft.notDone && r.adjustments == draft.adjustments
  {
    draft.(saved := Some(true))
  }

  /** `!reflection.saved`: the panel opens in edit mode unless the reflection was saved. */
  predicate OpensInEditMode(r: WeeklyReflection)
  {
    !(r.saved.Some? && r.saved.value)
  }

  /**
   * A saved reflection reopens read-only, while a fresh or cleared week's
   * reflection opens for editing; editing a note keeps the mode.
   */
  lemma EditModeOnLoad(draft: WeeklyReflection, field: NoteField, value: string)
    ensures !OpensInEditMode(SavedReflection(draft))
    ensures OpensInEditMode(EmptyReflection())
    ensures OpensInEditMode(draft) <==> draft.saved != Some(true)
    ensures OpensInEditMode(UpdateDone(draft, field, value)) == OpensInEditMode(draft)
    ensures OpensInEditMode(UpdateNotDone(draft, field, value)) == OpensInEditMode(draft)
  {
  }
}
