/**
 * The sprint overview: eight week rows around the current week, each
 * classified by its position in a four-week cycle (three sprints and one
 * integration week) and summarised from the stored week plans.
 */
module MonthView {
  import opened Types
  import opened WeekOps
  import opened JsText

  /** JavaScript's `%`, which truncates toward zero (Dafny's `%` never goes negative). */
  function JsRem(a: int, b: int): (r: int)
    requires b > 0
    ensures a >= 0 ==> 0 <= r < b && r == a % b
    ensures a < 0 ==> -b < r <= 0 && r == -((-a) % b)
  {
    if a >= 0 then a % b else -((-a) % b)
  }

  /**
   * `getSprintNumber`, given the week-of-year number: the position 1..3
   * inside the cycle, or 0 for the integration week.
   */
  function SprintNumber(weekOfYear: int): int
  {
    var position := JsRem(weekOfYear - 1, 4) + 1;
    if position <= 3 then position else 0
  }

  /**
   * From week 1 on, weeks 1, 2, 3 of every four are sprints 1, 2, 3 and the
   * fourth is the integration week.
   */
  lemma SprintCycle(w: int)
    requires w >= 1
    ensures 0 <= SprintNumber(w) <= 3
    ensures SprintNumber(w) == 0 <==> w % 4 == 0
    ensures SprintNumber(w) != 0 ==> SprintNumber(w) == (w - 1) % 4 + 1
  {
  }

  /** The classification repeats every four weeks. */
  lemma SprintPeriodic(w: int)
    requires w >= 1
    ensures SprintNumber(w + 4) == SprintNumber(w)
  {
    assert (w + 4 - 1) % 4 == (w - 1) % 4;
  }

  datatype WeekType = Sprint | Integration

  function GetWeekType(weekOfYear: int): WeekType
  {
    if SprintNumber(weekOfYear) > 0 then Sprint else Integration
  }

  function GetWeekLabel(weekOfYear: int): string
  {
    var n := SprintNumber(weekOfYear);
    if n > 0 then "Спринт " + NatToString(n) else "Интеграция"
  }

  /**
   * Every week of a year is labelled either "Интеграция", exactly when it is
   * the integration week, or "Спринт " followed by its one-digit number 1..3.
   */
  lemma WeekLabels(w: int)
    requires w >= 1
    ensures GetWeekType(w) == Integration <==> w % 4 == 0
    ensures GetWeekLabel(w) == "Интеграция" <==> GetWeekType(w) == Integration
    ensures GetWeekType(w) == Sprint ==>
      GetWeekLabel(w) == "Спринт " + [DigitChar(SprintNumber(w))] && 1 <= SprintNumber(w) <= 3
  {
    SprintCycle(w);
    var n := SprintNumber(w);
    if n > 0 {
      var text := GetWeekLabel(w);
      assert text[0] == 'С' && "Интеграция"[0] == 'И';
    }
  }

  /** `generateWeeksForView`: eight consecutive weeks, starting two weeks before `current`. */
  method GenerateWeeksForView(current: Date) returns (weeks: seq<Date>)
    ensures |weeks| == 8
    ensures forall i :: 0 <= i < 8 ==> weeks[i] == AddDays(current, 7 * i - 14)
    ensures weeks[2] == current
    ensures forall i :: 0 <= i < 7 ==> weeks[i + 1] == AddDays(weeks[i], 7)
  {
    var start := AddDays(current, -7 * 2);
    weeks := [];
    var i := 0;
    while i < 8
      invariant 0 <= i <= 8 && |weeks| == i
      invariant forall k :: 0 <= k < i ==> weeks[k] == AddDays(start, k * 7)
    {
      weeks := weeks + [AddDays(start, i * 7)];
      i := i + 1;
    }
  }

  /** `getWeekData`: the live current week for its own date, else the archived week. */
  function GetWeekData(cur: WeekPlan, weeks: seq<WeekPlan>, ws: Date): Option<WeekPlan>
  {
    if ws == cur.weekStart then Some(cur) else FindWeek(weeks, ws)
  }

  /**
   * The overview shows for each date what the archive would hold once the
   * current week is saved into it, and a row's button opens exactly the
   * week the row summarises (a fresh empty week when the row is empty).
   */
  lemma GetWeekDataIsArchivedView(cur: WeekPlan, weeks: seq<WeekPlan>, ws: Date, freshId: nat)
    ensures GetWeekData(cur, weeks, ws) == FindWeek(Archive(weeks, cur), ws)
    ensures var shown := GoTo(cur, weeks, ws, freshId).current;
      shown == (if GetWeekData(cur, weeks, ws).Some? then GetWeekData(cur, weeks, ws).value
                 else EmptyWeek(freshId, ws))
  {
    ArchiveStores(weeks, cur);
    GoToOpensTarget(cur, weeks, ws, freshId);
  }

  /** The three figures of a row. */
  datatype RowStats = RowStats(totalTasks: nat, completedTasks: nat, totalMinutes: int)

  /** `weekData?.tasks.length || 0` and its two siblings. */
  function RowStatsOf(data: Option<WeekPlan>): RowStats
  {
    match data
    case None => RowStats(0, 0, 0)
    case Some(w) => RowStats(|w.tasks|, CompletedCount(w.tasks), Minutes(w.tasks))
  }

  /** `Math.round(completed / total * 100)`, zero for an empty week. */
  function CompletionPercent(completed: nat, total: nat): int
  {
    if total > 0 then (200 * completed + total) / (2 * total) else 0
  }

  /** `Math.floor(totalMinutes / 60)`. */
  function Hours(minutes: int): int
  {
    minutes / 60
  }

  /**
   * A row with no stored week shows zeros; otherwise it counts the week's
   * tasks, never more completed than in total, so the percentage lies in
   * 0..100, is 100 when every task is done and 0 when none is.
   */
  lemma RowStatsBounds(data: Option<WeekPlan>)
    ensures data.None? ==> RowStatsOf(data) == RowStats(0, 0, 0)
    ensures data.Some? ==> RowStatsOf(data).totalTasks == |data.value.tasks|
    ensures var s := RowStatsOf(data);
      s.completedTasks <= s.totalTasks &&
      0 <= CompletionPercent(s.completedTasks, s.totalTasks) <= 100 &&
      (s.totalTasks > 0 && s.completedTasks == s.totalTasks ==> CompletionPercent(s.completedTasks, s.totalTasks) == 100) &&
      (s.completedTasks == 0 ==> CompletionPercent(s.completedTasks, s.totalTasks) == 0)
    ensures data.Some? && NonNegativeDurations(data.value.tasks) ==> Hours(RowStatsOf(data).totalMinutes) >= 0
  {
    if data.Some? {
      CompletedBounds(data.value.tasks);
    }
    var s := RowStatsOf(data);
    PercentBounds(s.completedTasks, s.totalTasks);
  }

  /** The rounded percentage of `c` done out of `t` lies in 0..100 and hits both ends. */
  lemma PercentBounds(c: nat, t: nat)
    requires c <= t
    ensures 0 <= CompletionPercent(c, t) <= 100
    ensures t > 0 && c == t ==> CompletionPercent(c, t) == 100
    ensures c == 0 ==> CompletionPercent(c, t) == 0
  {
    if t > 0 {
      var n := 200 * c + t;
      var d := 2 * t;
      MulMono(200, c, t);
      assert n < d * 101;
      DivBelow(n, d, 100);
      if c == t {
        assert d * 100 <= n;
        DivAbove(n, d, 100);
      }
      if c == 0 {
        assert n < d * 1;
        DivBelow(n, d, 0);
      }
    }
  }

  /** `n < d * (q + 1)` bounds the quotient `n / d` by `q`. */
  lemma DivBelow(n: nat, d: nat, q: nat)
    requires d > 0 && n < d * (q + 1)
    ensures n / d <= q
  {
    var k := n / d;
    assert d * k <= n;
    if k > q {
      MulMono(d, q + 1, k);
    }
  }

  /** `d * q <= n` bounds the quotient `n / d` from below by `q`. */
  lemma DivAbove(n: nat, d: nat, q: nat)
    requires d > 0 && d * q <= n
    ensures n / d >= q
  {
    var k := n / d;
    assert n < d * k + d;
    if k < q {
      MulMono(d, k + 1, q);
    }
  }

  lemma {:induction false} MulMono(d: nat, a: nat, b: nat)
    requires a <= b
    ensures d * a <= d * b
    decreases b - a
  {
    if a < b {
      MulMono(d, a, b - 1);
      assert d * b == d * (b - 1) + d;
    }
  }
}
