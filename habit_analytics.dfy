/**
 * The analytics that `get_habit_analytics` derives from the logs of one
 * habit: the current streak, the completion rate, the consistency score and
 * one heatmap cell per log. The logs are those the date-range query returns,
 * ordered by date ascending; `today` is the current UTC date rendered as
 * `YYYY-MM-DD`.
 */
module HabitAnalytics {
  import opened Stats

  datatype HabitLog = HabitLog(logDate: string, status: string)

  datatype HeatmapDay = HeatmapDay(date: string, count: int, intensity: real)

  datatype Analytics = Analytics(
    currentStreak: int,
    consistencyScore: real,
    completionRate: real,
    heatmapData: seq<HeatmapDay>)

  predicate IsCompleted(log: HabitLog) {
    log.status == "completed"
  }

  /** A log that extends the streak: dated today and completed. */
  predicate ExtendsStreak(log: HabitLog, today: string) {
    log.logDate == today && log.status == "completed"
  }

  /**
   * The length of the longest suffix of `logs` in which every log is dated
   * today and completed.
   */
  function TrailingStreak(logs: seq<HabitLog>, today: string): (n: nat)
    ensures n <= |logs|
    ensures forall k | |logs| - n <= k < |logs| :: ExtendsStreak(logs[k], today)
    ensures n < |logs| ==> !ExtendsStreak(logs[|logs| - n - 1], today)
  {
    if logs == [] || !ExtendsStreak(logs[|logs| - 1], today) then 0
    else 1 + TrailingStreak(logs[..|logs| - 1], today)
  }

  /** `logs.iter().filter(|l| l.status == "completed").count()`. */
  function CompletedCount(logs: seq<HabitLog>): nat {
    Count(logs, IsCompleted)
  }

  /** Completed logs over all logs, 0 when there are none. */
  function CompletionRate(logs: seq<HabitLog>): real {
    if |logs| == 0 then 0.0 else (CompletedCount(logs) as real) / (|logs| as real)
  }

  /** The heatmap cell of one log. */
  function Cell(log: HabitLog): (c: HeatmapDay)
    ensures c.date == log.logDate
    ensures c.count == (if IsCompleted(log) then 1 else 0)
    ensures 0.0 <= c.intensity <= 1.0
    ensures c.intensity == 1.0 <==> IsCompleted(log)
    ensures c.intensity == 0.5 <==> log.status == "partial"
    ensures c.intensity > 0.0 <==> IsCompleted(log) || log.status == "partial"
  {
    var intensity := if log.status == "completed" then 1.0 else if log.status == "partial" then 0.5 else 0.0;
    HeatmapDay(log.logDate, if log.status == "completed" then 1 else 0, intensity)
  }

  /** One cell per log, in log order. */
  function Heatmap(logs: seq<HabitLog>): (h: seq<HeatmapDay>)
    ensures |h| == |logs|
    ensures forall k | 0 <= k < |h| :: h[k] == Cell(logs[k])
  {
    if logs == [] then [] else [Cell(logs[0])] + Heatmap(logs[1..])
  }

  function SumCounts(h: seq<HeatmapDay>): int {
    if h == [] then 0 else h[0].count + SumCounts(h[1..])
  }

  /**
   * The streak is the only value the reverse loop can stop at: a suffix that
   * qualifies and cannot be extended has exactly the streak's length.
   */
  lemma StreakUnique(logs: seq<HabitLog>, today: string, n: nat)
    requires n <= |logs|
    requires forall k | |logs| - n <= k < |logs| :: ExtendsStreak(logs[k], today)
    requires n < |logs| ==> !ExtendsStreak(logs[|logs| - n - 1], today)
    ensures n == TrailingStreak(logs, today)
  {
  }

  /** The streak is 0 unless the last log is dated today and completed. */
  lemma StreakNeedsLastLog(logs: seq<HabitLog>, today: string)
    ensures TrailingStreak(logs, today) > 0 <==> |logs| > 0 && ExtendsStreak(logs[|logs| - 1], today)
  {
  }

  /** Every log of the streak is completed, so the streak never exceeds the completed count. */
  lemma StreakAtMostCompleted(logs: seq<HabitLog>, today: string)
    ensures TrailingStreak(logs, today) <= CompletedCount(logs)
  {
    var n := TrailingStreak(logs, today);
    var prefix, suffix := logs[..|logs| - n], logs[|logs| - n..];
    assert logs == prefix + suffix;
    CountAppend(prefix, suffix, IsCompleted);
    assert forall k | 0 <= k < |suffix| :: suffix[k] == logs[|logs| - n + k];
    CountAll(suffix, IsCompleted);
  }

  /** The completion rate is a fraction in [0, 1]; it is 1 exactly when there are logs and all are completed. */
  lemma CompletionRateBounds(logs: seq<HabitLog>)
    ensures 0.0 <= CompletionRate(logs) <= 1.0
    ensures CompletionRate(logs) == 1.0 <==> |logs| > 0 && forall k | 0 <= k < |logs| :: IsCompleted(logs[k])
  {
    if |logs| > 0 {
      var c, n := CompletedCount(logs) as real, |logs| as real;
      assert c <= n;
      assert c / n <= 1.0 by {
        assert c / n <= n / n;
      }
      if CompletionRate(logs) == 1.0 {
        assert c == n;
        CountFull(logs, IsCompleted);
      }
      if forall k | 0 <= k < |logs| :: IsCompleted(logs[k]) {
        CountAll(logs, IsCompleted);
      }
    }
  }

  /** The heatmap counts add up to the number of completed logs. */
  lemma {:induction false} HeatmapCountsCompleted(logs: seq<HabitLog>)
    ensures SumCounts(Heatmap(logs)) == CompletedCount(logs)
  {
    if logs != [] {
      HeatmapCountsCompleted(logs[1..]);
      assert Heatmap(logs)[1..] == Heatmap(logs[1..]);
    }
  }

  /**
   * `get_habit_analytics` once the logs are fetched: a reverse scan that
   * stops at the first log not dated today and completed, the completion
   * rate, and a forward loop that pushes one heatmap cell per log.
   */
  method ComputeAnalytics(logs: seq<HabitLog>, today: string) returns (a: Analytics)
    ensures a.currentStreak == TrailingStreak(logs, today)
    ensures a.completionRate == CompletionRate(logs)
    ensures a.consistencyScore == a.completionRate * 100.0
    ensures a.heatmapData == Heatmap(logs)
  {
    var streak := 0;
    var i := |logs|;
    while i > 0
      invariant 0 <= i <= |logs|
      invariant streak == |logs| - i
      invariant forall k | i <= k < |logs| :: ExtendsStreak(logs[k], today)
      decreases i
    {
      if ExtendsStreak(logs[i - 1], today) {
        streak := streak + 1;
        i := i - 1;
      } else {
        break;
      }
    }
    StreakUnique(logs, today, streak);

    var completionRate := if |logs| == 0 then 0.0 else (Count(logs, IsCompleted) as real) / (|logs| as real);
    var consistencyScore := completionRate * 100.0;

    var heatmap: seq<HeatmapDay> := [];
    for j := 0 to |logs|
      invariant |heatmap| == j
      invariant forall k | 0 <= k < j :: heatmap[k] == Cell(logs[k])
    {
      var log := logs[j];
      var intensity := if log.status == "completed" then 1.0 else if log.status == "partial" then 0.5 else 0.0;
      heatmap := heatmap + [HeatmapDay(log.logDate, if log.status == "completed" then 1 else 0, intensity)];
    }
    a := Analytics(streak, consistencyScore, completionRate, heatmap);
  }
}
