/**
 * The dashboard snapshot: the fields `compute_dashboard` derives from its
 * count queries and the clock, and the rule by which `get_dashboard` reuses
 * the newest stored snapshot or computes and stores a fresh one.
 */
module DashboardAnalytics {
  import opened Base

  /** How long a computed snapshot may be served from the cache, in seconds. */
  const CacheValiditySeconds := 3600

  /**
   * The results of the four count queries. `COUNT(*)` always yields a
   * number; a `SUM(CASE ...)` over a table with no matching rows yields SQL
   * `NULL`, written here as `None`.
   */
  datatype QueryCounts = QueryCounts(
    diaryToday: int,
    habitsCount: int,
    habitsActive: Option<int>,
    goalsActive: int,
    goalsCompleted: Option<int>,
    jobsActive: int,
    jobsInterviewing: Option<int>,
    jobsOffer: Option<int>)

  /**
   * What SQL guarantees of those results: each `SUM` of a 0-or-1 case is
   * `NULL` exactly when its query matched no row, and otherwise lies between
   * 0 and the row count; an interviewing row is never an offer row.
   */
  predicate SqlConsistent(q: QueryCounts) {
    && q.diaryToday >= 0 && q.habitsCount >= 0 && q.goalsActive >= 0 && q.jobsActive >= 0
    && (q.habitsActive.None? <==> q.habitsCount == 0)
    && (q.goalsCompleted.None? <==> q.goalsActive == 0)
    && (q.jobsInterviewing.None? <==> q.jobsActive == 0)
    && (q.jobsOffer.None? <==> q.jobsActive == 0)
    && (q.habitsActive.Some? ==> 0 <= q.habitsActive.value <= q.habitsCount)
    && (q.goalsCompleted.Some? ==> 0 <= q.goalsCompleted.value <= q.goalsActive)
    && (q.jobsInterviewing.Some? && q.jobsOffer.Some? ==>
          0 <= q.jobsInterviewing.value && 0 <= q.jobsOffer.value && q.jobsInterviewing.value + q.jobsOffer.value <= q.jobsActive)
  }

  /** The snapshot fields that the computation derives; the placeholder constants are not modelled. */
  datatype DashboardSnapshot = DashboardSnapshot(
    dashboardId: string,
    dashboardDate: string,
    dashboardVersion: int,
    todayDate: string,
    todayDiaryExists: bool,
    todayHabitsTotal: int,
    todayHabitsCompleted: int,
    habitsTotalActive: int,
    habitsOnTrackCount: int,
    habitsOffTrackCount: int,
    goalsTotalActive: int,
    goalsCompletedTotal: int,
    goalsOnTrackCount: int,
    jobsTotalActive: int,
    jobsInterviewingCount: int,
    jobsOfferCount: int,
    dashboardLastRefreshedAt: int,
    cacheGeneratedAt: int,
    cacheValidUntil: Option<int>)

  /** The struct literal of `compute_dashboard`, given the counts read as integers. */
  function Snapshot(id: string, today: string, nowTs: int, diaryToday: int, habitsActive: int,
                    goalsActive: int, goalsCompleted: int, jobsActive: int, jobsInterviewing: int, jobsOffer: int): DashboardSnapshot
  {
    DashboardSnapshot(
      dashboardId := id,
      dashboardDate := today,
      dashboardVersion := 1,
      todayDate := today,
      todayDiaryExists := diaryToday > 0,
      todayHabitsTotal := habitsActive,
      todayHabitsCompleted := 0,
      habitsTotalActive := habitsActive,
      habitsOnTrackCount := habitsActive,
      habitsOffTrackCount := 0,
      goalsTotalActive := goalsActive,
      goalsCompletedTotal := goalsCompleted,
      goalsOnTrackCount := goalsActive,
      jobsTotalActive := jobsActive,
      jobsInterviewingCount := jobsInterviewing,
      jobsOfferCount := jobsOffer,
      dashboardLastRefreshedAt := nowTs,
      cacheGeneratedAt := nowTs,
      cacheValidUntil := Some(nowTs + CacheValiditySeconds))
  }

  /** The relations every computed snapshot satisfies between its fields and its inputs. */
  predicate Derived(s: DashboardSnapshot, id: string, today: string, nowTs: int, q: QueryCounts) {
    && s.dashboardId == id
    && s.dashboardDate == today && s.todayDate == today
    && s.cacheGeneratedAt == nowTs && s.dashboardLastRefreshedAt == s.cacheGeneratedAt
    && s.cacheValidUntil == Some(s.cacheGeneratedAt + CacheValiditySeconds)
    && (s.todayDiaryExists <==> q.diaryToday > 0)
    && s.todayHabitsTotal == s.habitsTotalActive == s.habitsOnTrackCount
    && s.habitsOffTrackCount == 0
    && s.goalsTotalActive == q.goalsActive && s.goalsOnTrackCount == s.goalsTotalActive
    && s.jobsTotalActive == q.jobsActive
  }

  /**
   * How the database driver turns a SQL `NULL` into the plain `i32` that
   * `compute_dashboard` asks for: either a decode error, which `?` passes on,
   * or the integer 0. The driver is outside the model, so both readings are
   * kept and every result below says which one it assumes.
   */
  datatype NullDecoding = NullIsError | NullIsZero

  /** The driver's decoding of one `SUM` column under `mode`; `None` is a decode error. */
  function DecodeSum(v: Option<int>, mode: NullDecoding): (r: Option<int>)
    ensures v.Some? ==> r == v
    ensures v.None? ==> (r.None? <==> mode.NullIsError?)
    ensures v.None? && r.Some? ==> r.value == 0
  {
    if v.Some? then v else if mode.NullIsZero? then Some(0) else None
  }

  /**
   * `compute_dashboard` as written: the tuples `(i32, i32)` and
   * `(i32, i32, i32)` decode each `SUM` column through the driver, and the
   * `?` after each query turns a decode error into the error of the whole
   * computation (`None`). Whenever it succeeds it yields the snapshot of
   * `ComputeDashboard`; with `NullIsZero` it always succeeds.
   */
  function ComputeDashboardAsWritten(mode: NullDecoding, id: string, today: string, nowTs: int, q: QueryCounts): (r: Option<DashboardSnapshot>)
    ensures r.Some? <==> mode.NullIsZero? || (q.habitsActive.Some? && q.goalsCompleted.Some? && q.jobsInterviewing.Some? && q.jobsOffer.Some?)
    ensures r.Some? ==> Derived(r.value, id, today, nowTs, q)
    ensures r.Some? ==> r.value == ComputeDashboard(id, today, nowTs, q)
  {
    var habitsActive := DecodeSum(q.habitsActive, mode);
    var goalsCompleted := DecodeSum(q.goalsCompleted, mode);
    var jobsInterviewing := DecodeSum(q.jobsInterviewing, mode);
    var jobsOffer := DecodeSum(q.jobsOffer, mode);
    if habitsActive.None? || goalsCompleted.None? || jobsInterviewing.None? || jobsOffer.None? then None
    else Some(Snapshot(id, today, nowTs, q.diaryToday, habitsActive.value, q.goalsActive,
                       goalsCompleted.value, q.jobsActive, jobsInterviewing.value, jobsOffer.value))
  }

  /** If the driver rejects `NULL`, the computation fails when there is no habit at all. */
  lemma NoHabitsFailsAsWritten(id: string, today: string, nowTs: int, q: QueryCounts)
    requires SqlConsistent(q) && q.habitsCount == 0
    ensures ComputeDashboardAsWritten(NullIsError, id, today, nowTs, q).None?
  {
  }

  /** If the driver rejects `NULL`, it fails too when there is no active goal, or no active job application. */
  lemma NoGoalsOrJobsFailsAsWritten(id: string, today: string, nowTs: int, q: QueryCounts)
    requires SqlConsistent(q) && (q.goalsActive == 0 || q.jobsActive == 0)
    ensures ComputeDashboardAsWritten(NullIsError, id, today, nowTs, q).None?
  {
  }

  /**
   * `compute_dashboard` with each `SUM` read as 0 when it is `NULL`. It
   * always yields a snapshot, and the computation as written yields the same
   * one whenever it succeeds, under either decoding.
   */
  function ComputeDashboard(id: string, today: string, nowTs: int, q: QueryCounts): (s: DashboardSnapshot)
    ensures Derived(s, id, today, nowTs, q)
    ensures SqlConsistent(q) ==> 0 <= s.habitsTotalActive && 0 <= s.goalsCompletedTotal <= s.goalsTotalActive
    ensures SqlConsistent(q) ==> 0 <= s.jobsInterviewingCount && 0 <= s.jobsOfferCount && s.jobsInterviewingCount + s.jobsOfferCount <= s.jobsTotalActive
    ensures s.habitsTotalActive == q.habitsActive.GetOr(0) && s.goalsCompletedTotal == q.goalsCompleted.GetOr(0)
    ensures s.jobsInterviewingCount == q.jobsInterviewing.GetOr(0) && s.jobsOfferCount == q.jobsOffer.GetOr(0)
  {
    Snapshot(id, today, nowTs, q.diaryToday, q.habitsActive.GetOr(0), q.goalsActive,
             q.goalsCompleted.GetOr(0), q.jobsActive, q.jobsInterviewing.GetOr(0), q.jobsOffer.GetOr(0))
  }
}

module DashboardCommand {
  import opened Base
  import opened AppErrors
  import opened DashboardAnalytics

  /** The cause carried by the error of a column that does not decode; the driver's own text is not modelled. */
  const DecodeFailure := "error occurred while decoding column"

  /**
   * The cached snapshot is served when no refresh is forced, a snapshot is
   * stored, it has an expiry, and the current time is strictly before it.
   */
  predicate ReuseCached(forceRefresh: bool, latest: Option<DashboardSnapshot>, now: int) {
    !forceRefresh && latest.Some? && latest.value.cacheValidUntil.Some? && now < latest.value.cacheValidUntil.value
  }

  /** A snapshot computed at `t` is served from the cache exactly during [t, t + 3600) and for any earlier clock reading. */
  lemma FreshSnapshotWindow(id: string, today: string, t: int, q: QueryCounts, now: int)
    ensures ReuseCached(false, Some(ComputeDashboard(id, today, t, q)), now) <==> now < t + CacheValiditySeconds
    ensures !ReuseCached(false, Some(ComputeDashboard(id, today, t, q)), t + CacheValiditySeconds)
  {
  }

  /** A stored snapshot without an expiry is never reused, and a forced refresh never reuses. */
  lemma NeverReused(latest: Option<DashboardSnapshot>, now: int)
    ensures latest.Some? && latest.value.cacheValidUntil.None? ==> !ReuseCached(false, latest, now)
    ensures !ReuseCached(true, latest, now)
  {
  }

  /**
   * The row `ORDER BY cache_generated_at DESC LIMIT 1` selects: one with the
   * greatest generation time (among equal times, the one saved last).
   */
  function LatestOf(rows: seq<DashboardSnapshot>): (r: Option<DashboardSnapshot>)
    ensures r.Some? <==> |rows| > 0
    ensures r.Some? ==> r.value in rows
    ensures r.Some? ==> forall k | 0 <= k < |rows| :: rows[k].cacheGeneratedAt <= r.value.cacheGeneratedAt
  {
    if rows == [] then None
    else
      var earlier := LatestOf(rows[..|rows| - 1]);
      var last := rows[|rows| - 1];
      if earlier.None? || earlier.value.cacheGeneratedAt <= last.cacheGeneratedAt then Some(last) else earlier
  }

  /** A snapshot saved at a time no earlier than every stored one becomes the newest. */
  lemma LatestAfterSave(rows: seq<DashboardSnapshot>, s: DashboardSnapshot)
    requires forall k | 0 <= k < |rows| :: rows[k].cacheGeneratedAt <= s.cacheGeneratedAt
    ensures LatestOf(rows + [s]) == Some(s)
  {
    assert (rows + [s])[..|rows|] == rows;
  }

  /** The `dashboard_snapshots` table. */
  class SnapshotStore {
    var rows: seq<DashboardSnapshot>

    constructor()
      ensures rows == []
    {
      rows := [];
    }

    function Latest(): Option<DashboardSnapshot>
      reads this
    {
      LatestOf(rows)
    }

    /**
     * `get_dashboard`. `now` is the clock reading of the cache check;
     * `computedAt`, `id` and `today` are the clock, UUID and local date
     * `compute_dashboard` reads; `q` holds its query results and `mode` is
     * the driver's decoding of `NULL`.
     * A reused snapshot is returned with nothing written; a failed
     * computation returns a database error with nothing written; otherwise
     * the fresh snapshot is saved and then returned.
     */
    method GetDashboard(forceRefresh: bool, now: int, computedAt: int, id: string, today: string, q: QueryCounts, mode: NullDecoding)
      returns (r: Result<DashboardSnapshot, AppError>)
      modifies this
      ensures ReuseCached(forceRefresh, old(Latest()), now) ==> r == Ok(old(Latest()).value) && rows == old(rows)
      ensures !ReuseCached(forceRefresh, old(Latest()), now) && ComputeDashboardAsWritten(mode, id, today, computedAt, q).None? ==>
                r.Err? && r.error.Database? && rows == old(rows)
      ensures !ReuseCached(forceRefresh, old(Latest()), now) && ComputeDashboardAsWritten(mode, id, today, computedAt, q).Some? ==>
                r == Ok(ComputeDashboard(id, today, computedAt, q)) && rows == old(rows) + [r.value]
      ensures (r.Ok? && !ReuseCached(forceRefresh, old(Latest()), now) && (forall k | 0 <= k < |old(rows)| :: old(rows)[k].cacheGeneratedAt <= computedAt)) ==> Latest() == Some(r.value)
    {
      if !forceRefresh {
        var latest := Latest();
        if latest.Some? {
          var snapshot := latest.value;
          if snapshot.cacheValidUntil.Some? {
            if now < snapshot.cacheValidUntil.value {
              return Ok(snapshot);
            }
          }
        }
      }
      var computed := ComputeDashboardAsWritten(mode, id, today, computedAt, q);
      if computed.None? {
        return Err(Database(DecodeFailure));
      }
      if (forall k | 0 <= k < |rows| :: rows[k].cacheGeneratedAt <= computedAt) {
        LatestAfterSave(rows, computed.value);
      }
      rows := rows + [computed.value];
      return Ok(computed.value);
    }
  }
}
