/**
 * The diary table as the backend writes it: `insert_entry` and
 * `ensure_yearly_entries`, which gives every day of a year a primary page.
 * The table is a sequence of rows; the `EXISTS` query is `HasPrimary`.
 * UUIDs and clock readings are parameters, as is chrono's date parser.
 */
module DiaryRepository {
  import opened Base
  import opened Dates
  import opened AppErrors
  import opened DiaryValidation

  /** The BlockNote document of one empty paragraph that a generated page holds. */
  const EmptyParagraph := "[{\"type\":\"paragraph\",\"content\":[]}]"

  datatype DiaryRow = DiaryRow(
    id: string,
    entryDate: string,
    entryYear: int,
    entryMonth: int,
    entryDay: int,
    contentJson: string,
    title: Option<string>,
    isPrimaryPage: bool,
    createdAt: int,
    updatedAt: int)

  /** `SELECT EXISTS(... WHERE entry_date = ? AND is_primary_page = 1)`. */
  predicate HasPrimary(rows: seq<DiaryRow>, date: string) {
    exists k | 0 <= k < |rows| :: rows[k].entryDate == date && rows[k].isPrimaryPage
  }

  /** A calendar day with its `YYYY-MM-DD` text. */
  datatype Day = Day(date: Date, text: string)

  /** No two days share a text. */
  predicate DistinctTexts(days: seq<Day>) {
    forall i, j | 0 <= i < |days| && 0 <= j < |days| :: days[i].text == days[j].text ==> i == j
  }

  /**
   * The days `start_date + Duration::days(i)` for `i` in `0..days_count`,
   * each with `date.format("%Y-%m-%d")`.
   */
  function YearDays(year: int): (r: seq<Day>)
    requires 0 <= year <= 9999
    ensures |r| == DaysInYear(year)
    ensures forall i | 0 <= i < |r| :: r[i] == DayOf(year, i)
  {
    seq(DaysInYear(year), i requires 0 <= i < DaysInYear(year) => DayOf(year, i))
  }

  /** Day `i` (from 0) of `year` and its text. */
  function DayOf(year: int, i: int): (d: Day)
    requires 0 <= year <= 9999 && 0 <= i < DaysInYear(year)
    ensures d.date == NthDay(year, i) && d.text == Format(d.date)
  {
    var date := NthDay(year, i);
    Day(date, Format(date))
  }

  /** Different days of one year have different texts. */
  lemma YearDaysDistinct(year: int)
    requires 0 <= year <= 9999
    ensures DistinctTexts(YearDays(year))
  {
    var days := YearDays(year);
    forall i, j | 0 <= i < |days| && 0 <= j < |days| && days[i].text == days[j].text
      ensures i == j
    {
      FormatInjective(NthDay(year, i), NthDay(year, j));
      NthDayInjective(year, i, j);
    }
  }

  /** The page generated for a day, with its UUID and clock reading. */
  function PrimaryPage(day: Day, id: string, now: int): (r: DiaryRow)
    ensures r.entryDate == day.text && r.isPrimaryPage
    ensures r.title == Some("Reflection: " + r.entryDate) && r.contentJson == EmptyParagraph
    ensures r.createdAt == r.updatedAt
  {
    DiaryRow(id, day.text, day.date.year, day.date.month, day.date.day, EmptyParagraph, Some("Reflection: " + day.text), true, now, now)
  }

  /** The page day `i` gets: none when a primary page exists for its text. */
  function DayTail(rows: seq<DiaryRow>, days: seq<Day>, i: int, newId: int -> string, clock: int -> int): seq<DiaryRow>
    requires 0 <= i < |days|
  {
    if HasPrimary(rows, days[i].text) then [] else [PrimaryPage(days[i], newId(i), clock(i))]
  }

  /**
   * The pages `ensure_yearly_entries` inserts for the first `n` days into a
   * table that held `rows`: one for each day without a primary page, in day
   * order, at most one per day.
   */
  function MissingPages(rows: seq<DiaryRow>, days: seq<Day>, n: int, newId: int -> string, clock: int -> int): (r: seq<DiaryRow>)
    requires 0 <= n <= |days|
    ensures |r| <= n
  {
    if n == 0 then [] else MissingPages(rows, days, n - 1, newId, clock) + DayTail(rows, days, n - 1, newId, clock)
  }

  /** No page generated for the first `m` days carries the text of a later day `i`. */
  lemma {:induction false} NoPageForLaterDay(rows: seq<DiaryRow>, days: seq<Day>, m: int, i: int, newId: int -> string, clock: int -> int)
    requires DistinctTexts(days) && 0 <= m <= i < |days|
    ensures forall k | 0 <= k < |MissingPages(rows, days, m, newId, clock)| ::
              MissingPages(rows, days, m, newId, clock)[k].entryDate != days[i].text
  {
    if m > 0 {
      NoPageForLaterDay(rows, days, m - 1, i, newId, clock);
    }
  }

  /** A primary page that exists stays found when rows are appended. */
  lemma HasPrimaryExtend(rows: seq<DiaryRow>, more: seq<DiaryRow>, date: string)
    requires HasPrimary(rows, date)
    ensures HasPrimary(rows + more, date)
  {
    var k :| 0 <= k < |rows| && rows[k].entryDate == date && rows[k].isPrimaryPage;
    assert (rows + more)[k] == rows[k];
  }

  /** Pages generated for earlier days do not answer the existence check of a later day. */
  lemma EarlierPagesOtherDays(rows: seq<DiaryRow>, days: seq<Day>, i: int, newId: int -> string, clock: int -> int)
    requires DistinctTexts(days) && 0 <= i < |days|
    ensures HasPrimary(rows + MissingPages(rows, days, i, newId, clock), days[i].text) <==> HasPrimary(rows, days[i].text)
  {
    var added := MissingPages(rows, days, i, newId, clock);
    var all := rows + added;
    var ds := days[i].text;
    if HasPrimary(all, ds) {
      var k :| 0 <= k < |all| && all[k].entryDate == ds && all[k].isPrimaryPage;
      if k >= |rows| {
        assert added[k - |rows|] == all[k];
        NoPageForLaterDay(rows, days, i, i, newId, clock);
      } else {
        assert rows[k] == all[k];
      }
    }
    if HasPrimary(rows, ds) {
      HasPrimaryExtend(rows, added, ds);
    }
  }

  /** One more day adds that day's page exactly when the table as extended so far has none for it. */
  lemma MissingPagesStep(rows: seq<DiaryRow>, days: seq<Day>, i: int, newId: int -> string, clock: int -> int)
    requires DistinctTexts(days) && 0 <= i < |days|
    ensures rows + MissingPages(rows, days, i + 1, newId, clock)
         == rows + MissingPages(rows, days, i, newId, clock)
            + (if HasPrimary(rows + MissingPages(rows, days, i, newId, clock), days[i].text) then [] else [PrimaryPage(days[i], newId(i), clock(i))])
  {
    EarlierPagesOtherDays(rows, days, i, newId, clock);
  }

  /** The first `n` days all have a primary page in `rows`. */
  predicate Covers(rows: seq<DiaryRow>, days: seq<Day>, n: int)
    requires 0 <= n <= |days|
  {
    n == 0 || (Covers(rows, days, n - 1) && HasPrimary(rows, days[n - 1].text))
  }

  /** Appending rows keeps every day covered. */
  lemma {:induction false} CoversExtend(rows: seq<DiaryRow>, more: seq<DiaryRow>, days: seq<Day>, n: int)
    requires 0 <= n <= |days| && Covers(rows, days, n)
    ensures Covers(rows + more, days, n)
  {
    if n > 0 {
      CoversExtend(rows, more, days, n - 1);
      HasPrimaryExtend(rows, more, days[n - 1].text);
    }
  }

  /** Covering the first `n` days means covering each of them. */
  lemma {:induction false} CoversAt(rows: seq<DiaryRow>, days: seq<Day>, n: int, j: int)
    requires 0 <= j < n <= |days| && Covers(rows, days, n)
    ensures HasPrimary(rows, days[j].text)
  {
    if j < n - 1 {
      CoversAt(rows, days, n - 1, j);
    }
  }

  /** Day `n - 1` has a primary page once the pages for `n` days are added. */
  lemma LastDayCovered(rows: seq<DiaryRow>, days: seq<Day>, n: int, newId: int -> string, clock: int -> int)
    requires 0 < n <= |days|
    ensures HasPrimary(rows + MissingPages(rows, days, n, newId, clock), days[n - 1].text)
  {
    var added := MissingPages(rows, days, n, newId, clock);
    var ds := days[n - 1].text;
    if HasPrimary(rows, ds) {
      HasPrimaryExtend(rows, added, ds);
    } else {
      assert (rows + added)[|rows + added| - 1] == PrimaryPage(days[n - 1], newId(n - 1), clock(n - 1));
    }
  }

  /** After the pages for the first `n` days are added, each of those days has a primary page. */
  lemma {:induction false} MissingPagesCover(rows: seq<DiaryRow>, days: seq<Day>, n: int, newId: int -> string, clock: int -> int)
    requires 0 <= n <= |days|
    ensures Covers(rows + MissingPages(rows, days, n, newId, clock), days, n)
  {
    if n > 0 {
      MissingPagesCover(rows, days, n - 1, newId, clock);
      var earlier := MissingPages(rows, days, n - 1, newId, clock);
      var tail := DayTail(rows, days, n - 1, newId, clock);
      assert rows + MissingPages(rows, days, n, newId, clock) == (rows + earlier) + tail;
      CoversExtend(rows + earlier, tail, days, n - 1);
      LastDayCovered(rows, days, n, newId, clock);
    }
  }

  /** A table in which each of the first `n` days already has a primary page gets no new page. */
  lemma {:induction false} NothingMissing(rows: seq<DiaryRow>, days: seq<Day>, n: int, newId: int -> string, clock: int -> int)
    requires 0 <= n <= |days| && Covers(rows, days, n)
    ensures MissingPages(rows, days, n, newId, clock) == []
  {
    if n > 0 {
      NothingMissing(rows, days, n - 1, newId, clock);
    }
  }

  /** Pages are only added for days that had none, and only one per such day. */
  lemma {:induction false} PagesOnlyForMissingDays(rows: seq<DiaryRow>, days: seq<Day>, n: int, newId: int -> string, clock: int -> int)
    requires 0 <= n <= |days|
    ensures forall k | 0 <= k < |MissingPages(rows, days, n, newId, clock)| ::
              exists j | 0 <= j < n :: !HasPrimary(rows, days[j].text) && MissingPages(rows, days, n, newId, clock)[k] == PrimaryPage(days[j], newId(j), clock(j))
  {
    if n > 0 {
      PagesOnlyForMissingDays(rows, days, n - 1, newId, clock);
      var earlier := MissingPages(rows, days, n - 1, newId, clock);
      var added := MissingPages(rows, days, n, newId, clock);
      forall k | 0 <= k < |added|
        ensures exists j | 0 <= j < n :: !HasPrimary(rows, days[j].text) && added[k] == PrimaryPage(days[j], newId(j), clock(j))
      {
        if k < |earlier| {
          assert added[k] == earlier[k];
          var j :| 0 <= j < n - 1 && !HasPrimary(rows, days[j].text) && earlier[k] == PrimaryPage(days[j], newId(j), clock(j));
          assert 0 <= j < n;
        } else {
          assert !HasPrimary(rows, days[n - 1].text) && added[k] == PrimaryPage(days[n - 1], newId(n - 1), clock(n - 1));
        }
      }
    } else {
      assert MissingPages(rows, days, 0, newId, clock) == [];
    }
  }

  /** Running `ensure_yearly_entries` a second time inserts nothing. */
  lemma EnsureYearlyIdempotent(rows: seq<DiaryRow>, year: int, newId: int -> string, clock: int -> int, newId2: int -> string, clock2: int -> int)
    requires 0 <= year <= 9999
    ensures MissingPages(rows + MissingPages(rows, YearDays(year), DaysInYear(year), newId, clock), YearDays(year), DaysInYear(year), newId2, clock2) == []
  {
    var days := YearDays(year);
    MissingPagesCover(rows, days, |days|, newId, clock);
    NothingMissing(rows + MissingPages(rows, days, |days|, newId, clock), days, |days|, newId2, clock2);
  }

  /** Every valid date of the year, written `YYYY-MM-DD`, has a primary page afterwards. */
  lemma EveryDateCovered(rows: seq<DiaryRow>, year: int, newId: int -> string, clock: int -> int, d: Date)
    requires 0 <= year <= 9999 && Valid(d) && d.year == year
    ensures HasPrimary(rows + MissingPages(rows, YearDays(year), DaysInYear(year), newId, clock), Format(d))
  {
    var days := YearDays(year);
    MissingPagesCover(rows, days, |days|, newId, clock);
    NthDayOrdinal(d);
    CoversAt(rows + MissingPages(rows, days, |days|, newId, clock), days, |days|, Ordinal(d));
  }

  /** The row `insert_entry` writes for a parsed date. */
  function EntryRow(input: CreateDiaryInput, date: Date, id: string, now: int, primaryDefault: bool): (r: DiaryRow)
    ensures r.entryDate == input.entryDate && r.contentJson == input.contentJson && r.title == input.title
    ensures r.entryYear == date.year && r.entryMonth == date.month && r.entryDay == date.day
    ensures r.createdAt == r.updatedAt == now
  {
    DiaryRow(id, input.entryDate, date.year, date.month, date.day, input.contentJson, input.title, primaryDefault, now, now)
  }

  /** The `diary_entries` table. */
  class DiaryStore {
    var rows: seq<DiaryRow>

    constructor(initial: seq<DiaryRow>)
      ensures rows == initial
    {
      rows := initial;
    }

    /**
     * `insert_entry`: a date that does not parse is rejected before anything
     * is written; otherwise one row is appended. The stored date is the input
     * string as given. `primaryDefault` is the schema's default for
     * `is_primary_page`, which this statement does not set.
     */
    method InsertEntry(input: CreateDiaryInput, parse: string -> Option<Date>, id: string, now: int, primaryDefault: bool)
      returns (r: Result<string, AppError>)
      modifies this
      ensures parse(input.entryDate).None? ==> r == Err(Validation("Invalid date")) && rows == old(rows)
      ensures parse(input.entryDate).Some? ==> r == Ok(id) && rows == old(rows) + [EntryRow(input, parse(input.entryDate).value, id, now, primaryDefault)]
    {
      var parsed := parse(input.entryDate);
      if parsed.None? {
        return Err(Validation("Invalid date"));
      }
      var date := parsed.value;
      rows := rows + [DiaryRow(id, input.entryDate, date.year, date.month, date.day, input.contentJson, input.title, primaryDefault, now, now)];
      return Ok(id);
    }

    /** One iteration of the loop below: the existence check, then the insert when the check fails. */
    method AddPageIfMissing(day: Day, id: string, now: int)
      modifies this
      ensures rows == old(rows) + (if HasPrimary(old(rows), day.text) then [] else [PrimaryPage(day, id, now)])
    {
      var exists_ := HasPrimary(rows, day.text);
      if !exists_ {
        rows := rows + [PrimaryPage(day, id, now)];
      }
    }

    /** The loop body below for day `i`, stated against the pages the first `i` days add. */
    method AddDayPage(ghost before: seq<DiaryRow>, ghost days: seq<Day>, i: int, day: Day, newId: int -> string, clock: int -> int)
      requires DistinctTexts(days) && 0 <= i < |days| && day == days[i]
      requires rows == before + MissingPages(before, days, i, newId, clock)
      modifies this
      ensures rows == before + MissingPages(before, days, i + 1, newId, clock)
    {
      MissingPagesStep(before, days, i, newId, clock);
      AddPageIfMissing(day, newId(i), clock(i));
    }

    /**
     * `ensure_yearly_entries(year)`: for each day of the year, in order, a
     * primary page is inserted when none exists for that date. `newId(i)`
     * and `clock(i)` are the UUID and the time read for day `i`.
     */
    method EnsureYearlyEntries(year: int, newId: int -> string, clock: int -> int)
      requires 0 <= year <= 9999
      modifies this
      ensures rows == old(rows) + MissingPages(old(rows), YearDays(year), DaysInYear(year), newId, clock)
      ensures Covers(rows, YearDays(year), DaysInYear(year))
    {
      var isLeap := (year % 4 == 0 && year % 100 != 0) || year % 400 == 0;
      var daysCount := if isLeap then 366 else 365;
      ghost var before := rows;
      ghost var days := YearDays(year);
      YearDaysDistinct(year);
      var i := 0;
      while i < daysCount
        invariant 0 <= i <= daysCount == |days|
        invariant rows == before + MissingPages(before, days, i, newId, clock)
      {
        var day := DayOf(year, i);
        AddDayPage(before, days, i, day, newId, clock);
        i := i + 1;
      }
      MissingPagesCover(before, days, daysCount, newId, clock);
    }
  }
}
