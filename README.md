# A verified model of the Codex personal-tracker core

Codex is a desktop personal tracker (diary, habits, goals, job applications)
with a Rust/Tauri backend over SQLite and two React front ends: the Next.js
app under `src/` that talks to the backend, and the Vite app under
`project/` that talks to a hosted database. This project models, in Dafny,
the logic of both sides that does not depend on the database engine, the
RPC bridge or the browser:

- the backend validators for diary entries, habits, goals and job
  applications, and the text form of `AppError` (modules `DiaryValidation`,
  `HabitValidation`, `GoalValidation`, `JobValidation`, `AppErrors`);
- habit analytics: the streak, the completion rate, the consistency score
  and the heatmap (`HabitAnalytics`);
- the dashboard snapshot fields that `compute_dashboard` derives, and the
  reuse-or-recompute rule of `get_dashboard` over a snapshot store
  (`DashboardAnalytics`, `DashboardCommand`);
- the diary repository: the date guard of `insert_entry` and the
  "one primary page for every day of the year" loop of
  `ensure_yearly_entries` over an in-memory table (`DiaryRepository`, with
  the Gregorian calendar in `Dates`);
- slug construction, timestamps and NotFound lookups of the goal and job
  repositories (`Slugs`, `GoalRepository`, `JobRepository`);
- the Next.js front end: the command palette (`CommandPalette`), the diary
  list with its filter, stable date sort and statistics (`DiaryArchive`),
  the diary editor's word count, save guard, merge and sub-page payload
  (`DiaryEditor`), the goals, jobs and habits creation sheets
  (`SheetForms`, `GoalsSheet`, `JobsSheet`, `HabitsSheet`) and the toast
  list (`Toasts`);
- the Vite front end: the multi-step creation wizard shared by three pages
  (`Wizards`), the goals, jobs and diary wizards and their payloads
  (`GoalsWizard`, `JobsWizard`, `DiaryWizard`), comma-separated id lists and
  tags (`CommaLists`), the settings page (`SettingsPage`) and the analytics
  page (`AnalyticsPage`).

Shared pieces are in `Base` (Option and Result), `Text` (trimming, ASCII
lower-casing, substring search, splitting and joining, decimal rendering)
and `Stats` (filter, count, sum and a mean that is 0 over no values).

Stateful parts of the source are classes whose fields the methods
reassign: the diary table (`DiaryRepository.DiaryStore`), the snapshot
table (`DashboardCommand.SnapshotStore`), the palette, the diary editor, the
toast list, the wizard, the settings form and the analytics view. Loops in
the source are methods with loops proved against specification
functions: the streak and heatmap loops of `HabitAnalytics.ComputeAnalytics`,
the nested word-count loops of `DiaryEditor.CountWords` and the day loop of
`DiaryRepository.DiaryStore.EnsureYearlyEntries`. Everything else is pure
functions and lemmas.

Clocks, UUIDs, random toast ids, date parsing and the outcome of every
database or gateway call are parameters: a success flag, an `Option` for a
fetched value, or a function such as `parse: string -> Option<Date>`.

Comma-separated id lists keep their empty pieces after trimming
(`"a,,a"` gives `["a", "", "a"]` and `" "` gives `[""]`); see
`CommaLists.KeepsEmptyAndRepeats`.

The dashboard reads each `SUM(CASE ...)` column into a plain `i32`. Over
no matching rows SQL's `SUM` is `NULL`, and what the database driver does
with a `NULL` asked for as a plain integer is outside the model. It is the
parameter `DashboardAnalytics.NullDecoding`: `NullIsError` (a decode error,
which `?` turns into a database error) or `NullIsZero`.

## Model

| member | source | states |
|---|---|---|
| `AppErrors.Display` | src-tauri/src/app/error.rs:4-26 | The text of every error is the label of its variant followed by its payload, unaltered; `Unauthorized` is exactly "Unauthorized". |
| `AppErrors.Serialize` | src-tauri/src/app/error.rs:28-35 | An error is serialized as one string, equal to its display text. |
| `AppErrors.LabelsDistinct` | src-tauri/src/app/error.rs:4-26 | The first two characters of a label determine the label, and whether the variant is `Unauthorized`. |
| `AppErrors.DisplayInjective` | src-tauri/src/app/error.rs:4-26 | Two errors with the same text are the same error, variant and payload. |
| `AppErrors.SerializeInjective` | src-tauri/src/app/error.rs:28-35 | Serialization loses no information about the error. |
| `DiaryValidation.ValidateCreate` | src-tauri/src/domains/diary/validation.rs:5-27 | Accepts exactly when the date parses, its year is at least 2026, it is not after today, and the content is non-empty. Each failure is a Validation error with its own fixed text. The checks run in that order, so a date problem is reported before empty content. |
| `DiaryValidation.ValidateUpdate` | src-tauri/src/domains/diary/validation.rs:29-40 | Accepts exactly when the date parses and is not after today. An unparseable date and a future date get their own fixed texts. |
| `DiaryValidation.UpdateAcceptsMore` | src-tauri/src/domains/diary/validation.rs:5-40 | Every date accepted on create is accepted on update. A parseable, non-future date before 2026 is rejected on create but accepted on update. |
| `DiaryValidation.TodayIsNotFuture` | src-tauri/src/domains/diary/validation.rs:16-21 | Today's date is never rejected as a future date, on create or on update. |
| `HabitValidation.ValidateCreateHabit` | src-tauri/src/domains/habits/validation.rs:4-20 | Ok exactly when the name is not blank after trimming and the type is one of the four allowed types. A blank name is reported first, a bad type second. |
| `HabitValidation.PaddedNameAccepted` | src-tauri/src/domains/habits/validation.rs:5-9 | Whitespace around a name with content never makes it blank. |
| `GoalValidation.ValidateCreateGoal` | src-tauri/src/domains/goals/validation.rs:4-20 | Ok exactly when the title is not blank and the type is one of the four allowed types, title checked first. Category, description and target date play no part. |
| `JobValidation.ValidateCreateJob` | src-tauri/src/domains/jobs/validation.rs:4-16 | Ok exactly when neither the title nor the company is blank. The title is reported before the company. |
| `Text.Trim` | src-tauri/src/domains/habits/validation.rs:5 | The trimmed string is empty exactly when the input is all whitespace. Otherwise it starts and ends with a non-whitespace character. |
| `Dates.MonthsFillYear` | src-tauri/src/domains/diary/repository.rs:109-110 | The twelve month lengths add up to 366 in a leap year and 365 otherwise. |
| `Dates.NthDay` | src-tauri/src/domains/diary/repository.rs:112-113 | The date i days after 1 January is a valid date of the same year at position i. |
| `Dates.NthDayOrdinal` | src-tauri/src/domains/diary/repository.rs:112-113 | Every valid date of a year is reached by counting days from 1 January. |
| `Dates.NthDayInjective` | src-tauri/src/domains/diary/repository.rs:112-113 | Distinct day numbers within a year give distinct dates. |
| `Dates.Format` | src-tauri/src/domains/diary/repository.rs:114 | A `YYYY-MM-DD` rendering has ten characters, with dashes at positions 4 and 7. |
| `Dates.FormatInjective` | src-tauri/src/domains/diary/repository.rs:114 | Distinct dates have distinct `YYYY-MM-DD` strings. |
| `HabitAnalytics.TrailingStreak` | src-tauri/src/commands/habits.rs:101-112 | The streak is the length of the longest suffix of the logs in which every log is dated today and completed. The log just before that suffix, if any, breaks the streak. |
| `HabitAnalytics.StreakUnique` | src-tauri/src/commands/habits.rs:101-112 | Any count that qualifies as such a maximal suffix is exactly the streak. |
| `HabitAnalytics.StreakNeedsLastLog` | src-tauri/src/commands/habits.rs:105-112 | The streak is positive exactly when the last log is dated today and completed. |
| `HabitAnalytics.StreakAtMostCompleted` | src-tauri/src/commands/habits.rs:101-115 | The streak never exceeds the number of completed logs. |
| `HabitAnalytics.CompletionRateBounds` | src-tauri/src/commands/habits.rs:114-120 | The completion rate lies in [0, 1]. It is 1 exactly when there are logs and all of them are completed. |
| `HabitAnalytics.Cell` | src-tauri/src/commands/habits.rs:127-139 | A cell carries its log's date. Its count is 1 exactly for a completed log. Its intensity is 1 exactly for completed, 0.5 exactly for partial, and positive only for those two. |
| `HabitAnalytics.Heatmap` | src-tauri/src/commands/habits.rs:125-140 | One cell per log, in log order. |
| `HabitAnalytics.HeatmapCountsCompleted` | src-tauri/src/commands/habits.rs:115-140 | The heatmap counts add up to the number of completed logs. |
| `HabitAnalytics.ComputeAnalytics` | src-tauri/src/commands/habits.rs:89-148 | The reverse loop with `break` yields the streak. The rate is completed over all logs, and the consistency score is 100 times the rate. The push loop yields the heatmap. |
| `DashboardAnalytics.DecodeSum` | src-tauri/src/domains/dashboard/analytics.rs:20-34 | A non-`NULL` sum decodes to itself. A `NULL` sum is a decode error under `NullIsError` and 0 under `NullIsZero`. |
| `DashboardAnalytics.ComputeDashboardAsWritten` | src-tauri/src/domains/dashboard/analytics.rs:13-137 | The computation with each `SUM` decoded by the driver and every decode error passed on by `?`. It succeeds exactly when the driver reads `NULL` as 0 or no `SUM` is `NULL`. Whenever it succeeds, its snapshot is `ComputeDashboard`'s, with all the derived fields. |
| `DashboardAnalytics.NoHabitsFailsAsWritten` | src-tauri/src/domains/dashboard/analytics.rs:20-24 | If the driver rejects `NULL` for a plain `i32`, an empty habits table makes the computation fail. |
| `DashboardAnalytics.NoGoalsOrJobsFailsAsWritten` | src-tauri/src/domains/dashboard/analytics.rs:27-34 | If the driver rejects `NULL` for a plain `i32`, no active goals, or no active jobs, makes the computation fail. |
| `DashboardAnalytics.ComputeDashboard` | src-tauri/src/domains/dashboard/analytics.rs:40-137 | The snapshot with `NULL` sums read as 0; it always exists. Each count is its query's result or 0. Derived fields: date and today are `today`; refreshed-at and generated-at are `now`; valid-until is generated-at plus 3600; the diary flag is set iff today's count is positive; the three habit totals are equal and off-track is 0; on-track goals equal active goals. Under SQL's guarantees, completed goals do not exceed active goals and interviewing plus offers do not exceed active jobs. |
| `DashboardCommand.FreshSnapshotWindow` | src-tauri/src/commands/dashboard.rs:17-27 | A snapshot computed at t is served from the cache exactly while the clock reads before t + 3600. At t + 3600 it is stale. |
| `DashboardCommand.NeverReused` | src-tauri/src/commands/dashboard.rs:17-22 | A snapshot without an expiry is never reused, and a forced refresh never reuses. |
| `DashboardCommand.LatestOf` | src-tauri/src/domains/dashboard/repository.rs:5-13 | The newest snapshot exists exactly when the table is non-empty. It is one of the stored rows, and no stored row was generated later. |
| `DashboardCommand.LatestAfterSave` | src-tauri/src/domains/dashboard/repository.rs:15-18 | Saving a snapshot generated no earlier than every stored one makes it the newest. |
| `DashboardCommand.SnapshotStore.GetDashboard` | src-tauri/src/commands/dashboard.rs:9-36 | When the reuse rule holds, the newest snapshot is returned and nothing is written. Otherwise the computation as written runs under the driver's decoding. If it fails, a database error is returned and nothing is written. If it succeeds, the fresh snapshot is appended and returned, and with a monotone clock it becomes the newest. |
| `DiaryRepository.YearDays` | src-tauri/src/domains/diary/repository.rs:109-114 | The loop visits 366 days in a leap year and 365 otherwise. Day i is the i-th date of the year and its `YYYY-MM-DD` text. |
| `DiaryRepository.DayOf` | src-tauri/src/domains/diary/repository.rs:112-114 | Day i of a year is the date i days after 1 January, with its formatted text. |
| `DiaryRepository.YearDaysDistinct` | src-tauri/src/domains/diary/repository.rs:112-114 | No two days of the loop share a date string. |
| `DiaryRepository.PrimaryPage` | src-tauri/src/domains/diary/repository.rs:122-151 | An inserted page is a primary page for its date, titled "Reflection: " followed by the date, with the empty-paragraph content. Its created and updated times are equal. |
| `DiaryRepository.MissingPages` | src-tauri/src/domains/diary/repository.rs:112-152 | The loop inserts at most one page per visited day. |
| `DiaryRepository.MissingPagesCover` | src-tauri/src/domains/diary/repository.rs:112-152 | After the loop, every visited day has a primary page. |
| `DiaryRepository.NothingMissing` | src-tauri/src/domains/diary/repository.rs:117-122 | When every day already has a primary page, nothing is inserted. |
| `DiaryRepository.PagesOnlyForMissingDays` | src-tauri/src/domains/diary/repository.rs:117-151 | Every inserted page is the primary page of a visited day that had none before the call. |
| `DiaryRepository.EnsureYearlyIdempotent` | src-tauri/src/domains/diary/repository.rs:106-155 | A second run over the same year inserts nothing, whatever ids and clock it gets. |
| `DiaryRepository.EveryDateCovered` | src-tauri/src/domains/diary/repository.rs:106-155 | After the run, every valid date of the year has a primary page under its `YYYY-MM-DD` string. |
| `DiaryRepository.EntryRow` | src-tauri/src/domains/diary/repository.rs:7-41 | The stored row keeps the input's date string, content and title. Its year, month and day come from the parsed date, and created equals updated. |
| `DiaryRepository.DiaryStore.InsertEntry` | src-tauri/src/domains/diary/repository.rs:7-41 | An unparseable date gives `Validation("Invalid date")` and writes nothing. Otherwise exactly one row is appended and the new id returned. |
| `DiaryRepository.DiaryStore.AddPageIfMissing` | src-tauri/src/domains/diary/repository.rs:117-151 | Appends the day's primary page exactly when the table has none for that date. Existing rows are untouched. |
| `DiaryRepository.DiaryStore.AddDayPage` | src-tauri/src/domains/diary/repository.rs:112-151 | One iteration of the day loop extends the inserted pages from the first i days to the first i + 1. |
| `DiaryRepository.DiaryStore.EnsureYearlyEntries` | src-tauri/src/domains/diary/repository.rs:106-155 | The table becomes the old rows, unchanged, followed by the pages of the days that had none. Every day of the year is then covered. |
| `Slugs.Dashed` | src-tauri/src/domains/goals/repository.rs:9-13 | Lower-casing with spaces replaced by dashes keeps the length and leaves no space. Every other character is lower-cased in place. |
| `Slugs.DashedKeepsTabs` | src-tauri/src/domains/goals/repository.rs:11 | Only the space character is replaced; a tab survives. |
| `Slugs.DashedIdempotent` | src-tauri/src/domains/goals/repository.rs:9-13 | Applying the transformation twice equals applying it once. |
| `Slugs.ShortUuid` | src-tauri/src/domains/goals/repository.rs:9-13 | The UUID part of a slug has exactly eight characters. |
| `GoalRepository.GoalSlug` | src-tauri/src/domains/goals/repository.rs:9-13 | The slug is the dashed title, a dash, then the first eight UUID characters. It has no space when those characters have none. |
| `GoalRepository.InsertedGoal` | src-tauri/src/domains/goals/repository.rs:7-38 | The row carries the input fields, the slug and today's date. Created equals updated. |
| `GoalRepository.FetchGoal` | src-tauri/src/domains/goals/repository.rs:40-48 | Ok with the stored row exactly when the id is present. Otherwise NotFound, with a message that contains the id. |
| `GoalRepository.InsertThenFetch` | src-tauri/src/domains/goals/repository.rs:7-48 | Fetching the id just inserted returns the inserted row. |
| `JobRepository.JobSlug` | src-tauri/src/domains/jobs/repository.rs:12-17 | The slug is the dashed company, a dash, the dashed title, a dash, then eight UUID characters. It always ends with a dash and those eight characters. |
| `JobRepository.InsertedJob` | src-tauri/src/domains/jobs/repository.rs:7-43 | The row carries the input fields, the slug and today's date. Created equals updated. |
| `JobRepository.FetchJobApplication` | src-tauri/src/domains/jobs/repository.rs:45-58 | Ok with the stored row exactly when the id is present. Otherwise NotFound, naming the id. |
| `JobRepository.InsertThenFetch` | src-tauri/src/domains/jobs/repository.rs:7-58 | Fetching the id just inserted returns the inserted row. |
| `CommandPalette.FilterCommands` | src/components/command-palette.tsx:78-83 | A command is listed exactly when the lower-cased query occurs in its lower-cased title or in a lower-cased keyword. The list keeps registry order. |
| `CommandPalette.EmptyQueryListsAll` | src/components/command-palette.tsx:27-83 | The empty query lists the whole registry. |
| `CommandPalette.TitleFindsItsCommand` | src/components/command-palette.tsx:78-83 | Typing a command's title always lists that command. |
| `CommandPalette.ArrowsStayInRange` | src/components/command-palette.tsx:94-103 | On a non-empty list the arrows keep the index in range and wrap at both ends. Down and Up undo each other. |
| `CommandPalette.ArrowsOnEmptyList` | src/components/command-palette.tsx:94-103 | On an empty list, Down gives 0, and Up decrements a positive index and otherwise gives -1. |
| `CommandPalette.Palette.KeyDown` | src/components/command-palette.tsx:86-118 | Ctrl/Meta+K toggles the palette. When it is open: Down and Up move the selection with wrap-around; Enter on an existing item navigates, closes, clears the search and resets the index; Escape closes and resets. Any other key, or a closed palette, leaves the rest unchanged. |
| `CommandPalette.Palette.SearchChanged` | src/components/command-palette.tsx:143-146 | Typing replaces the search text and resets the selection to 0. |
| `CommandPalette.Palette.Select` | src/components/command-palette.tsx:124-129 | Clicking a command navigates to its URL, closes the palette and resets search and index. |
| `DiaryArchive.SortByDate` | src/app/diary/page.tsx:124-128 | The sort is a permutation of its input, ordered by date: descending for "desc", ascending otherwise. |
| `DiaryArchive.SortIsStable` | src/app/diary/page.tsx:124-128 | Entries with the same date keep their input order. |
| `DiaryArchive.FilteredEntries` | src/app/diary/page.tsx:110-131 | The list holds exactly the entries that pass the search, mood and importance filters, each as often as in the input, sorted by date. |
| `DiaryArchive.FilteredIsPermutation` | src/app/diary/page.tsx:110-131 | Each qualifying entry appears as often as in the input; no other entry appears. |
| `DiaryArchive.NoFilterListsAll` | src/app/diary/page.tsx:110-122 | With an empty search and both filters at "all", every entry is listed. |
| `DiaryArchive.Summary` | src/app/diary/page.tsx:134-141 | Statistics over all entries: the total is the sum of word counts, and the completed count is the number of entries with words, at most the number of entries. The average is 0 without completed entries, and otherwise times the completed count gives the total. |
| `DiaryArchive.WordsAtLeastCompleted` | src/app/diary/page.tsx:134-136 | The total word count is at least the number of entries with words. |
| `DiaryArchive.AverageAtLeastOne` | src/app/diary/page.tsx:134-141 | When some entry has words, the average is at least 1. |
| `DiaryArchive.ToggleSort` | src/app/diary/page.tsx:281 | The sort button yields "desc" exactly when the current order is not "desc". |
| `DiaryArchive.ToggleTwice` | src/app/diary/page.tsx:281 | Toggling twice restores "asc" or "desc". |
| `DiaryEditor.PieceCount` | src/app/diary/editor/page.tsx:138 | Splitting a trimmed text on whitespace runs gives at least one piece. |
| `DiaryEditor.PieceCountIsWords` | src/app/diary/editor/page.tsx:138 | For text with content, the piece count is the number of words. |
| `DiaryEditor.BlankTextCountsOne` | src/app/diary/editor/page.tsx:138 | A whitespace-only text counts as one word. |
| `DiaryEditor.TallyItems` | src/app/diary/editor/page.tsx:137-139 | An empty item list counts no words and does not throw. |
| `DiaryEditor.NoNullNoThrow` | src/app/diary/editor/page.tsx:133-142 | A document without null blocks or null items never throws, so its count is kept. |
| `DiaryEditor.CountItems` | src/app/diary/editor/page.tsx:137-139 | The item loop computes the item tally: its words, and whether a null item throws. |
| `DiaryEditor.CountWords` | src/app/diary/editor/page.tsx:132-142 | The nested loops compute the word count. It is 0 when the JSON does not parse or is not an array. A null block or item ends the count, keeping the words counted before it. |
| `DiaryEditor.Merge` | src/app/diary/editor/page.tsx:106 | The merged entry takes every given update and keeps every other field, id, date and timestamps included. |
| `DiaryEditor.MergeNeutralAndIdempotent` | src/app/diary/editor/page.tsx:106 | Merging no updates changes nothing, and merging the same updates twice equals merging once. |
| `DiaryEditor.RequestFor` | src/app/diary/editor/page.tsx:110-120 | The update request sends the merged entry's id, title, content, word count, mood label, mood rating, energy, stress and importance. |
| `DiaryEditor.SubPage` | src/app/diary/editor/page.tsx:150-157 | A sub-page has the parent's id as parent, the parent's date, the fixed title and non-empty content. |
| `DiaryEditor.SubPageAcceptedWithParentDate` | src/app/diary/editor/page.tsx:147-158 | The sub-page request passes the backend's create validation exactly when its date does. |
| `DiaryEditor.LockAfterLoad` | src/app/diary/editor/page.tsx:77-91 | The lock never clears. It is set only for a future date. When the sub-pages load it is set exactly for a future date; when their fetch rejects it stays as it was. |
| `DiaryEditor.FutureUnlockedWhenSubPagesFail` | src/app/diary/editor/page.tsx:79-91 | An unlocked future entry stays unlocked when the sub-page fetch rejects, and is locked when it succeeds. |
| `DiaryEditor.LockAfterLoadChecked` | src/app/diary/editor/page.tsx:84-89 | The intended lock: set for every future date whatever the sub-page fetch does, and equal to the page's lock when that fetch succeeds. |
| `DiaryEditor.Editor.Load` | src/app/diary/editor/page.tsx:73-95 | Loading sets the entry and sends nothing. The future flag becomes the lock after the load, so a future entry is locked only if the sub-pages loaded. |
| `DiaryEditor.Editor.LoadChecked` | src/app/diary/editor/page.tsx:73-95 | Loading with the date checked before the sub-pages are fetched: every future entry is locked. |
| `DiaryEditor.Editor.Save` | src/app/diary/editor/page.tsx:104-127 | With no entry or a future entry, nothing happens. Otherwise the merged entry is sent. On success it becomes the entry with a new updated time; on failure the entry is unchanged. |
| `DiaryEditor.Editor.EditorChanged` | src/app/diary/editor/page.tsx:129-145 | Guarded like a save. Sends the new content with the word count of that content. On success the entry becomes the old entry with that content and count, every other field kept and `updated_at` set to the current second; on failure it is unchanged. |
| `SheetForms.EmptyToNull` | src/app/goals/page.tsx:86-88 | An empty string becomes null; any other string is sent unchanged. |
| `SheetForms.EmptyToNullRoundTrip` | src/app/goals/page.tsx:86-88 | Reading a null back as "" recovers the form value. |
| `SheetForms.AfterCreate` | src/app/goals/page.tsx:91-95 | The sheet closes and a refetch happens only after a successful create. On failure the sheet is unchanged; the form is kept either way. |
| `GoalsSheet.Payload` | src/app/goals/page.tsx:83-90 | Title and type are sent unchanged. Category, description and target date go through the empty-to-null mapping. |
| `GoalsSheet.SelectableTypesAccepted` | src/app/goals/page.tsx:156-166 | The selectable types are exactly the backend's. With one selected, the backend accepts exactly when the title is not blank. |
| `GoalsSheet.DefaultFormNeedsTitle` | src/app/goals/page.tsx:57-63 | The default type is selectable, and the default form is rejected only for its empty title. |
| `GoalsSheet.Progresses` | src/app/goals/page.tsx:101-104 | One progress value per goal, in order. |
| `GoalsSheet.Figures` | src/app/goals/page.tsx:98-104 | The completed count is the number of completed goals, at most the number of goals. The average is the mean progress. No goals gives 0 completed and an average of 0. |
| `GoalsSheet.AverageIsPercentage` | src/app/goals/page.tsx:101-104 | If every progress is a percentage, so is the average. |
| `GoalsSheet.AllCompleted` | src/app/goals/page.tsx:98-100 | The completed count equals the number of goals exactly when every goal is completed. |
| `JobsSheet.Payload` | src/app/jobs/page.tsx:84-91 | Title and company are sent unchanged. Level, employment type, work mode and posting URL go through the empty-to-null mapping. |
| `JobsSheet.AcceptedIffNamed` | src/app/jobs/page.tsx:84-91 | The backend accepts the payload exactly when neither title nor company is blank. |
| `JobsSheet.Figures` | src/app/jobs/page.tsx:100-105 | Active jobs count the applied, interviewing and offer statuses, interviewing jobs count the interviewing status, and the tracked total is the number of jobs. |
| `JobsSheet.FiguresOrdered` | src/app/jobs/page.tsx:100-105 | Interviewing jobs never exceed active jobs, and active never exceed tracked. |
| `JobsSheet.Location` | src/app/jobs/page.tsx:306-308 | The location text if non-empty, else the work mode if non-empty, else a non-empty fallback. |
| `JobsSheet.NotSpecifiedOnlyWhenMissing` | src/app/jobs/page.tsx:306-308 | "Not specified" is shown exactly when both the location text and the work mode are missing or empty. |
| `HabitsSheet.Payload` | src/app/habits/page.tsx:84-91 | Name, type and schedule are sent unchanged. Description, emoji and colour go through the empty-to-null mapping. |
| `HabitsSheet.SelectableTypesAccepted` | src/app/habits/page.tsx:149-156 | The selectable types are exactly the backend's. With one selected, the backend accepts exactly when the name is not blank. |
| `HabitsSheet.DefaultsSent` | src/app/habits/page.tsx:57-64 | The default type is selectable and the default schedule is "daily". The default emoji and colour are sent, and the empty description is sent as null. |
| `HabitsSheet.ShownIcon` | src/app/habits/page.tsx:234 | A habit's own non-empty emoji is shown; otherwise a non-empty fallback. |
| `HabitsSheet.DefaultIconMatchesFallback` | src/app/habits/page.tsx:234 | The default emoji is the same as the fallback shown for none. |
| `Toasts.RemoveById` | src/components/ui/toast.tsx:67-69 | Removal keeps exactly the toasts with a different id, in their order, as many as there are. |
| `Toasts.RemoveKeepsMultiplicity` | src/components/ui/toast.tsx:67-69 | Each toast with another id is kept as often as it was listed; none with the removed id is kept. |
| `Toasts.RemoveAbsent` | src/components/ui/toast.tsx:67-69 | Removing an id that is not shown changes nothing. |
| `Toasts.RemoveTwice` | src/components/ui/toast.tsx:67-69 | Removing an id twice equals removing it once. |
| `Toasts.ShowThenRemove` | src/components/ui/toast.tsx:56-69 | Showing a toast with a fresh id and then removing that id, as the auto-dismiss does, restores the list. |
| `Toasts.ToastList.Show` | src/components/ui/toast.tsx:56-65 | Showing appends one toast at the end and leaves the earlier ones unchanged. |
| `Toasts.ToastList.Remove` | src/components/ui/toast.tsx:67-69 | The list becomes the removal of that id from the old list. |
| `Toasts.Container` | src/components/ui/toast.tsx:41-51 | Nothing is rendered for an empty list; otherwise one toast per entry, in order. |
| `Wizards.StepsStayInRange` | project/src/pages/GoalsPage.tsx:109-119 | Next and Back keep the step within [1, last] and are no-ops at the bounds. Inside the bounds they undo each other. |
| `Wizards.Wizard.Open` | project/src/pages/GoalsPage.tsx:447 | Opening shows the drawer and keeps the step and the draft. |
| `Wizards.Wizard.Next` | project/src/pages/GoalsPage.tsx:109-113 | Advances one step below the last and keeps the drawer and draft. |
| `Wizards.Wizard.Back` | project/src/pages/GoalsPage.tsx:115-119 | Goes back one step above the first and keeps the drawer and draft. |
| `Wizards.Wizard.Edit` | project/src/pages/GoalsPage.tsx:102-107 | Editing replaces the draft and keeps the step and the drawer. |
| `Wizards.Wizard.Close` | project/src/pages/GoalsPage.tsx:547-550 | Closing hides the drawer and resets the step to 1, but keeps the draft. |
| `Wizards.Wizard.Finish` | project/src/pages/GoalsPage.tsx:164-205 | After a successful insert the drawer closes, the step is 1 and the draft is reset. After a failure nothing changes. |
| `CommaLists.ParseList` | project/src/pages/GoalsPage.tsx:122-133 | "" gives the empty list. Otherwise there is one piece per comma plus one, each trimmed and comma-free. |
| `CommaLists.BlankGivesOneEmptyPiece` | project/src/pages/GoalsPage.tsx:122-133 | A non-empty, whitespace-only string gives one empty piece. |
| `CommaLists.KeepsEmptyAndRepeats` | project/src/pages/GoalsPage.tsx:122-133 | Empty pieces and repeated ids are kept: "a,,a" gives ["a", "", "a"]. |
| `CommaLists.SplitJoinTrims` | project/src/pages/SettingsPage.tsx:71-89 | Splitting a ", "-joined list of comma-free strings and trimming the pieces gives the trimmed list. |
| `CommaLists.JoinThenParse` | project/src/pages/SettingsPage.tsx:71-89 | Joining with ", " and parsing back recovers any tag list other than [""] whose tags are trimmed and comma-free. |
| `CommaLists.EmptyTagIsLost` | project/src/pages/SettingsPage.tsx:71-89 | The list [""] joins to "" and parses back to the empty list. |
| `GoalsWizard.Payload` | project/src/pages/GoalsPage.tsx:121-162 | Prerequisites are sent as blocked-by ids, and unlocks, habits and tasks as parsed lists. Status is "not_started" and progress 0; title and target date are copied. |
| `GoalsWizard.UnsentFieldsIgnored` | project/src/pages/GoalsPage.tsx:135-162 | Milestone ids, milestone order, weight distribution and habit contribution weights do not affect what is sent. |
| `GoalsWizard.PrerequisiteCount` | project/src/pages/GoalsPage.tsx:122-133 | No prerequisites are sent for an empty field; otherwise one per comma plus one. |
| `GoalsWizard.Submit` | project/src/pages/GoalsPage.tsx:121-206 | Sends the parsed payload of the draft. On success it records a `goal_created` event and resets the wizard to the default draft. On failure the wizard is unchanged and no event is recorded. |
| `GoalsWizard.Progresses` | project/src/pages/GoalsPage.tsx:432-436 | One progress value per goal, with a missing progress read as 0. |
| `GoalsWizard.Summary` | project/src/pages/GoalsPage.tsx:432-436 | The total is the number of goals, the completed count is the number of completed goals and does not exceed it, and the average is the mean progress. The average is 0 over no goals. |
| `GoalsWizard.AverageIsPercentage` | project/src/pages/GoalsPage.tsx:432-436 | If every recorded progress is a percentage, so is the average. |
| `JobsWizard.DefaultForm` | project/src/pages/JobsPage.tsx:56-88 | A new form has status "applied", no offer, no rejection, today's date, USD and an alignment score of 0.5. |
| `JobsWizard.Submit` | project/src/pages/JobsPage.tsx:124-172 | Sends the form exactly as it is. On success it records an `application_created` event and resets the wizard. On failure nothing changes. |
| `JobsWizard.Groups` | project/src/pages/JobsPage.tsx:402-407 | Each group holds exactly the applications satisfying its predicate. The applied and offered groups have the matching counts. |
| `JobsWizard.AppliedIsExclusive` | project/src/pages/JobsPage.tsx:403-406 | No application is both applied and interviewing, offered or rejected. |
| `JobsWizard.OfferedAndRejectedOverlap` | project/src/pages/JobsPage.tsx:405-406 | An application with both an offer and a rejection is in both groups. |
| `JobsWizard.StatusLabel` | project/src/pages/JobsPage.tsx:497-501 | An offer shows "Offered", else a rejection shows "Rejected", else the raw status. |
| `JobsWizard.LabelAgreesWithGroups` | project/src/pages/JobsPage.tsx:486-501 | The badge agrees with the group an application is listed in. |
| `DiaryWizard.DefaultDraft` | project/src/pages/DiaryPage.tsx:50-76 | A new draft is for today, with normal importance, counted for the streak, and with empty title, categories and tags. |
| `DiaryWizard.SplitCategories` | project/src/pages/DiaryPage.tsx:139-141 | Categories are split unconditionally: one piece per comma plus one. "" gives [""]. |
| `DiaryWizard.Payload` | project/src/pages/DiaryPage.tsx:130-160 | A primary, empty entry of length category "empty" with the four sliders at 0. The linked ids are parsed lists, the secondary categories are split, and date and title are copied. |
| `DiaryWizard.TagsNotSent` | project/src/pages/DiaryPage.tsx:114-160 | The tag ids do not affect what is sent. |
| `DiaryWizard.DefaultDraftPayload` | project/src/pages/DiaryPage.tsx:113-160 | The default draft sends no habit ids and one empty secondary category. |
| `DiaryWizard.Submit` | project/src/pages/DiaryPage.tsx:113-194 | Sends the payload of the draft. On success it resets the wizard; on failure nothing changes. |
| `SettingsPage.FromRow` | project/src/pages/SettingsPage.tsx:49-74 | Loading keeps the id and all fields, and shows the tags joined by ", ". |
| `SettingsPage.ToRow` | project/src/pages/SettingsPage.tsx:83-95 | Saving keeps the id and all fields, and parses the tag string into a list. |
| `SettingsPage.LoadThenSaveRoundTrip` | project/src/pages/SettingsPage.tsx:71-95 | Loading then saving gives back the stored row, for any tag list other than [""] with trimmed, comma-free tags. |
| `SettingsPage.SingleEmptyTagIsDropped` | project/src/pages/SettingsPage.tsx:71-89 | A stored [""] comes back as the empty list. |
| `SettingsPage.WriteFor` | project/src/pages/SettingsPage.tsx:96-116 | A save updates the row with the loaded id when there is a non-empty one, and inserts otherwise. It always writes the saved row. |
| `SettingsPage.NoCapitalE` | project/src/pages/SettingsPage.tsx:262 | A message without a capital E does not contain "Error". |
| `SettingsPage.RedExactlyOnFailure` | project/src/pages/SettingsPage.tsx:96-118 | A save message contains "Error", and is shown red, exactly when the save failed. It is never empty. |
| `SettingsPage.SettingsForm.Load` | project/src/pages/SettingsPage.tsx:49-74 | A fetched row replaces the settings; without one the settings are kept. The rest of the form is unchanged. |
| `SettingsPage.SettingsForm.Edit` | project/src/pages/SettingsPage.tsx:76-81 | Editing replaces the settings and nothing else. |
| `SettingsPage.SettingsForm.Save` | project/src/pages/SettingsPage.tsx:83-120 | Writes the update or insert for the current settings and shows the matching message. The saving flag ends false. Settings are reloaded only after a successful insert. |
| `SettingsPage.SettingsForm.MessageExpired` | project/src/pages/SettingsPage.tsx:119 | The timer clears the message and nothing else. |
| `AnalyticsPage.RangeDays` | project/src/pages/AnalyticsPage.tsx:41-53 | "30d" gives 30 days and "90d" gives 90; every other value gives 7. |
| `AnalyticsPage.WindowStart` | project/src/pages/AnalyticsPage.tsx:41-53 | The window starts before now. |
| `AnalyticsPage.Query` | project/src/pages/AnalyticsPage.tsx:55-59 | The fetched events are exactly those stamped at or after the window start. |
| `AnalyticsPage.LongerWindowHoldsMore` | project/src/pages/AnalyticsPage.tsx:41-59 | Every event in the 7-day window is in the 30-day one, and every one in 30 is in 90. An unknown range fetches the same as 7 days. |
| `AnalyticsPage.MetricValues` | project/src/pages/AnalyticsPage.tsx:66-69 | One metric value per event, in order. |
| `AnalyticsPage.Aggregate` | project/src/pages/AnalyticsPage.tsx:61-77 | The total is the number of events. The goal and application counts count their event types. The average is the mean of the events' metric values. No events gives all zeros. |
| `AnalyticsPage.CreatedEventsWithinTotal` | project/src/pages/AnalyticsPage.tsx:64-72 | Goal events plus application events never exceed the total. |
| `AnalyticsPage.AverageWithinValues` | project/src/pages/AnalyticsPage.tsx:66-69 | When every metric value lies in [lo, hi], so does the average. |
| `AnalyticsPage.OnlyCreatesAverageOne` | project/src/pages/AnalyticsPage.tsx:64-72 | When every event is a creation event worth 1, the two counts add up to the total and the average is 1. |
| `AnalyticsPage.TypeColor` | project/src/pages/AnalyticsPage.tsx:80-84 | Any type other than the two creation events is shown gray. |
| `AnalyticsPage.WizardEventsColoured` | project/src/pages/AnalyticsPage.tsx:80-84 | The events the wizards record get distinct colours: blue for goals, green for applications. |
| `AnalyticsPage.AnalyticsView.constructor` | project/src/pages/AnalyticsPage.tsx:25-31 | The page starts at "7d" with no events and zero metrics. |
| `AnalyticsPage.AnalyticsView.SetRange` | project/src/pages/AnalyticsPage.tsx:96-106 | Choosing a range changes only the range. |
| `AnalyticsPage.AnalyticsView.Refresh` | project/src/pages/AnalyticsPage.tsx:55-77 | A successful fetch replaces the events and their aggregate metrics. A failed one changes nothing, and the metrics always agree with the events. |

## Left out

- Date parsing and formatting libraries (chrono's `parse_from_str` and JavaScript `new Date`) are parameters (`parse`, `parseDate`, `time`). Dates are (year, month, day) values; `Dates.Format` renders years 0 to 9999 only.
- `Utc::now`, `Local::now`, `Date.now`, `Uuid::new_v4` and `Math.random` toast ids are parameters. Timers (`setTimeout`) are left out, except that the settings message clear is the method `MessageExpired`.
- SQL and the database: queries are a table held in a sequence or a map. Query ordering other than the newest snapshot, database and I/O errors, pool setup and migrations are not modelled.
- Gateways: `invoke` and the hosted-database client are a success flag or an `Option` for the fetched value. The data a refetch returns is not modelled.
- The Tauri command wrappers, the state mutex and all concurrency are left out.
- Whitespace is ASCII whitespace and lower-casing is ASCII only. Unicode whitespace and Unicode case mapping are not modelled.
- Averages are exact reals; IEEE rounding, `toFixed` and percentage display are not modelled.
- `JSON.parse` is a parameter returning an optional document of blocks and items. Item texts that are present but not strings are not modelled.
- `DiaryRepository.DiaryStore.EnsureYearlyEntries`: requires a year in 0..9999, where `%Y` renders four digits. Other years are not modelled.
- `DiaryRepository.EntryRow`: the `is_primary_page` default of the table schema is the parameter `primaryDefault`. The ISO week and weekday columns of inserted rows are not modelled.
- `DashboardAnalytics.ComputeDashboard`: the placeholder constants of the snapshot (scores, health status and the like) are not modelled. Of the fields computed at run time, `dashboard_timezone` (the local clock's offset) and `analytics_computation_duration_ms` (a clock difference) are not modelled, and `dashboard_id`, a fresh UUID, is the parameter `id`. 32-bit overflow of the counts is not modelled.
- `DashboardCommand.SnapshotStore.GetDashboard`: only the decode error of the `SUM` columns is modelled. Other query errors and a failing `save_snapshot` are not. The error's text is a fixed string, not the driver's message.
- `DiaryEditor.Editor.Load`: a failing `get_diary_entry` call, which leaves the page unchanged, is not modelled; `Load` starts from the returned entry. The sub-page list itself is not kept.
- `DashboardCommand.LatestOf`: among snapshots generated in the same second, the model returns the one saved last. SQL leaves that order unspecified.
- `Wizards.Wizard.Edit`: field-by-field `updateField` is modelled as replacing the whole draft with the edited one.
- `DiaryWizard.Payload`: the four step-3 sliders have no change handler, so the draft has no slider fields and the payload always sends 0.
- `DiaryArchive.SortByDate`: entry dates are mapped to times by the parameter `time`. An unparseable date (NaN in the comparator) is not modelled.
- `AnalyticsPage.WindowStart`: the window is `now` minus whole days of 86 400 000 ms. The local-time and daylight-saving behaviour of `setDate` is not modelled.
- Rendering: JSX, styles, icons and navigation are not modelled, beyond the values the page shows (labels, colours, messages).

## Findings

| source | as written | input that shows it | evidently intended | confidence | as-written member | corrected member |
|---|---|---|---|---|---|---|
| src-tauri/src/domains/dashboard/analytics.rs:20-34 | The `SUM(CASE ...)` results for habits, goals and jobs are decoded as plain `i32`. Over no rows SQL's `SUM` is `NULL`. If the driver rejects `NULL` for a plain `i32` (`NullIsError`), the decode fails; if it reads it as 0, nothing goes wrong. | Only under `NullIsError`: an empty `habits` table, or no active goals, or no active job applications, makes `get_dashboard` return a database error instead of a snapshot. | A fresh install gets a dashboard with zero counts, with `NULL` sums read as 0 (as `COALESCE` would). | low, not executed | `DashboardAnalytics.NoHabitsFailsAsWritten` | `DashboardAnalytics.ComputeDashboard` |
| src/app/diary/editor/page.tsx:77-91 | The entry is shown (`setEntry`) before `get_diary_sub_pages` is awaited, and the future check comes after it. When that call rejects, the `catch` skips the check. | An entry dated 2026-02-01 whose sub-page fetch rejects: the page shows it unlocked, and edits to it are saved. | Every entry dated after 2026-01-03 is locked whatever the sub-page fetch does. | medium, not executed | `DiaryEditor.FutureUnlockedWhenSubPagesFail` | `DiaryEditor.Editor.LoadChecked` |
