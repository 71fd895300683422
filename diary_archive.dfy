/**
 * The diary archive page: the search and filter over the loaded entries,
 * the stable sort by entry date in the chosen direction, the summary figures
 * over all entries, and the sort-direction toggle.
 *
 * `new Date(entry_date).getTime()` belongs to the JavaScript runtime; it is
 * the parameter `time`, a total map from date strings to milliseconds.
 */
module DiaryArchive {
  import opened Base
  import opened Text
  import opened Stats

  datatype DiaryEntry = DiaryEntry(
    diaryEntryId: string,
    entryDate: string,
    title: Option<string>,
    wordCount: int,
    moodLabel: Option<string>,
    importanceLevel: int)

  /** The title (a missing title is "") contains the query ignoring case, or the date string contains it as typed. */
  predicate MatchesSearch(e: DiaryEntry, query: string) {
    Contains(ToLower(e.title.GetOr("")), ToLower(query)) || Contains(e.entryDate, query)
  }

  predicate MatchesMood(e: DiaryEntry, mood: string) {
    mood == "all" || e.moodLabel == Some(mood)
  }

  predicate MatchesImportance(e: DiaryEntry, importance: string) {
    importance == "all" || IntToString(e.importanceLevel) == importance
  }

  /** The three filters of the archive, selected by the search box and the two selects. */
  datatype Filters = Filters(query: string, mood: string, importance: string)

  predicate Keep(e: DiaryEntry, f: Filters) {
    MatchesSearch(e, f.query) && MatchesMood(e, f.mood) && MatchesImportance(e, f.importance)
  }

  function Kept(f: Filters): DiaryEntry -> bool {
    e => Keep(e, f)
  }

  /**
   * The position an entry sorts by: its time, negated when sorting newest
   * first, since the comparator `timeB - timeA` puts later dates first.
   */
  function Rank(e: DiaryEntry, desc: bool, time: string -> int): int {
    if desc then -time(e.entryDate) else time(e.entryDate)
  }

  function RankIs(k: int, desc: bool, time: string -> int): DiaryEntry -> bool {
    e => Rank(e, desc, time) == k
  }

  predicate Sorted(s: seq<DiaryEntry>, desc: bool, time: string -> int) {
    forall i, j | 0 <= i < j < |s| :: Rank(s[i], desc, time) <= Rank(s[j], desc, time)
  }

  /** Places `x` after every element that does not sort after it. */
  function Insert(s: seq<DiaryEntry>, x: DiaryEntry, desc: bool, time: string -> int): (r: seq<DiaryEntry>)
    ensures multiset(r) == multiset(s) + multiset{x}
  {
    if s == [] then [x]
    else if Rank(s[|s| - 1], desc, time) <= Rank(x, desc, time) then s + [x]
    else
      assert s == s[..|s| - 1] + [s[|s| - 1]];
      Insert(s[..|s| - 1], x, desc, time) + [s[|s| - 1]]
  }

  /** Every element of `s` and `x` itself sort no later than `bound`. */
  predicate AllUpTo(s: seq<DiaryEntry>, bound: int, desc: bool, time: string -> int) {
    forall i | 0 <= i < |s| :: Rank(s[i], desc, time) <= bound
  }

  lemma {:induction false} InsertBounded(s: seq<DiaryEntry>, x: DiaryEntry, desc: bool, time: string -> int, bound: int)
    requires AllUpTo(s, bound, desc, time) && Rank(x, desc, time) <= bound
    ensures AllUpTo(Insert(s, x, desc, time), bound, desc, time)
  {
    var r := Insert(s, x, desc, time);
    forall i | 0 <= i < |r|
      ensures Rank(r[i], desc, time) <= bound
    {
      assert r[i] in multiset(r);
      assert r[i] in multiset(s) + multiset{x};
    }
  }

  /** Inserting into a sorted list keeps it sorted. */
  lemma {:induction false} InsertSorted(s: seq<DiaryEntry>, x: DiaryEntry, desc: bool, time: string -> int)
    requires Sorted(s, desc, time)
    ensures Sorted(Insert(s, x, desc, time), desc, time)
  {
    if s != [] && Rank(s[|s| - 1], desc, time) > Rank(x, desc, time) {
      var init, last := s[..|s| - 1], s[|s| - 1];
      var bound := Rank(last, desc, time);
      InsertSorted(init, x, desc, time);
      assert AllUpTo(init, bound, desc, time);
      InsertBounded(init, x, desc, time, bound);
      var r := Insert(s, x, desc, time);
      assert r == Insert(init, x, desc, time) + [last];
    }
  }

  /**
   * `Array.prototype.sort` with a comparator on times, which is stable:
   * each element is inserted after the elements before it that do not sort
   * after it.
   */
  function SortByDate(xs: seq<DiaryEntry>, desc: bool, time: string -> int): (r: seq<DiaryEntry>)
    ensures multiset(r) == multiset(xs)
    ensures Sorted(r, desc, time)
  {
    if xs == [] then []
    else
      assert xs == xs[..|xs| - 1] + [xs[|xs| - 1]];
      var sorted := SortByDate(xs[..|xs| - 1], desc, time);
      InsertSorted(sorted, xs[|xs| - 1], desc, time);
      Insert(sorted, xs[|xs| - 1], desc, time)
  }

  /** Filtering a one-element list by rank. */
  lemma FilterOne(x: DiaryEntry, desc: bool, time: string -> int, k: int)
    ensures Filter([x], RankIs(k, desc, time)) == if Rank(x, desc, time) == k then [x] else []
  {
    assert RankIs(k, desc, time)(x) == (Rank(x, desc, time) == k);
    assert [x][1..] == [];
  }

  /** Inserting adds `x` after everything of the same rank already there. */
  lemma {:induction false} InsertKeepsTies(s: seq<DiaryEntry>, x: DiaryEntry, desc: bool, time: string -> int, k: int)
    ensures Filter(Insert(s, x, desc, time), RankIs(k, desc, time)) == Filter(s, RankIs(k, desc, time)) + Filter([x], RankIs(k, desc, time))
  {
    var p := RankIs(k, desc, time);
    if s == [] {
      assert Insert(s, x, desc, time) == [x];
      assert Filter(s, p) == [];
    } else if Rank(s[|s| - 1], desc, time) <= Rank(x, desc, time) {
      FilterAppend(s, [x], p);
    } else {
      var init, last := s[..|s| - 1], s[|s| - 1];
      assert s == init + [last];
      assert Insert(s, x, desc, time) == Insert(init, x, desc, time) + [last];
      InsertKeepsTies(init, x, desc, time, k);
      FilterAppend(Insert(init, x, desc, time), [last], p);
      FilterAppend(init, [last], p);
      FilterOne(x, desc, time, k);
      FilterOne(last, desc, time, k);
      SwapEmpty(Filter(init, p), Filter([x], p), Filter([last], p));
    }
  }

  lemma SwapEmpty<T>(a: seq<T>, b: seq<T>, c: seq<T>)
    requires b == [] || c == []
    ensures (a + b) + c == (a + c) + b
  {
  }

  /** The sort is stable: entries of equal date keep their relative order. */
  lemma {:induction false} SortIsStable(xs: seq<DiaryEntry>, desc: bool, time: string -> int, k: int)
    ensures Filter(SortByDate(xs, desc, time), RankIs(k, desc, time)) == Filter(xs, RankIs(k, desc, time))
  {
    if xs != [] {
      var init, last := xs[..|xs| - 1], xs[|xs| - 1];
      assert xs == init + [last];
      SortIsStable(init, desc, time, k);
      InsertKeepsTies(SortByDate(init, desc, time), last, desc, time, k);
      FilterAppend(init, [last], RankIs(k, desc, time));
    }
  }

  /** `filteredEntries`: the kept entries, newest first when `dateSort` is "desc" and oldest first otherwise. */
  function FilteredEntries(entries: seq<DiaryEntry>, f: Filters, dateSort: string, time: string -> int): (r: seq<DiaryEntry>)
    ensures multiset(r) == multiset(Filter(entries, Kept(f)))
    ensures forall e :: e in r <==> e in entries && Keep(e, f)
    ensures Sorted(r, dateSort == "desc", time)
  {
    var kept := Filter(entries, Kept(f));
    var r := SortByDate(kept, dateSort == "desc", time);
    assert forall e :: Kept(f)(e) == Keep(e, f);
    assert forall e :: e in r <==> e in multiset(r);
    assert forall e :: e in kept <==> e in multiset(kept);
    r
  }

  /**
   * The result holds every kept entry exactly as often as the loaded list
   * does, and no other entry: nothing is dropped or duplicated.
   */
  lemma FilteredIsPermutation(entries: seq<DiaryEntry>, f: Filters, dateSort: string, time: string -> int, e: DiaryEntry)
    ensures multiset(FilteredEntries(entries, f, dateSort, time))[e] == if Keep(e, f) then multiset(entries)[e] else 0
  {
    FilterMultiset(entries, Kept(f), e);
  }

  /** With every filter at "all" and an empty search, every entry is listed. */
  lemma NoFilterListsAll(entries: seq<DiaryEntry>, dateSort: string, time: string -> int)
    ensures multiset(FilteredEntries(entries, Filters("", "all", "all"), dateSort, time)) == multiset(entries)
  {
    forall k | 0 <= k < |entries|
      ensures Keep(entries[k], Filters("", "all", "all"))
    {
      ContainsEmpty(ToLower(entries[k].title.GetOr("")));
    }
    FilterAll(entries, Kept(Filters("", "all", "all")));
  }

  function SumWords(entries: seq<DiaryEntry>): int {
    if entries == [] then 0 else entries[0].wordCount + SumWords(entries[1..])
  }

  predicate HasWords(e: DiaryEntry) {
    e.wordCount > 0
  }

  /** The summary figures of the archive. */
  datatype ArchiveStats = ArchiveStats(totalWords: int, completedCount: nat, avgWords: real)

  /** `stats`, always over all loaded entries whatever the filters. */
  function Summary(entries: seq<DiaryEntry>): (r: ArchiveStats)
    ensures r.totalWords == SumWords(entries)
    ensures r.completedCount == Count(entries, HasWords) && r.completedCount <= |entries|
    ensures r.completedCount == 0 ==> r.avgWords == 0.0
    ensures r.completedCount > 0 ==> r.avgWords * (r.completedCount as real) == r.totalWords as real
  {
    var total := SumWords(entries);
    var completed := Count(entries, HasWords);
    ArchiveStats(total, completed, if completed > 0 then total as real / completed as real else 0.0)
  }

  /** With no negative word counts, the total is at least the number of entries with words. */
  lemma {:induction false} WordsAtLeastCompleted(entries: seq<DiaryEntry>)
    requires forall k | 0 <= k < |entries| :: entries[k].wordCount >= 0
    ensures SumWords(entries) >= Count(entries, HasWords)
  {
    if entries != [] {
      WordsAtLeastCompleted(entries[1..]);
    }
  }

  /** So the average over entries with words is at least one word. */
  lemma AverageAtLeastOne(entries: seq<DiaryEntry>)
    requires forall k | 0 <= k < |entries| :: entries[k].wordCount >= 0
    requires Summary(entries).completedCount > 0
    ensures Summary(entries).avgWords >= 1.0
  {
    WordsAtLeastCompleted(entries);
    var s := Summary(entries);
    assert s.totalWords as real >= s.completedCount as real;
  }

  /** The sort button: "desc" becomes "asc", anything else becomes "desc". */
  function ToggleSort(dateSort: string): (r: string)
    ensures r == "desc" || r == "asc"
    ensures (r == "desc") != (dateSort == "desc")
  {
    if dateSort == "desc" then "asc" else "desc"
  }

  /** Two presses restore either direction. */
  lemma ToggleTwice(dateSort: string)
    requires dateSort == "desc" || dateSort == "asc"
    ensures ToggleSort(ToggleSort(dateSort)) == dateSort
  {
  }
}
