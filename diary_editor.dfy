/**
 * The diary editor page: the word count taken from the editor's block
 * document, the guarded save that merges changed fields into the entry, the
 * future-date lock, and the request that creates a sub-page.
 *
 * `JSON.parse` and `new Date` belong to the JavaScript runtime: they are the
 * parameters `parse` and `parseDate`. The gateway call's outcome is the
 * parameter `succeeded`, and `Date.now()` the parameter `nowMillis`.
 */
module DiaryEditor {
  import opened Base
  import opened Text
  import opened Dates
  import opened AppErrors
  import DiaryValidation

  /** An element of a block's `content` array: `null`, or an object whose `text` is a string or absent. */
  datatype Item = NullItem | Item(text: Option<string>)

  /** An element of the document array: `null`, or an object whose `content` is an array or not. */
  datatype Block = NullBlock | Block(content: Option<seq<Item>>)

  /** What `JSON.parse` yields: an array of blocks, or some other value. */
  datatype Document = Blocks(blocks: seq<Block>) | NotAnArray

  /** Positions where a run of whitespace begins. */
  function SpaceRuns(s: string): nat {
    if s == [] then 0
    else SpaceRuns(s[..|s| - 1]) + (if IsSpace(s[|s| - 1]) && (|s| == 1 || !IsSpace(s[|s| - 2])) then 1 else 0)
  }

  /** Positions where a word (a run of non-whitespace) begins: the number of words. */
  function WordRuns(s: string): nat {
    if s == [] then 0
    else WordRuns(s[..|s| - 1]) + (if !IsSpace(s[|s| - 1]) && (|s| == 1 || IsSpace(s[|s| - 2])) then 1 else 0)
  }

  /**
   * `t.trim().split(/\s+/).length`: the trimmed text has no whitespace at
   * either end, so it splits into one piece more than it has whitespace runs
   * (the empty string gives the single piece "").
   */
  function PieceCount(t: string): (n: nat)
    ensures n >= 1
  {
    SpaceRuns(Trim(t)) + 1
  }

  /** Word runs and whitespace runs alternate, so their counts differ by what the ends are. */
  lemma {:induction false} RunsAlternate(s: string)
    requires s != []
    ensures WordRuns(s) as int - SpaceRuns(s) as int == (if IsSpace(s[0]) then 0 else 1) - (if IsSpace(s[|s| - 1]) then 1 else 0)
  {
    if |s| > 1 {
      var init := s[..|s| - 1];
      assert init[0] == s[0] && init[|init| - 1] == s[|s| - 2];
      RunsAlternate(init);
    }
  }

  /** For text with any non-whitespace, the count is the number of words. */
  lemma PieceCountIsWords(t: string)
    requires !AllSpace(t)
    ensures PieceCount(t) == WordRuns(Trim(t))
  {
    RunsAlternate(Trim(t));
  }

  /** Whitespace-only text counts as one word. */
  lemma BlankTextCountsOne(t: string)
    requires AllSpace(t)
    ensures PieceCount(t) == 1
  {
  }

  /** The words an item contributes: only an item with a non-empty `text` counts. */
  function ItemWords(text: Option<string>): nat {
    if text.Some? && text.value != [] then PieceCount(text.value) else 0
  }

  /** A running word total, and whether the walk hit a `null` (which throws and ends it). */
  datatype Tally = Tally(words: nat, threw: bool)

  function TallyItems(items: seq<Item>): (t: Tally)
    ensures items == [] ==> t == Tally(0, false)
  {
    if items == [] then Tally(0, false)
    else if items[0].NullItem? then Tally(0, true)
    else
      var rest := TallyItems(items[1..]);
      Tally(ItemWords(items[0].text) + rest.words, rest.threw)
  }

  /** Blocks without a `content` array are skipped; a thrown error keeps the words counted so far. */
  function TallyBlocks(blocks: seq<Block>): Tally {
    if blocks == [] then Tally(0, false)
    else if blocks[0].NullBlock? then Tally(0, true)
    else if blocks[0].content.None? then TallyBlocks(blocks[1..])
    else
      var here := TallyItems(blocks[0].content.value);
      if here.threw then here
      else
        var rest := TallyBlocks(blocks[1..]);
        Tally(here.words + rest.words, rest.threw)
  }

  /**
   * The word count `handleEditorChange` saves. The error of a document that
   * does not parse, or of a `forEach` on something other than an array, is
   * swallowed, leaving the words counted before it.
   */
  function WordCount(json: string, parse: string -> Option<Document>): nat {
    match parse(json)
    case None => 0
    case Some(NotAnArray) => 0
    case Some(Blocks(blocks)) => TallyBlocks(blocks).words
  }

  /** A document without a `null` anywhere is counted in full. */
  lemma {:induction false} NoNullNoThrow(blocks: seq<Block>)
    requires forall k | 0 <= k < |blocks| :: blocks[k].Block?
    requires forall k | 0 <= k < |blocks| :: blocks[k].content.Some? ==> forall j | 0 <= j < |blocks[k].content.value| :: blocks[k].content.value[j].Item?
    ensures !TallyBlocks(blocks).threw
  {
    if blocks != [] {
      NoNullNoThrow(blocks[1..]);
      if blocks[0].content.Some? {
        NoNullItems(blocks[0].content.value);
      }
    }
  }

  lemma {:induction false} NoNullItems(items: seq<Item>)
    requires forall j | 0 <= j < |items| :: items[j].Item?
    ensures !TallyItems(items).threw
  {
    if items != [] {
      NoNullItems(items[1..]);
    }
  }

  /** The nested `forEach` walk over the content of one block. */
  method CountItems(items: seq<Item>) returns (words: nat, threw: bool)
    ensures Tally(words, threw) == TallyItems(items)
  {
    words, threw := 0, false;
    var j := 0;
    while j < |items|
      invariant 0 <= j <= |items|
      invariant words + TallyItems(items[j..]).words == TallyItems(items).words
      invariant TallyItems(items[j..]).threw == TallyItems(items).threw
    {
      if items[j].NullItem? {
        threw := true;
        return;
      }
      assert items[j..][1..] == items[j + 1..];
      words := words + ItemWords(items[j].text);
      j := j + 1;
    }
    assert items[j..] == [];
  }

  /** The word count of `handleEditorChange`, by the loops of the page. */
  method CountWords(json: string, parse: string -> Option<Document>) returns (words: nat)
    ensures words == WordCount(json, parse)
  {
    words := 0;
    var doc := parse(json);
    if doc.None? || doc.value.NotAnArray? {
      return;
    }
    var blocks := doc.value.blocks;
    var i := 0;
    while i < |blocks|
      invariant 0 <= i <= |blocks|
      invariant words + TallyBlocks(blocks[i..]).words == TallyBlocks(blocks).words
    {
      assert blocks[i..][1..] == blocks[i + 1..];
      if blocks[i].NullBlock? {
        return;
      }
      if blocks[i].content.Some? {
        var w, threw := CountItems(blocks[i].content.value);
        words := words + w;
        if threw {
          return;
        }
      }
      i := i + 1;
    }
    assert blocks[i..] == [];
  }

  /** The fixed date the page treats as today. */
  const Today := Date(2026, 1, 3)

  /** An entry is locked when its date parses and lies after 3 January 2026; an unparsable date is not. */
  predicate IsFutureDate(entryDate: string, parseDate: string -> Option<Date>) {
    parseDate(entryDate).Some? && Less(Today, parseDate(entryDate).value)
  }

  datatype Entry = Entry(
    diaryEntryId: string,
    entryDate: string,
    title: Option<string>,
    contentJson: string,
    wordCount: int,
    createdAt: int,
    updatedAt: int,
    parentPageId: Option<string>,
    moodLabel: Option<string>,
    moodRating: Option<int>,
    energyLevel: Option<int>,
    stressLevel: Option<int>,
    importanceLevel: int)

  /** The fields the page's controls change; `None` leaves a field as it is. */
  datatype Updates = Updates(
    title: Option<string>,
    contentJson: Option<string>,
    wordCount: Option<int>,
    moodLabel: Option<string>,
    moodRating: Option<int>,
    energyLevel: Option<int>,
    stressLevel: Option<int>,
    importanceLevel: Option<int>)

  /** `{ ...entry, ...updates }`. */
  function Merge(e: Entry, u: Updates): (r: Entry)
    ensures r.diaryEntryId == e.diaryEntryId && r.entryDate == e.entryDate
    ensures r.createdAt == e.createdAt && r.updatedAt == e.updatedAt && r.parentPageId == e.parentPageId
    ensures r.title == (if u.title.Some? then Some(u.title.value) else e.title)
    ensures r.contentJson == u.contentJson.GetOr(e.contentJson)
    ensures r.wordCount == u.wordCount.GetOr(e.wordCount)
    ensures r.moodLabel == (if u.moodLabel.Some? then Some(u.moodLabel.value) else e.moodLabel)
    ensures r.moodRating == (if u.moodRating.Some? then Some(u.moodRating.value) else e.moodRating)
    ensures r.energyLevel == (if u.energyLevel.Some? then Some(u.energyLevel.value) else e.energyLevel)
    ensures r.stressLevel == (if u.stressLevel.Some? then Some(u.stressLevel.value) else e.stressLevel)
    ensures r.importanceLevel == u.importanceLevel.GetOr(e.importanceLevel)
  {
    e.(
      title := if u.title.Some? then Some(u.title.value) else e.title,
      contentJson := u.contentJson.GetOr(e.contentJson),
      wordCount := u.wordCount.GetOr(e.wordCount),
      moodLabel := if u.moodLabel.Some? then Some(u.moodLabel.value) else e.moodLabel,
      moodRating := if u.moodRating.Some? then Some(u.moodRating.value) else e.moodRating,
      energyLevel := if u.energyLevel.Some? then Some(u.energyLevel.value) else e.energyLevel,
      stressLevel := if u.stressLevel.Some? then Some(u.stressLevel.value) else e.stressLevel,
      importanceLevel := u.importanceLevel.GetOr(e.importanceLevel))
  }

  const NoUpdates := Updates(None, None, None, None, None, None, None, None)

  /** Saving nothing changes nothing, and a second identical save changes nothing further. */
  lemma MergeNeutralAndIdempotent(e: Entry, u: Updates)
    ensures Merge(e, NoUpdates) == e
    ensures Merge(Merge(e, u), u) == Merge(e, u)
  {
  }

  /** The arguments of `update_diary_entry`. */
  datatype UpdateRequest = UpdateRequest(
    id: string,
    title: Option<string>,
    contentJson: string,
    wordCount: int,
    moodLabel: Option<string>,
    moodRating: Option<int>,
    energyLevel: Option<int>,
    stressLevel: Option<int>,
    importanceLevel: int)

  /** The request `saveEntry` sends: every editable field of the entry; its date, parent and timestamps are not sent. */
  function RequestFor(e: Entry): (r: UpdateRequest)
    ensures r.id == e.diaryEntryId && r.contentJson == e.contentJson && r.wordCount == e.wordCount
    ensures r.title == e.title && r.moodLabel == e.moodLabel && r.importanceLevel == e.importanceLevel
    ensures r.moodRating == e.moodRating && r.energyLevel == e.energyLevel && r.stressLevel == e.stressLevel
  {
    UpdateRequest(e.diaryEntryId, e.title, e.contentJson, e.wordCount, e.moodLabel, e.moodRating, e.energyLevel, e.stressLevel, e.importanceLevel)
  }

  /** The arguments of `create_diary_entry` for a sub-page. */
  datatype SubPageRequest = SubPageRequest(title: string, entryDate: string, contentJson: string, parentPageId: string)

  const SubPageTitle := "Untitled Sub-page"
  const EmptyDocument := "[{\"type\":\"paragraph\",\"content\":[]}]"

  /** `createSubPage`: a child of the open entry, on the same date, with a fixed title and one empty paragraph. */
  function SubPage(e: Entry): (r: SubPageRequest)
    ensures r.parentPageId == e.diaryEntryId && r.entryDate == e.entryDate
    ensures r.title == SubPageTitle && r.contentJson != []
  {
    SubPageRequest(SubPageTitle, e.entryDate, EmptyDocument, e.diaryEntryId)
  }

  /** The backend's view of a sub-page request. */
  function AsCreateInput(r: SubPageRequest): DiaryValidation.CreateDiaryInput {
    DiaryValidation.CreateDiaryInput(r.entryDate, r.contentJson, Some(r.title))
  }

  /**
   * A sub-page is accepted by the backend exactly when the parent's date is:
   * its content is never empty, so only the date checks can reject it.
   */
  lemma SubPageAcceptedWithParentDate(e: Entry, parse: string -> Option<Date>, today: Date)
    ensures DiaryValidation.ValidateCreate(AsCreateInput(SubPage(e)), parse, today).Ok?
            <==> DiaryValidation.DateAccepted(parse(e.entryDate), today)
  {
  }

  /** The lock `fetchData` leaves, given whether the sub-pages loaded before the date check. */
  function LockAfterLoad(wasLocked: bool, entryDate: string, parseDate: string -> Option<Date>, subPagesLoaded: bool): (locked: bool)
    ensures wasLocked ==> locked
    ensures locked ==> wasLocked || IsFutureDate(entryDate, parseDate)
    ensures subPagesLoaded ==> (locked <==> wasLocked || IsFutureDate(entryDate, parseDate))
    ensures !subPagesLoaded ==> locked == wasLocked
  {
    wasLocked || (subPagesLoaded && IsFutureDate(entryDate, parseDate))
  }

  /** As written, an unlocked future entry whose sub-pages fail to load stays unlocked, so it can be saved. */
  lemma FutureUnlockedWhenSubPagesFail(entryDate: string, parseDate: string -> Option<Date>)
    requires IsFutureDate(entryDate, parseDate)
    ensures !LockAfterLoad(false, entryDate, parseDate, false)
    ensures LockAfterLoad(false, entryDate, parseDate, true)
  {
  }

  /** The lock as intended: it no longer depends on the sub-page fetch, and agrees with the page whenever that succeeds. */
  function LockAfterLoadChecked(wasLocked: bool, entryDate: string, parseDate: string -> Option<Date>): (locked: bool)
    ensures locked == LockAfterLoad(wasLocked, entryDate, parseDate, true)
    ensures LockAfterLoad(wasLocked, entryDate, parseDate, false) ==> locked
    ensures IsFutureDate(entryDate, parseDate) ==> locked
  {
    wasLocked || IsFutureDate(entryDate, parseDate)
  }

  /** The editor's state: the open entry (if it loaded) and the sticky future lock. */
  class Editor {
    var entry: Option<Entry>
    var isFuture: bool
    var sent: seq<UpdateRequest>

    constructor()
      ensures entry == None && !isFuture && sent == []
    {
      entry, isFuture, sent := None, false, [];
    }

    /**
     * `fetchData` once `get_diary_entry` has returned `data`: the entry is
     * shown at once, and the future check runs only after
     * `get_diary_sub_pages` returns (`subPagesLoaded`); when that call
     * rejects, the `catch` skips the check. Nothing unlocks an entry.
     */
    method Load(data: Entry, parseDate: string -> Option<Date>, subPagesLoaded: bool)
      modifies this
      ensures entry == Some(data)
      ensures isFuture == LockAfterLoad(old(isFuture), data.entryDate, parseDate, subPagesLoaded)
      ensures sent == old(sent)
    {
      entry := Some(data);
      if subPagesLoaded && IsFutureDate(data.entryDate, parseDate) {
        isFuture := true;
      }
    }

    /** `fetchData` with the future check made before the sub-pages are fetched: every future entry is locked. */
    method LoadChecked(data: Entry, parseDate: string -> Option<Date>, subPagesLoaded: bool)
      modifies this
      ensures entry == Some(data)
      ensures isFuture == LockAfterLoadChecked(old(isFuture), data.entryDate, parseDate)
      ensures IsFutureDate(data.entryDate, parseDate) ==> isFuture
      ensures sent == old(sent)
    {
      entry := Some(data);
      if IsFutureDate(data.entryDate, parseDate) {
        isFuture := true;
      }
    }

    /**
     * `saveEntry`: without an entry, or for a locked one, nothing happens.
     * Otherwise the merged entry is sent; only when the call succeeds does
     * the page show it, with `updated_at` set to the current second.
     */
    method Save(u: Updates, succeeded: bool, nowMillis: int)
      modifies this
      ensures isFuture == old(isFuture)
      ensures (old(entry).None? || old(isFuture)) ==> entry == old(entry) && sent == old(sent)
      ensures old(entry).Some? && !old(isFuture) ==>
                sent == old(sent) + [RequestFor(Merge(old(entry).value, u))] &&
                entry == (if succeeded then Some(Merge(old(entry).value, u).(updatedAt := nowMillis / 1000)) else old(entry))
    {
      if entry.None? || isFuture {
        return;
      }
      var merged := Merge(entry.value, u);
      sent := sent + [RequestFor(merged)];
      if succeeded {
        entry := Some(merged.(updatedAt := nowMillis / 1000));
      }
    }

    /** `handleEditorChange`: counts the words of the new document and saves it with its count. */
    method EditorChanged(json: string, parse: string -> Option<Document>, succeeded: bool, nowMillis: int)
      modifies this
      ensures isFuture == old(isFuture)
      ensures (old(entry).None? || old(isFuture)) ==> entry == old(entry) && sent == old(sent)
      ensures old(entry).Some? && !old(isFuture) ==>
                sent == old(sent) + [RequestFor(Merge(old(entry).value, NoUpdates.(contentJson := Some(json), wordCount := Some(WordCount(json, parse)))))]
      ensures old(entry).Some? && !old(isFuture) && succeeded ==>
                entry == Some(Merge(old(entry).value, NoUpdates.(contentJson := Some(json), wordCount := Some(WordCount(json, parse)))).(updatedAt := nowMillis / 1000))
      ensures old(entry).Some? && !old(isFuture) && succeeded ==>
                entry.Some? && entry.value.contentJson == json && entry.value.wordCount == WordCount(json, parse)
      ensures !succeeded ==> entry == old(entry)
    {
      if entry.None? || isFuture {
        return;
      }
      var words := CountWords(json, parse);
      Save(NoUpdates.(contentJson := Some(json), wordCount := Some(words)), succeeded, nowMillis);
    }
  }
}
