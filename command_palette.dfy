/**
 * The command palette: a fixed registry of pages, a case-insensitive
 * substring filter over titles and keywords, and the keyboard state machine
 * that moves the selection, navigates and closes.
 */
module CommandPalette {
  import opened Text
  import opened Stats

  datatype CommandItem = CommandItem(id: string, title: string, url: string, keywords: seq<string>)

  /** The six pages the palette offers, in display order. */
  const Registry: seq<CommandItem> := [
    CommandItem("dashboard", "Dashboard", "/", ["dashboard", "home", "analytics", "overview"]),
    CommandItem("diary", "Diary", "/diary", ["diary", "journal", "entries", "writing"]),
    CommandItem("goals", "Goals", "/goals", ["goals", "targets", "objectives", "tasks"]),
    CommandItem("habits", "Habits", "/habits", ["habits", "routine", "tracking", "consistency"]),
    CommandItem("jobs", "Jobs", "/jobs", ["jobs", "applications", "career", "interviews"]),
    CommandItem("settings", "Settings", "/settings", ["settings", "preferences", "config", "profile"])
  ]

  /** Some keyword or the title contains the query, both lower-cased. */
  predicate Matches(cmd: CommandItem, query: string) {
    (exists k | 0 <= k < |cmd.keywords| :: Contains(ToLower(cmd.keywords[k]), ToLower(query)))
    || Contains(ToLower(cmd.title), ToLower(query))
  }

  /** `filteredCommands`. */
  function FilterCommands(items: seq<CommandItem>, query: string): (r: seq<CommandItem>)
    ensures forall c :: c in r <==> c in items && Matches(c, query)
    ensures IsSubsequence(r, items)
  {
    FilterIsSubsequence(items, c => Matches(c, query));
    Filter(items, c => Matches(c, query))
  }

  /** An empty query matches every item, so the whole registry is listed. */
  lemma EmptyQueryListsAll(items: seq<CommandItem>)
    ensures FilterCommands(items, "") == items
  {
    forall k | 0 <= k < |items|
      ensures Matches(items[k], "")
    {
      ContainsEmpty(ToLower(items[k].title));
    }
    FilterAll(items, c => Matches(c, ""));
  }

  /** A query that is a command's own title, in any case, lists that command. */
  lemma TitleFindsItsCommand(items: seq<CommandItem>, k: int)
    requires 0 <= k < |items|
    ensures items[k] in FilterCommands(items, items[k].title)
  {
    ContainsSelf(ToLower(items[k].title));
  }

  /** ArrowDown: one further down, wrapping from the last item (or from nowhere) to the first. */
  function NextIndex(prev: int, n: nat): int {
    if prev < n - 1 then prev + 1 else 0
  }

  /** ArrowUp: one further up, wrapping from the first item to the last; -1 when nothing is listed. */
  function PrevIndex(prev: int, n: nat): int {
    if prev > 0 then prev - 1 else n - 1
  }

  /** With items listed and a valid selection, the arrow keys keep the selection valid and wrap around. */
  lemma ArrowsStayInRange(i: int, n: nat)
    requires 0 <= i < n
    ensures 0 <= NextIndex(i, n) < n && 0 <= PrevIndex(i, n) < n
    ensures NextIndex(n - 1, n) == 0 && PrevIndex(0, n) == n - 1
    ensures PrevIndex(NextIndex(i, n), n) == i && NextIndex(PrevIndex(i, n), n) == i
  {
    if i == n - 1 {
      assert NextIndex(i, n) == 0;
    } else {
      assert NextIndex(i, n) == i + 1;
    }
    if i == 0 {
      assert PrevIndex(i, n) == n - 1;
    } else {
      assert PrevIndex(i, n) == i - 1;
    }
  }

  /** With nothing listed, ArrowUp selects -1 and ArrowDown selects 0. */
  lemma ArrowsOnEmptyList(i: int)
    requires i >= -1
    ensures PrevIndex(i, 0) == (if i > 0 then i - 1 else -1)
    ensures NextIndex(i, 0) == 0
  {
  }

  /** A key press, with whether Ctrl or Meta was held. */
  datatype KeyEvent = KeyEvent(key: string, metaOrCtrl: bool)

  /**
   * The palette's state. `commands` holds the registry it lists from and
   * `visited` records the pages the router was sent to.
   */
  class Palette {
    const commands: seq<CommandItem>
    var open: bool
    var search: string
    var selectedIndex: int
    var visited: seq<string>

    constructor()
      ensures commands == Registry
      ensures !open && search == "" && selectedIndex == 0 && visited == []
    {
      commands := Registry;
      open, search, selectedIndex, visited := false, "", 0, [];
    }

    /** The items listed for the current search text. */
    function Listed(): seq<CommandItem>
      reads this
    {
      FilterCommands(commands, search)
    }

    /** Enter has an item to go to. */
    predicate HasSelection()
      reads this
    {
      0 <= selectedIndex < |Listed()|
    }

    /**
     * `handleKeyDown`. Ctrl/Meta+K toggles `open`. The other keys act only
     * when the palette was open when the key arrived: the arrows move the
     * selection, Enter navigates to the selected item and closes (doing
     * nothing without a selection), Escape closes; closing clears the search
     * and selects the first item.
     */
    method KeyDown(e: KeyEvent)
      modifies this
      ensures open == (if e.metaOrCtrl && e.key == "k" then !old(open)
                       else if old(open) && (e.key == "Escape" || (e.key == "Enter" && old(HasSelection()))) then false
                       else old(open))
      ensures old(open) && e.key == "ArrowDown" ==>
                selectedIndex == NextIndex(old(selectedIndex), |old(Listed())|) && search == old(search) && visited == old(visited)
      ensures old(open) && e.key == "ArrowUp" ==>
                selectedIndex == PrevIndex(old(selectedIndex), |old(Listed())|) && search == old(search) && visited == old(visited)
      ensures old(open) && e.key == "Enter" && old(HasSelection()) ==>
                visited == old(visited) + [old(Listed())[old(selectedIndex)].url] && search == "" && selectedIndex == 0
      ensures old(open) && e.key == "Escape" ==> search == "" && selectedIndex == 0 && visited == old(visited)
      ensures (!old(open) || (e.key != "ArrowDown" && e.key != "ArrowUp" && (e.key != "Enter" || !old(HasSelection())) && e.key != "Escape")) ==>
                search == old(search) && selectedIndex == old(selectedIndex) && visited == old(visited)
    {
      var wasOpen := open;
      var listed := Listed();
      if e.metaOrCtrl && e.key == "k" {
        open := !open;
      }
      if wasOpen {
        if e.key == "ArrowDown" {
          selectedIndex := if selectedIndex < |listed| - 1 then selectedIndex + 1 else 0;
        } else if e.key == "ArrowUp" {
          selectedIndex := if selectedIndex > 0 then selectedIndex - 1 else |listed| - 1;
        } else if e.key == "Enter" {
          if 0 <= selectedIndex < |listed| {
            visited := visited + [listed[selectedIndex].url];
            open := false;
            search := "";
            selectedIndex := 0;
          }
        } else if e.key == "Escape" {
          open := false;
          search := "";
          selectedIndex := 0;
        }
      }
    }

    /** Typing in the search box replaces the text and selects the first item. */
    method SearchChanged(text: string)
      modifies this
      ensures search == text && selectedIndex == 0
      ensures open == old(open) && visited == old(visited)
    {
      search := text;
      selectedIndex := 0;
    }

    /** `handleSelect`: clicking an item navigates to it, closes, clears the search and selects the first item. */
    method Select(url: string)
      modifies this
      ensures visited == old(visited) + [url]
      ensures !open && search == "" && selectedIndex == 0
    {
      visited := visited + [url];
      open := false;
      search := "";
      selectedIndex := 0;
    }
  }
}
