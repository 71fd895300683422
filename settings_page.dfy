/**
 * The project's settings page: one `user_settings` row, shown with its
 * default tags joined by ", " and saved with the tags split again, as an
 * update when the row has an id and as an insert otherwise.
 */
module SettingsPage {
  import opened Base
  import opened Text
  import opened CommaLists

  /** Every setting other than the id and the tags; they travel unchanged both ways. */
  datatype Fields = Fields(
    workspaceId: string,
    tenantId: string,
    accessScope: string,
    readPermissionLevel: string,
    writePermissionLevel: string,
    deletePermissionLevel: string,
    sharePermissionLevel: string,
    inheritPermissions: int,
    permissionNotes: string,
    reviewCycleType: string,
    reviewCycleInterval: string,
    lifecycleExpectedNextState: string,
    defaultVisibility: string)

  /** The form: the id is absent until a row has been loaded; the tags are one text field. */
  datatype Settings = Settings(settingsId: Option<string>, fields: Fields, defaultTags: string)

  /** A stored row, and the data a save sends. */
  datatype Row = Row(settingsId: Option<string>, fields: Fields, defaultTags: seq<string>)

  const DefaultFields := Fields("", "", "personal", "owner", "owner", "owner", "owner", 0, "", "weekly", "7 days", "", "private")

  /** The form before anything is loaded: no id, no tags. */
  const Initial := Settings(None, DefaultFields, "")

  /** `fetchSettings`: the row as the form shows it, tags joined with ", ". */
  function FromRow(row: Row): (r: Settings)
    ensures r.settingsId == row.settingsId && r.fields == row.fields
    ensures r.defaultTags == JoinTags(row.defaultTags)
  {
    Settings(row.settingsId, row.fields, JoinTags(row.defaultTags))
  }

  /** `settingsData`: the form with its tags split on ',' and trimmed; an empty field sends no tags. */
  function ToRow(s: Settings): (r: Row)
    ensures r.settingsId == s.settingsId && r.fields == s.fields
    ensures r.defaultTags == ParseList(s.defaultTags)
  {
    Row(s.settingsId, s.fields, ParseList(s.defaultTags))
  }

  /**
   * Loading a row and saving it unedited sends the row back, provided its
   * tags are trimmed and free of commas and it is not the single empty tag.
   */
  lemma LoadThenSaveRoundTrip(row: Row)
    requires row.defaultTags != [""]
    requires forall k | 0 <= k < |row.defaultTags| :: ',' !in row.defaultTags[k] && IsTrimmed(row.defaultTags[k])
    ensures ToRow(FromRow(row)) == row
  {
    JoinThenParse(row.defaultTags);
  }

  /** A row whose only tag is empty comes back with no tags. */
  lemma SingleEmptyTagIsDropped(row: Row)
    requires row.defaultTags == [""]
    ensures ToRow(FromRow(row)).defaultTags == []
  {
    EmptyTagIsLost();
  }

  /** `if (settings.settings_id)`: an id that is present and not empty selects an update. */
  predicate IsUpdate(s: Settings) {
    s.settingsId.Some? && s.settingsId.value != []
  }

  /** What a save sends. */
  datatype Write = Update(id: string, data: Row) | Insert(data: Row)

  function WriteFor(s: Settings): (r: Write)
    ensures r.data == ToRow(s)
    ensures r.Update? <==> IsUpdate(s)
    ensures r.Update? ==> Some(r.id) == s.settingsId
  {
    if IsUpdate(s) then Update(s.settingsId.value, ToRow(s)) else Insert(ToRow(s))
  }

  /** The message a save leaves, by branch and outcome. */
  function SaveMessage(update: bool, succeeded: bool): string {
    if update then (if succeeded then "Settings saved successfully" else "Error saving settings")
    else (if succeeded then "Settings created successfully" else "Error creating settings")
  }

  /** A string without a capital E cannot contain "Error". */
  lemma NoCapitalE(s: string)
    requires 'E' !in s
    ensures !Contains(s, "Error")
  {
    forall i | 0 <= i <= |s| - 5
      ensures !OccursAt(s, "Error", i)
    {
      assert s[i..i + 5][0] == s[i] != 'E';
    }
    ContainsAt(s, "Error");
  }

  /** The message is shown in red exactly when the save failed. */
  lemma RedExactlyOnFailure(update: bool, succeeded: bool)
    ensures Contains(SaveMessage(update, succeeded), "Error") <==> !succeeded
    ensures SaveMessage(update, succeeded) != []
  {
    var m := SaveMessage(update, succeeded);
    if succeeded {
      NoCapitalE(m);
    } else {
      assert IsPrefix("Error", m);
    }
  }

  /** The page state: the form, the saving flag, the message, and the writes sent so far. */
  class SettingsForm {
    var settings: Settings
    var isSaving: bool
    var saveMessage: string
    var writes: seq<Write>

    constructor()
      ensures settings == Initial && !isSaving && saveMessage == [] && writes == []
    {
      settings, isSaving, saveMessage, writes := Initial, false, [], [];
    }

    /** `fetchSettings`: a row that arrived replaces the form; otherwise it stays. */
    method Load(fetched: Option<Row>)
      modifies this
      ensures settings == (if fetched.Some? then FromRow(fetched.value) else old(settings))
      ensures isSaving == old(isSaving) && saveMessage == old(saveMessage) && writes == old(writes)
    {
      if fetched.Some? {
        settings := FromRow(fetched.value);
      }
    }

    /** `updateField`: the form becomes `s`. */
    method Edit(s: Settings)
      modifies this
      ensures settings == s
      ensures isSaving == old(isSaving) && saveMessage == old(saveMessage) && writes == old(writes)
    {
      settings := s;
    }

    /**
     * `handleSave`: sends the update or the insert, sets the message for
     * the branch and outcome, and clears the saving flag. Only a successful
     * insert reloads the form, from `reloaded` (the row fetched back, if any).
     */
    method Save(succeeded: bool, reloaded: Option<Row>)
      modifies this
      ensures writes == old(writes) + [WriteFor(old(settings))]
      ensures saveMessage == SaveMessage(IsUpdate(old(settings)), succeeded)
      ensures !isSaving
      ensures settings == (if !IsUpdate(old(settings)) && succeeded && reloaded.Some? then FromRow(reloaded.value) else old(settings))
    {
      isSaving := true;
      saveMessage := [];
      var w := WriteFor(settings);
      writes := writes + [w];
      if w.Update? {
        saveMessage := SaveMessage(true, succeeded);
      } else {
        saveMessage := SaveMessage(false, succeeded);
        if succeeded {
          Load(reloaded);
        }
      }
      isSaving := false;
    }

    /** The timer set by a save clears the message. */
    method MessageExpired()
      modifies this
      ensures saveMessage == []
      ensures settings == old(settings) && isSaving == old(isSaving) && writes == old(writes)
    {
      saveMessage := [];
    }
  }
}
