/**
 * src/pages/Settings.jsx: the settings form, its project list editor,
 * saving the form into the store, and importing a backup file.
 */
module Settings {
  import opened Wrappers
  import opened Strings
  import opened Lists
  import opened Records
  import opened DataContext

  /** `x || fallback` on a string. */
  function OrString(x: string, fallback: string): string {
    if x == "" then fallback else x
  }

  /** `x || fallback` on a number: zero is falsy. */
  function OrNumber(x: int, fallback: int): int {
    if x == 0 then fallback else x
  }

  /** The session input: `parseInt(value) || 60`; `None` is a value that does not parse. */
  function SessionInput(parsed: Option<int>): (minutes: int)
    ensures minutes != 0
    ensures parsed.Some? && parsed.value != 0 ==> minutes == parsed.value
    ensures parsed.None? || parsed == Some(0) ==> minutes == 60
  {
    if parsed.None? then 60 else OrNumber(parsed.value, 60)
  }

  /**
   * `addProject`: the trimmed name is appended when it is not blank and
   * not listed yet; `None` when nothing changes.
   */
  function AddProject(projects: seq<string>, name: string): (r: Option<seq<string>>)
    ensures r.Some? <==> !IsBlank(name) && Trim(name) !in projects
    ensures r.Some? ==> r.value == projects + [Trim(name)]
    ensures r.Some? && NoDups(projects) ==> NoDups(r.value)
  {
    TrimEmptyIffBlank(name);
    if Trim(name) != "" && Trim(name) !in projects then
      var r := projects + [Trim(name)];
      assert forall i :: 0 <= i < |projects| ==> r[i] == projects[i];
      Some(r)
    else None
  }

  /** A name that differs from a listed one only by white space at its ends is not added again. */
  lemma AddProjectIgnoresPadding(projects: seq<string>, name: string, ws: string)
    requires IsBlank(ws)
    requires AddProject(projects, name).Some?
    ensures AddProject(AddProject(projects, name).value, ws + name).None?
  {
    TrimSkipsLeadingSpace(ws, name);
  }

  /** `removeProject`: every copy of the name removed, the rest kept in order. */
  function RemoveProject(projects: seq<string>, name: string): (r: seq<string>)
    ensures name !in r && |r| <= |projects|
    ensures forall i :: 0 <= i < |projects| && projects[i] != name ==> projects[i] in r
    ensures NoDups(projects) ==> NoDups(r)
  {
    if NoDups(projects) then
      RemoveAllNoDups(projects, name);
      RemoveAll(projects, name)
    else
      RemoveAll(projects, name)
  }

  /** Removing a project just added restores the list. */
  lemma AddThenRemoveProject(projects: seq<string>, name: string)
    requires AddProject(projects, name).Some?
    ensures RemoveProject(AddProject(projects, name).value, Trim(name)) == projects
  {
    RemoveAllConcat(projects, [Trim(name)], Trim(name));
    RemoveAbsent(projects, Trim(name));
    assert RemoveAll([Trim(name)], Trim(name)) == [];
  }

  /** The four keys the form saves; everything else, `expiry_options` included, is left to the merge. */
  function FormPatch(apiKey: string, apiProvider: string, sessionDuration: int, projects: seq<string>): SettingsPatch {
    SettingsPatch(Some(apiKey), Some(apiProvider), Some(sessionDuration), Some(projects), None)
  }

  /** Saving the form keeps the expiry options and sets exactly the four form values. */
  lemma SaveKeepsExpiryOptions(s: Settings, apiKey: string, apiProvider: string, sessionDuration: int, projects: seq<string>)
    ensures MergeSettings(s, FormPatch(apiKey, apiProvider, sessionDuration, projects))
         == Settings(apiKey, apiProvider, sessionDuration, projects, s.expiryOptions)
  {
  }

  /** A parsed backup file: `papers` when it is an array, `settings` when present. */
  datatype Backup = Backup(papers: Option<seq<Paper>>, settings: Option<SettingsPatch>)

  /** The settings page's form state. */
  class SettingsForm {
    const store: DataStore
    var apiKey: string
    var apiProvider: string
    var sessionDuration: int
    var projects: seq<string>
    var newProject: string
    var saved: bool

    /** The form opens on the stored settings, with `'openai'` and 60 standing in for empty values. */
    constructor (store: DataStore)
      ensures this.store == store
      ensures apiKey == store.settings.apiKey
      ensures apiProvider == OrString(store.settings.apiProvider, "openai")
      ensures sessionDuration == OrNumber(store.settings.sessionDurationMinutes, 60)
      ensures projects == store.settings.projects
      ensures newProject == "" && !saved
    {
      this.store := store;
      apiKey := store.settings.apiKey;
      apiProvider := OrString(store.settings.apiProvider, "openai");
      sessionDuration := OrNumber(store.settings.sessionDurationMinutes, 60);
      projects := store.settings.projects;
      newProject := "";
      saved := false;
    }

    method TypeProject(text: string)
      modifies this
      ensures newProject == text
      ensures projects == old(projects) && apiKey == old(apiKey) && apiProvider == old(apiProvider)
      ensures sessionDuration == old(sessionDuration) && saved == old(saved)
    {
      newProject := text;
    }

    method SetSessionDuration(parsed: Option<int>)
      modifies this
      ensures sessionDuration == SessionInput(parsed)
      ensures projects == old(projects) && apiKey == old(apiKey) && apiProvider == old(apiProvider)
      ensures newProject == old(newProject) && saved == old(saved)
    {
      sessionDuration := SessionInput(parsed);
    }

    /** `addProject()`: on success the list grows and the input is cleared; otherwise nothing changes. */
    method AddProjectClicked()
      modifies this
      ensures AddProject(old(projects), old(newProject)).Some? ==>
        projects == AddProject(old(projects), old(newProject)).value && newProject == ""
      ensures AddProject(old(projects), old(newProject)).None? ==>
        projects == old(projects) && newProject == old(newProject)
      ensures apiKey == old(apiKey) && apiProvider == old(apiProvider)
      ensures sessionDuration == old(sessionDuration) && saved == old(saved)
    {
      var added := AddProject(projects, newProject);
      if added.Some? {
        projects := added.value;
        newProject := "";
      }
    }

    method RemoveProjectClicked(name: string)
      modifies this
      ensures projects == RemoveProject(old(projects), name)
      ensures newProject == old(newProject) && apiKey == old(apiKey) && apiProvider == old(apiProvider)
      ensures sessionDuration == old(sessionDuration) && saved == old(saved)
    {
      projects := RemoveProject(projects, name);
    }

    /** `handleSave()`: the four form values go into the stored settings. */
    method HandleSave(save: SaveOutcome)
      modifies this, store
      ensures store.settings == Settings(old(apiKey), old(apiProvider), old(sessionDuration), old(projects),
                                         old(store.settings.expiryOptions))
      ensures store.papers == old(store.papers) && store.isLoading == old(store.isLoading)
      ensures store.error == (if store.hasDirectory && save.SaveFailed? then Some(SettingsErrorPrefix + save.message) else old(store.error))
      ensures saved
      ensures apiKey == old(apiKey) && apiProvider == old(apiProvider) && sessionDuration == old(sessionDuration)
      ensures projects == old(projects) && newProject == old(newProject)
    {
      store.UpdateSettings(FormPatch(apiKey, apiProvider, sessionDuration, projects), save);
      saved := true;
    }

    /**
     * `handleImport`: papers are replaced only by an array, settings are
     * merged only when present, and the form then shows the imported
     * values with their fallbacks. `None` is a file that could not be read
     * or parsed: nothing changes.
     */
    method HandleImport(data: Option<Backup>, papersSave: SaveOutcome, settingsSave: SaveOutcome)
      modifies this, store
      ensures data.None? || data.value.papers.None? ==> store.papers == old(store.papers)
      ensures data.Some? && data.value.papers.Some? ==> store.papers == data.value.papers.value
      ensures data.None? || data.value.settings.None? ==>
        && store.settings == old(store.settings)
        && apiKey == old(apiKey) && apiProvider == old(apiProvider)
        && sessionDuration == old(sessionDuration) && projects == old(projects)
      ensures data.Some? && data.value.settings.Some? ==>
        var u := data.value.settings.value;
        && store.settings == MergeSettings(old(store.settings), u)
        && apiKey == u.apiKey.GetOr("")
        && apiProvider == OrString(u.apiProvider.GetOr(""), "openai")
        && sessionDuration == OrNumber(u.sessionDurationMinutes.GetOr(0), 60)
        && projects == u.projects.GetOr([])
      ensures newProject == old(newProject) && saved == old(saved)
      ensures store.isLoading == old(store.isLoading)
      ensures store.error ==
        if data.Some? && data.value.settings.Some? && store.hasDirectory && settingsSave.SaveFailed?
        then Some(SettingsErrorPrefix + settingsSave.message)
        else if data.Some? && data.value.papers.Some? && store.hasDirectory && papersSave.SaveFailed?
        then Some(SaveErrorPrefix + papersSave.message)
        else old(store.error)
    {
      if data.None? {
        return;
      }
      if data.value.papers.Some? {
        store.UpdatePapers(data.value.papers.value, papersSave);
      }
      if data.value.settings.Some? {
        var u := data.value.settings.value;
        store.UpdateSettings(u, settingsSave);
        apiKey := u.apiKey.GetOr("");
        apiProvider := OrString(u.apiProvider.GetOr(""), "openai");
        sessionDuration := OrNumber(u.sessionDurationMinutes.GetOr(0), 60);
        projects := u.projects.GetOr([]);
      }
    }
  }
}
