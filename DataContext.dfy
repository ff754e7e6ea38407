/**
 * src/context/DataContext.jsx: the application's store of papers and
 * settings, its spread-merge updates, and the order in which it replaces
 * state before persisting it. Saving and loading go to files the model
 * does not see; their outcome is a parameter.
 */
module DataContext {
  import opened Wrappers
  import opened Records

  const DefaultSettings: Settings := Settings(
    "", "openai", 60,
    ["ExplAIner", "LearningGoalHub", "ExamLens", "Workshopper", "Communication"],
    [1, 5, 10, 999])

  /** How an attempt to write a file ended. */
  datatype SaveOutcome = Saved | SaveFailed(message: string)

  /** What loading both files produced: the papers and the keys of the settings file, or the error. */
  datatype LoadOutcome = Loaded(papers: seq<Paper>, settings: SettingsPatch) | LoadFailed(message: string)

  const SaveErrorPrefix: string := "Fehler beim Speichern: "
  const SettingsErrorPrefix: string := "Fehler beim Speichern der Einstellungen: "
  const LoadErrorPrefix: string := "Fehler beim Laden der Daten: "

  /** `{ ...p, ...updates }`: every key the patch carries wins, every other key is kept. */
  function MergePaper(p: Paper, u: PaperPatch): (r: Paper)
    ensures r.id == p.id && r.doi == p.doi && r.title == p.title && r.addedDate == p.addedDate
    ensures r.status == (if u.status.Some? then u.status.value else p.status)
    ensures r.pdfPath == (if u.pdfPath.Some? then u.pdfPath.value else p.pdfPath)
    ensures r.excerpt == (if u.excerpt.Some? then u.excerpt.value else p.excerpt)
    ensures r.spacedRepetition == (if u.spacedRepetition.Some? then u.spacedRepetition.value else p.spacedRepetition)
  {
    p.(status := u.status.GetOr(p.status),
       pdfPath := u.pdfPath.GetOr(p.pdfPath),
       excerpt := u.excerpt.GetOr(p.excerpt),
       spacedRepetition := u.spacedRepetition.GetOr(p.spacedRepetition))
  }

  /** The patch that applies `a` and then `b`: `{ ...a, ...b }`. */
  function ThenPaperPatch(a: PaperPatch, b: PaperPatch): PaperPatch {
    PaperPatch(
      if b.status.Some? then b.status else a.status,
      if b.pdfPath.Some? then b.pdfPath else a.pdfPath,
      if b.excerpt.Some? then b.excerpt else a.excerpt,
      if b.spacedRepetition.Some? then b.spacedRepetition else a.spacedRepetition)
  }

  /** An empty patch changes nothing. */
  lemma MergePaperEmpty(p: Paper)
    ensures MergePaper(p, EmptyPaperPatch) == p
  {
  }

  /** Two successive merges are one merge with the combined patch. */
  lemma MergePaperThen(p: Paper, a: PaperPatch, b: PaperPatch)
    ensures MergePaper(MergePaper(p, a), b) == MergePaper(p, ThenPaperPatch(a, b))
  {
  }

  /** Merging the same patch twice is merging it once. */
  lemma MergePaperIdempotent(p: Paper, u: PaperPatch)
    ensures MergePaper(MergePaper(p, u), u) == MergePaper(p, u)
  {
  }

  /**
   * `updatePaper`'s list: `papers.map(p => p.id === paperId ? { ...p, ...updates } : p)`.
   */
  function UpdatePaperList(papers: seq<Paper>, paperId: string, u: PaperPatch): (r: seq<Paper>)
    ensures |r| == |papers|
    ensures forall i :: 0 <= i < |r| ==> r[i].id == papers[i].id
    ensures forall i :: 0 <= i < |r| && papers[i].id != paperId ==> r[i] == papers[i]
    ensures forall i :: 0 <= i < |r| && papers[i].id == paperId ==> r[i] == MergePaper(papers[i], u)
  {
    seq(|papers|, i requires 0 <= i < |papers| =>
      if papers[i].id == paperId then MergePaper(papers[i], u) else papers[i])
  }

  /** With unique ids, updating the paper at position `i` replaces that one element. */
  lemma UpdatePaperAt(papers: seq<Paper>, i: nat, u: PaperPatch)
    requires UniqueIds(papers) && i < |papers|
    ensures UpdatePaperList(papers, papers[i].id, u) == papers[i := MergePaper(papers[i], u)]
  {
  }

  /** Updating an id no paper has leaves the list as it is. */
  lemma UpdatePaperAbsent(papers: seq<Paper>, paperId: string, u: PaperPatch)
    requires forall i :: 0 <= i < |papers| ==> papers[i].id != paperId
    ensures UpdatePaperList(papers, paperId, u) == papers
  {
  }

  /** Ids are never changed, so unique ids stay unique. */
  lemma UpdatePaperKeepsUniqueIds(papers: seq<Paper>, paperId: string, u: PaperPatch)
    requires UniqueIds(papers)
    ensures UniqueIds(UpdatePaperList(papers, paperId, u))
  {
  }

  /** Two updates of the same paper are one update with the combined patch. */
  lemma UpdatePaperListThen(papers: seq<Paper>, paperId: string, a: PaperPatch, b: PaperPatch)
    ensures UpdatePaperList(UpdatePaperList(papers, paperId, a), paperId, b)
         == UpdatePaperList(papers, paperId, ThenPaperPatch(a, b))
  {
    var l := UpdatePaperList(UpdatePaperList(papers, paperId, a), paperId, b);
    var r := UpdatePaperList(papers, paperId, ThenPaperPatch(a, b));
    forall i | 0 <= i < |papers|
      ensures l[i] == r[i]
    {
      if papers[i].id == paperId {
        MergePaperThen(papers[i], a, b);
      }
    }
  }

  /** `{ ...settings, ...newSettings }`. */
  function MergeSettings(s: Settings, u: SettingsPatch): (r: Settings)
    ensures u.apiKey.Some? ==> r.apiKey == u.apiKey.value
    ensures u.apiKey.None? ==> r.apiKey == s.apiKey
    ensures u.apiProvider.Some? ==> r.apiProvider == u.apiProvider.value
    ensures u.apiProvider.None? ==> r.apiProvider == s.apiProvider
    ensures u.sessionDurationMinutes.Some? ==> r.sessionDurationMinutes == u.sessionDurationMinutes.value
    ensures u.sessionDurationMinutes.None? ==> r.sessionDurationMinutes == s.sessionDurationMinutes
    ensures u.projects.Some? ==> r.projects == u.projects.value
    ensures u.projects.None? ==> r.projects == s.projects
    ensures u.expiryOptions.Some? ==> r.expiryOptions == u.expiryOptions.value
    ensures u.expiryOptions.None? ==> r.expiryOptions == s.expiryOptions
  {
    Settings(
      u.apiKey.GetOr(s.apiKey),
      u.apiProvider.GetOr(s.apiProvider),
      u.sessionDurationMinutes.GetOr(s.sessionDurationMinutes),
      u.projects.GetOr(s.projects),
      u.expiryOptions.GetOr(s.expiryOptions))
  }

  /** The patch that applies `a` and then `b`. */
  function ThenSettingsPatch(a: SettingsPatch, b: SettingsPatch): SettingsPatch {
    SettingsPatch(
      if b.apiKey.Some? then b.apiKey else a.apiKey,
      if b.apiProvider.Some? then b.apiProvider else a.apiProvider,
      if b.sessionDurationMinutes.Some? then b.sessionDurationMinutes else a.sessionDurationMinutes,
      if b.projects.Some? then b.projects else a.projects,
      if b.expiryOptions.Some? then b.expiryOptions else a.expiryOptions)
  }

  lemma MergeSettingsEmpty(s: Settings)
    ensures MergeSettings(s, EmptySettingsPatch) == s
  {
  }

  /** Two successive settings updates are one update with the combined patch. */
  lemma MergeSettingsThen(s: Settings, a: SettingsPatch, b: SettingsPatch)
    ensures MergeSettings(MergeSettings(s, a), b) == MergeSettings(s, ThenSettingsPatch(a, b))
  {
  }

  /** The settings after loading: the defaults overridden by the keys the file carries. */
  function LoadedSettings(loaded: SettingsPatch): (r: Settings)
    ensures loaded == EmptySettingsPatch ==> r == DefaultSettings
    ensures loaded.apiKey.Some? ==> r.apiKey == loaded.apiKey.value
    ensures loaded.apiKey.None? ==> r.apiKey == ""
    ensures loaded.apiProvider.Some? ==> r.apiProvider == loaded.apiProvider.value
    ensures loaded.apiProvider.None? ==> r.apiProvider == "openai"
    ensures loaded.sessionDurationMinutes.Some? ==> r.sessionDurationMinutes == loaded.sessionDurationMinutes.value
    ensures loaded.sessionDurationMinutes.None? ==> r.sessionDurationMinutes == 60
    ensures loaded.projects.Some? ==> r.projects == loaded.projects.value
    ensures loaded.projects.None? ==>
      r.projects == ["ExplAIner", "LearningGoalHub", "ExamLens", "Workshopper", "Communication"]
    ensures loaded.expiryOptions.Some? ==> r.expiryOptions == loaded.expiryOptions.value
    ensures loaded.expiryOptions.None? ==> r.expiryOptions == [1, 5, 10, 999]
  {
    MergeSettings(DefaultSettings, loaded)
  }

  /** The provider's state: the papers, the settings, the loading flag, the error and the directory handle. */
  class DataStore {
    var papers: seq<Paper>
    var settings: Settings
    var isLoading: bool
    var error: Option<string>
    /** Whether a directory handle is held; without one nothing is persisted. */
    const hasDirectory: bool

    constructor (hasDirectory: bool)
      ensures papers == [] && settings == DefaultSettings && isLoading && error == None
      ensures this.hasDirectory == hasDirectory
    {
      papers := [];
      settings := DefaultSettings;
      isLoading := true;
      error := None;
      this.hasDirectory := hasDirectory;
    }

    /** `initializeData(handle)`: with no handle nothing happens; otherwise load, merge settings over the defaults, and clear the loading flag. */
    method InitializeData(hasHandle: bool, load: LoadOutcome)
      modifies this
      ensures !hasHandle ==>
        papers == old(papers) && settings == old(settings) && isLoading == old(isLoading) && error == old(error)
      ensures hasHandle && load.Loaded? ==>
        papers == load.papers && settings == LoadedSettings(load.settings) && error == None
      ensures hasHandle && load.LoadFailed? ==>
        papers == old(papers) && settings == old(settings) && error == Some(LoadErrorPrefix + load.message)
      ensures hasHandle ==> !isLoading
    {
      if !hasHandle {
        return;
      }
      isLoading := true;
      error := None;
      match load {
        case Loaded(ps, loaded) =>
          papers := ps;
          settings := LoadedSettings(loaded);
        case LoadFailed(message) =>
          error := Some(LoadErrorPrefix + message);
      }
      isLoading := false;
    }

    /**
     * `updatePapers(newPapers)`: the list is replaced first; a failed save
     * keeps the new list and only records the error.
     */
    method UpdatePapers(newPapers: seq<Paper>, save: SaveOutcome)
      modifies this
      ensures papers == newPapers
      ensures settings == old(settings) && isLoading == old(isLoading)
      ensures error == (if hasDirectory && save.SaveFailed? then Some(SaveErrorPrefix + save.message) else old(error))
    {
      papers := newPapers;
      if hasDirectory {
        match save {
          case Saved =>
          case SaveFailed(message) =>
            error := Some(SaveErrorPrefix + message);
        }
      }
    }

    /** `updateSettings(newSettings)`: merge, replace, then persist the merged settings. */
    method UpdateSettings(u: SettingsPatch, save: SaveOutcome)
      modifies this
      ensures settings == MergeSettings(old(settings), u)
      ensures papers == old(papers) && isLoading == old(isLoading)
      ensures error == (if hasDirectory && save.SaveFailed? then Some(SettingsErrorPrefix + save.message) else old(error))
    {
      settings := MergeSettings(settings, u);
      if hasDirectory {
        match save {
          case Saved =>
          case SaveFailed(message) =>
            error := Some(SettingsErrorPrefix + message);
        }
      }
    }

    /** `addPaper(paper)`: appended after every existing paper. */
    method AddPaper(p: Paper, save: SaveOutcome)
      modifies this
      ensures papers == old(papers) + [p]
      ensures settings == old(settings) && isLoading == old(isLoading)
      ensures error == (if hasDirectory && save.SaveFailed? then Some(SaveErrorPrefix + save.message) else old(error))
    {
      UpdatePapers(papers + [p], save);
    }

    /** `updatePaper(paperId, updates)`. */
    method UpdatePaper(paperId: string, u: PaperPatch, save: SaveOutcome)
      modifies this
      ensures papers == UpdatePaperList(old(papers), paperId, u)
      ensures settings == old(settings) && isLoading == old(isLoading)
      ensures error == (if hasDirectory && save.SaveFailed? then Some(SaveErrorPrefix + save.message) else old(error))
    {
      UpdatePapers(UpdatePaperList(papers, paperId, u), save);
    }

    method ClearError()
      modifies this
      ensures error == None
      ensures papers == old(papers) && settings == old(settings) && isLoading == old(isLoading)
    {
      error := None;
    }
  }
}
