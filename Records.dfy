/**
 * The records the application keeps in its papers file and settings
 * file: papers with their excerpt and spaced-repetition state, and the
 * user settings. A JavaScript `null` or missing key is `None`.
 */
module Records {
  import opened Wrappers
  import opened Dates

  datatype Status = Inbox | Reading | Completed

  /** A free-text excerpt field: the user's draft, the AI proposal and the adopted text. */
  datatype TextField = TextField(userInput: string, aiSuggestion: string, final: string)

  /** A tag-list excerpt field with the same three parts. */
  datatype ListField = ListField(userInput: seq<string>, aiSuggestion: seq<string>, final: seq<string>)

  datatype Excerpt = Excerpt(
    mainClaims: TextField,
    topics: ListField,
    keyConcepts: Option<ListField>,
    studyType: string,
    citability: int,
    relevantProjects: seq<string>,
    expiryYears: int,
    methodologySample: string,
    criticalNotes: TextField,
    completedDate: Option<Date>,
    timeSpentMinutes: int)

  /** A partial excerpt object: the keys it carries, each with its new value. */
  datatype ExcerptPatch = ExcerptPatch(
    mainClaims: Option<TextField>,
    topics: Option<ListField>,
    keyConcepts: Option<Option<ListField>>,
    studyType: Option<string>,
    citability: Option<int>,
    relevantProjects: Option<seq<string>>,
    expiryYears: Option<int>,
    methodologySample: Option<string>,
    criticalNotes: Option<TextField>,
    completedDate: Option<Option<Date>>,
    timeSpentMinutes: Option<int>)

  const EmptyExcerptPatch := ExcerptPatch(None, None, None, None, None, None, None, None, None, None, None)

  datatype HistoryEntry = HistoryEntry(date: Date, recalledCorrectly: bool)

  /** The `spaced_repetition` record of a completed paper. */
  datatype ReviewState = ReviewState(
    nextReviewDate: Option<Date>,
    currentIntervalWeeks: int,
    fibonacciIndex: int,
    reviewHistory: seq<HistoryEntry>,
    expired: bool)

  datatype Paper = Paper(
    id: string,
    doi: string,
    title: string,
    addedDate: Date,
    status: Status,
    pdfPath: Option<string>,
    excerpt: Option<Excerpt>,
    spacedRepetition: Option<ReviewState>)

  /** The `updates` object of `updatePaper`: the keys it carries, each with its new value. */
  datatype PaperPatch = PaperPatch(
    status: Option<Status>,
    pdfPath: Option<Option<string>>,
    excerpt: Option<Option<Excerpt>>,
    spacedRepetition: Option<Option<ReviewState>>)

  const EmptyPaperPatch := PaperPatch(None, None, None, None)

  datatype Settings = Settings(
    apiKey: string,
    apiProvider: string,
    sessionDurationMinutes: int,
    projects: seq<string>,
    expiryOptions: seq<int>)

  /** A partial settings object: the keys it carries. */
  datatype SettingsPatch = SettingsPatch(
    apiKey: Option<string>,
    apiProvider: Option<string>,
    sessionDurationMinutes: Option<int>,
    projects: Option<seq<string>>,
    expiryOptions: Option<seq<int>>)

  const EmptySettingsPatch := SettingsPatch(None, None, None, None, None)

  /** No two papers share an id (ids are fresh UUIDs). */
  predicate UniqueIds(papers: seq<Paper>) {
    forall i, j :: 0 <= i < j < |papers| ==> papers[i].id != papers[j].id
  }
}
