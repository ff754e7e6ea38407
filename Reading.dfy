/**
 * src/pages/Reading.jsx: which paper the reading page opens, the blank
 * excerpt it starts from, the merge of excerpt edits, the checks and the
 * records written when a paper is completed, and the PDF file name.
 */
module Reading {
  import opened Wrappers
  import opened Dates
  import opened Records
  import opened Lists
  import opened DataContext
  import Review

  function HasId(id: string): Paper -> bool {
    (p: Paper) => p.id == id
  }

  function HasStatus(s: Status): Paper -> bool {
    (p: Paper) => p.status == s
  }

  /**
   * The paper the page opens: the one with the route's id when there is
   * one; otherwise the first paper being read, else the first in the inbox.
   */
  /** `p` is the first of the papers that `keep` accepts. */
  predicate IsFirst(papers: seq<Paper>, p: Paper, keep: Paper -> bool) {
    exists i :: 0 <= i < |papers| && papers[i] == p && keep(p) && forall j :: 0 <= j < i ==> !keep(papers[j])
  }

  function SelectPaper(papers: seq<Paper>, paperId: Option<string>): (r: Option<Paper>)
    ensures paperId.Some? ==>
      && (r.None? <==> forall i :: 0 <= i < |papers| ==> papers[i].id != paperId.value)
      && (r.Some? ==> IsFirst(papers, r.value, HasId(paperId.value)))
    ensures paperId.None? && (exists i :: 0 <= i < |papers| && papers[i].status == Reading) ==>
      r.Some? && IsFirst(papers, r.value, HasStatus(Reading))
    ensures paperId.None? && (forall i :: 0 <= i < |papers| ==> papers[i].status != Reading) ==>
      && (r.None? <==> forall i :: 0 <= i < |papers| ==> papers[i].status != Inbox)
      && (r.Some? ==> IsFirst(papers, r.value, HasStatus(Inbox)))
  {
    match paperId
    case Some(id) =>
      (match FindFirst(papers, HasId(id))
       case None => None
       case Some(i) => Some(papers[i]))
    case None =>
      match FindFirst(papers, HasStatus(Reading))
      case Some(i) => Some(papers[i])
      case None =>
        match FindFirst(papers, HasStatus(Inbox))
        case None => None
        case Some(i) => Some(papers[i])
  }

  /** No text, no tags, no projects, no method description. */
  predicate IsBlankExcerpt(e: Excerpt) {
    && e.mainClaims == TextField("", "", "")
    && e.criticalNotes == TextField("", "", "")
    && e.topics == ListField([], [], [])
    && e.studyType == "" && e.methodologySample == ""
    && e.relevantProjects == []
  }

  /** `createEmptyExcerpt()`: note that it carries no `key_concepts`. */
  function CreateEmptyExcerpt(): (e: Excerpt)
    ensures IsBlankExcerpt(e)
    ensures e.citability == 5 && e.expiryYears == 5
    ensures e.keyConcepts.None? && e.completedDate.None? && e.timeSpentMinutes == 0
  {
    Excerpt(TextField("", "", ""), ListField([], [], []), None, "", 5, [], 5, "",
            TextField("", "", ""), None, 0)
  }

  /** `{ ...prev, ...updates }`: keys in the patch win, every other key is kept. */
  function MergeExcerpt(e: Excerpt, u: ExcerptPatch): (r: Excerpt)
    ensures u.mainClaims.Some? ==> r.mainClaims == u.mainClaims.value
    ensures u.mainClaims.None? ==> r.mainClaims == e.mainClaims
    ensures u.topics.Some? ==> r.topics == u.topics.value
    ensures u.topics.None? ==> r.topics == e.topics
    ensures u.keyConcepts.Some? ==> r.keyConcepts == u.keyConcepts.value
    ensures u.keyConcepts.None? ==> r.keyConcepts == e.keyConcepts
    ensures u.criticalNotes.Some? ==> r.criticalNotes == u.criticalNotes.value
    ensures u.criticalNotes.None? ==> r.criticalNotes == e.criticalNotes
    ensures u.relevantProjects.Some? ==> r.relevantProjects == u.relevantProjects.value
    ensures u.relevantProjects.None? ==> r.relevantProjects == e.relevantProjects
    ensures u.citability.Some? ==> r.citability == u.citability.value
    ensures u.citability.None? ==> r.citability == e.citability
    ensures u.studyType.Some? ==> r.studyType == u.studyType.value
    ensures u.studyType.None? ==> r.studyType == e.studyType
    ensures u.expiryYears.Some? ==> r.expiryYears == u.expiryYears.value
    ensures u.expiryYears.None? ==> r.expiryYears == e.expiryYears
    ensures u.methodologySample.Some? ==> r.methodologySample == u.methodologySample.value
    ensures u.methodologySample.None? ==> r.methodologySample == e.methodologySample
    ensures u.completedDate.Some? ==> r.completedDate == u.completedDate.value
    ensures u.completedDate.None? ==> r.completedDate == e.completedDate
    ensures u.timeSpentMinutes.Some? ==> r.timeSpentMinutes == u.timeSpentMinutes.value
    ensures u.timeSpentMinutes.None? ==> r.timeSpentMinutes == e.timeSpentMinutes
  {
    Excerpt(
      u.mainClaims.GetOr(e.mainClaims),
      u.topics.GetOr(e.topics),
      u.keyConcepts.GetOr(e.keyConcepts),
      u.studyType.GetOr(e.studyType),
      u.citability.GetOr(e.citability),
      u.relevantProjects.GetOr(e.relevantProjects),
      u.expiryYears.GetOr(e.expiryYears),
      u.methodologySample.GetOr(e.methodologySample),
      u.criticalNotes.GetOr(e.criticalNotes),
      u.completedDate.GetOr(e.completedDate),
      u.timeSpentMinutes.GetOr(e.timeSpentMinutes))
  }

  lemma MergeExcerptEmpty(e: Excerpt)
    ensures MergeExcerpt(e, EmptyExcerptPatch) == e
  {
  }

  /** Merging the same patch twice is merging it once. */
  lemma MergeExcerptIdempotent(e: Excerpt, u: ExcerptPatch)
    ensures MergeExcerpt(MergeExcerpt(e, u), u) == MergeExcerpt(e, u)
  {
  }

  const ClaimsMessage: string := "Bitte Hauptaussagen ausfüllen (mind. 50 Zeichen)"
  const TopicsMessage: string := "Bitte mindestens 2 Themen angeben"

  /**
   * The completion checks, in their order: main claims of at least 50
   * characters first, then at least two final topics.
   */
  function ValidateCompletion(e: Excerpt): (r: Option<string>)
    ensures r.None? <==> |e.mainClaims.final| >= 50 && |e.topics.final| >= 2
    ensures |e.mainClaims.final| < 50 ==> r == Some(ClaimsMessage)
    ensures |e.mainClaims.final| >= 50 && |e.topics.final| < 2 ==> r == Some(TopicsMessage)
  {
    if e.mainClaims.final == "" || |e.mainClaims.final| < 50 then Some(ClaimsMessage)
    else if |e.topics.final| < 2 then Some(TopicsMessage)
    else None
  }

  /** A freshly started excerpt cannot be completed; the claims message comes first. */
  lemma EmptyExcerptCannotComplete()
    ensures ValidateCompletion(CreateEmptyExcerpt()) == Some(ClaimsMessage)
  {
  }

  /** `Math.round(seconds / 60)`: the nearest whole minute, halves rounded up. */
  function TimeSpentMinutes(seconds: nat): (m: nat)
    ensures 60 * m - 30 <= seconds < 60 * m + 30
  {
    (seconds + 30) / 60
  }

  /** Rounding never moves by more than half a minute, so the result is the unique nearest minute. */
  lemma TimeSpentMinutesUnique(seconds: nat, m: nat)
    requires 60 * m - 30 <= seconds < 60 * m + 30
    ensures TimeSpentMinutes(seconds) == m
  {
  }

  /** The characters the PDF name must not contain: `/`, `\` and `:`. */
  predicate IsPathChar(c: char) {
    c == '/' || c == '\\' || c == ':'
  }

  /** `doi.replace(/[/\\:]/g, '-')`. */
  function Sanitize(doi: string): (r: string)
    ensures |r| == |doi|
    ensures forall i :: 0 <= i < |r| ==> !IsPathChar(r[i])
    ensures forall i :: 0 <= i < |r| && !IsPathChar(doi[i]) ==> r[i] == doi[i]
    ensures forall i :: 0 <= i < |r| && IsPathChar(doi[i]) ==> r[i] == '-'
  {
    seq(|doi|, i requires 0 <= i < |doi| => if IsPathChar(doi[i]) then '-' else doi[i])
  }

  /** Sanitising twice is sanitising once. */
  lemma SanitizeIdempotent(doi: string)
    ensures Sanitize(Sanitize(doi)) == Sanitize(doi)
  {
  }

  /** The name the PDF is saved under. */
  function PdfFileName(doi: string): (name: string)
    ensures |name| == |doi| + 4
    ensures name[..|doi|] == Sanitize(doi) && name[|doi|..] == ".pdf"
    ensures forall i :: 0 <= i < |name| ==> !IsPathChar(name[i])
  {
    Sanitize(doi) + ".pdf"
  }

  /** Two DOIs share a file name exactly when they differ only where both hold a path character or `-`. */
  lemma PdfFileNameCollision(a: string, b: string)
    ensures PdfFileName(a) == PdfFileName(b) <==>
      |a| == |b| && forall i :: 0 <= i < |a| ==> a[i] == b[i] || (Blurred(a[i]) && Blurred(b[i]))
  {
    if PdfFileName(a) == PdfFileName(b) {
      assert |a| == |b|;
      forall i | 0 <= i < |a|
        ensures a[i] == b[i] || (Blurred(a[i]) && Blurred(b[i]))
      {
        assert Sanitize(a)[i] == PdfFileName(a)[i] == PdfFileName(b)[i] == Sanitize(b)[i];
      }
    }
    if |a| == |b| && forall i :: 0 <= i < |a| ==> a[i] == b[i] || (Blurred(a[i]) && Blurred(b[i])) {
      assert Sanitize(a) == Sanitize(b);
    }
  }

  /** The characters the sanitised name writes as `-`: the path characters and `-` itself. */
  predicate Blurred(c: char) {
    IsPathChar(c) || c == '-'
  }

  /** `savePdf` writes into the `pdfs` directory and returns the relative path. */
  function PdfPath(doi: string): (path: string)
    ensures |path| == |doi| + 9 && path[..5] == "pdfs/" && path[5..] == PdfFileName(doi)
  {
    "pdfs/" + PdfFileName(doi)
  }

  /** The review state a completed paper starts with. */
  function SeedReviewState(now: Instant): (sr: ReviewState)
    requires ValidInstant(now)
    ensures sr.nextReviewDate.Some? && Valid(sr.nextReviewDate.value)
    ensures Ordinal(sr.nextReviewDate.value) == Ordinal(now.date) + 7
    ensures sr.currentIntervalWeeks == 1 && sr.fibonacciIndex == 0
    ensures sr.reviewHistory == [] && !sr.expired
  {
    AddWeeksOrdinal(now, 1);
    ReviewState(Some(AddWeeks(now, 1).date), 1, 0, [], false)
  }

  /** The excerpt as completed: today's date and the rounded minutes, everything else kept. */
  function CompleteExcerpt(e: Excerpt, today: Date, seconds: nat): Excerpt {
    e.(completedDate := Some(today), timeSpentMinutes := TimeSpentMinutes(seconds))
  }

  /** The patch a successful completion writes. */
  function CompletionPatch(e: Excerpt, now: Instant, seconds: nat): (u: PaperPatch)
    requires ValidInstant(now)
    ensures forall p :: MergePaper(p, u) == p.(status := Completed, excerpt := Some(CompleteExcerpt(e, now.date, seconds)),
                                               spacedRepetition := Some(SeedReviewState(now)))
  {
    PaperPatch(Some(Completed), None, Some(Some(CompleteExcerpt(e, now.date, seconds))), Some(Some(SeedReviewState(now))))
  }

  /**
   * A completed paper leaves the review queue for exactly a week: it is due
   * on a day `d` precisely when `d` is at least seven days after completion.
   */
  lemma CompletedPaperDueInAWeek(p: Paper, e: Excerpt, now: Instant, seconds: nat, d: Date)
    requires ValidInstant(now) && Valid(d)
    ensures Review.IsDueForReview(MergePaper(p, CompletionPatch(e, now, seconds)), d)
      <==> Ordinal(d) >= Ordinal(now.date) + 7
  {
  }

  /** How writing the PDF file ended; a written file is at `PdfPath` of the paper's DOI. */
  datatype PdfSaveOutcome = PdfSaved | PdfSaveFailed(message: string)

  const PdfUploadPrefix: string := "PDF-Upload fehlgeschlagen: "

  /** The reading page's state over the application's store. */
  class ReadingPage {
    const store: DataStore
    /** The route's paper id, if any. */
    const paperId: Option<string>
    var paper: Option<Paper>
    var excerpt: Option<Excerpt>
    var hasPdf: bool
    var timerRunning: bool
    var timeSpent: nat
    var saving: bool
    var error: Option<string>
    /** Whether the page has navigated back to the dashboard. */
    var navigatedHome: bool

    constructor (store: DataStore, paperId: Option<string>)
      ensures this.store == store && this.paperId == paperId
      ensures paper.None? && excerpt.None? && !hasPdf && !timerRunning && timeSpent == 0
      ensures !saving && error.None? && !navigatedHome
    {
      this.store := store;
      this.paperId := paperId;
      paper := None;
      excerpt := None;
      hasPdf := false;
      timerRunning := false;
      timeSpent := 0;
      saving := false;
      error := None;
      navigatedHome := false;
    }

    /** The selection effect: open the selected paper with its excerpt, or a blank one. */
    method SelectFromStore()
      modifies this
      ensures SelectPaper(store.papers, paperId).None? ==>
        paper == old(paper) && excerpt == old(excerpt)
      ensures SelectPaper(store.papers, paperId).Some? ==>
        paper == SelectPaper(store.papers, paperId)
        && excerpt == Some(paper.value.excerpt.GetOr(CreateEmptyExcerpt()))
      ensures hasPdf == old(hasPdf) && timerRunning == old(timerRunning) && timeSpent == old(timeSpent) && saving == old(saving)
      ensures error == old(error) && navigatedHome == old(navigatedHome)
    {
      var target := SelectPaper(store.papers, paperId);
      if target.Some? {
        paper := target;
        excerpt := Some(target.value.excerpt.GetOr(CreateEmptyExcerpt()));
      }
    }

    /** `handleExcerptChange(updates)`; the form exists only once an excerpt is open. */
    method ChangeExcerpt(u: ExcerptPatch)
      requires excerpt.Some?
      modifies this
      ensures excerpt == Some(MergeExcerpt(old(excerpt).value, u))
      ensures paper == old(paper) && hasPdf == old(hasPdf) && timerRunning == old(timerRunning) && timeSpent == old(timeSpent)
      ensures saving == old(saving) && error == old(error) && navigatedHome == old(navigatedHome)
    {
      excerpt := Some(MergeExcerpt(excerpt.value, u));
    }

    /** The start and pause buttons. */
    method SetTimerRunning(running: bool)
      modifies this
      ensures timerRunning == running
      ensures timeSpent == old(timeSpent)
      ensures paper == old(paper) && excerpt == old(excerpt) && hasPdf == old(hasPdf)
      ensures saving == old(saving) && error == old(error) && navigatedHome == old(navigatedHome)
    {
      timerRunning := running;
    }

    /** One second of the timer's interval, which exists only while the timer runs. */
    method Tick()
      modifies this
      ensures timeSpent == if old(timerRunning) then old(timeSpent) + 1 else old(timeSpent)
      ensures timerRunning == old(timerRunning)
      ensures paper == old(paper) && excerpt == old(excerpt) && hasPdf == old(hasPdf)
      ensures saving == old(saving) && error == old(error) && navigatedHome == old(navigatedHome)
    {
      if timerRunning {
        timeSpent := timeSpent + 1;
      }
    }

    /**
     * `processPdfFile`: save the PDF under the sanitised name, then record
     * its path and move the paper to `reading`; a failed save only sets
     * the error. Storing the paper cannot fail here: the store catches
     * its own save errors.
     */
    method UploadPdf(save: PdfSaveOutcome, storeSave: SaveOutcome)
      modifies this, store
      ensures paper.None? || save.PdfSaveFailed? ==> store.papers == old(store.papers)
      ensures paper.Some? && save.PdfSaved? ==>
        store.papers == UpdatePaperList(old(store.papers), paper.value.id,
                                        PaperPatch(Some(Reading), Some(Some(PdfPath(paper.value.doi))), None, None))
        && hasPdf
      ensures paper.Some? && save.PdfSaveFailed? ==> error == Some(PdfUploadPrefix + save.message) && hasPdf == old(hasPdf)
      ensures paper.Some? && save.PdfSaved? ==> error == old(error)
      ensures paper.None? ==> error == old(error) && hasPdf == old(hasPdf)
      ensures paper == old(paper) && excerpt == old(excerpt) && timerRunning == old(timerRunning) && timeSpent == old(timeSpent)
      ensures saving == old(saving) && navigatedHome == old(navigatedHome)
      ensures store.settings == old(store.settings) && store.isLoading == old(store.isLoading)
      ensures store.error == (if paper.Some? && save.PdfSaved? && store.hasDirectory && storeSave.SaveFailed?
                              then Some(SaveErrorPrefix + storeSave.message) else old(store.error))
    {
      if paper.None? {
        return;
      }
      match save {
        case PdfSaved =>
          store.UpdatePaper(paper.value.id, PaperPatch(Some(Reading), Some(Some(PdfPath(paper.value.doi))), None, None), storeSave);
          hasPdf := true;
        case PdfSaveFailed(message) =>
          error := Some(PdfUploadPrefix + message);
      }
    }

    /**
     * `handleComplete` at instant `now`: validate, then mark the paper
     * completed with its finished excerpt and a fresh review state, delete
     * the draft and go home. Neither step can throw: the store catches its
     * save errors and the draft deletion ignores its own, so a valid
     * excerpt always leads home.
     */
    method HandleComplete(now: Instant, storeSave: SaveOutcome)
      requires ValidInstant(now)
      modifies this, store
      ensures paper == old(paper) && excerpt == old(excerpt) && timerRunning == old(timerRunning) && timeSpent == old(timeSpent)
      ensures hasPdf == old(hasPdf)
      ensures store.settings == old(store.settings) && store.isLoading == old(store.isLoading)
      ensures store.error == (if old(paper).Some? && old(excerpt).Some? && ValidateCompletion(old(excerpt).value).None?
                                 && store.hasDirectory && storeSave.SaveFailed?
                              then Some(SaveErrorPrefix + storeSave.message) else old(store.error))
      ensures old(paper).None? || old(excerpt).None? ==>
        && store.papers == old(store.papers) && error == old(error)
        && navigatedHome == old(navigatedHome) && saving == old(saving)
      ensures old(paper).Some? && old(excerpt).Some? && ValidateCompletion(old(excerpt).value).Some? ==>
        && store.papers == old(store.papers) && error == ValidateCompletion(old(excerpt).value)
        && navigatedHome == old(navigatedHome) && saving == old(saving)
      ensures old(paper).Some? && old(excerpt).Some? && ValidateCompletion(old(excerpt).value).None? ==>
        && !saving
        && store.papers == UpdatePaperList(old(store.papers), old(paper).value.id,
                                           CompletionPatch(old(excerpt).value, now, old(timeSpent)))
        && navigatedHome && error == None
    {
      if paper.None? || excerpt.None? {
        return;
      }
      var problem := ValidateCompletion(excerpt.value);
      if problem.Some? {
        error := problem;
        return;
      }
      Complete(paper.value.id, CompletionPatch(excerpt.value, now, timeSpent), storeSave);
    }

    /** The part of `handleComplete` after validation: write the paper, delete the draft, go home. */
    method Complete(id: string, patch: PaperPatch, storeSave: SaveOutcome)
      modifies this, store
      ensures paper == old(paper) && excerpt == old(excerpt) && timerRunning == old(timerRunning) && timeSpent == old(timeSpent)
      ensures hasPdf == old(hasPdf)
      ensures store.settings == old(store.settings) && store.isLoading == old(store.isLoading)
      ensures store.error == (if store.hasDirectory && storeSave.SaveFailed? then Some(SaveErrorPrefix + storeSave.message) else old(store.error))
      ensures !saving && store.papers == UpdatePaperList(old(store.papers), id, patch)
      ensures navigatedHome && error == None
    {
      saving := true;
      error := None;
      store.UpdatePaper(id, patch, storeSave);
      navigatedHome := true;
      saving := false;
    }
  }
}
