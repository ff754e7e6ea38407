/**
 * src/pages/Review.jsx: the review page's own interval table, the queue
 * of papers due for review, the recall transition of a paper's review
 * state, and the session that caps a day at three judgments.
 */
module Review {
  import opened Wrappers
  import opened Dates
  import opened Records
  import opened Lists
  import opened Sorting
  import opened DataContext
  import Fibonacci

  /** The review page's table: eleven entries, ending at 89 weeks. */
  const ReviewFibonacci: seq<int> := [1, 1, 2, 3, 5, 8, 13, 21, 34, 55, 89]

  /** The most judgments a session accepts. */
  const SessionCap: nat := 3

  /**
   * `FIBONACCI[Math.min(index, 10)]`. A negative index reads before the
   * table and yields `undefined`, here `None`.
   */
  function ReviewWeeks(index: int): (w: Option<int>)
    ensures w.Some? <==> index >= 0
    ensures w.Some? ==> 1 <= w.value <= 89
  {
    if index < 0 then None
    else Some(ReviewFibonacci[if index < |ReviewFibonacci| then index else |ReviewFibonacci| - 1])
  }

  /** Every index from 10 on gets the last entry, 89 weeks. */
  lemma ReviewWeeksClamps(index: int)
    requires index >= 10
    ensures ReviewWeeks(index) == Some(89)
  {
  }

  /**
   * The two tables agree on indices 0 to 10; from 11 on this one stays at
   * 89 weeks where src/utils/fibonacci.js gives 144.
   */
  lemma ReviewWeeksAgainstFibonacciTable(index: int)
    requires index >= 0
    ensures index <= 10 ==> ReviewWeeks(index) == Some(Fibonacci.GetFibonacciWeeks(index))
    ensures index >= 11 ==> ReviewWeeks(index) == Some(89) && Fibonacci.GetFibonacciWeeks(index) == 144
  {
    assert ReviewFibonacci == Fibonacci.FibonacciWeeks[..11];
  }

  /** The queue test of one paper: completed, scheduled, not expired, due today or earlier. */
  predicate IsDueForReview(p: Paper, today: Date) {
    && p.status == Completed
    && p.spacedRepetition.Some?
    && p.spacedRepetition.value.nextReviewDate.Some?
    && !p.spacedRepetition.value.expired
    && OnOrBefore(p.spacedRepetition.value.nextReviewDate.value, today)
  }

  /** The queue test as the value passed to `filter`. */
  function DueOn(today: Date): Paper -> bool {
    p => IsDueForReview(p, today)
  }

  /** The day number of a paper's next review; papers without a readable one sort as day 0. */
  function ReviewDay(p: Paper): int {
    if p.spacedRepetition.Some? && p.spacedRepetition.value.nextReviewDate.Some?
       && Valid(p.spacedRepetition.value.nextReviewDate.value)
    then Ordinal(p.spacedRepetition.value.nextReviewDate.value)
    else 0
  }

  /** The comparator of both queues: earlier next review first. */
  predicate ByReviewDay(a: Paper, b: Paper) {
    ReviewDay(a) <= ReviewDay(b)
  }

  lemma ByReviewDayPreorder(s: seq<Paper>)
    ensures PreorderOn(s, ByReviewDay)
  {
  }

  /** The papers whose next review falls on day number `n`: the comparator's ties. */
  function OnReviewDay(n: int): Paper -> bool {
    p => ReviewDay(p) == n
  }

  /** Sorting by review day keeps papers due on the same day in their collection order. */
  lemma SameDayKeepsOrder(s: seq<Paper>)
    ensures forall n :: Filter(SortBy(s, ByReviewDay), OnReviewDay(n)) == Filter(s, OnReviewDay(n))
  {
    forall n
      ensures Filter(SortBy(s, ByReviewDay), OnReviewDay(n)) == Filter(s, OnReviewDay(n))
    {
      SortByStable(s, ByReviewDay, OnReviewDay(n));
    }
  }

  /**
   * `dueReviews`: the papers due for review, earliest next review first;
   * a permutation of exactly the due papers.
   */
  function DueReviews(papers: seq<Paper>, today: Date): (q: seq<Paper>)
    ensures multiset(q) == multiset(Filter(papers, DueOn(today)))
    ensures forall i :: 0 <= i < |q| ==> IsDueForReview(q[i], today)
    ensures SortedBy(q, ByReviewDay)
    ensures forall n :: Filter(q, OnReviewDay(n)) == Filter(Filter(papers, DueOn(today)), OnReviewDay(n))
  {
    var due := Filter(papers, DueOn(today));
    ByReviewDayPreorder(due);
    SortBySorted(due, ByReviewDay);
    SameDayKeepsOrder(due);
    var q := SortBy(due, ByReviewDay);
    assert forall i :: 0 <= i < |q| ==> q[i] in multiset(due);
    q
  }

  /** A paper is in the queue exactly when it is one of the papers and due. */
  lemma DueReviewsMembership(papers: seq<Paper>, today: Date, p: Paper)
    ensures p in DueReviews(papers, today) <==> p in papers && IsDueForReview(p, today)
  {
    var q := DueReviews(papers, today);
    FilterMembership(papers, DueOn(today), p);
    assert p in q <==> p in multiset(q);
    assert p in Filter(papers, DueOn(today)) <==> p in multiset(Filter(papers, DueOn(today)));
  }

  /** `excerpt?.expiry_years || 999`: a missing or zero horizon becomes 999 years. */
  function ExpiryYears(p: Paper): int {
    if p.excerpt.Some? && p.excerpt.value.expiryYears != 0 then p.excerpt.value.expiryYears else 999
  }

  /**
   * Whether the instant `t` lies strictly after the paper's relevance
   * horizon: midnight of the added date plus `ExpiryYears` years. An added
   * date that is not a calendar date parses to an invalid date, which
   * compares false.
   */
  predicate PastHorizon(p: Paper, t: Instant)
    requires ValidInstant(t)
  {
    Valid(p.addedDate) && Later(t, Midnight(AddYears(p.addedDate, ExpiryYears(p))))
  }

  /**
   * The review state `handleRecall` writes at instant `now`. `None` where
   * the interval lookup yields `undefined`: the date formatting then
   * throws and the handler stops before writing anything.
   */
  function RecallUpdate(p: Paper, sr: ReviewState, recalled: bool, now: Instant): (r: Option<ReviewState>)
    requires ValidInstant(now)
    ensures r.None? <==> recalled && sr.fibonacciIndex + 1 < 0
    ensures r.Some? ==>
      && r.value.fibonacciIndex == (if recalled then sr.fibonacciIndex + 1 else 0)
      && r.value.currentIntervalWeeks == (if recalled then ReviewWeeks(sr.fibonacciIndex + 1).value else 1)
      && r.value.reviewHistory == sr.reviewHistory + [HistoryEntry(now.date, recalled)]
  {
    var index := if recalled then sr.fibonacciIndex + 1 else 0;
    var weeks := if recalled then ReviewWeeks(index) else Some(1);
    if weeks.None? then None
    else
      var w := weeks.value;
      var next := AddWeeks(now, w);
      AddWeeksOrdinal(now, w);
      Some(ReviewState(Some(next.date), w, index,
                       sr.reviewHistory + [HistoryEntry(now.date, recalled)],
                       PastHorizon(p, next)))
  }

  /**
   * The schedule a judgment writes: the next review falls exactly
   * `7 * interval` days after the day of the judgment, and the paper
   * expires exactly when that moment lies past its relevance horizon.
   */
  lemma RecallSchedule(p: Paper, sr: ReviewState, recalled: bool, now: Instant)
    requires ValidInstant(now)
    requires RecallUpdate(p, sr, recalled, now).Some?
    ensures var r := RecallUpdate(p, sr, recalled, now).value;
      && r.nextReviewDate.Some?
      && Valid(r.nextReviewDate.value)
      && Ordinal(r.nextReviewDate.value) == Ordinal(now.date) + 7 * r.currentIntervalWeeks
      && Ordinal(now.date) + 7 <= Ordinal(r.nextReviewDate.value) <= Ordinal(now.date) + 7 * 89
      && (r.expired <==> PastHorizon(p, Instant(r.nextReviewDate.value, now.msOfDay)))
  {
    var r := RecallUpdate(p, sr, recalled, now).value;
    AddWeeksOrdinal(now, r.currentIntervalWeeks);
  }

  /** A failed recall forgets all progress: the outcome does not depend on the old index or interval. */
  lemma FailureForgetsProgress(p: Paper, sr1: ReviewState, sr2: ReviewState, now: Instant)
    requires ValidInstant(now)
    requires sr1.reviewHistory == sr2.reviewHistory
    ensures RecallUpdate(p, sr1, false, now) == RecallUpdate(p, sr2, false, now)
    ensures RecallUpdate(p, sr1, false, now).value.fibonacciIndex == 0
    ensures RecallUpdate(p, sr1, false, now).value.currentIntervalWeeks == 1
  {
  }

  /** One judgment of a sequence: the outcome and the instant it was given. */
  datatype Judgment = Judgment(recalled: bool, at: Instant)

  predicate ValidJudgments(js: seq<Judgment>) {
    forall k :: 0 <= k < |js| ==> ValidInstant(js[k].at)
  }

  /** The review state after a sequence of judgments, `None` once one of them fails to write. */
  function Replay(p: Paper, sr: ReviewState, js: seq<Judgment>): Option<ReviewState>
    requires ValidJudgments(js)
    decreases |js|
  {
    if |js| == 0 then Some(sr)
    else match RecallUpdate(p, sr, js[0].recalled, js[0].at)
      case None => None
      case Some(next) => Replay(p, next, js[1..])
  }

  /** The history entries a sequence of judgments appends, one per judgment. */
  function Entries(js: seq<Judgment>): (h: seq<HistoryEntry>)
    ensures |h| == |js|
  {
    if js == [] then [] else [HistoryEntry(js[0].at.date, js[0].recalled)] + Entries(js[1..])
  }

  /** The `k`-th entry records the day and outcome of the `k`-th judgment. */
  lemma {:induction false} EntriesAt(js: seq<Judgment>, k: nat)
    requires k < |js|
    ensures Entries(js)[k] == HistoryEntry(js[k].at.date, js[k].recalled)
    decreases k
  {
    if k > 0 {
      EntriesAt(js[1..], k - 1);
    }
  }

  /** One judgment from a non-negative index writes, appending its entry. */
  lemma ReplayStep(p: Paper, sr: ReviewState, js: seq<Judgment>)
    requires ValidJudgments(js) && |js| > 0
    requires sr.fibonacciIndex >= 0
    ensures RecallUpdate(p, sr, js[0].recalled, js[0].at).Some?
    ensures var next := RecallUpdate(p, sr, js[0].recalled, js[0].at).value;
      && next.fibonacciIndex >= 0
      && next.reviewHistory == sr.reviewHistory + [HistoryEntry(js[0].at.date, js[0].recalled)]
      && ValidJudgments(js[1..])
      && Replay(p, sr, js) == Replay(p, next, js[1..])
  {
  }

  lemma {:induction false} ReplayHistory(p: Paper, sr: ReviewState, js: seq<Judgment>)
    requires ValidJudgments(js)
    requires sr.fibonacciIndex >= 0
    ensures Replay(p, sr, js).Some?
    ensures Replay(p, sr, js).value.reviewHistory == sr.reviewHistory + Entries(js)
    ensures Replay(p, sr, js).value.fibonacciIndex >= 0
    decreases |js|
  {
    if |js| > 0 {
      ReplayStep(p, sr, js);
      var next := RecallUpdate(p, sr, js[0].recalled, js[0].at).value;
      ReplayHistory(p, next, js[1..]);
      var h0, rest := HistoryEntry(js[0].at.date, js[0].recalled), Entries(js[1..]);
      assert Entries(js) == [h0] + rest;
      assert (sr.reviewHistory + [h0]) + rest == sr.reviewHistory + ([h0] + rest);
    }
  }

  /**
   * A streak of `|js|` correct recalls from index `i >= 0` reaches index
   * `i + |js|` and the interval of that index.
   */
  lemma {:induction false} RecallStreak(p: Paper, sr: ReviewState, js: seq<Judgment>)
    requires ValidJudgments(js) && |js| > 0
    requires forall k :: 0 <= k < |js| ==> js[k].recalled
    requires sr.fibonacciIndex >= 0
    ensures Replay(p, sr, js).Some?
    ensures Replay(p, sr, js).value.fibonacciIndex == sr.fibonacciIndex + |js|
    ensures Replay(p, sr, js).value.currentIntervalWeeks == ReviewWeeks(sr.fibonacciIndex + |js|).value
    decreases |js|
  {
    var next := RecallUpdate(p, sr, true, js[0].at).value;
    assert ValidJudgments(js[1..]);
    if |js| > 1 {
      RecallStreak(p, next, js[1..]);
    }
  }

  /** A horizon less than a week ahead expires the paper, whatever the outcome. */
  lemma ExpiresNearHorizon(p: Paper, sr: ReviewState, recalled: bool, now: Instant)
    requires ValidInstant(now) && Valid(p.addedDate)
    requires RecallUpdate(p, sr, recalled, now).Some?
    requires Ordinal(now.date) + 7 > Ordinal(AddYears(p.addedDate, ExpiryYears(p)))
    ensures RecallUpdate(p, sr, recalled, now).value.expired
  {
    RecallSchedule(p, sr, recalled, now);
  }

  /** A horizon more than 89 weeks ahead never expires the paper. */
  lemma KeepsFarFromHorizon(p: Paper, sr: ReviewState, recalled: bool, now: Instant)
    requires ValidInstant(now)
    requires RecallUpdate(p, sr, recalled, now).Some?
    requires Valid(p.addedDate) ==> Ordinal(now.date) + 7 * 89 < Ordinal(AddYears(p.addedDate, ExpiryYears(p)))
    ensures !RecallUpdate(p, sr, recalled, now).value.expired
  {
    RecallSchedule(p, sr, recalled, now);
  }

  /**
   * Unlike src/utils/fibonacci.js, where 999 years means "never", the
   * review page adds the 999 years literally: a paper without an excerpt
   * added on 2000-01-01 and judged on 2999-01-01 expires.
   */
  lemma SentinelExpiresHere()
    ensures var p := Paper("p", "10.1/x", "T", Date(2000, 1, 1), Completed, None, None, None);
      var sr := ReviewState(Some(Date(2999, 1, 1)), 1, 0, [], false);
      var now := Instant(Date(2999, 1, 1), 0);
      && RecallUpdate(p, sr, false, now).Some?
      && RecallUpdate(p, sr, false, now).value.expired
      && !Fibonacci.IsExpired(p.addedDate, 999, RecallUpdate(p, sr, false, now).value.nextReviewDate.value)
  {
    var p := Paper("p", "10.1/x", "T", Date(2000, 1, 1), Completed, None, None, None);
    var sr := ReviewState(Some(Date(2999, 1, 1)), 1, 0, [], false);
    var now := Instant(Date(2999, 1, 1), 0);
    assert AddYears(p.addedDate, ExpiryYears(p)) == Date(2999, 1, 1);
    ExpiresNearHorizon(p, sr, false, now);
  }

  /** The patch `handleRecall` hands to `updatePaper`. */
  function RecallPatch(r: ReviewState): (u: PaperPatch)
    ensures forall p :: MergePaper(p, u) == p.(spacedRepetition := Some(r))
  {
    PaperPatch(None, None, None, Some(Some(r)))
  }

  /** The papers after the paper at position `i` of the queue was judged. */
  function AfterJudgment(papers: seq<Paper>, today: Date, i: nat, recalled: bool, now: Instant): seq<Paper>
    requires ValidInstant(now) && i < |DueReviews(papers, today)|
  {
    var p := DueReviews(papers, today)[i];
    match RecallUpdate(p, p.spacedRepetition.value, recalled, now)
    case None => papers
    case Some(r) => UpdatePaperList(papers, p.id, RecallPatch(r))
  }

  /**
   * Judging a paper on the day of the session takes that paper, and only
   * it, out of the queue: its next review is at least a week away.
   */
  lemma JudgedPaperLeavesQueue(papers: seq<Paper>, today: Date, i: nat, recalled: bool, now: Instant)
    requires UniqueIds(papers) && ValidInstant(now) && now.date == today
    requires i < |DueReviews(papers, today)|
    requires var p := DueReviews(papers, today)[i];
      RecallUpdate(p, p.spacedRepetition.value, recalled, now).Some?
    ensures var q := DueReviews(papers, today);
      var q' := DueReviews(AfterJudgment(papers, today, i, recalled, now), today);
      multiset(q') + multiset{q[i]} == multiset(q) && |q'| + 1 == |q|
  {
    var q := DueReviews(papers, today);
    var p := q[i];
    var r := RecallUpdate(p, p.spacedRepetition.value, recalled, now).value;
    DueReviewsMembership(papers, today, p);
    var k :| 0 <= k < |papers| && papers[k] == p;
    RecallSchedule(p, p.spacedRepetition.value, recalled, now);
    UpdatePaperAt(papers, k, RecallPatch(r));
    var judged := MergePaper(p, RecallPatch(r));
    assert !IsDueForReview(judged, today);
    FilterReplaceDropped(papers, k, judged, DueOn(today));
  }

  /** What the review page shows. */
  datatype SessionView =
    | NothingDue
    | Finished(reviewed: int, remaining: int)
    | Card(paper: Paper, reviewNumber: int, inQueue: int)

  /** The page's three outcomes for a queue, an index and a count of judgments. */
  function ViewOf(q: seq<Paper>, currentIndex: nat, reviewedToday: nat): SessionView {
    if |q| == 0 then NothingDue
    else if !(reviewedToday < SessionCap) || currentIndex >= |q| then Finished(reviewedToday, |q| - currentIndex)
    else Card(q[currentIndex], reviewedToday + 1, |q| - currentIndex)
  }

  /** A card is shown exactly when the cap is not reached and the index lies in the queue. */
  lemma ViewOfCard(q: seq<Paper>, currentIndex: nat, reviewedToday: nat)
    ensures ViewOf(q, currentIndex, reviewedToday).Card? <==> reviewedToday < SessionCap && currentIndex < |q|
    ensures ViewOf(q, currentIndex, reviewedToday).Card? ==>
      ViewOf(q, currentIndex, reviewedToday).paper in q
  {
  }

  /**
   * The index update as written: advance when another paper follows and
   * the cap is not reached with this judgment. The queue it tests is the
   * one from before the judgment.
   */
  function NextIndexAsWritten(currentIndex: nat, queueLength: nat, reviewedToday: nat): (i: nat)
    ensures i == currentIndex || i == currentIndex + 1
    ensures i == currentIndex + 1 <==> currentIndex < queueLength - 1 && reviewedToday + 1 < SessionCap
  {
    if currentIndex < queueLength - 1 && reviewedToday + 1 < SessionCap then currentIndex + 1 else currentIndex
  }

  /**
   * The intended index update: the judged paper has left the queue, so
   * the paper that followed it is already at the current index.
   */
  function NextIndex(currentIndex: nat): (i: nat)
    ensures i == currentIndex
  {
    currentIndex
  }

  /**
   * As written, a session over two due papers ends after the first
   * judgment: the index moves to 1 while the queue has shrunk to one
   * paper, which is still due but reported as nothing remaining.
   */
  lemma AsWrittenEndsSessionEarly(papers: seq<Paper>, today: Date, recalled: bool, now: Instant)
    requires UniqueIds(papers) && ValidInstant(now) && now.date == today
    requires |DueReviews(papers, today)| == 2
    requires var p := DueReviews(papers, today)[0];
      RecallUpdate(p, p.spacedRepetition.value, recalled, now).Some?
    ensures var q' := DueReviews(AfterJudgment(papers, today, 0, recalled, now), today);
      && |q'| == 1
      && ViewOf(q', NextIndexAsWritten(0, 2, 0), 1) == Finished(1, 0)
  {
    JudgedPaperLeavesQueue(papers, today, 0, recalled, now);
  }

  /**
   * With the intended rule a session starting at index 0 shows the
   * earliest due paper after each judgment until three are judged or the
   * queue is empty, and a finished session reports every paper still due.
   */
  lemma SessionVisitsEveryDuePaper(papers: seq<Paper>, today: Date, reviewedToday: nat, recalled: bool, now: Instant)
    requires UniqueIds(papers) && ValidInstant(now) && now.date == today
    requires 0 < |DueReviews(papers, today)|
    requires var p := DueReviews(papers, today)[0];
      RecallUpdate(p, p.spacedRepetition.value, recalled, now).Some?
    ensures var q' := DueReviews(AfterJudgment(papers, today, 0, recalled, now), today);
      var v := ViewOf(q', NextIndex(0), reviewedToday + 1);
      && (v.Card? <==> reviewedToday + 1 < SessionCap && |q'| > 0)
      && (v.Card? ==> forall k :: 0 <= k < |q'| ==> ByReviewDay(v.paper, q'[k]))
      && (v.Finished? ==> v.remaining == |q'|)
  {
    JudgedPaperLeavesQueue(papers, today, 0, recalled, now);
  }

  /** The review page's state, over the application's store. */
  class ReviewSession {
    const store: DataStore
    /** The day the page was opened; every judgment happens on it. */
    const today: Date
    var currentIndex: nat
    var showAnswer: bool
    var userAnswer: string
    var showDetails: bool
    var reviewedToday: nat

    constructor (store: DataStore, today: Date)
      ensures this.store == store && this.today == today
      ensures currentIndex == 0 && reviewedToday == 0
      ensures !showAnswer && userAnswer == "" && !showDetails
    {
      this.store := store;
      this.today := today;
      currentIndex := 0;
      showAnswer := false;
      userAnswer := "";
      showDetails := false;
      reviewedToday := 0;
    }

    function Queue(): seq<Paper>
      reads this, store
    {
      DueReviews(store.papers, today)
    }

    function View(): SessionView
      reads this, store
    {
      ViewOf(Queue(), currentIndex, reviewedToday)
    }

    /**
     * `handleRecall(recalled)` at instant `now` of the session's day: write
     * the new review state of the current paper, count the judgment, reset
     * the card, and keep the index (the intended rule). With no current
     * paper, or when the interval lookup throws, nothing changes.
     */
    method HandleRecall(recalled: bool, now: Instant, save: SaveOutcome)
      requires ValidInstant(now) && now.date == today
      modifies this, store
      ensures currentIndex == old(currentIndex)
      ensures store.settings == old(store.settings) && store.isLoading == old(store.isLoading)
      ensures old(currentIndex) >= |old(Queue())| ==>
        && store.papers == old(store.papers) && store.error == old(store.error)
        && reviewedToday == old(reviewedToday) && showAnswer == old(showAnswer)
        && userAnswer == old(userAnswer) && showDetails == old(showDetails)
      ensures old(currentIndex) < |old(Queue())| ==>
        var p := old(Queue())[old(currentIndex)];
        match RecallUpdate(p, p.spacedRepetition.value, recalled, now)
        case None =>
          && store.papers == old(store.papers) && store.error == old(store.error)
          && reviewedToday == old(reviewedToday) && showAnswer == old(showAnswer)
          && userAnswer == old(userAnswer) && showDetails == old(showDetails)
        case Some(r) =>
          && store.papers == UpdatePaperList(old(store.papers), p.id, RecallPatch(r))
          && store.error == (if store.hasDirectory && save.SaveFailed? then Some(SaveErrorPrefix + save.message) else old(store.error))
          && reviewedToday == old(reviewedToday) + 1
          && !showAnswer && userAnswer == "" && !showDetails
    {
      var q := Queue();
      if currentIndex >= |q| {
        return;
      }
      var p := q[currentIndex];
      var update := RecallUpdate(p, p.spacedRepetition.value, recalled, now);
      if update.None? {
        return;
      }
      Record(p.id, RecallPatch(update.value), save);
    }

    /** Writes a judged paper's patch, counts the judgment and resets the card. */
    method Record(paperId: string, u: PaperPatch, save: SaveOutcome)
      modifies this, store
      ensures store.papers == UpdatePaperList(old(store.papers), paperId, u)
      ensures store.error == (if store.hasDirectory && save.SaveFailed? then Some(SaveErrorPrefix + save.message) else old(store.error))
      ensures store.settings == old(store.settings) && store.isLoading == old(store.isLoading)
      ensures reviewedToday == old(reviewedToday) + 1
      ensures !showAnswer && userAnswer == "" && !showDetails
      ensures currentIndex == old(currentIndex)
    {
      store.UpdatePaper(paperId, u, save);
      reviewedToday := reviewedToday + 1;
      showAnswer := false;
      userAnswer := "";
      showDetails := false;
      currentIndex := NextIndex(currentIndex);
    }

    method RevealAnswer()
      modifies this
      ensures showAnswer
      ensures currentIndex == old(currentIndex) && reviewedToday == old(reviewedToday)
      ensures userAnswer == old(userAnswer) && showDetails == old(showDetails)
    {
      showAnswer := true;
    }

    method TypeAnswer(text: string)
      modifies this
      ensures userAnswer == text
      ensures currentIndex == old(currentIndex) && reviewedToday == old(reviewedToday)
      ensures showAnswer == old(showAnswer) && showDetails == old(showDetails)
    {
      userAnswer := text;
    }

    method ToggleDetails()
      modifies this
      ensures showDetails == !old(showDetails)
      ensures currentIndex == old(currentIndex) && reviewedToday == old(reviewedToday)
      ensures showAnswer == old(showAnswer) && userAnswer == old(userAnswer)
    {
      showDetails := !showDetails;
    }
  }
}
