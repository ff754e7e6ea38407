/**
 * src/pages/Dashboard.jsx: the status counts, the stricter reminder
 * queue (only citable papers that serve a project), its first five
 * entries and the three of them a session will take.
 */
module Dashboard {
  import opened Wrappers
  import opened Dates
  import opened Records
  import opened Lists
  import opened Sorting
  import opened Review

  function HasStatus(s: Status): Paper -> bool {
    (p: Paper) => p.status == s
  }

  /** The number of papers with status `s`. */
  function CountStatus(papers: seq<Paper>, s: Status): nat {
    |Filter(papers, HasStatus(s))|
  }

  /** Every paper is counted under exactly one of the three statuses. */
  lemma {:induction false} StatusCountsPartition(papers: seq<Paper>)
    ensures CountStatus(papers, Inbox) + CountStatus(papers, Reading) + CountStatus(papers, Completed) == |papers|
  {
    if |papers| > 0 {
      StatusCountsPartition(papers[1..]);
    }
  }

  /** `p.excerpt?.citability || 0`. */
  function Citability(p: Paper): int {
    if p.excerpt.Some? then p.excerpt.value.citability else 0
  }

  /** `p.excerpt?.relevant_projects?.length > 0`. */
  predicate HasProjects(p: Paper) {
    p.excerpt.Some? && |p.excerpt.value.relevantProjects| > 0
  }

  /** The reminder test: due for review, citability at least 7, and at least one project. */
  predicate IsDueReminder(p: Paper, today: Date) {
    IsDueForReview(p, today) && Citability(p) >= 7 && HasProjects(p)
  }

  function ReminderOn(today: Date): Paper -> bool {
    (p: Paper) => IsDueReminder(p, today)
  }

  /** `stats.dueToday`. */
  function DueToday(papers: seq<Paper>, today: Date): (d: seq<Paper>)
    ensures |d| <= |papers|
    ensures forall i :: 0 <= i < |d| ==> IsDueReminder(d[i], today)
  {
    Filter(papers, ReminderOn(today))
  }

  /** A paper is reminded of exactly when it is one of the papers and passes the reminder test. */
  lemma DueTodayMembership(papers: seq<Paper>, today: Date, p: Paper)
    ensures p in DueToday(papers, today) <==>
      && p in papers && p.status == Completed
      && p.spacedRepetition.Some? && p.spacedRepetition.value.nextReviewDate.Some?
      && !p.spacedRepetition.value.expired
      && Citability(p) >= 7 && HasProjects(p)
      && OnOrBefore(p.spacedRepetition.value.nextReviewDate.value, today)
  {
    FilterMembership(papers, ReminderOn(today), p);
  }

  /** Every paper the dashboard reminds of is in the review page's queue. */
  lemma RemindersAreDue(papers: seq<Paper>, today: Date, p: Paper)
    requires p in DueToday(papers, today)
    ensures p in DueReviews(papers, today)
  {
    DueTodayMembership(papers, today, p);
    DueReviewsMembership(papers, today, p);
  }

  /**
   * The converse fails: the review page also queues a due paper of
   * citability 5 that the dashboard does not count.
   */
  lemma ReviewQueueIsWider()
    ensures var e := Excerpt(TextField("", "", ""), ListField([], [], []), None, "", 5, ["ExamLens"], 5, "",
                             TextField("", "", ""), None, 0);
      var p := Paper("p", "10.1/x", "T", Date(2024, 1, 1), Completed, None, Some(e),
                     Some(ReviewState(Some(Date(2024, 3, 1)), 1, 0, [], false)));
      p in DueReviews([p], Date(2024, 3, 1)) && p !in DueToday([p], Date(2024, 3, 1))
  {
    var e := Excerpt(TextField("", "", ""), ListField([], [], []), None, "", 5, ["ExamLens"], 5, "",
                     TextField("", "", ""), None, 0);
    var p := Paper("p", "10.1/x", "T", Date(2024, 1, 1), Completed, None, Some(e),
                   Some(ReviewState(Some(Date(2024, 3, 1)), 1, 0, [], false)));
    DueReviewsMembership([p], Date(2024, 3, 1), p);
    DueTodayMembership([p], Date(2024, 3, 1), p);
  }

  function Min(a: int, b: int): int {
    if a <= b then a else b
  }

  /** `upcomingReviews`: the reminders sorted by next review, at most the first five. */
  function UpcomingReviews(papers: seq<Paper>, today: Date): (u: seq<Paper>)
    ensures |u| == Min(5, |DueToday(papers, today)|)
    ensures SortedBy(u, ByReviewDay)
    ensures forall i :: 0 <= i < |u| ==> IsDueReminder(u[i], today)
    ensures multiset(u) <= multiset(DueToday(papers, today))
    ensures u <= SortBy(DueToday(papers, today), ByReviewDay)
    ensures forall n :: Filter(u, OnReviewDay(n)) <= Filter(DueToday(papers, today), OnReviewDay(n))
  {
    var d := DueToday(papers, today);
    var s := SortBy(d, ByReviewDay);
    ByReviewDayPreorder(d);
    SortBySorted(d, ByReviewDay);
    SameDayKeepsOrder(d);
    SameDayShownFirst(s, Min(5, |s|));
    TakeSorted(s, ByReviewDay, Min(5, |s|));
    RemindersAmong(s[..Min(5, |s|)], d, today);
    s[..Min(5, |s|)]
  }

  /** The same-day papers among the first `m` are the first same-day papers of the list. */
  lemma SameDayShownFirst(s: seq<Paper>, m: nat)
    requires m <= |s|
    ensures forall n :: Filter(s[..m], OnReviewDay(n)) <= Filter(s, OnReviewDay(n))
  {
    forall n
      ensures Filter(s[..m], OnReviewDay(n)) <= Filter(s, OnReviewDay(n))
    {
      FilterTake(s, m, OnReviewDay(n));
    }
  }

  /** Papers drawn from the reminders pass the reminder test. */
  lemma RemindersAmong(u: seq<Paper>, d: seq<Paper>, today: Date)
    requires forall i :: 0 <= i < |d| ==> IsDueReminder(d[i], today)
    requires multiset(u) <= multiset(d)
    ensures forall i :: 0 <= i < |u| ==> IsDueReminder(u[i], today)
  {
    forall i | 0 <= i < |u|
      ensures IsDueReminder(u[i], today)
    {
      assert u[i] in multiset(u);
      assert u[i] in d;
    }
  }

  /** A reminder left out of the first five is due no earlier than any of them. */
  lemma UpcomingReviewsAreEarliest(papers: seq<Paper>, today: Date, p: Paper)
    requires p in DueToday(papers, today) && p !in UpcomingReviews(papers, today)
    ensures forall i :: 0 <= i < |UpcomingReviews(papers, today)| ==>
      ReviewDay(UpcomingReviews(papers, today)[i]) <= ReviewDay(p)
  {
    var d := DueToday(papers, today);
    var s := SortBy(d, ByReviewDay);
    ByReviewDayPreorder(d);
    SortBySorted(d, ByReviewDay);
    SortByMembership(d, ByReviewDay, p);
    var n := Min(5, |s|);
    TakeSortedBound(s, ByReviewDay, n, p);
  }

  /** An entry of the upcoming list: actionable today, or labelled "(wartet)". */
  datatype Upcoming = Actionable(paper: Paper) | Waiting(paper: Paper)

  /** The list as shown: the first three actionable, the rest waiting. */
  function Annotate(u: seq<Paper>): (r: seq<Upcoming>)
    ensures |r| == |u|
    ensures forall i :: 0 <= i < |r| ==> r[i].paper == u[i] && (r[i].Actionable? <==> i < 3)
  {
    seq(|u|, i requires 0 <= i < |u| => if i < 3 then Actionable(u[i]) else Waiting(u[i]))
  }

  /** `Math.min(3, stats.dueToday.length)`, the count the start button announces. */
  function StartCount(papers: seq<Paper>, today: Date): (n: nat)
    ensures n <= 3 && n <= |DueToday(papers, today)|
    ensures n == 3 || n == |DueToday(papers, today)|
  {
    Min(3, |DueToday(papers, today)|)
  }

  function CountActionable(r: seq<Upcoming>): nat
    decreases |r|
  {
    if |r| == 0 then 0 else (if r[0].Actionable? then 1 else 0) + CountActionable(r[1..])
  }

  lemma {:induction false} CountActionablePrefix(r: seq<Upcoming>, k: nat)
    requires k <= |r|
    requires forall i :: 0 <= i < |r| ==> (r[i].Actionable? <==> i < k)
    ensures CountActionable(r) == k
    decreases |r|
  {
    if |r| > 0 {
      CountActionablePrefix(r[1..], if k > 0 then k - 1 else 0);
    }
  }

  /** The start button announces exactly as many papers as the list marks actionable. */
  lemma StartCountMatchesActionable(papers: seq<Paper>, today: Date)
    ensures CountActionable(Annotate(UpcomingReviews(papers, today))) == StartCount(papers, today)
  {
    var u := UpcomingReviews(papers, today);
    CountActionablePrefix(Annotate(u), Min(3, |u|));
  }
}
