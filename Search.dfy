/**
 * src/pages/Search.jsx: the paper search with its text query, status,
 * project, citability and expiry filters, the sortable result list and
 * the list of every topic in use.
 */
module Search {
  import opened Wrappers
  import opened Strings
  import opened Lists
  import opened Sorting
  import opened Dates
  import opened Records
  import opened DataContext
  import Csv

  /** The searchable texts of a paper, before empty ones are dropped. */
  function SearchFields(p: Paper): seq<string> {
    var claims := if p.excerpt.Some? then p.excerpt.value.mainClaims.final else "";
    var notes := if p.excerpt.Some? then p.excerpt.value.criticalNotes.final else "";
    var topics := if p.excerpt.Some? then p.excerpt.value.topics.final else [];
    var concepts := if p.excerpt.Some? && p.excerpt.value.keyConcepts.Some?
      then p.excerpt.value.keyConcepts.value.final else [];
    [p.title, p.doi, claims, notes] + topics + concepts
  }

  /** `searchFields.filter(Boolean).join(' ').toLowerCase()`. */
  function SearchText(p: Paper): string {
    Lower(Join(Filter(SearchFields(p), NonEmpty()), " "))
  }

  /** An empty query keeps every paper; otherwise the lower-cased query must occur in the search text. */
  predicate QueryMatches(p: Paper, query: string) {
    query == "" || Contains(SearchText(p), Lower(query))
  }

  /** A query found, ignoring case, in any one field of a paper finds that paper. */
  lemma FieldHitMatches(p: Paper, query: string, field: string)
    requires field in SearchFields(p)
    requires Contains(Lower(field), Lower(query))
    ensures QueryMatches(p, query)
  {
    if field == "" {
      assert |Lower(query)| == 0;
    } else {
      var parts := Filter(SearchFields(p), NonEmpty());
      FilterMembership(SearchFields(p), NonEmpty(), field);
      var k :| 0 <= k < |parts| && parts[k] == field;
      JoinContainsPart(parts, " ", k);
      LowerContains(Join(parts, " "), field);
      ContainsTrans(SearchText(p), Lower(field), Lower(query));
    }
  }

  /** Typing more of a query only narrows the matches. */
  lemma LongerQueryNarrows(p: Paper, query: string, longer: string)
    requires Contains(longer, query)
    requires QueryMatches(p, longer)
    ensures QueryMatches(p, query)
  {
    if longer == "" {
      assert |query| == 0;
    } else {
      LowerContains(longer, query);
      ContainsTrans(SearchText(p), Lower(longer), Lower(query));
    }
  }

  /** The filter panel's choices. */
  datatype Criteria = Criteria(
    query: string,
    statuses: seq<Status>,
    projects: seq<string>,
    citabilityMin: int,
    citabilityMax: int,
    showExpired: bool)

  /** The filters the page opens with. */
  const DefaultCriteria := Criteria("", [], [], 1, 10, false)

  /** The projects a paper's excerpt is relevant to; none without an excerpt. */
  function PaperProjects(p: Paper): seq<string> {
    if p.excerpt.Some? then p.excerpt.value.relevantProjects else []
  }

  predicate StatusAdmits(p: Paper, statuses: seq<Status>) {
    |statuses| == 0 || p.status in statuses
  }

  predicate ProjectAdmits(p: Paper, projects: seq<string>) {
    |projects| == 0 || exists i :: 0 <= i < |projects| && projects[i] in PaperProjects(p)
  }

  /** The range applies only to a paper whose citability is truthy. */
  predicate CitabilityAdmits(p: Paper, lo: int, hi: int) {
    p.excerpt.None? || p.excerpt.value.citability == 0 || lo <= p.excerpt.value.citability <= hi
  }

  predicate IsExpiredPaper(p: Paper) {
    p.spacedRepetition.Some? && p.spacedRepetition.value.expired
  }

  /** The `filter` callback. */
  predicate Admits(c: Criteria, p: Paper) {
    && QueryMatches(p, c.query)
    && StatusAdmits(p, c.statuses)
    && ProjectAdmits(p, c.projects)
    && CitabilityAdmits(p, c.citabilityMin, c.citabilityMax)
    && (c.showExpired || !IsExpiredPaper(p))
  }

  function Matching(c: Criteria): (keep: Paper -> bool)
    ensures forall p :: keep(p) <==> Admits(c, p)
  {
    (p: Paper) => Admits(c, p)
  }

  /** A paper without an excerpt never passes a non-empty project filter. */
  lemma NoExcerptFailsProjectFilter(c: Criteria, p: Paper)
    requires |c.projects| > 0 && p.excerpt.None?
    ensures !Matching(c)(p)
  {
  }

  /** With the query, status and project filters empty, expired papers shown and a range holding every truthy citability, every paper is found. */
  lemma OpenFiltersKeepAll(papers: seq<Paper>, c: Criteria)
    requires c.query == "" && c.statuses == [] && c.projects == [] && c.showExpired
    requires forall i :: 0 <= i < |papers| ==> CitabilityAdmits(papers[i], c.citabilityMin, c.citabilityMax)
    ensures Filter(papers, Matching(c)) == papers
  {
    FilterAll(papers, Matching(c));
  }

  /** The sortable columns. */
  datatype SortField = ByTitle | ByCitability | ByAddedDate
  datatype Direction = Asc | Desc

  /** `a.excerpt?.citability || 0`. */
  function CitabilityKey(p: Paper): int {
    if p.excerpt.Some? then p.excerpt.value.citability else 0
  }

  /** `added_date` strings of the form yyyy-MM-dd compare field by field. */
  predicate DateNoLater(a: Date, b: Date) {
    a.year < b.year || (a.year == b.year && (a.month < b.month || (a.month == b.month && a.day <= b.day)))
  }

  /** Date fields small enough for `yyyy-MM-dd`. */
  predicate Formattable(d: Date) {
    0 <= d.year < 10000 && 0 <= d.month < 100 && 0 <= d.day < 100
  }

  /**
   * The comparator compares the `added_date` texts; for the four-digit
   * years the import writes, that is the order of the dates themselves.
   */
  lemma DateNoLaterIsTextOrder(a: Date, b: Date)
    requires Formattable(a) && Formattable(b)
    ensures LexLe(Csv.FormatDate(a), Csv.FormatDate(b)) <==> DateNoLater(a, b)
  {
    var ya, ma, da := Csv.Digits(a.year, 4), Csv.Digits(a.month, 2), Csv.Digits(a.day, 2);
    var yb, mb, db := Csv.Digits(b.year, 4), Csv.Digits(b.month, 2), Csv.Digits(b.day, 2);
    assert Csv.FormatDate(a) == ya + ("-" + (ma + ("-" + da)));
    assert Csv.FormatDate(b) == yb + ("-" + (mb + ("-" + db)));
    assert Csv.Pow10(2) == 100 && Csv.Pow10(4) == 10000;
    Csv.DigitsLexOrder(a.year, b.year, 4);
    Csv.DigitsLexOrder(a.month, b.month, 2);
    Csv.DigitsLexOrder(a.day, b.day, 2);
    Csv.ValueOfDigits(a.year, 4);
    Csv.ValueOfDigits(b.year, 4);
    Csv.ValueOfDigits(a.month, 2);
    Csv.ValueOfDigits(b.month, 2);
    LexLeConcat(ya, "-" + (ma + ("-" + da)), yb, "-" + (mb + ("-" + db)));
    LexLeConcat("-", ma + ("-" + da), "-", mb + ("-" + db));
    LexLeConcat(ma, "-" + da, mb, "-" + db);
    LexLeConcat("-", da, "-", db);
  }

  /** `a` sorts no later than `b` in ascending order of the field. */
  predicate NoLater(field: SortField, a: Paper, b: Paper) {
    match field
    case ByTitle => LexLe(Lower(a.title), Lower(b.title))
    case ByCitability => CitabilityKey(a) <= CitabilityKey(b)
    case ByAddedDate => DateNoLater(a.addedDate, b.addedDate)
  }

  /** The comparator's order: ascending, or with the operands swapped for descending. */
  function Order(field: SortField, dir: Direction): (Paper, Paper) -> bool {
    if dir == Asc then (a: Paper, b: Paper) => NoLater(field, a, b)
    else (a: Paper, b: Paper) => NoLater(field, b, a)
  }

  lemma NoLaterTotal(field: SortField, a: Paper, b: Paper)
    ensures NoLater(field, a, b) || NoLater(field, b, a)
  {
    if field == ByTitle {
      LexTotal(Lower(a.title), Lower(b.title));
    }
  }

  lemma NoLaterTrans(field: SortField, a: Paper, b: Paper, c: Paper)
    requires NoLater(field, a, b) && NoLater(field, b, c)
    ensures NoLater(field, a, c)
  {
    if field == ByTitle {
      LexTrans(Lower(a.title), Lower(b.title), Lower(c.title));
    }
  }

  /** Every column and direction orders any list of papers totally. */
  lemma OrderIsPreorder(s: seq<Paper>, field: SortField, dir: Direction)
    ensures PreorderOn(s, Order(field, dir))
  {
    forall a, b | a in s && b in s
      ensures Order(field, dir)(a, b) || Order(field, dir)(b, a)
    {
      NoLaterTotal(field, a, b);
    }
    forall a, b, c | a in s && b in s && c in s && Order(field, dir)(a, b) && Order(field, dir)(b, c)
      ensures Order(field, dir)(a, c)
    {
      if dir == Asc {
        NoLaterTrans(field, a, b, c);
      } else {
        NoLaterTrans(field, c, b, a);
      }
    }
  }

  /**
   * `filteredPapers`: exactly the admitted papers, each as often as in the
   * input, ordered by the chosen column and direction.
   */
  function Results(papers: seq<Paper>, c: Criteria, field: SortField, dir: Direction): (r: seq<Paper>)
    ensures multiset(r) == multiset(Filter(papers, Matching(c)))
    ensures forall p :: p in r <==> p in papers && Admits(c, p)
    ensures SortedBy(r, Order(field, dir))
  {
    var kept := Filter(papers, Matching(c));
    OrderIsPreorder(kept, field, dir);
    SortBySorted(kept, Order(field, dir));
    var r := SortBy(kept, Order(field, dir));
    forall p
      ensures p in r <==> p in papers && Admits(c, p)
    {
      SortByMembership(kept, Order(field, dir), p);
      FilterMembership(papers, Matching(c), p);
    }
    r
  }

  /** Ascending, the first result has the smallest key; descending, the largest. */
  lemma ResultsEnds(papers: seq<Paper>, c: Criteria, field: SortField, p: Paper)
    requires p in papers && Admits(c, p)
    ensures NoLater(field, Results(papers, c, field, Asc)[0], p)
    ensures NoLater(field, p, Results(papers, c, field, Desc)[0])
  {
    var up := Results(papers, c, field, Asc);
    var down := Results(papers, c, field, Desc);
    assert p in up && p in down;
    var i :| 0 <= i < |up| && up[i] == p;
    var j :| 0 <= j < |down| && down[j] == p;
    if i > 0 {
      assert Order(field, Asc)(up[0], up[i]);
    } else {
      NoLaterTotal(field, p, p);
    }
    if j > 0 {
      assert Order(field, Desc)(down[0], down[j]);
    } else {
      NoLaterTotal(field, p, p);
    }
  }

  /** `toggleSort(field)`: the current column flips direction, another column starts descending. */
  function ToggleSort(current: SortField, dir: Direction, field: SortField): (r: (SortField, Direction))
    ensures r.0 == field
    ensures field == current ==> r.1 != dir
    ensures field != current ==> r.1 == Desc
  {
    if field == current then (field, if dir == Asc then Desc else Asc) else (field, Desc)
  }

  /** Clicking one column twice restores its direction; a new column's second click sorts ascending. */
  lemma ToggleSortTwice(current: SortField, dir: Direction, field: SortField)
    ensures var once := ToggleSort(current, dir, field);
      var twice := ToggleSort(once.0, once.1, field);
      twice == if field == current then (current, dir) else (field, Asc)
  {
  }

  /** The topics of a paper's excerpt, `p.excerpt?.topics?.final`. */
  function TopicsOf(p: Paper): seq<string> {
    if p.excerpt.Some? then p.excerpt.value.topics.final else []
  }

  /** Every paper's topics, paper after paper. */
  function AllTopicLists(papers: seq<Paper>): seq<string>
    decreases |papers|
  {
    if papers == [] then [] else AllTopicLists(papers[..|papers| - 1]) + TopicsOf(papers[|papers| - 1])
  }

  /** A topic of any paper is among the collected topics. */
  lemma {:induction false} TopicCollected(papers: seq<Paper>, i: nat, t: string)
    requires i < |papers| && t in TopicsOf(papers[i])
    ensures t in AllTopicLists(papers)
    decreases |papers|
  {
    var init := papers[..|papers| - 1];
    if i < |init| {
      assert init[i] == papers[i];
      TopicCollected(init, i, t);
    }
  }

  /** A collected topic is a topic of some paper; `i` is that paper's position. */
  lemma {:induction false} TopicSource(papers: seq<Paper>, t: string) returns (i: nat)
    requires t in AllTopicLists(papers)
    ensures i < |papers| && t in TopicsOf(papers[i])
    decreases |papers|
  {
    var init := papers[..|papers| - 1];
    if t in AllTopicLists(init) {
      i := TopicSource(init, t);
      assert init[i] == papers[i];
    } else {
      i := |papers| - 1;
    }
  }

  /** The collected topics are exactly the topics of the papers. */
  lemma AllTopicListsMembership(papers: seq<Paper>, t: string)
    ensures t in AllTopicLists(papers) <==> exists i :: 0 <= i < |papers| && t in TopicsOf(papers[i])
  {
    if t in AllTopicLists(papers) {
      var i := TopicSource(papers, t);
    }
    if exists i :: 0 <= i < |papers| && t in TopicsOf(papers[i]) {
      var i :| 0 <= i < |papers| && t in TopicsOf(papers[i]);
      TopicCollected(papers, i, t);
    }
  }

  /** One more topic seen: it is added unless already collected. */
  lemma DedupStep(seen: seq<string>, t: string)
    ensures Dedup(seen + [t]) == if t in Dedup(seen) then Dedup(seen) else Dedup(seen) + [t]
  {
    assert (seen + [t])[..|seen|] == seen;
  }

  /** The step of `AddTopics`: the `j`-th topic of the paper is added unless already collected. */
  lemma TopicStep(seen: seq<string>, ts: seq<string>, j: nat)
    requires j < |ts|
    ensures Dedup(seen + ts[..j + 1]) ==
      if ts[j] in Dedup(seen + ts[..j]) then Dedup(seen + ts[..j]) else Dedup(seen + ts[..j]) + [ts[j]]
  {
    assert seen + ts[..j + 1] == (seen + ts[..j]) + [ts[j]];
    DedupStep(seen + ts[..j], ts[j]);
  }

  /** One more paper: its topics follow those of the papers before it. */
  lemma AllTopicListsStep(papers: seq<Paper>, i: nat)
    requires i < |papers|
    ensures AllTopicLists(papers[..i + 1]) == AllTopicLists(papers[..i]) + TopicsOf(papers[i])
  {
    assert papers[..i + 1][..i] == papers[..i];
  }

  /** `p.excerpt?.topics?.final?.forEach(t => topics.add(t))` on the topics collected so far. */
  method AddTopics(topics: seq<string>, ghost seen: seq<string>, ts: seq<string>) returns (r: seq<string>)
    requires topics == Dedup(seen)
    ensures r == Dedup(seen + ts)
  {
    r := topics;
    var j := 0;
    assert seen + ts[..0] == seen;
    while j < |ts|
      invariant 0 <= j <= |ts|
      invariant r == Dedup(seen + ts[..j])
    {
      TopicStep(seen, ts, j);
      if ts[j] !in r {
        r := r + [ts[j]];
      }
      j := j + 1;
    }
    assert ts[..j] == ts;
  }

  /**
   * `allTopics`: the topics collected into a set, paper by paper, then
   * sorted. The result lists every topic in use once, in order.
   */
  method AllTopics(papers: seq<Paper>) returns (r: seq<string>)
    ensures r == SortBy(Dedup(AllTopicLists(papers)), LexLe)
    ensures NoDups(r) && SortedBy(r, LexLe)
    ensures forall t :: t in r <==> exists i :: 0 <= i < |papers| && t in TopicsOf(papers[i])
  {
    var topics: seq<string> := [];
    var i := 0;
    while i < |papers|
      invariant 0 <= i <= |papers|
      invariant topics == Dedup(AllTopicLists(papers[..i]))
    {
      topics := AddTopics(topics, AllTopicLists(papers[..i]), TopicsOf(papers[i]));
      AllTopicListsStep(papers, i);
      i := i + 1;
    }
    assert papers[..i] == papers;
    r := SortBy(topics, LexLe);
    AllTopicsProperties(papers);
  }

  /** The sorted topic list is duplicate-free, ordered, and holds exactly the topics in use. */
  lemma AllTopicsProperties(papers: seq<Paper>)
    ensures var r := SortBy(Dedup(AllTopicLists(papers)), LexLe);
      && NoDups(r) && SortedBy(r, LexLe)
      && forall t :: t in r <==> exists i :: 0 <= i < |papers| && t in TopicsOf(papers[i])
  {
    var all := AllTopicLists(papers);
    var topics := Dedup(all);
    SortedTopics(topics);
    forall t
      ensures t in SortBy(topics, LexLe) <==> exists k :: 0 <= k < |papers| && t in TopicsOf(papers[k])
    {
      SortByMembership(topics, LexLe, t);
      AllTopicListsMembership(papers, t);
      if t in all {
        var k :| 0 <= k < |all| && all[k] == t;
      }
      if t in topics {
        var k :| 0 <= k < |topics| && topics[k] == t;
      }
    }
  }

  /** Sorting de-duplicated topics keeps them duplicate-free and puts them in order. */
  lemma SortedTopics(topics: seq<string>)
    requires NoDups(topics)
    ensures NoDups(SortBy(topics, LexLe)) && SortedBy(SortBy(topics, LexLe), LexLe)
  {
    NoDupsPermutation(topics, SortBy(topics, LexLe));
    forall a, b | a in topics && b in topics
      ensures LexLe(a, b) || LexLe(b, a)
    {
      LexTotal(a, b);
    }
    forall a, b, c | a in topics && b in topics && c in topics && LexLe(a, b) && LexLe(b, c)
      ensures LexLe(a, c)
    {
      LexTrans(a, b, c);
    }
    SortBySorted(topics, LexLe);
  }

  /** The search page's filter and sort state over the shared store. */
  class SearchPage {
    const store: DataStore
    var criteria: Criteria
    var sortBy: SortField
    var sortDir: Direction

    /** The page opens with no filters and the newest papers first. */
    constructor (store: DataStore)
      ensures this.store == store
      ensures criteria == DefaultCriteria && sortBy == ByAddedDate && sortDir == Desc
    {
      this.store := store;
      criteria := DefaultCriteria;
      sortBy := ByAddedDate;
      sortDir := Desc;
    }

    method SetCriteria(c: Criteria)
      modifies this
      ensures criteria == c && sortBy == old(sortBy) && sortDir == old(sortDir)
    {
      criteria := c;
    }

    /** A click on a column header. */
    method ToggleSortClicked(field: SortField)
      modifies this
      ensures (sortBy, sortDir) == ToggleSort(old(sortBy), old(sortDir), field)
      ensures criteria == old(criteria)
    {
      if sortBy == field {
        sortDir := if sortDir == Asc then Desc else Asc;
      } else {
        sortBy := field;
        sortDir := Desc;
      }
    }

    /** The list the page shows. */
    function Shown(): seq<Paper>
      reads this, store
    {
      Results(store.papers, criteria, sortBy, sortDir)
    }
  }
}
