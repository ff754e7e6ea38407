/**
 * src/pages/Inbox.jsx: importing papers from the rows of a CSV file and
 * adding a single paper by hand. The CSV parser, the date parser
 * (`parse(s, 'yyyy-MM-dd')` with `isValid`), today's date and the new
 * ids are parameters.
 */
module Inbox {
  import opened Wrappers
  import opened Strings
  import opened Lists
  import opened Dates
  import opened Records
  import opened DataContext
  import Dashboard

  /** One CSV record under the header line; a missing column is `None`. */
  datatype Row = Row(doi: Option<string>, title: Option<string>, addedDate: Option<string>)

  /** A preview entry, ready to become a paper. */
  datatype Draft = Draft(doi: string, title: string, addedDate: Date)

  /** A rejected row: its line in the file (the header is line 1), its data and its messages. */
  datatype RowReport = RowReport(row: int, data: Row, errors: seq<string>)

  const DoiFormatMessage := "Ungültiges DOI-Format (muss mit \"10.\" beginnen)"
  const TitleMissingMessage := "Titel fehlt"
  const TitleEmptyMessage := "Titel darf nicht leer sein"
  const DuplicateMessage := "Dieses DOI existiert bereits"
  const CsvFailedPrefix := "CSV-Parsing fehlgeschlagen: "

  function DateMessage(s: string): string {
    "Ungültiges Datum: \"" + s + "\" (erwartet: YYYY-MM-DD)"
  }

  /** A JavaScript string value that is present and not empty. */
  predicate Truthy(o: Option<string>) {
    o.Some? && o.value != ""
  }

  predicate HasDoiPrefix(doi: Option<string>) {
    doi.Some? && "10." <= doi.value
  }

  /** `row.title` present and not blank after trimming. */
  predicate HasTitle(title: Option<string>) {
    title.Some? && !IsBlank(title.value)
  }

  /** A given date that the date parser rejects. */
  predicate BadDate(row: Row, parseDate: string -> Option<Date>) {
    Truthy(row.addedDate) && parseDate(row.addedDate.value).None?
  }

  lemma MessagesDiffer(s: string)
    ensures DoiFormatMessage != TitleMissingMessage
    ensures DateMessage(s) != DoiFormatMessage && DateMessage(s) != TitleMissingMessage
  {
    assert DoiFormatMessage[12] == 'O';
    assert DateMessage(s)[12] == 'a';
    assert TitleMissingMessage[0] == 'T';
    assert DateMessage(s)[0] == 'U';
  }

  /** The messages of one CSV row, in the order the checks run. */
  function RowErrors(row: Row, parseDate: string -> Option<Date>): (errs: seq<string>)
    ensures DoiFormatMessage in errs <==> !HasDoiPrefix(row.doi)
    ensures TitleMissingMessage in errs <==> !HasTitle(row.title)
    ensures BadDate(row, parseDate) <==> DateMessage(row.addedDate.GetOr("")) in errs
    ensures errs == [] <==> HasDoiPrefix(row.doi) && HasTitle(row.title) && !BadDate(row, parseDate)
  {
    var date := row.addedDate.GetOr("");
    MessagesDiffer(date);
    (if HasDoiPrefix(row.doi) then [] else [DoiFormatMessage])
    + (if HasTitle(row.title) then [] else [TitleMissingMessage])
    + (if BadDate(row, parseDate) then [DateMessage(date)] else [])
  }

  /** The added date of an accepted row: the parsed date, or today when none is given. */
  function RowDate(row: Row, parseDate: string -> Option<Date>, today: Date): Date {
    if Truthy(row.addedDate) && parseDate(row.addedDate.value).Some? then parseDate(row.addedDate.value).value
    else today
  }

  /** `existingDois`: the lower-cased DOIs of the papers. */
  function ExistingDois(papers: seq<Paper>): set<string> {
    set i | 0 <= i < |papers| :: Lower(papers[i].doi)
  }

  /** Each paper's lower-cased DOI is listed, and nothing else is. */
  lemma ExistingDoisMembership(papers: seq<Paper>, d: string)
    ensures d in ExistingDois(papers) <==> exists i :: 0 <= i < |papers| && Lower(papers[i].doi) == d
  {
  }

  /** The duplicate test as written: the typed DOI, lower-cased but not trimmed. */
  predicate IsDuplicateAsWritten(doi: string, dois: set<string>): (dup: bool)
    ensures IsTrimmed(doi) ==> (dup <==> IsDuplicate(doi, dois))
  {
    if IsTrimmed(doi) then TrimOfTrimmed(doi); Lower(doi) in dois
    else Lower(doi) in dois
  }

  /** The duplicate test on the DOI that would be stored: trimmed, then lower-cased. */
  predicate IsDuplicate(doi: string, dois: set<string>) {
    Lower(Trim(doi)) in dois
  }

  /** Papers whose DOIs are told apart ignoring case. */
  predicate DistinctDois(papers: seq<Paper>) {
    forall i, j :: 0 <= i < j < |papers| ==> Lower(papers[i].doi) != Lower(papers[j].doi)
  }

  /** Stored DOIs are trimmed: both ways of adding a paper trim them. */
  predicate TrimmedDois(papers: seq<Paper>) {
    forall i :: 0 <= i < |papers| ==> IsTrimmed(papers[i].doi)
  }

  /** A lower-cased string ending in white space is no lower-cased trimmed string. */
  lemma LowerTrailingSpace(d: string, typed: string)
    requires IsTrimmed(d) && typed != [] && IsSpace(typed[|typed| - 1])
    ensures Lower(d) != Lower(typed)
  {
    if d != [] && |d| == |typed| {
      var c := d[|d| - 1];
      assert Lower(d)[|d| - 1] == LowerChar(c);
      assert !IsSpace(LowerChar(c));
      assert Lower(typed)[|d| - 1] == typed[|typed| - 1];
    }
  }

  /**
   * A stored DOI typed again with trailing white space escapes the
   * duplicate test as written, while the DOI it stores is that same DOI.
   */
  lemma TrailingSpaceEscapesDuplicateCheck(papers: seq<Paper>, k: nat, ws: string)
    requires TrimmedDois(papers) && k < |papers| && papers[k].doi != ""
    requires IsBlank(ws) && ws != ""
    ensures !IsDuplicateAsWritten(papers[k].doi + ws, ExistingDois(papers))
    ensures IsDuplicate(papers[k].doi + ws, ExistingDois(papers))
    ensures Trim(papers[k].doi + ws) == papers[k].doi
  {
    var typed := papers[k].doi + ws;
    TrimTrailingSpace(papers[k].doi, ws);
    assert typed[|typed| - 1] == ws[|ws| - 1];
    forall i | 0 <= i < |papers|
      ensures Lower(papers[i].doi) != Lower(typed)
    {
      LowerTrailingSpace(papers[i].doi, typed);
    }
  }

  /** What became of one CSV row. */
  datatype Outcome = Rejected(report: RowReport) | Skipped | Accepted(draft: Draft)

  /** `d` is the preview entry of `row`: its trimmed DOI and title, with its date or today. */
  predicate DraftOfRow(d: Draft, row: Row, parseDate: string -> Option<Date>, today: Date) {
    && row.doi.Some? && row.title.Some?
    && d == Draft(Trim(row.doi.value), Trim(row.title.value), RowDate(row, parseDate, today))
  }

  /** The fate of the row at `index`: rejected with its messages, skipped as a duplicate, or previewed. */
  function Classify(row: Row, index: nat, dois: set<string>, parseDate: string -> Option<Date>, today: Date): (o: Outcome)
    ensures o.Rejected? <==> RowErrors(row, parseDate) != []
    ensures o.Rejected? ==> o.report == RowReport(index + 2, row, RowErrors(row, parseDate))
    ensures o.Skipped? <==> RowErrors(row, parseDate) == [] && IsDuplicate(row.doi.value, dois)
    ensures o.Accepted? ==>
      && "10." <= o.draft.doi && IsTrimmed(o.draft.doi) && Lower(o.draft.doi) !in dois
      && o.draft.title != "" && IsTrimmed(o.draft.title)
      && o.draft.addedDate == RowDate(row, parseDate, today)
    ensures o.Accepted? ==> DraftOfRow(o.draft, row, parseDate, today)
  {
    var errs := RowErrors(row, parseDate);
    if errs != [] then Rejected(RowReport(index + 2, row, errs))
    else if IsDuplicate(row.doi.value, dois) then Skipped
    else
      TrimKeepsSolidPrefix("10.", row.doi.value);
      TrimEmptyIffBlank(row.title.value);
      Accepted(Draft(Trim(row.doi.value), Trim(row.title.value), RowDate(row, parseDate, today)))
  }

  /** The outcome of every row, in file order. */
  function Outcomes(rows: seq<Row>, dois: set<string>, parseDate: string -> Option<Date>, today: Date): (os: seq<Outcome>)
    ensures |os| == |rows|
    decreases |rows|
  {
    if rows == [] then []
    else Outcomes(rows[..|rows| - 1], dois, parseDate, today) + [Classify(rows[|rows| - 1], |rows| - 1, dois, parseDate, today)]
  }

  /** The outcome at position `i` is that of the row at `i`, classified with its own index. */
  lemma {:induction false} OutcomesAt(rows: seq<Row>, dois: set<string>, parseDate: string -> Option<Date>, today: Date, i: nat)
    requires i < |rows|
    ensures Outcomes(rows, dois, parseDate, today)[i] == Classify(rows[i], i, dois, parseDate, today)
    decreases |rows|
  {
    if i < |rows| - 1 {
      var init := rows[..|rows| - 1];
      OutcomesAt(init, dois, parseDate, today, i);
      assert init[i] == rows[i];
    }
  }

  /** The previewed drafts, in order. */
  function AcceptedOf(os: seq<Outcome>): seq<Draft>
    decreases |os|
  {
    if os == [] then []
    else AcceptedOf(os[..|os| - 1]) + (if os[|os| - 1].Accepted? then [os[|os| - 1].draft] else [])
  }

  /** The error reports, in order. */
  function RejectedOf(os: seq<Outcome>): seq<RowReport>
    decreases |os|
  {
    if os == [] then []
    else RejectedOf(os[..|os| - 1]) + (if os[|os| - 1].Rejected? then [os[|os| - 1].report] else [])
  }

  function SkippedCount(os: seq<Outcome>): nat
    decreases |os|
  {
    if os == [] then 0
    else SkippedCount(os[..|os| - 1]) + (if os[|os| - 1].Skipped? then 1 else 0)
  }

  /** Every row ends up in exactly one place: the preview, the error list, or skipped. */
  lemma {:induction false} OutcomesPartition(os: seq<Outcome>)
    ensures |AcceptedOf(os)| + |RejectedOf(os)| + SkippedCount(os) == |os|
    decreases |os|
  {
    if os != [] {
      OutcomesPartition(os[..|os| - 1]);
    }
  }

  /** Every draft comes from an accepted outcome. */
  lemma {:induction false} AcceptedSources(os: seq<Outcome>)
    ensures forall k :: 0 <= k < |AcceptedOf(os)| ==>
      exists i :: 0 <= i < |os| && os[i] == Accepted(AcceptedOf(os)[k])
    decreases |os|
  {
    if os != [] {
      var init := os[..|os| - 1];
      AcceptedSources(init);
      var last := if os[|os| - 1].Accepted? then [os[|os| - 1].draft] else [];
      assert AcceptedOf(os) == AcceptedOf(init) + last;
      forall k | 0 <= k < |AcceptedOf(os)|
        ensures exists i :: 0 <= i < |os| && os[i] == Accepted(AcceptedOf(os)[k])
      {
        if k < |AcceptedOf(init)| {
          var i :| 0 <= i < |init| && init[i] == Accepted(AcceptedOf(init)[k]);
          assert os[i] == init[i];
        } else {
          assert os[|os| - 1] == Accepted(AcceptedOf(os)[k]);
        }
      }
    } else {
      assert AcceptedOf(os) == [];
    }
  }

  /** Every report comes from a rejected outcome. */
  lemma {:induction false} RejectedSources(os: seq<Outcome>)
    ensures forall k :: 0 <= k < |RejectedOf(os)| ==>
      exists i :: 0 <= i < |os| && os[i] == Rejected(RejectedOf(os)[k])
    decreases |os|
  {
    if os != [] {
      var init := os[..|os| - 1];
      RejectedSources(init);
      var last := if os[|os| - 1].Rejected? then [os[|os| - 1].report] else [];
      assert RejectedOf(os) == RejectedOf(init) + last;
      forall k | 0 <= k < |RejectedOf(os)|
        ensures exists i :: 0 <= i < |os| && os[i] == Rejected(RejectedOf(os)[k])
      {
        if k < |RejectedOf(init)| {
          var i :| 0 <= i < |init| && init[i] == Rejected(RejectedOf(init)[k]);
          assert os[i] == init[i];
        } else {
          assert os[|os| - 1] == Rejected(RejectedOf(os)[k]);
        }
      }
    } else {
      assert RejectedOf(os) == [];
    }
  }

  /** The report names a row by its file line (index + 2) and carries that row's messages, at least one. */
  predicate NamesRow(report: RowReport, rows: seq<Row>, parseDate: string -> Option<Date>) {
    exists i :: 0 <= i < |rows| && report == RowReport(i + 2, rows[i], RowErrors(rows[i], parseDate))
                && RowErrors(rows[i], parseDate) != []
  }

  /** Every report names its row. */
  predicate ReportsName(reports: seq<RowReport>, rows: seq<Row>, parseDate: string -> Option<Date>) {
    forall k :: 0 <= k < |reports| ==> NamesRow(reports[k], rows, parseDate)
  }

  /** Every draft is well-formed and trimmed, and its DOI matches none in `dois`. */
  predicate DraftsFresh(drafts: seq<Draft>, dois: set<string>) {
    forall k :: 0 <= k < |drafts| ==>
      && "10." <= drafts[k].doi && IsTrimmed(drafts[k].doi) && drafts[k].title != "" && IsTrimmed(drafts[k].title)
      && Lower(drafts[k].doi) !in dois
  }

  /** Every draft is the preview entry of one of the rows. */
  predicate DraftsFromRows(drafts: seq<Draft>, rows: seq<Row>, parseDate: string -> Option<Date>, today: Date) {
    forall k :: 0 <= k < |drafts| ==> exists i :: 0 <= i < |rows| && DraftOfRow(drafts[k], rows[i], parseDate, today)
  }

  lemma ReportsSound(rows: seq<Row>, dois: set<string>, parseDate: string -> Option<Date>, today: Date)
    ensures ReportsName(RejectedOf(Outcomes(rows, dois, parseDate, today)), rows, parseDate)
  {
    var os := Outcomes(rows, dois, parseDate, today);
    RejectedSources(os);
    forall k | 0 <= k < |RejectedOf(os)|
      ensures NamesRow(RejectedOf(os)[k], rows, parseDate)
    {
      var i :| 0 <= i < |os| && os[i] == Rejected(RejectedOf(os)[k]);
      OutcomesAt(rows, dois, parseDate, today, i);
    }
  }

  lemma DraftsSound(rows: seq<Row>, dois: set<string>, parseDate: string -> Option<Date>, today: Date)
    ensures DraftsFresh(AcceptedOf(Outcomes(rows, dois, parseDate, today)), dois)
    ensures DraftsFromRows(AcceptedOf(Outcomes(rows, dois, parseDate, today)), rows, parseDate, today)
  {
    var os := Outcomes(rows, dois, parseDate, today);
    AcceptedSources(os);
    forall k | 0 <= k < |AcceptedOf(os)|
      ensures && "10." <= AcceptedOf(os)[k].doi && IsTrimmed(AcceptedOf(os)[k].doi)
              && AcceptedOf(os)[k].title != "" && IsTrimmed(AcceptedOf(os)[k].title)
              && Lower(AcceptedOf(os)[k].doi) !in dois
      ensures exists i :: 0 <= i < |rows| && DraftOfRow(AcceptedOf(os)[k], rows[i], parseDate, today)
    {
      var i :| 0 <= i < |os| && os[i] == Accepted(AcceptedOf(os)[k]);
      OutcomesAt(rows, dois, parseDate, today, i);
    }
  }

  /**
   * The reports name the rows they come from by file line (index + 2)
   * and carry at least one message; the preview holds only well-formed,
   * trimmed entries whose DOI no existing paper has.
   */
  lemma ClassificationSound(rows: seq<Row>, papers: seq<Paper>, parseDate: string -> Option<Date>, today: Date)
    ensures ReportsName(RejectedOf(Outcomes(rows, ExistingDois(papers), parseDate, today)), rows, parseDate)
    ensures DraftsFresh(AcceptedOf(Outcomes(rows, ExistingDois(papers), parseDate, today)), ExistingDois(papers))
    ensures DraftsFromRows(AcceptedOf(Outcomes(rows, ExistingDois(papers), parseDate, today)), rows, parseDate, today)
  {
    ReportsSound(rows, ExistingDois(papers), parseDate, today);
    DraftsSound(rows, ExistingDois(papers), parseDate, today);
  }

  /** One more row classified: its outcome follows those of the rows before it. */
  lemma OutcomesStep(rows: seq<Row>, i: nat, dois: set<string>, parseDate: string -> Option<Date>, today: Date)
    requires i < |rows|
    ensures var before := Outcomes(rows[..i], dois, parseDate, today);
      var o := Classify(rows[i], i, dois, parseDate, today);
      && AcceptedOf(Outcomes(rows[..i + 1], dois, parseDate, today))
         == AcceptedOf(before) + (if o.Accepted? then [o.draft] else [])
      && RejectedOf(Outcomes(rows[..i + 1], dois, parseDate, today))
         == RejectedOf(before) + (if o.Rejected? then [o.report] else [])
  {
    assert rows[..i + 1][..i] == rows[..i];
    var os := Outcomes(rows[..i + 1], dois, parseDate, today);
    assert os[..|os| - 1] == Outcomes(rows[..i], dois, parseDate, today);
  }

  /** The `complete` callback of the CSV parse: classify every row in file order. */
  method ClassifyRows(rows: seq<Row>, papers: seq<Paper>, parseDate: string -> Option<Date>, today: Date)
    returns (preview: seq<Draft>, reports: seq<RowReport>)
    ensures preview == AcceptedOf(Outcomes(rows, ExistingDois(papers), parseDate, today))
    ensures reports == RejectedOf(Outcomes(rows, ExistingDois(papers), parseDate, today))
  {
    var dois := ExistingDois(papers);
    preview, reports := [], [];
    var i := 0;
    while i < |rows|
      invariant 0 <= i <= |rows|
      invariant preview == AcceptedOf(Outcomes(rows[..i], dois, parseDate, today))
      invariant reports == RejectedOf(Outcomes(rows[..i], dois, parseDate, today))
    {
      var row := rows[i];
      var errs := RowErrors(row, parseDate);
      OutcomesStep(rows, i, dois, parseDate, today);
      if errs != [] {
        reports := reports + [RowReport(i + 2, row, errs)];
      } else if !IsDuplicate(row.doi.value, dois) {
        preview := preview + [Draft(Trim(row.doi.value), Trim(row.title.value), RowDate(row, parseDate, today))];
      }
      i := i + 1;
    }
    assert rows[..i] == rows;
  }

  /** A new inbox paper: no PDF, no excerpt, no review state yet. */
  function NewPaper(id: string, doi: string, title: string, addedDate: Date): (p: Paper)
    ensures p.status == Inbox && p.pdfPath.None? && p.excerpt.None? && p.spacedRepetition.None?
    ensures p.id == id && p.doi == doi && p.title == title && p.addedDate == addedDate
  {
    Paper(id, doi, title, addedDate, Inbox, None, None, None)
  }

  /** `preview.map(row => ({ id: uuidv4(), ... }))`; `freshId(i)` is the id of the i-th draft. */
  function NewPapers(preview: seq<Draft>, freshId: nat -> string): (r: seq<Paper>)
    ensures |r| == |preview|
    ensures forall i :: 0 <= i < |r| ==>
      r[i] == NewPaper(freshId(i), preview[i].doi, preview[i].title, preview[i].addedDate)
  {
    seq(|preview|, i requires 0 <= i < |preview| =>
      NewPaper(freshId(i), preview[i].doi, preview[i].title, preview[i].addedDate))
  }

  /** `inboxPapers`: the papers still in the inbox, in store order, as many as the dashboard counts. */
  function InboxPapers(papers: seq<Paper>): (r: seq<Paper>)
    ensures |r| == Dashboard.CountStatus(papers, Inbox)
    ensures forall p :: p in r <==> p in papers && p.status == Inbox
  {
    var r := Filter(papers, Dashboard.HasStatus(Inbox));
    forall p
      ensures p in r <==> p in papers && p.status == Inbox
    {
      FilterMembership(papers, Dashboard.HasStatus(Inbox), p);
    }
    r
  }

  /** An import adds its papers, in preview order, at the end of the inbox list. */
  lemma ImportJoinsInbox(papers: seq<Paper>, preview: seq<Draft>, freshId: nat -> string)
    ensures InboxPapers(papers + NewPapers(preview, freshId)) == InboxPapers(papers) + NewPapers(preview, freshId)
  {
    var added := NewPapers(preview, freshId);
    FilterConcat(papers, added, Dashboard.HasStatus(Inbox));
    FilterAll(added, Dashboard.HasStatus(Inbox));
  }

  /** No imported paper repeats the DOI of a paper that was already there. */
  lemma ImportedDoisAreNew(rows: seq<Row>, papers: seq<Paper>, parseDate: string -> Option<Date>, today: Date,
                           freshId: nat -> string)
    ensures var preview := AcceptedOf(Outcomes(rows, ExistingDois(papers), parseDate, today));
      var added := NewPapers(preview, freshId);
      forall i, j :: 0 <= i < |papers| && 0 <= j < |added| ==> Lower(papers[i].doi) != Lower(added[j].doi)
  {
    ClassificationSound(rows, papers, parseDate, today);
  }

  /** A DOI that starts with "10." is not blank. */
  lemma PrefixedNotBlank(doi: string)
    ensures "10." <= doi ==> Trim(doi) != ""
  {
    if "10." <= doi {
      TrimKeepsSolidPrefix("10.", doi);
    }
  }

  /** The manual-add checks in order; `None` when the paper may be added. */
  function ManualCheck(doi: string, title: string, papers: seq<Paper>): (r: Option<string>)
    ensures r.None? <==> "10." <= doi && !IsBlank(title) && !IsDuplicate(doi, ExistingDois(papers))
    ensures !("10." <= doi) ==> r == Some(DoiFormatMessage)
    ensures "10." <= doi && IsBlank(title) ==> r == Some(TitleEmptyMessage)
    ensures "10." <= doi && !IsBlank(title) && IsDuplicate(doi, ExistingDois(papers)) ==> r == Some(DuplicateMessage)
  {
    PrefixedNotBlank(doi);
    TrimEmptyIffBlank(title);
    if Trim(doi) == "" || !("10." <= doi) then Some(DoiFormatMessage)
    else if Trim(title) == "" then Some(TitleEmptyMessage)
    else if IsDuplicate(doi, ExistingDois(papers)) then Some(DuplicateMessage)
    else None
  }

  /** The manual-add checks as written, with the untrimmed duplicate test. */
  function ManualCheckAsWritten(doi: string, title: string, papers: seq<Paper>): (r: Option<string>)
    ensures r.None? <==> "10." <= doi && !IsBlank(title) && !IsDuplicateAsWritten(doi, ExistingDois(papers))
  {
    PrefixedNotBlank(doi);
    TrimEmptyIffBlank(title);
    if Trim(doi) == "" || !("10." <= doi) then Some(DoiFormatMessage)
    else if Trim(title) == "" then Some(TitleEmptyMessage)
    else if IsDuplicateAsWritten(doi, ExistingDois(papers)) then Some(DuplicateMessage)
    else None
  }

  /** The paper a manual add appends. */
  function ManualPaper(id: string, doi: string, title: string, today: Date): Paper {
    NewPaper(id, Trim(doi), Trim(title), today)
  }

  /** A manual add that passes the checks keeps the DOIs distinct. */
  lemma ManualAddKeepsDistinctDois(papers: seq<Paper>, id: string, doi: string, title: string, today: Date)
    requires DistinctDois(papers)
    requires ManualCheck(doi, title, papers).None?
    ensures DistinctDois(papers + [ManualPaper(id, doi, title, today)])
  {
    var all := papers + [ManualPaper(id, doi, title, today)];
    forall i, j | 0 <= i < j < |all|
      ensures Lower(all[i].doi) != Lower(all[j].doi)
    {
      if j == |papers| {
        assert Lower(all[i].doi) in ExistingDois(papers);
      } else {
        assert all[i] == papers[i] && all[j] == papers[j];
      }
    }
  }

  /**
   * As written, a DOI already stored, typed again with a trailing space,
   * passes the checks and the added paper repeats that DOI.
   */
  lemma ManualAddAsWrittenDuplicates(papers: seq<Paper>, k: nat, ws: string, id: string, title: string, today: Date)
    requires TrimmedDois(papers) && k < |papers| && "10." <= papers[k].doi
    requires IsBlank(ws) && ws != "" && !IsBlank(title)
    ensures ManualCheckAsWritten(papers[k].doi + ws, title, papers).None?
    ensures !DistinctDois(papers + [ManualPaper(id, papers[k].doi + ws, title, today)])
  {
    AsWrittenPasses(papers, k, ws, title);
    TrailingSpaceEscapesDuplicateCheck(papers, k, ws);
    RepeatedDoi(papers, k, ManualPaper(id, papers[k].doi + ws, title, today));
  }

  /** The checks as written let a stored DOI with trailing white space through. */
  lemma AsWrittenPasses(papers: seq<Paper>, k: nat, ws: string, title: string)
    requires TrimmedDois(papers) && k < |papers| && "10." <= papers[k].doi
    requires IsBlank(ws) && ws != "" && !IsBlank(title)
    ensures ManualCheckAsWritten(papers[k].doi + ws, title, papers).None?
  {
    TrailingSpaceEscapesDuplicateCheck(papers, k, ws);
    assert "10." <= papers[k].doi + ws;
  }

  /** Appending a paper with the DOI of the paper at `k` breaks distinctness. */
  lemma RepeatedDoi(papers: seq<Paper>, k: nat, added: Paper)
    requires k < |papers| && added.doi == papers[k].doi
    ensures !DistinctDois(papers + [added])
  {
    var all := papers + [added];
    assert all[k] == papers[k] && all[|papers|] == added;
  }

  /** The outcome of reading and parsing the chosen file. */
  datatype ParseResult = Parsed(rows: seq<Row>) | ParseFailed(message: string)

  /** The inbox page's import and manual-add state over the shared store. */
  class InboxPage {
    const store: DataStore
    var preview: Option<seq<Draft>>
    var reports: seq<RowReport>
    var importing: bool
    var manualDoi: string
    var manualTitle: string
    var manualError: string
    var adding: bool
    var navigatedHome: bool

    constructor (store: DataStore)
      ensures this.store == store
      ensures preview.None? && reports == [] && !importing
      ensures manualDoi == "" && manualTitle == "" && manualError == "" && !adding && !navigatedHome
    {
      this.store := store;
      preview := None;
      reports := [];
      importing := false;
      manualDoi := "";
      manualTitle := "";
      manualError := "";
      adding := false;
      navigatedHome := false;
    }

    method TypeManual(doi: string, title: string)
      modifies this
      ensures manualDoi == doi && manualTitle == title
      ensures preview == old(preview) && reports == old(reports) && manualError == old(manualError)
      ensures importing == old(importing) && adding == old(adding) && navigatedHome == old(navigatedHome)
    {
      manualDoi := doi;
      manualTitle := title;
    }

    /** `handleFileSelect`: a parsed file replaces preview and errors; a failed parse reports line 0. */
    method FileSelected(result: ParseResult, parseDate: string -> Option<Date>, today: Date)
      modifies this
      ensures result.Parsed? ==>
        var os := Outcomes(result.rows, ExistingDois(store.papers), parseDate, today);
        preview == Some(AcceptedOf(os)) && reports == RejectedOf(os)
      ensures result.ParseFailed? ==>
        preview == old(preview) && reports == [RowReport(0, Row(None, None, None), [CsvFailedPrefix + result.message])]
      ensures manualDoi == old(manualDoi) && manualTitle == old(manualTitle) && manualError == old(manualError)
      ensures importing == old(importing) && adding == old(adding) && navigatedHome == old(navigatedHome)
    {
      match result {
        case Parsed(rows) =>
          var p, r := ClassifyRows(rows, store.papers, parseDate, today);
          preview := Some(p);
          reports := r;
        case ParseFailed(message) =>
          reports := [RowReport(0, Row(None, None, None), [CsvFailedPrefix + message])];
      }
    }

    /** `handleImport`: append the previewed papers to the store, clear the preview and go home. */
    method HandleImport(freshId: nat -> string, save: SaveOutcome)
      modifies this, store
      ensures old(preview).None? || old(preview).value == [] ==>
        && store.papers == old(store.papers) && preview == old(preview) && reports == old(reports)
        && navigatedHome == old(navigatedHome)
      ensures old(preview).Some? && old(preview).value != [] ==>
        && store.papers == old(store.papers) + NewPapers(old(preview).value, freshId)
        && preview.None? && reports == [] && navigatedHome
      ensures store.settings == old(store.settings) && store.isLoading == old(store.isLoading)
      ensures store.error == (if old(preview).Some? && old(preview).value != [] && store.hasDirectory && save.SaveFailed?
                              then Some(SaveErrorPrefix + save.message) else old(store.error))
      ensures importing == (old(importing) && (old(preview).None? || old(preview).value == []))
      ensures manualDoi == old(manualDoi) && manualTitle == old(manualTitle) && manualError == old(manualError)
      ensures adding == old(adding)
    {
      if preview.None? || preview.value == [] {
        return;
      }
      importing := true;
      store.UpdatePapers(store.papers + NewPapers(preview.value, freshId), save);
      preview := None;
      reports := [];
      importing := false;
      navigatedHome := true;
    }

    /** Appends the checked manual paper and clears the inputs. */
    method AcceptManual(added: Paper, save: SaveOutcome)
      modifies this, store
      ensures store.papers == old(store.papers) + [added] && store.settings == old(store.settings)
      ensures store.isLoading == old(store.isLoading)
      ensures store.error == (if store.hasDirectory && save.SaveFailed? then Some(SaveErrorPrefix + save.message) else old(store.error))
      ensures manualError == "" && manualDoi == "" && manualTitle == "" && !adding
      ensures preview == old(preview) && reports == old(reports)
      ensures importing == old(importing) && navigatedHome == old(navigatedHome)
    {
      manualError := "";
      adding := true;
      store.UpdatePapers(store.papers + [added], save);
      manualDoi := "";
      manualTitle := "";
      adding := false;
    }

    /** A manual add that fails its checks shows `message` and changes nothing else. */
    method Reject(message: string)
      modifies this
      ensures manualError == message
      ensures manualDoi == old(manualDoi) && manualTitle == old(manualTitle) && adding == old(adding)
      ensures preview == old(preview) && reports == old(reports)
      ensures importing == old(importing) && navigatedHome == old(navigatedHome)
    {
      manualError := message;
    }

    /** `handleManualAdd` on `today` with the new paper's id: check, then append and clear the inputs. */
    method ManualAdd(id: string, today: Date, save: SaveOutcome) returns (problem: Option<string>)
      modifies this, store
      ensures problem == ManualCheck(old(manualDoi), old(manualTitle), old(store.papers))
      ensures problem.Some? ==>
        && manualError == problem.value && store.papers == old(store.papers)
        && manualDoi == old(manualDoi) && manualTitle == old(manualTitle) && adding == old(adding)
      ensures problem.None? ==>
        && manualError == "" && !adding
        && store.papers == old(store.papers) + [ManualPaper(id, old(manualDoi), old(manualTitle), today)]
        && manualDoi == "" && manualTitle == ""
      ensures store.settings == old(store.settings) && store.isLoading == old(store.isLoading)
      ensures store.error == (if problem.None? && store.hasDirectory && save.SaveFailed?
                              then Some(SaveErrorPrefix + save.message) else old(store.error))
      ensures preview == old(preview) && reports == old(reports)
      ensures importing == old(importing) && navigatedHome == old(navigatedHome)
    {
      problem := ManualCheck(manualDoi, manualTitle, store.papers);
      if problem.Some? {
        Reject(problem.value);
      } else {
        var added := ManualPaper(id, manualDoi, manualTitle, today);
        AcceptManual(added, save);
      }
    }
  }
}
