/**
 * src/components/reading/ExcerptForm.jsx: the patches the excerpt form
 * hands to the reading page, adoption of AI suggestions, the splitting of
 * a list suggestion, the AI button's thresholds, the project checkboxes
 * and the citability labels.
 */
module ExcerptForm {
  import opened Wrappers
  import opened Strings
  import opened Lists
  import opened Records
  import opened Reading

  /** The three parts of an excerpt field. */
  datatype Part = UserInput | AiSuggestion | Final

  datatype TextName = MainClaims | CriticalNotes
  datatype ListName = Topics | KeyConcepts

  /** A field name as `canRequestAi` receives it. */
  datatype FieldName = TextFieldName(t: TextName) | ListFieldName(l: ListName) | OtherField(name: string)

  function TextPart(t: TextField, part: Part): string {
    match part
    case UserInput => t.userInput
    case AiSuggestion => t.aiSuggestion
    case Final => t.final
  }

  function ListPart(l: ListField, part: Part): seq<string> {
    match part
    case UserInput => l.userInput
    case AiSuggestion => l.aiSuggestion
    case Final => l.final
  }

  /** `{ ...t, [part]: v }`: that part replaced, the other two kept. */
  function WithTextPart(t: TextField, part: Part, v: string): (r: TextField)
    ensures TextPart(r, part) == v
    ensures forall q :: q != part ==> TextPart(r, q) == TextPart(t, q)
  {
    match part
    case UserInput => t.(userInput := v)
    case AiSuggestion => t.(aiSuggestion := v)
    case Final => t.(final := v)
  }

  /**
   * `{ ...l, [part]: v }`. Spreading a missing `key_concepts` object gives
   * an object with that part only; the others are taken as empty.
   */
  function WithListPart(l: Option<ListField>, part: Part, v: seq<string>): (r: ListField)
    ensures ListPart(r, part) == v
    ensures forall q :: q != part ==> ListPart(r, q) == (if l.Some? then ListPart(l.value, q) else [])
  {
    var base := l.GetOr(ListField([], [], []));
    match part
    case UserInput => base.(userInput := v)
    case AiSuggestion => base.(aiSuggestion := v)
    case Final => base.(final := v)
  }

  function TextOf(e: Excerpt, f: TextName): TextField {
    match f
    case MainClaims => e.mainClaims
    case CriticalNotes => e.criticalNotes
  }

  function ListOf(e: Excerpt, f: ListName): Option<ListField> {
    match f
    case Topics => Some(e.topics)
    case KeyConcepts => e.keyConcepts
  }

  /** `{ [f]: t }`. */
  function TextPatch(f: TextName, t: TextField): ExcerptPatch {
    match f
    case MainClaims => EmptyExcerptPatch.(mainClaims := Some(t))
    case CriticalNotes => EmptyExcerptPatch.(criticalNotes := Some(t))
  }

  /** `{ [f]: l }`. */
  function ListPatch(f: ListName, l: ListField): ExcerptPatch {
    match f
    case Topics => EmptyExcerptPatch.(topics := Some(l))
    case KeyConcepts => EmptyExcerptPatch.(keyConcepts := Some(Some(l)))
  }

  /** `handleFieldChange(f, part, v)` on a text field. */
  function TextFieldChange(e: Excerpt, f: TextName, part: Part, v: string): (u: ExcerptPatch)
    ensures TextPart(TextOf(MergeExcerpt(e, u), f), part) == v
  {
    TextPatch(f, WithTextPart(TextOf(e, f), part, v))
  }

  /** `handleFieldChange(f, part, v)` on a list field. */
  function ListFieldChange(e: Excerpt, f: ListName, part: Part, v: seq<string>): (u: ExcerptPatch)
    ensures ListOf(MergeExcerpt(e, u), f).Some? && ListPart(ListOf(MergeExcerpt(e, u), f).value, part) == v
  {
    ListPatch(f, WithListPart(ListOf(e, f), part, v))
  }

  /** A text-field change replaces exactly one part of one field; everything else is kept. */
  lemma TextFieldChangeReplacesOnePart(e: Excerpt, f: TextName, part: Part, v: string)
    ensures var r := MergeExcerpt(e, TextFieldChange(e, f, part, v));
      && TextPart(TextOf(r, f), part) == v
      && (forall q :: q != part ==> TextPart(TextOf(r, f), q) == TextPart(TextOf(e, f), q))
      && (forall g :: g != f ==> TextOf(r, g) == TextOf(e, g))
      && r.topics == e.topics && r.keyConcepts == e.keyConcepts
      && r.relevantProjects == e.relevantProjects && r.citability == e.citability
  {
  }

  /** A list-field change replaces exactly one part of one field; everything else is kept. */
  lemma ListFieldChangeReplacesOnePart(e: Excerpt, f: ListName, part: Part, v: seq<string>)
    requires ListOf(e, f).Some?
    ensures var r := MergeExcerpt(e, ListFieldChange(e, f, part, v));
      && ListOf(r, f).Some?
      && ListPart(ListOf(r, f).value, part) == v
      && (forall q :: q != part ==> ListPart(ListOf(r, f).value, q) == ListPart(ListOf(e, f).value, q))
      && (forall g :: g != f ==> ListOf(r, g) == ListOf(e, g))
      && r.mainClaims == e.mainClaims && r.criticalNotes == e.criticalNotes
      && r.relevantProjects == e.relevantProjects && r.citability == e.citability
  {
  }

  /** Adopting a text suggestion: `(user_input + '\n\n' + ai_suggestion).trim()`. */
  function AdoptText(t: TextField): (s: string)
    ensures IsTrimmed(s)
    ensures |s| <= |t.userInput| + 2 + |t.aiSuggestion|
  {
    Trim(t.userInput + "\n\n" + t.aiSuggestion)
  }

  /** A draft with no white space at its ends is kept, in full, at the start of the adopted text. */
  lemma AdoptTextKeepsDraft(t: TextField)
    requires t.userInput != [] && IsTrimmed(t.userInput)
    ensures t.userInput <= AdoptText(t)
  {
    var u := t.userInput;
    var s := u + "\n\n" + t.aiSuggestion;
    assert TrimStart(s) == s;
    var r := TrimEnd(s);
    assert s[|u| - 1] == u[|u| - 1];
    assert |r| >= |u|;
    assert r[..|u|] == s[..|u|] == u;
  }

  /** With a blank draft the adopted text is the trimmed suggestion. */
  lemma AdoptTextBlankDraft(t: TextField)
    requires IsBlank(t.userInput)
    ensures AdoptText(t) == Trim(t.aiSuggestion)
  {
    var ws := t.userInput + "\n\n";
    assert IsBlank(ws) by {
      forall i | 0 <= i < |ws| ensures IsSpace(ws[i]) {
        if i >= |t.userInput| {
          assert ws[i] == '\n';
        }
      }
    }
    TrimSkipsLeadingSpace(ws, t.aiSuggestion);
  }

  /** Adopting a list suggestion: `[...new Set([...user_input, ...ai_suggestion])]`. */
  function AdoptList(l: ListField): (r: seq<string>)
    ensures NoDups(r)
    ensures forall i :: 0 <= i < |r| ==> r[i] in l.userInput || r[i] in l.aiSuggestion
    ensures forall i :: 0 <= i < |l.userInput| ==> l.userInput[i] in r
    ensures forall i :: 0 <= i < |l.aiSuggestion| ==> l.aiSuggestion[i] in r
  {
    var both := l.userInput + l.aiSuggestion;
    assert forall i :: 0 <= i < |l.userInput| ==> l.userInput[i] == both[i];
    assert forall i :: 0 <= i < |l.aiSuggestion| ==> l.aiSuggestion[i] == both[|l.userInput| + i];
    Dedup(both)
  }

  /** A duplicate-free draft stays, in its order, at the front of the adopted list. */
  lemma AdoptListKeepsDraft(l: ListField)
    requires NoDups(l.userInput)
    ensures l.userInput <= AdoptList(l)
  {
    DedupPrefix(l.userInput, l.aiSuggestion);
    DedupOfNoDups(l.userInput);
  }

  /**
   * `adoptSuggestion(field)`: the patch setting the field's final part.
   * `None` where reading the field's parts throws: a missing
   * `key_concepts`, or a field without parts.
   */
  function AdoptSuggestion(e: Excerpt, f: FieldName): (u: Option<ExcerptPatch>)
    ensures f.TextFieldName? ==> u == Some(TextFieldChange(e, f.t, Final, AdoptText(TextOf(e, f.t))))
    ensures f.ListFieldName? && ListOf(e, f.l).Some? ==>
      u == Some(ListFieldChange(e, f.l, Final, AdoptList(ListOf(e, f.l).value)))
    ensures u.None? <==> f.OtherField? || (f.ListFieldName? && ListOf(e, f.l).None?)
  {
    match f
    case TextFieldName(t) => Some(TextFieldChange(e, t, Final, AdoptText(TextOf(e, t))))
    case ListFieldName(l) =>
      (match ListOf(e, l)
       case None => None
       case Some(field) => Some(ListFieldChange(e, l, Final, AdoptList(field))))
    case OtherField(_) => None
  }

  /** `suggestion.split(',').map(s => s.trim()).filter(Boolean)`. */
  function SplitSuggestion(s: string): (items: seq<string>)
    ensures forall i :: 0 <= i < |items| ==> items[i] != "" && IsTrimmed(items[i]) && ',' !in items[i]
  {
    var trimmed := TrimAll(Split(s, ','));
    TrimAllNoComma(Split(s, ','));
    var items := Filter(trimmed, NonEmpty());
    forall i | 0 <= i < |items|
      ensures items[i] != "" && IsTrimmed(items[i]) && ',' !in items[i]
    {
      FilterMembership(trimmed, NonEmpty(), items[i]);
      var k :| 0 <= k < |trimmed| && trimmed[k] == items[i];
    }
    items
  }

  /** Trimmed comma-free pieces stay comma-free. */
  lemma TrimAllNoComma(pieces: seq<string>)
    requires forall i :: 0 <= i < |pieces| ==> ',' !in pieces[i]
    ensures forall i :: 0 <= i < |pieces| ==> ',' !in TrimAll(pieces)[i]
  {
    forall i | 0 <= i < |pieces| ensures ',' !in TrimAll(pieces)[i] {
      TrimInfix(pieces[i]);
    }
  }

  /** `trim` keeps a contiguous part of its input. */
  lemma TrimInfix(s: string)
    ensures forall c :: c in Trim(s) ==> c in s
  {
    var t := TrimStart(s);
    assert forall c :: c in TrimEnd(t) ==> c in t;
    assert forall c :: c in t ==> c in s;
  }

  /** Every piece preceded by one space. */
  function Prefixed(parts: seq<string>): (r: seq<string>)
    ensures |r| == |parts|
    ensures forall i :: 0 <= i < |r| ==> r[i] == " " + parts[i]
  {
    seq(|parts|, i requires 0 <= i < |parts| => " " + parts[i])
  }

  /** Each piece after the first preceded by one space: what `join(', ')` puts between them. */
  function Spaced(parts: seq<string>): (r: seq<string>)
    requires |parts| >= 1
    ensures |r| == |parts| && r[0] == parts[0]
    ensures forall i :: 1 <= i < |r| ==> r[i] == " " + parts[i]
  {
    [parts[0]] + Prefixed(parts[1..])
  }

  /** Joining space-prefixed pieces with "," is one space and then the pieces joined with ", ". */
  lemma {:induction false} JoinPrefixed(parts: seq<string>)
    requires |parts| >= 1
    ensures Join(Prefixed(parts), ",") == " " + Join(parts, ", ")
    decreases |parts|
  {
    var ps := Prefixed(parts);
    if |parts| > 1 {
      JoinPrefixed(parts[1..]);
      assert ps[1..] == Prefixed(parts[1..]);
      var rest := Join(parts[1..], ", ");
      assert Join(ps, ",") == (" " + parts[0]) + "," + (" " + rest);
      assert (" " + parts[0]) + "," + (" " + rest) == " " + (parts[0] + ", " + rest);
    } else {
      assert ps == [" " + parts[0]];
    }
  }

  lemma CommaThenSpace(a: string, b: string)
    ensures a + "," + (" " + b) == a + ", " + b
  {
    assert "," + " " == ", ";
  }

  lemma JoinSpaced(parts: seq<string>)
    requires |parts| >= 1
    ensures Join(parts, ", ") == Join(Spaced(parts), ",")
  {
    var sp := Spaced(parts);
    if |parts| > 1 {
      JoinPrefixed(parts[1..]);
      assert sp[1..] == Prefixed(parts[1..]);
      var rest := Join(parts[1..], ", ");
      assert Join(sp, ",") == parts[0] + "," + (" " + rest);
      CommaThenSpace(parts[0], rest);
    } else {
      assert sp == [parts[0]];
    }
  }

  /**
   * Splitting a suggestion written as `items.join(', ')` gives the items
   * back, when none is empty, carries a comma or has white space at its ends.
   */
  lemma {:induction false} SplitSuggestionJoin(items: seq<string>)
    requires |items| >= 1
    requires forall i :: 0 <= i < |items| ==> items[i] != "" && IsTrimmed(items[i]) && ',' !in items[i]
    ensures SplitSuggestion(Join(items, ", ")) == items
  {
    JoinSpaced(items);
    var sp := Spaced(items);
    forall i | 0 <= i < |sp| ensures ',' !in sp[i] {
      if i > 0 {
        assert sp[i] == " " + items[i];
      }
    }
    SplitJoin(sp, ',');
    var trimmed := TrimAll(sp);
    assert trimmed == items by {
      forall i | 0 <= i < |items| ensures trimmed[i] == items[i] {
        if i > 0 {
          assert IsBlank(" ");
          TrimSkipsLeadingSpace(" ", items[i]);
        }
        TrimOfTrimmed(items[i]);
      }
    }
    FilterAll(items, NonEmpty());
  }

  /**
   * `canRequestAi(field)`: enough of the user's own input for the AI
   * button. `None` where reading a missing `key_concepts` throws.
   */
  function CanRequestAi(e: Excerpt, f: FieldName): (r: Option<bool>)
    ensures r.None? <==> f == ListFieldName(KeyConcepts) && e.keyConcepts.None?
    ensures f.OtherField? ==> r == Some(false)
    ensures r == Some(true) <==>
      || (f == TextFieldName(MainClaims) && |e.mainClaims.userInput| >= 50)
      || (f == ListFieldName(Topics) && |e.topics.userInput| >= 2)
      || (f == ListFieldName(KeyConcepts) && e.keyConcepts.Some? && |e.keyConcepts.value.userInput| >= 1)
      || (f == TextFieldName(CriticalNotes) && |e.criticalNotes.userInput| >= 20)
  {
    match f
    case TextFieldName(MainClaims) => Some(|e.mainClaims.userInput| >= 50)
    case ListFieldName(Topics) => Some(|e.topics.userInput| >= 2)
    case ListFieldName(KeyConcepts) =>
      if e.keyConcepts.None? then None else Some(|e.keyConcepts.value.userInput| >= 1)
    case TextFieldName(CriticalNotes) => Some(|e.criticalNotes.userInput| >= 20)
    case OtherField(_) => Some(false)
  }

  /** Typing more never disables the AI button. */
  lemma CanRequestAiMonotone(e: Excerpt, f: TextName, more: string)
    requires CanRequestAi(e, TextFieldName(f)) == Some(true)
    ensures var t := TextOf(e, f);
      CanRequestAi(MergeExcerpt(e, TextFieldChange(e, f, UserInput, t.userInput + more)), TextFieldName(f)) == Some(true)
  {
  }

  /** On a freshly started excerpt the key-concepts test throws. */
  lemma FreshExcerptKeyConceptsThrow()
    ensures CanRequestAi(CreateEmptyExcerpt(), ListFieldName(KeyConcepts)).None?
  {
  }

  /** Clicking a suggested tag: appended to `final` only when absent. */
  function AddSuggested(l: ListField, tag: string): (r: ListField)
    ensures tag in r.final && l.final <= r.final
    ensures tag in l.final ==> r.final == l.final
    ensures NoDups(l.final) ==> NoDups(r.final)
    ensures r.userInput == l.userInput && r.aiSuggestion == l.aiSuggestion
  {
    l.(final := AddIfAbsent(l.final, tag))
  }

  /** A project checkbox: checking appends the project, unchecking removes every copy of it. */
  function ToggleProject(projects: seq<string>, project: string, checked: bool): (r: seq<string>)
    ensures checked ==> r == projects + [project]
    ensures !checked ==> project !in r && |r| <= |projects|
    ensures !checked ==> forall x :: x != project ==> (x in r <==> x in projects)
  {
    if checked then projects + [project] else RemoveAll(projects, project)
  }

  /** Checking an unchecked project and unchecking it again restores the list. */
  lemma ToggleProjectRoundTrip(projects: seq<string>, project: string)
    requires project !in projects
    ensures ToggleProject(ToggleProject(projects, project, true), project, false) == projects
  {
    RemoveAllConcat(projects, [project], project);
    RemoveAbsent(projects, project);
    assert RemoveAll([project], project) == [];
  }

  /** `CITABILITY_LABELS[c]`: two scores per label; undefined outside 1 to 10. */
  function CitabilityLabel(c: int): (r: Option<string>)
    ensures r.Some? <==> 1 <= c <= 10
  {
    if c == 1 || c == 2 then Some("Müll")
    else if c == 3 || c == 4 then Some("Schwach")
    else if c == 5 || c == 6 then Some("Okay")
    else if c == 7 || c == 8 then Some("Gut")
    else if c == 9 || c == 10 then Some("Engel")
    else None
  }

  /** Two scores share a label exactly when they fall in the same pair 1-2, 3-4, 5-6, 7-8, 9-10. */
  lemma CitabilityLabelPairs(c1: int, c2: int)
    requires 1 <= c1 <= 10 && 1 <= c2 <= 10
    ensures CitabilityLabel(c1) == CitabilityLabel(c2) <==> (c1 + 1) / 2 == (c2 + 1) / 2
  {
  }

  /**
   * The notes textarea as written: two `handleFieldChange` calls, both
   * built from the excerpt of the current render, applied one after the
   * other. The second carries the old `user_input` and overwrites the first.
   */
  function NotesEditAsWritten(e: Excerpt, v: string): (r: Excerpt)
    ensures r.criticalNotes.final == v && r.criticalNotes.userInput == e.criticalNotes.userInput
  {
    MergeExcerpt(MergeExcerpt(e, TextFieldChange(e, CriticalNotes, UserInput, v)),
                 TextFieldChange(e, CriticalNotes, Final, v))
  }

  /** As written, the typed notes never reach `user_input`, which the textarea displays. */
  lemma NotesEditAsWrittenLosesInput(e: Excerpt, v: string)
    requires v != e.criticalNotes.userInput
    ensures NotesEditAsWritten(e, v).criticalNotes.userInput == e.criticalNotes.userInput
    ensures NotesEditAsWritten(e, v).criticalNotes.userInput != v
  {
  }

  /** The intended edit: one patch setting both `user_input` and `final`. */
  function NotesEdit(e: Excerpt, v: string): (u: ExcerptPatch)
    ensures u == EmptyExcerptPatch.(criticalNotes := u.criticalNotes)
    ensures u.criticalNotes.Some? && u.criticalNotes.value.userInput == v && u.criticalNotes.value.final == v
  {
    TextPatch(CriticalNotes, e.criticalNotes.(userInput := v, final := v))
  }

  /** The intended edit sets both parts, keeps the suggestion, and touches nothing else. */
  lemma NotesEditSetsBoth(e: Excerpt, v: string)
    ensures var r := MergeExcerpt(e, NotesEdit(e, v));
      && r.criticalNotes.userInput == v && r.criticalNotes.final == v
      && r.criticalNotes.aiSuggestion == e.criticalNotes.aiSuggestion
      && r == e.(criticalNotes := r.criticalNotes)
  {
  }

  /**
   * The topics tag input as written: the `user_input` patch, and while
   * `final` is still empty a second `final` patch, both built from the
   * excerpt of the current render.
   */
  function TopicsEditAsWritten(e: Excerpt, tags: seq<string>): (r: Excerpt)
    ensures r.topics.final == if e.topics.final == [] then tags else e.topics.final
    ensures r.topics.userInput == if e.topics.final == [] then e.topics.userInput else tags
  {
    var first := MergeExcerpt(e, ListFieldChange(e, Topics, UserInput, tags));
    if e.topics.final == [] then MergeExcerpt(first, ListFieldChange(e, Topics, Final, tags)) else first
  }

  /** As written, topics entered while `final` is empty reach `final` but not `user_input`, which the tag input displays. */
  lemma TopicsEditAsWrittenLosesInput(e: Excerpt, tags: seq<string>)
    requires e.topics.final == [] && tags != e.topics.userInput
    ensures TopicsEditAsWritten(e, tags).topics.userInput == e.topics.userInput
    ensures TopicsEditAsWritten(e, tags).topics.userInput != tags
    ensures TopicsEditAsWritten(e, tags).topics.final == tags
  {
  }

  /** The intended edit: one patch setting `user_input`, and `final` too while it is empty. */
  function TopicsEdit(e: Excerpt, tags: seq<string>): (u: ExcerptPatch)
    ensures u == EmptyExcerptPatch.(topics := u.topics)
    ensures u.topics.Some? && u.topics.value.userInput == tags
  {
    ListPatch(Topics, e.topics.(userInput := tags, final := if e.topics.final == [] then tags else e.topics.final))
  }

  /** The intended edit always records the entered topics, seeds an empty `final`, and touches nothing else. */
  lemma TopicsEditSetsInput(e: Excerpt, tags: seq<string>)
    ensures var r := MergeExcerpt(e, TopicsEdit(e, tags));
      && r.topics.userInput == tags
      && r.topics.final == (if e.topics.final == [] then tags else e.topics.final)
      && r.topics.aiSuggestion == e.topics.aiSuggestion
      && r == e.(topics := r.topics)
  {
  }

  /** The key-concepts tag input as written: the same pair of stale patches. */
  function ConceptsEditAsWritten(e: Excerpt, tags: seq<string>): (r: Excerpt)
    ensures r.keyConcepts.Some? && r.keyConcepts.value.final == tags
    ensures r.keyConcepts.value.userInput == if e.keyConcepts.Some? then e.keyConcepts.value.userInput else []
  {
    MergeExcerpt(MergeExcerpt(e, ListFieldChange(e, KeyConcepts, UserInput, tags)),
                 ListFieldChange(e, KeyConcepts, Final, tags))
  }

  /** As written, the entered concepts never reach `user_input`, which the tag input displays. */
  lemma ConceptsEditAsWrittenLosesInput(e: Excerpt, tags: seq<string>)
    requires e.keyConcepts.Some? && tags != e.keyConcepts.value.userInput
    ensures ConceptsEditAsWritten(e, tags).keyConcepts.value.userInput == e.keyConcepts.value.userInput
    ensures ConceptsEditAsWritten(e, tags).keyConcepts.value.userInput != tags
  {
  }

  /** The intended edit: one patch setting both `user_input` and `final`. */
  function ConceptsEdit(e: Excerpt, tags: seq<string>): (u: ExcerptPatch)
    ensures u == EmptyExcerptPatch.(keyConcepts := u.keyConcepts)
    ensures u.keyConcepts.Some? && u.keyConcepts.value.Some?
    ensures u.keyConcepts.value.value.userInput == tags && u.keyConcepts.value.value.final == tags
  {
    var base := e.keyConcepts.GetOr(ListField([], [], []));
    ListPatch(KeyConcepts, base.(userInput := tags, final := tags))
  }

  lemma ConceptsEditSetsBoth(e: Excerpt, tags: seq<string>)
    ensures var r := MergeExcerpt(e, ConceptsEdit(e, tags));
      && r.keyConcepts.Some?
      && r.keyConcepts.value.userInput == tags && r.keyConcepts.value.final == tags
      && r == e.(keyConcepts := r.keyConcepts)
  {
  }
}
