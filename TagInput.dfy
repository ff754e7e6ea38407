/**
 * src/components/reading/TagInput.jsx: entering tags one at a time or as
 * a comma-separated batch, deleting the last tag with Backspace, and
 * removing a tag.
 */
module TagInput {
  import opened Wrappers
  import opened Strings
  import opened Lists

  datatype Key = Enter | Backspace | OtherKey

  /** What a key press does: the list handed to `onChange`, if it is called, and the new input text. */
  datatype KeyResult = KeyResult(newTags: Option<seq<string>>, input: string)

  /** A piece worth adding: non-empty and not yet a tag (it is trimmed before the test). */
  predicate IsFresh(t: string, tags: seq<string>) {
    |t| > 0 && t !in tags
  }

  function Fresh(tags: seq<string>): string -> bool {
    (t: string) => IsFresh(t, tags)
  }

  /** `t` is the trimmed text of one of `pieces`. */
  predicate TrimmedAmong(t: string, pieces: seq<string>) {
    exists k :: 0 <= k < |pieces| && t == Trim(pieces[k])
  }

  /** `t` is the trimmed text of one of the comma pieces of `input`. */
  predicate IsPieceOf(t: string, input: string) {
    TrimmedAmong(t, Split(input, ','))
  }

  /**
   * The new tags of a comma-separated batch: exactly the trimmed comma
   * pieces that are non-empty and not yet a tag. `BatchTagsConcat` and
   * `BatchOfPiece` give their order.
   */
  function BatchTags(tags: seq<string>, input: string): (batch: seq<string>)
    ensures forall i :: 0 <= i < |batch| ==> batch[i] != "" && IsTrimmed(batch[i]) && batch[i] !in tags
    ensures forall i :: 0 <= i < |batch| ==> IsPieceOf(batch[i], input)
    ensures forall k :: 0 <= k < |Split(input, ',')| && IsFresh(Trim(Split(input, ',')[k]), tags) ==>
      Trim(Split(input, ',')[k]) in batch
  {
    FreshPiecesTrimmed(Split(input, ','), tags);
    FreshPiecesKept(Split(input, ','), tags);
    Filter(TrimAll(Split(input, ',')), Fresh(tags))
  }

  /** The kept pieces are new, non-empty and trimmed, because every piece is trimmed before the filter. */
  lemma FreshPiecesTrimmed(pieces: seq<string>, tags: seq<string>)
    ensures forall i :: 0 <= i < |Filter(TrimAll(pieces), Fresh(tags))| ==>
      var t := Filter(TrimAll(pieces), Fresh(tags))[i]; t != "" && IsTrimmed(t) && t !in tags
  {
    var trimmed := TrimAll(pieces);
    var batch := Filter(trimmed, Fresh(tags));
    forall i | 0 <= i < |batch|
      ensures batch[i] != "" && IsTrimmed(batch[i]) && batch[i] !in tags
    {
      assert Fresh(tags)(batch[i]);
      FilterMembership(trimmed, Fresh(tags), batch[i]);
      var k :| 0 <= k < |trimmed| && trimmed[k] == batch[i];
    }
  }

  /** The filter keeps exactly the trimmed pieces that are fresh. */
  lemma FreshPiecesKept(pieces: seq<string>, tags: seq<string>)
    ensures forall i :: 0 <= i < |Filter(TrimAll(pieces), Fresh(tags))| ==>
      TrimmedAmong(Filter(TrimAll(pieces), Fresh(tags))[i], pieces)
    ensures forall k :: 0 <= k < |pieces| && IsFresh(Trim(pieces[k]), tags) ==>
      Trim(pieces[k]) in Filter(TrimAll(pieces), Fresh(tags))
  {
    var trimmed := TrimAll(pieces);
    var batch := Filter(trimmed, Fresh(tags));
    forall i | 0 <= i < |batch|
      ensures TrimmedAmong(batch[i], pieces)
    {
      FilterMembership(trimmed, Fresh(tags), batch[i]);
      var k :| 0 <= k < |trimmed| && trimmed[k] == batch[i];
    }
    forall k | 0 <= k < |pieces| && IsFresh(Trim(pieces[k]), tags)
      ensures Trim(pieces[k]) in batch
    {
      FilterMembership(trimmed, Fresh(tags), trimmed[k]);
    }
  }

  /** Text without a comma is one piece: the batch is its trimmed text when that is fresh, else nothing. */
  lemma BatchOfPiece(tags: seq<string>, p: string)
    requires ',' !in p
    ensures BatchTags(tags, p) == if IsFresh(Trim(p), tags) then [Trim(p)] else []
  {
    SplitSolid(p, [], ',');
    assert p + [] == p;
    assert Split(p, ',') == [p];
    assert TrimAll([p]) == [Trim(p)];
    FilterSingle(Trim(p), Fresh(tags));
  }

  /** The parts of a batch on either side of a comma are taken one after the other, in input order. */
  lemma BatchTagsConcat(tags: seq<string>, a: string, b: string)
    ensures BatchTags(tags, a + [','] + b) == BatchTags(tags, a) + BatchTags(tags, b)
  {
    SplitAtSep(a, b, ',');
    TrimAllConcat(Split(a, ','), Split(b, ','));
    FilterConcat(TrimAll(Split(a, ',')), TrimAll(Split(b, ',')), Fresh(tags));
  }

  /** `handleKeyDown` for key `key` with the current tags and input text. */
  function HandleKeyDown(tags: seq<string>, input: string, key: Key): (r: KeyResult)
    ensures key == Enter && !IsBlank(input) ==> r.input == ""
    ensures key == Enter && IsBlank(input) ==> r == KeyResult(None, input)
    ensures key == Enter && r.newTags.Some? ==> tags <= r.newTags.value && |r.newTags.value| > |tags|
    ensures key == Enter && ',' !in input && !IsBlank(input) ==>
      r.newTags == (if Trim(input) in tags then None else Some(tags + [Trim(input)]))
    ensures key == Enter && ',' in input && !IsBlank(input) ==>
      r.newTags == (if BatchTags(tags, input) == [] then None else Some(tags + BatchTags(tags, input)))
    ensures key == Backspace ==>
      r == KeyResult(if input == "" && |tags| > 0 then Some(tags[..|tags| - 1]) else None, input)
    ensures key == OtherKey ==> r == KeyResult(None, input)
  {
    if key == Enter && Trim(input) != "" then
      TrimEmptyIffBlank(input);
      if ',' in input then
        var batch := BatchTags(tags, input);
        KeyResult(if |batch| > 0 then Some(tags + batch) else None, "")
      else if Trim(input) !in tags then KeyResult(Some(tags + [Trim(input)]), "")
      else KeyResult(None, "")
    else
      TrimEmptyIffBlank(input);
      if key == Backspace && input == "" && |tags| > 0 then KeyResult(Some(tags[..|tags| - 1]), input)
      else KeyResult(None, input)
  }

  /** A single tag keeps a duplicate-free list duplicate-free. */
  lemma SingleTagKeepsNoDups(tags: seq<string>, input: string)
    requires NoDups(tags) && ',' !in input
    requires HandleKeyDown(tags, input, Enter).newTags.Some?
    ensures NoDups(HandleKeyDown(tags, input, Enter).newTags.value)
  {
    TrimEmptyIffBlank(input);
    var t := Trim(input);
    assert t !in tags && HandleKeyDown(tags, input, Enter).newTags.value == tags + [t];
    var r := tags + [t];
    forall i, j | 0 <= i < j < |r| ensures r[i] != r[j] {
      if j == |tags| {
        assert r[i] == tags[i];
      }
    }
  }

  /** The batch "x,x" of a trimmed piece `x` yields `x` twice. */
  lemma BatchOfRepeat(x: string)
    requires x != [] && IsTrimmed(x) && ',' !in x
    ensures BatchTags([], x + [','] + x) == [x, x]
  {
    BatchTagsConcat([], x, x);
    BatchOfPiece([], x);
    TrimOfTrimmed(x);
  }

  /** "x,x" holds a comma and is not blank. */
  lemma RepeatIsBatch(x: string)
    requires x != [] && IsTrimmed(x)
    ensures ',' in x + [','] + x && !IsBlank(x + [','] + x)
  {
    var input := x + [','] + x;
    assert input[|x|] == ',';
    assert !IsSpace(input[0]);
  }

  /**
   * A batch only skips what is already a tag: a piece repeated within the
   * batch, as in "a,a", is added twice.
   */
  lemma BatchKeepsRepeats(x: string)
    requires x != [] && IsTrimmed(x) && ',' !in x
    ensures HandleKeyDown([], x + [','] + x, Enter).newTags == Some([x, x])
  {
    var input := x + [','] + x;
    BatchOfRepeat(x);
    RepeatIsBatch(x);
    var r := HandleKeyDown([], input, Enter);
    assert r.newTags == Some([] + BatchTags([], input));
    assert [] + [x, x] == [x, x];
  }

  /** `removeTag(t)`: every copy of `t` removed, the other tags kept in order. */
  function RemoveTag(tags: seq<string>, t: string): (r: seq<string>)
    ensures t !in r && |r| <= |tags|
    ensures forall i :: 0 <= i < |tags| && tags[i] != t ==> tags[i] in r
    ensures forall i :: 0 <= i < |r| ==> r[i] in tags
  {
    RemoveAll(tags, t)
  }

  /** Removing a tag from the front part and the back part separately gives the same list: the order is kept. */
  lemma RemoveTagKeepsOrder(a: seq<string>, b: seq<string>, t: string)
    ensures RemoveTag(a + b, t) == RemoveTag(a, t) + RemoveTag(b, t)
  {
    RemoveAllConcat(a, b, t);
  }

  /** Backspace and then entering the removed tag again restores the list. */
  lemma BackspaceThenEnter(tags: seq<string>)
    requires |tags| > 0 && NoDups(tags)
    requires tags[|tags| - 1] != "" && IsTrimmed(tags[|tags| - 1]) && ',' !in tags[|tags| - 1]
    ensures var cut := HandleKeyDown(tags, "", Backspace).newTags.value;
      HandleKeyDown(cut, tags[|tags| - 1], Enter).newTags == Some(tags)
  {
    var last := tags[|tags| - 1];
    var cut := tags[..|tags| - 1];
    TrimOfTrimmed(last);
    TrimEmptyIffBlank(last);
    assert last !in cut;
    assert cut + [last] == tags;
  }
}
