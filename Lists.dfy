/**
 * The array operations the application composes: `filter`, `find`,
 * `includes`-guarded append, removal of every equal element and the
 * order-preserving de-duplication of `[...new Set(xs)]`.
 */
module Lists {
  import opened Wrappers

  predicate NoDups<T(==)>(s: seq<T>) {
    forall i, j :: 0 <= i < j < |s| ==> s[i] != s[j]
  }

  /** `s.filter(keep)`. */
  function Filter<T>(s: seq<T>, keep: T -> bool): (r: seq<T>)
    ensures |r| <= |s|
    ensures forall i :: 0 <= i < |r| ==> keep(r[i])
    decreases |s|
  {
    if |s| == 0 then []
    else (if keep(s[0]) then [s[0]] else []) + Filter(s[1..], keep)
  }

  lemma {:induction false} FilterMembership<T>(s: seq<T>, keep: T -> bool, x: T)
    ensures x in Filter(s, keep) <==> x in s && keep(x)
  {
    if |s| > 0 {
      FilterMembership(s[1..], keep, x);
      assert s == [s[0]] + s[1..];
    }
  }

  lemma {:induction false} FilterMultiset<T>(s: seq<T>, keep: T -> bool)
    ensures multiset(Filter(s, keep)) <= multiset(s)
  {
    if |s| > 0 {
      FilterMultiset(s[1..], keep);
      assert s == [s[0]] + s[1..];
    }
  }

  lemma {:induction false} FilterConcat<T>(a: seq<T>, b: seq<T>, keep: T -> bool)
    ensures Filter(a + b, keep) == Filter(a, keep) + Filter(b, keep)
  {
    if |a| == 0 {
      assert a + b == b;
    } else {
      var head := if keep(a[0]) then [a[0]] else [];
      assert (a + b)[0] == a[0];
      assert (a + b)[1..] == a[1..] + b;
      FilterConcat(a[1..], b, keep);
      calc {
        Filter(a + b, keep);
        head + Filter(a[1..] + b, keep);
        head + (Filter(a[1..], keep) + Filter(b, keep));
        (head + Filter(a[1..], keep)) + Filter(b, keep);
        Filter(a, keep) + Filter(b, keep);
      }
    }
  }

  /** A one-element list keeps its element exactly when it passes. */
  lemma FilterSingle<T>(x: T, keep: T -> bool)
    ensures Filter([x], keep) == if keep(x) then [x] else []
  {
    assert [x][1..] == [];
  }

  /** Filtering the first `n` elements gives a prefix of filtering them all. */
  lemma FilterTake<T>(s: seq<T>, n: nat, keep: T -> bool)
    requires n <= |s|
    ensures Filter(s[..n], keep) <= Filter(s, keep)
  {
    assert s == s[..n] + s[n..];
    FilterConcat(s[..n], s[n..], keep);
  }

  /** A filter that keeps everything is the identity. */
  lemma {:induction false} FilterAll<T>(s: seq<T>, keep: T -> bool)
    requires forall i :: 0 <= i < |s| ==> keep(s[i])
    ensures Filter(s, keep) == s
  {
    if |s| > 0 {
      FilterAll(s[1..], keep);
    }
  }

  /**
   * Replacing a kept element by one the filter drops removes exactly that
   * element from the filtered multiset.
   */
  lemma FilterReplaceDropped<T>(s: seq<T>, i: nat, x: T, keep: T -> bool)
    requires i < |s| && keep(s[i]) && !keep(x)
    ensures multiset(Filter(s[i := x], keep)) + multiset{s[i]} == multiset(Filter(s, keep))
    ensures |Filter(s[i := x], keep)| + 1 == |Filter(s, keep)|
  {
    assert s == s[..i] + [s[i]] + s[i + 1..];
    assert s[i := x] == s[..i] + [x] + s[i + 1..];
    FilterConcat(s[..i] + [s[i]], s[i + 1..], keep);
    FilterConcat(s[..i], [s[i]], keep);
    FilterConcat(s[..i] + [x], s[i + 1..], keep);
    FilterConcat(s[..i], [x], keep);
  }

  /** The sizes of the parts a filter keeps and drops add up to the whole. */
  lemma {:induction false} FilterPartition<T>(s: seq<T>, keep: T -> bool)
    ensures |Filter(s, keep)| + |Filter(s, x => !keep(x))| == |s|
  {
    if |s| > 0 {
      FilterPartition(s[1..], keep);
    }
  }

  /** `s.findIndex(keep)`, as an option: the first position whose element is kept. */
  function FindFirst<T>(s: seq<T>, keep: T -> bool): (r: Option<nat>)
    ensures r.Some? ==> r.value < |s| && keep(s[r.value])
    ensures r.Some? ==> forall j :: 0 <= j < r.value ==> !keep(s[j])
    ensures r.None? ==> forall j :: 0 <= j < |s| ==> !keep(s[j])
    decreases |s|
  {
    if |s| == 0 then None
    else if keep(s[0]) then Some(0)
    else match FindFirst(s[1..], keep)
      case None => None
      case Some(k) => Some(k + 1)
  }

  /** `s.filter(y => y !== x)`: every occurrence of `x` removed. */
  function RemoveAll<T(==)>(s: seq<T>, x: T): (r: seq<T>)
    ensures x !in r
    ensures forall i :: 0 <= i < |r| ==> r[i] in s
    ensures forall i :: 0 <= i < |s| && s[i] != x ==> s[i] in r
  {
    var r := Filter(s, y => y != x);
    FilterMembership(s, y => y != x, x);
    forall i | 0 <= i < |r| ensures r[i] in s {
      FilterMembership(s, z => z != x, r[i]);
    }
    forall i | 0 <= i < |s| && s[i] != x ensures s[i] in r {
      FilterMembership(s, z => z != x, s[i]);
    }
    r
  }

  /** Removing an element that is absent changes nothing. */
  lemma RemoveAbsent<T>(s: seq<T>, x: T)
    requires x !in s
    ensures RemoveAll(s, x) == s
  {
    FilterAll(s, y => y != x);
  }

  /** Removal keeps the other elements in their order: removing from `a + b` is removing from each. */
  lemma RemoveAllConcat<T>(a: seq<T>, b: seq<T>, x: T)
    ensures RemoveAll(a + b, x) == RemoveAll(a, x) + RemoveAll(b, x)
  {
    FilterConcat(a, b, y => y != x);
  }

  /** Removal from a duplicate-free list leaves it duplicate-free. */
  lemma {:induction false} RemoveAllNoDups<T>(s: seq<T>, x: T)
    requires NoDups(s)
    ensures NoDups(RemoveAll(s, x))
  {
    if |s| > 0 {
      RemoveAllNoDups(s[1..], x);
      assert RemoveAll(s, x) == Filter(s, y => y != x);
      FilterMembership(s[1..], y => y != x, s[0]);
      assert s[0] !in s[1..];
    }
  }

  /** `s.includes(x) ? s : [...s, x]`. */
  function AddIfAbsent<T(==)>(s: seq<T>, x: T): (r: seq<T>)
    ensures x in r
    ensures s <= r && |r| <= |s| + 1
    ensures x in s ==> r == s
    ensures NoDups(s) ==> NoDups(r)
  {
    if x in s then s else s + [x]
  }

  /** Adding twice is adding once. */
  lemma AddIfAbsentIdempotent<T>(s: seq<T>, x: T)
    ensures AddIfAbsent(AddIfAbsent(s, x), x) == AddIfAbsent(s, x)
  {
  }

  /** `[...new Set(s)]`: the first occurrence of every element, in order. */
  function Dedup<T(==)>(s: seq<T>): (r: seq<T>)
    ensures NoDups(r)
    ensures forall i :: 0 <= i < |r| ==> r[i] in s
    ensures forall i :: 0 <= i < |s| ==> s[i] in r
    ensures |r| <= |s|
    decreases |s|
  {
    if |s| == 0 then []
    else
      var init := s[..|s| - 1];
      var d := Dedup(init);
      assert forall i :: 0 <= i < |s| - 1 ==> s[i] == init[i];
      if s[|s| - 1] in d then d else d + [s[|s| - 1]]
  }

  /** A duplicate-free list is its own de-duplication. */
  lemma {:induction false} DedupOfNoDups<T>(s: seq<T>)
    requires NoDups(s)
    ensures Dedup(s) == s
  {
    if |s| > 0 {
      DedupOfNoDups(s[..|s| - 1]);
    }
  }

  /** De-duplicating one more element keeps what was there before. */
  lemma DedupSnoc<T>(s: seq<T>)
    requires |s| > 0
    ensures Dedup(s[..|s| - 1]) <= Dedup(s)
  {
  }

  /** De-duplicating a longer list extends the de-duplication of its prefix. */
  lemma {:induction false} DedupPrefix<T>(a: seq<T>, b: seq<T>)
    ensures Dedup(a) <= Dedup(a + b)
    decreases |b|
  {
    if |b| == 0 {
      assert a + b == a;
    } else {
      var c := a + b;
      assert c[..|c| - 1] == a + b[..|b| - 1];
      DedupPrefix(a, b[..|b| - 1]);
      DedupSnoc(c);
    }
  }

  /** In a duplicate-free list every element occurs once. */
  lemma {:induction false} NoDupsCount<T>(s: seq<T>, x: T)
    requires NoDups(s)
    ensures multiset(s)[x] <= 1
  {
    if |s| > 0 {
      NoDupsCount(s[1..], x);
      assert s == [s[0]] + s[1..];
      if s[0] == x {
        assert x !in s[1..];
      }
    }
  }

  /** Any reordering of a duplicate-free list is duplicate-free. */
  lemma NoDupsPermutation<T>(a: seq<T>, b: seq<T>)
    requires multiset(a) == multiset(b) && NoDups(a)
    ensures NoDups(b)
  {
    forall i, j | 0 <= i < j < |b|
      ensures b[i] != b[j]
    {
      if b[i] == b[j] {
        var x := b[i];
        assert b == b[..j] + b[j..];
        assert x in b[..j] && x in b[j..];
        assert multiset(b)[x] == multiset(b[..j])[x] + multiset(b[j..])[x];
        NoDupsCount(a, x);
        assert false;
      }
    }
  }
}
