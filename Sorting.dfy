/**
 * `Array.prototype.sort` with a comparator, which JavaScript engines
 * implement as a stable sort: a stable insertion sort over a
 * "comes no later than" relation.
 */
module Sorting {
  import opened Lists

  /** Every element comes no later than every element after it. */
  predicate SortedBy<T>(s: seq<T>, le: (T, T) -> bool) {
    forall i, j :: 0 <= i < j < |s| ==> le(s[i], s[j])
  }

  /** `le` compares any two elements of `s` and is transitive on them. */
  ghost predicate PreorderOn<T>(s: seq<T>, le: (T, T) -> bool) {
    && (forall a, b :: a in s && b in s ==> le(a, b) || le(b, a))
    && (forall a, b, c :: a in s && b in s && c in s && le(a, b) && le(b, c) ==> le(a, c))
  }

  /** Puts `x` before the first element it comes no later than. */
  function Insert<T>(x: T, s: seq<T>, le: (T, T) -> bool): (r: seq<T>)
    ensures multiset(r) == multiset(s) + multiset{x}
    ensures |r| == |s| + 1
    decreases |s|
  {
    if |s| == 0 then [x]
    else if le(x, s[0]) then [x] + s
    else
      assert s == [s[0]] + s[1..];
      [s[0]] + Insert(x, s[1..], le)
  }

  function SortBy<T>(s: seq<T>, le: (T, T) -> bool): (r: seq<T>)
    ensures multiset(r) == multiset(s)
    ensures |r| == |s|
    decreases |s|
  {
    if |s| == 0 then []
    else
      assert s == [s[0]] + s[1..];
      Insert(s[0], SortBy(s[1..], le), le)
  }

  lemma {:induction false} InsertSorted<T>(x: T, s: seq<T>, le: (T, T) -> bool)
    requires SortedBy(s, le)
    requires PreorderOn(s + [x], le)
    ensures SortedBy(Insert(x, s, le), le)
    decreases |s|
  {
    if |s| > 0 {
      assert s[0] in s + [x] && x in s + [x];
      if le(x, s[0]) {
        forall j | 0 <= j < |s| ensures le(x, s[j]) {
          assert s[j] in s + [x];
        }
      } else {
        assert le(s[0], x);
        assert PreorderOn(s[1..] + [x], le) by {
          forall a | a in s[1..] + [x] ensures a in s + [x] {
            if a != x {
              assert a in s[1..];
            }
          }
        }
        InsertSorted(x, s[1..], le);
        var r := Insert(x, s[1..], le);
        forall j | 0 <= j < |r| ensures le(s[0], r[j]) {
          assert r[j] in multiset(r);
          assert r[j] in s[1..] + [x] by {
            assert r[j] in multiset(s[1..] + [x]);
          }
          if r[j] != x {
            var k :| 0 <= k < |s[1..]| && s[1..][k] == r[j];
            assert s[k + 1] == r[j];
          }
        }
      }
    }
  }

  /** The sorted list is ordered whenever `le` is a total preorder on the input. */
  lemma {:induction false} SortBySorted<T>(s: seq<T>, le: (T, T) -> bool)
    requires PreorderOn(s, le)
    ensures SortedBy(SortBy(s, le), le)
    decreases |s|
  {
    if |s| > 0 {
      assert PreorderOn(s[1..], le) by {
        forall a | a in s[1..] ensures a in s { }
      }
      SortBySorted(s[1..], le);
      var t := SortBy(s[1..], le);
      assert PreorderOn(t + [s[0]], le) by {
        forall a | a in t + [s[0]] ensures a in s {
          if a != s[0] {
            assert a in multiset(t);
            assert a in s[1..];
          }
        }
      }
      InsertSorted(s[0], t, le);
    }
  }

  /** The first `n` elements of a sorted sequence are sorted and drawn from it. */
  lemma TakeSorted<T>(s: seq<T>, le: (T, T) -> bool, n: nat)
    requires n <= |s| && SortedBy(s, le)
    ensures SortedBy(s[..n], le)
    ensures multiset(s[..n]) <= multiset(s)
  {
    assert s == s[..n] + s[n..];
  }

  /** An element of a sorted sequence outside its first `n` comes after each of them. */
  lemma TakeSortedBound<T>(s: seq<T>, le: (T, T) -> bool, n: nat, x: T)
    requires n <= |s| && SortedBy(s, le)
    requires x in s && x !in s[..n]
    ensures forall i :: 0 <= i < n ==> le(s[i], x)
  {
    var k :| 0 <= k < |s| && s[k] == x;
    assert n <= k;
  }

  /** Membership is unchanged by sorting. */
  lemma SortByMembership<T>(s: seq<T>, le: (T, T) -> bool, x: T)
    ensures x in SortBy(s, le) <==> x in s
  {
    assert x in SortBy(s, le) <==> x in multiset(SortBy(s, le));
    assert x in s <==> x in multiset(s);
  }

  /** Filtering a sequence with a given first element. */
  lemma FilterCons<T>(a: T, b: seq<T>, keep: T -> bool)
    ensures Filter([a] + b, keep) == (if keep(a) then [a] else []) + Filter(b, keep)
  {
    assert ([a] + b)[0] == a;
    assert ([a] + b)[1..] == b;
  }

  /** When `x` is kept, it comes no later than every kept element of `t`. */
  predicate LeadsKept<T>(x: T, t: seq<T>, le: (T, T) -> bool, keep: T -> bool) {
    keep(x) ==> forall i :: 0 <= i < |t| && keep(t[i]) ==> le(x, t[i])
  }

  /** `x` goes after a first element it does not come before. */
  lemma InsertAfterHead<T>(x: T, t: seq<T>, le: (T, T) -> bool)
    requires |t| > 0 && !le(x, t[0])
    ensures Insert(x, t, le) == [t[0]] + Insert(x, t[1..], le)
  {
  }

  /** What `x` leads in a sequence it also leads in the sequence's tail. */
  lemma LeadsKeptTail<T>(x: T, t: seq<T>, le: (T, T) -> bool, keep: T -> bool)
    requires |t| > 0 && LeadsKept(x, t, le, keep)
    ensures LeadsKept(x, t[1..], le, keep)
    ensures keep(x) && keep(t[0]) ==> le(x, t[0])
  {
    if keep(x) {
      forall i | 0 <= i < |t[1..]| && keep(t[1..][i])
        ensures le(x, t[1..][i])
      {
        assert t[1..][i] == t[i + 1];
      }
    }
  }

  /** A dropped first element changes neither side of a filtered equation. */
  lemma DroppedHead<T>(y: T, r: seq<T>, tail: seq<T>, h: seq<T>, keep: T -> bool)
    requires !keep(y) && Filter(r, keep) == h + Filter(tail, keep)
    ensures Filter([y] + r, keep) == h + Filter([y] + tail, keep)
  {
    FilterCons(y, r, keep);
    FilterCons(y, tail, keep);
  }

  /** Inserting an element the filter drops leaves the kept elements as they were. */
  lemma {:induction false} InsertFilterDropped<T>(x: T, t: seq<T>, le: (T, T) -> bool, keep: T -> bool)
    requires !keep(x)
    ensures Filter(Insert(x, t, le), keep) == Filter(t, keep)
    decreases |t|
  {
    if |t| == 0 || le(x, t[0]) {
      assert Insert(x, t, le) == [x] + t;
      FilterCons(x, t, keep);
    } else {
      InsertAfterHead(x, t, le);
      InsertFilterDropped(x, t[1..], le, keep);
      FilterCons(t[0], Insert(x, t[1..], le), keep);
      FilterCons(t[0], t[1..], keep);
      assert [t[0]] + t[1..] == t;
    }
  }

  /**
   * Inserting a kept element that comes no later than every kept element
   * puts it first among the kept elements and leaves the others in order.
   */
  lemma {:induction false} InsertFilterKept<T>(x: T, t: seq<T>, le: (T, T) -> bool, keep: T -> bool)
    requires keep(x) && LeadsKept(x, t, le, keep)
    ensures Filter(Insert(x, t, le), keep) == [x] + Filter(t, keep)
    decreases |t|
  {
    if |t| == 0 || le(x, t[0]) {
      assert Insert(x, t, le) == [x] + t;
      FilterCons(x, t, keep);
    } else {
      InsertAfterHead(x, t, le);
      LeadsKeptTail(x, t, le, keep);
      InsertFilterKept(x, t[1..], le, keep);
      DroppedHead(t[0], Insert(x, t[1..], le), t[1..], [x], keep);
      assert [t[0]] + t[1..] == t;
    }
  }

  /**
   * The sort is stable: elements that are kept and tie with one another
   * under `le` come out in the order they went in.
   */
  lemma {:induction false} SortByStable<T>(s: seq<T>, le: (T, T) -> bool, keep: T -> bool)
    requires forall a, b :: a in s && b in s && keep(a) && keep(b) ==> le(a, b)
    ensures Filter(SortBy(s, le), keep) == Filter(s, keep)
    decreases |s|
  {
    if |s| > 0 {
      assert s == [s[0]] + s[1..];
      SortByStable(s[1..], le, keep);
      var t := SortBy(s[1..], le);
      assert SortBy(s, le) == Insert(s[0], t, le);
      assert LeadsKept(s[0], t, le, keep) by {
        if keep(s[0]) {
          forall i | 0 <= i < |t| && keep(t[i])
            ensures le(s[0], t[i])
          {
            assert t[i] in multiset(t);
            assert t[i] in s[1..];
          }
        }
      }
      if keep(s[0]) {
        InsertFilterKept(s[0], t, le, keep);
      } else {
        InsertFilterDropped(s[0], t, le, keep);
      }
      FilterCons(s[0], s[1..], keep);
    }
  }
}
