/**
 * The JavaScript string primitives the application relies on: `trim`,
 * `toLowerCase`, `includes`, `startsWith`, `split` and `join`, over
 * strings as sequences of characters.
 */
module Strings {

  /** The characters `String.prototype.trim` removes (WhiteSpace and LineTerminator). */
  predicate IsSpace(c: char) {
    || c == ' ' || c == '\t' || c == '\n' || c == '\r'
    || c == '\U{000B}' || c == '\U{000C}' || c == '\U{00A0}' || c == '\U{FEFF}'
    || c == '\U{1680}' || ('\U{2000}' <= c <= '\U{200A}') || c == '\U{2028}'
    || c == '\U{2029}' || c == '\U{202F}' || c == '\U{205F}' || c == '\U{3000}'
  }

  /** A string made of white space only (the empty string included). */
  predicate IsBlank(s: string) {
    forall i :: 0 <= i < |s| ==> IsSpace(s[i])
  }

  /** A string that `trim` leaves as it is. */
  predicate IsTrimmed(s: string) {
    s == [] || (!IsSpace(s[0]) && !IsSpace(s[|s| - 1]))
  }

  function TrimStart(s: string): (r: string)
    ensures |r| <= |s| && r == s[|s| - |r|..]
    ensures IsBlank(s[..|s| - |r|])
    ensures r == [] || !IsSpace(r[0])
  {
    if s != [] && IsSpace(s[0]) then
      var r := TrimStart(s[1..]);
      assert s[..|s| - |r|] == [s[0]] + s[1..][..|s| - 1 - |r|];
      r
    else s
  }

  function TrimEnd(s: string): (r: string)
    ensures |r| <= |s| && r == s[..|r|]
    ensures IsBlank(s[|r|..])
    ensures r == [] || !IsSpace(r[|r| - 1])
  {
    if s != [] && IsSpace(s[|s| - 1]) then TrimEnd(s[..|s| - 1]) else s
  }

  /** `s.trim()`: the infix left after removing white space at both ends. */
  function Trim(s: string): (r: string)
    ensures IsTrimmed(r)
    ensures |r| <= |s|
  {
    var t := TrimStart(s);
    var r := TrimEnd(t);
    assert r != [] ==> r[0] == t[0];
    r
  }

  /** `s.trim()` is empty exactly when `s` is blank, the falsy case of `s.trim()`. */
  lemma {:induction false} TrimEmptyIffBlank(s: string)
    ensures Trim(s) == [] <==> IsBlank(s)
  {
    var t := TrimStart(s);
    if Trim(s) == [] {
      assert IsBlank(t[0..]);
      assert s == s[..|s| - |t|] + t;
    }
  }

  /** Trimming a string that has no white space at its ends changes nothing. */
  lemma TrimOfTrimmed(s: string)
    requires IsTrimmed(s)
    ensures Trim(s) == s
  {
  }

  /** `trim` is idempotent. */
  lemma TrimIdempotent(s: string)
    ensures Trim(Trim(s)) == Trim(s)
  {
    TrimOfTrimmed(Trim(s));
  }

  /** Leading white space does not survive `trim`. */
  lemma {:induction false} TrimSkipsLeadingSpace(ws: string, s: string)
    requires IsBlank(ws)
    ensures Trim(ws + s) == Trim(s)
  {
    if ws != [] {
      assert (ws + s)[1..] == ws[1..] + s;
      TrimSkipsLeadingSpace(ws[1..], s);
    } else {
      assert ws + s == s;
    }
  }

  /** Trailing white space does not survive `trimEnd`. */
  lemma {:induction false} TrimEndSkipsTrailingSpace(s: string, ws: string)
    requires IsBlank(ws)
    ensures TrimEnd(s + ws) == TrimEnd(s)
    decreases |ws|
  {
    if ws != [] {
      var t := s + ws;
      assert t[..|t| - 1] == s + ws[..|ws| - 1];
      TrimEndSkipsTrailingSpace(s, ws[..|ws| - 1]);
    } else {
      assert s + ws == s;
    }
  }

  /** A trimmed, non-empty string followed by white space trims back to itself. */
  lemma TrimTrailingSpace(s: string, ws: string)
    requires IsTrimmed(s) && s != []
    requires IsBlank(ws)
    ensures Trim(s + ws) == s
  {
    assert (s + ws)[0] == s[0];
    assert TrimStart(s + ws) == s + ws;
    TrimEndSkipsTrailingSpace(s, ws);
    assert TrimEnd(s) == s;
  }

  /** A string that starts with a non-space character keeps every non-space prefix under `trim`. */
  lemma TrimKeepsSolidPrefix(p: string, s: string)
    requires p <= s
    requires forall i :: 0 <= i < |p| ==> !IsSpace(p[i])
    ensures p <= Trim(s)
  {
    if p != [] {
      assert TrimStart(s) == s;
      TrimEndKeepsSolidPrefix(p, s);
    }
  }

  lemma {:induction false} TrimEndKeepsSolidPrefix(p: string, s: string)
    requires p <= s
    requires forall i :: 0 <= i < |p| ==> !IsSpace(p[i])
    ensures p <= TrimEnd(s)
  {
    if s != [] && IsSpace(s[|s| - 1]) {
      assert |p| < |s|;
      assert p <= s[..|s| - 1];
      TrimEndKeepsSolidPrefix(p, s[..|s| - 1]);
    }
  }

  /** ASCII upper case to lower case; other characters are left alone. */
  function LowerChar(c: char): char {
    if 'A' <= c <= 'Z' then (c as int + 32) as char else c
  }

  /** `s.toLowerCase()` on the ASCII letters. */
  function Lower(s: string): (r: string)
    ensures |r| == |s|
    ensures forall i :: 0 <= i < |s| ==> r[i] == LowerChar(s[i])
  {
    seq(|s|, i requires 0 <= i < |s| => LowerChar(s[i]))
  }

  lemma LowerConcat(a: string, b: string)
    ensures Lower(a + b) == Lower(a) + Lower(b)
  {
  }

  /** `s.includes(sub)`: `sub` occurs in `s` at some position. */
  predicate Contains(s: string, sub: string)
    decreases |s|
  {
    sub <= s || (s != [] && Contains(s[1..], sub))
  }

  /** An occurrence at position `i` makes `sub` contained in `s`. */
  lemma {:induction false} ContainsAt(s: string, sub: string, i: nat)
    requires i <= |s| && sub <= s[i..]
    ensures Contains(s, sub)
    decreases i
  {
    if i == 0 {
      assert s[0..] == s;
    } else {
      assert s[1..][i - 1..] == s[i..];
      ContainsAt(s[1..], sub, i - 1);
    }
  }

  /** A contained string occurs at some position. */
  lemma {:induction false} ContainsFind(s: string, sub: string) returns (i: nat)
    requires Contains(s, sub)
    ensures i <= |s| - |sub| && sub <= s[i..]
    decreases |s|
  {
    if sub <= s {
      i := 0;
      assert s[0..] == s;
    } else {
      var j := ContainsFind(s[1..], sub);
      i := j + 1;
      assert s[1..][j..] == s[i..];
    }
  }

  lemma ContainsWitness(s: string, sub: string)
    ensures Contains(s, sub) <==> exists i :: 0 <= i <= |s| - |sub| && sub <= s[i..]
  {
    if exists i :: 0 <= i <= |s| - |sub| && sub <= s[i..] {
      var i :| 0 <= i <= |s| - |sub| && sub <= s[i..];
      ContainsAt(s, sub, i);
    }
    if Contains(s, sub) {
      var i := ContainsFind(s, sub);
    }
  }

  /** Whatever is contained in the middle of a concatenation is contained in the whole. */
  lemma ContainsInfix(a: string, b: string, c: string)
    ensures Contains(a + b + c, b)
  {
    ContainsWitness(a + b + c, b);
    assert b <= (a + b + c)[|a|..];
  }

  /** Every string contains the empty string (`s.includes('')` is true). */
  lemma ContainsEmpty(s: string)
    ensures Contains(s, [])
  {
  }

  /** `s.split(sep)`: the pieces between separators, with empty pieces kept. */
  function Split(s: string, sep: char): (r: seq<string>)
    ensures |r| >= 1
    ensures forall k :: 0 <= k < |r| ==> sep !in r[k]
    decreases |s|
  {
    if |s| == 0 then [""]
    else if s[0] == sep then [""] + Split(s[1..], sep)
    else
      var rest := Split(s[1..], sep);
      [[s[0]] + rest[0]] + rest[1..]
  }

  /** `parts.join(sep)` with a one-character separator. */
  function Join(parts: seq<string>, sep: string): string
    decreases |parts|
  {
    if |parts| == 0 then ""
    else if |parts| == 1 then parts[0]
    else parts[0] + sep + Join(parts[1..], sep)
  }

  /** Joining the pieces of a split gives back the original string. */
  lemma {:induction false} JoinSplit(s: string, sep: char)
    ensures Join(Split(s, sep), [sep]) == s
  {
    if |s| == 0 {
    } else if s[0] == sep {
      JoinSplit(s[1..], sep);
      assert s == [sep] + s[1..];
    } else {
      var rest := Split(s[1..], sep);
      JoinSplit(s[1..], sep);
      var r := Split(s, sep);
      assert r[1..] == rest[1..];
      if |rest| == 1 {
        assert s == [s[0]] + rest[0];
      } else {
        assert Join(rest, [sep]) == rest[0] + [sep] + Join(rest[1..], [sep]);
        assert s == [s[0]] + s[1..];
      }
    }
  }

  /** Splitting a join of separator-free pieces gives back the pieces. */
  lemma {:induction false} SplitJoin(parts: seq<string>, sep: char)
    requires |parts| >= 1
    requires forall k :: 0 <= k < |parts| ==> sep !in parts[k]
    ensures Split(Join(parts, [sep]), sep) == parts
  {
    if |parts| == 1 {
      SplitSolid(parts[0], [], sep);
      assert parts[0] + [] == parts[0];
    } else {
      SplitJoin(parts[1..], sep);
      assert Join(parts, [sep]) == parts[0] + ([sep] + Join(parts[1..], [sep]));
      var tail := [sep] + Join(parts[1..], [sep]);
      SplitSolid(parts[0], tail, sep);
      assert tail[0] == sep && tail[1..] == Join(parts[1..], [sep]);
      assert Split(tail, sep) == [""] + parts[1..];
      var r := Split(parts[0] + tail, sep);
      assert r[0] == parts[0] + "" == parts[0];
      assert r == [r[0]] + r[1..];
    }
  }

  /** Splitting at a separator splits each side separately: the pieces of `a` come first, then those of `b`. */
  lemma {:induction false} SplitAtSep(a: string, b: string, sep: char)
    ensures Split(a + [sep] + b, sep) == Split(a, sep) + Split(b, sep)
    decreases |a|
  {
    var whole := a + [sep] + b;
    if |a| == 0 {
      assert whole == [sep] + b;
      assert whole[1..] == b;
    } else {
      assert whole[0] == a[0] && whole[1..] == a[1..] + [sep] + b;
      SplitAtSep(a[1..], b, sep);
    }
  }

  /** A separator-free head becomes the head of the first piece. */
  lemma {:induction false} SplitSolid(a: string, b: string, sep: char)
    requires sep !in a
    ensures var r := Split(a + b, sep);
      var rb := Split(b, sep);
      |r| == |rb| && r[0] == a + rb[0] && r[1..] == rb[1..]
  {
    if a != [] {
      assert (a + b)[1..] == a[1..] + b;
      SplitSolid(a[1..], b, sep);
      assert a == [a[0]] + a[1..];
    } else {
      assert a + b == b;
    }
  }

  /** `items.map(s => s.trim())`. */
  function TrimAll(items: seq<string>): (r: seq<string>)
    ensures |r| == |items|
    ensures forall i :: 0 <= i < |r| ==> r[i] == Trim(items[i])
  {
    seq(|items|, i requires 0 <= i < |items| => Trim(items[i]))
  }

  /** Trimming each item of a concatenation trims each part. */
  lemma TrimAllConcat(a: seq<string>, b: seq<string>)
    ensures TrimAll(a + b) == TrimAll(a) + TrimAll(b)
  {
  }

  /** `Boolean` on a string: only the empty string is falsy. */
  function NonEmpty(): string -> bool {
    (s: string) => s != ""
  }

  /** A substring of a substring is a substring. */
  lemma ContainsTrans(s: string, t: string, u: string)
    requires Contains(s, t) && Contains(t, u)
    ensures Contains(s, u)
  {
    ContainsWitness(s, t);
    ContainsWitness(t, u);
    var i :| 0 <= i <= |s| - |t| && t <= s[i..];
    var j :| 0 <= j <= |t| - |u| && u <= t[j..];
    forall k | 0 <= k < |u|
      ensures u[k] == s[i + j..][k]
    {
      assert u[k] == t[j + k] == s[i + j + k];
    }
    assert u <= s[i + j..];
    ContainsWitness(s, u);
  }

  /** Text put in front keeps every substring. */
  lemma {:induction false} ContainsAfterPrefix(x: string, s: string, t: string)
    requires Contains(s, t)
    ensures Contains(x + s, t)
  {
    if x != [] {
      assert (x + s)[1..] == x[1..] + s;
      ContainsAfterPrefix(x[1..], s, t);
    } else {
      assert x + s == s;
    }
  }

  /** Lower-casing keeps substrings. */
  lemma LowerContains(s: string, t: string)
    requires Contains(s, t)
    ensures Contains(Lower(s), Lower(t))
  {
    ContainsWitness(s, t);
    var i :| 0 <= i <= |s| - |t| && t <= s[i..];
    assert Lower(t) <= Lower(s)[i..];
    ContainsWitness(Lower(s), Lower(t));
  }

  /** Every part is a substring of the joined text. */
  lemma {:induction false} JoinContainsPart(parts: seq<string>, sep: string, k: nat)
    requires k < |parts|
    ensures Contains(Join(parts, sep), parts[k])
  {
    if k == 0 {
      assert parts[0] <= Join(parts, sep);
    } else {
      JoinContainsPart(parts[1..], sep, k - 1);
      ContainsAfterPrefix(parts[0] + sep, Join(parts[1..], sep), parts[k]);
    }
  }

  /**
   * The relational comparison of two strings (`a <= b`, and the default
   * order of `Array.prototype.sort`): character by character, with a
   * prefix first.
   */
  predicate LexLe(a: string, b: string)
    decreases |a|
  {
    if a == [] then true
    else if b == [] then false
    else if a[0] != b[0] then a[0] < b[0]
    else LexLe(a[1..], b[1..])
  }

  lemma {:induction false} LexTotal(a: string, b: string)
    ensures LexLe(a, b) || LexLe(b, a)
    decreases |a|
  {
    if a != [] && b != [] && a[0] == b[0] {
      LexTotal(a[1..], b[1..]);
    }
  }

  lemma {:induction false} LexTrans(a: string, b: string, c: string)
    requires LexLe(a, b) && LexLe(b, c)
    ensures LexLe(a, c)
    decreases |a|
  {
    if a != [] && a[0] == b[0] && b[0] == c[0] {
      LexTrans(a[1..], b[1..], c[1..]);
    }
  }

  /** Comparing two texts whose heads have one length compares the heads first, then the rests. */
  lemma {:induction false} LexLeConcat(x1: string, x2: string, y1: string, y2: string)
    requires |x1| == |y1|
    ensures LexLe(x1 + x2, y1 + y2) <==> (x1 != y1 && LexLe(x1, y1)) || (x1 == y1 && LexLe(x2, y2))
    decreases |x1|
  {
    if x1 == [] {
      assert x1 + x2 == x2 && y1 + y2 == y2;
    } else {
      assert (x1 + x2)[0] == x1[0] && (y1 + y2)[0] == y1[0];
      assert (x1 + x2)[1..] == x1[1..] + x2 && (y1 + y2)[1..] == y1[1..] + y2;
      LexLeConcat(x1[1..], x2, y1[1..], y2);
      if x1[0] == y1[0] {
        assert x1 == [x1[0]] + x1[1..] && y1 == [y1[0]] + y1[1..];
        assert x1 == y1 <==> x1[1..] == y1[1..];
      }
    }
  }

  lemma {:induction false} LexAntisymmetric(a: string, b: string)
    requires LexLe(a, b) && LexLe(b, a)
    ensures a == b
    decreases |a|
  {
    if a != [] {
      LexAntisymmetric(a[1..], b[1..]);
      assert a == [a[0]] + a[1..] && b == [b[0]] + b[1..];
    }
  }

  function DigitChar(d: nat): char
    requires d < 10
  {
    ('0' as int + d) as char
  }

  predicate IsDigit(c: char) {
    '0' <= c <= '9'
  }

  function DigitValue(c: char): nat
    requires IsDigit(c)
  {
    c as int - '0' as int
  }

  /** `String(n)` for a number that is never negative: its decimal digits, no leading zero. */
  function Decimal(n: nat): (s: string)
    ensures |s| >= 1
    ensures forall i :: 0 <= i < |s| ==> IsDigit(s[i])
    ensures |s| > 1 ==> s[0] != '0'
    ensures n < 10 <==> |s| == 1
  {
    if n < 10 then [DigitChar(n)] else Decimal(n / 10) + [DigitChar(n % 10)]
  }

  /** The number a string of digits denotes. */
  function Value(s: string): nat
    requires forall i :: 0 <= i < |s| ==> IsDigit(s[i])
  {
    if s == [] then 0 else Value(s[..|s| - 1]) * 10 + DigitValue(s[|s| - 1])
  }

  /** Reading the digits back gives the number. */
  lemma {:induction false} ValueOfDecimal(n: nat)
    ensures Value(Decimal(n)) == n
  {
    if n >= 10 {
      var s := Decimal(n);
      assert s[..|s| - 1] == Decimal(n / 10);
      ValueOfDecimal(n / 10);
    }
  }

  /** A leading zero does not change the value. */
  lemma {:induction false} ValueLeadingZero(s: string)
    requires forall i :: 0 <= i < |s| ==> IsDigit(s[i])
    ensures Value(['0'] + s) == Value(s)
  {
    if s != [] {
      var t := ['0'] + s;
      assert t[..|t| - 1] == ['0'] + s[..|s| - 1];
      ValueLeadingZero(s[..|s| - 1]);
    }
  }
}
