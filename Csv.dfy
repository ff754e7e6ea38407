/**
 * src/utils/csv.js: the validators for the DOI and date columns of an
 * imported CSV file. The host's `new Date(...)` check is a parameter.
 */
module Csv {
  import opened Wrappers
  import opened Strings
  import opened Dates

  /** `validateDOI(doi)`: a non-empty string whose trimmed form starts with "10.". */
  predicate ValidateDOI(doi: Option<string>): (ok: bool)
    ensures ok ==> doi.Some? && !IsBlank(doi.value)
    ensures doi.Some? && "10." <= doi.value ==> ok
  {
    if doi.Some? then
      DoiVerdictFacts(doi.value);
      doi.value != "" && "10." <= Trim(doi.value)
    else false
  }

  /** Both directions of the verdict's contract, for one string. */
  lemma DoiVerdictFacts(s: string)
    ensures s != "" && "10." <= Trim(s) ==> !IsBlank(s)
    ensures "10." <= s ==> s != "" && "10." <= Trim(s)
  {
    if s != "" && "10." <= Trim(s) {
      PrefixedTrimNotBlank(s);
    }
    if "10." <= s {
      PrefixKeptByTrim(s);
    }
  }

  /** A DOI whose trimmed form starts with "10." is not blank. */
  lemma PrefixedTrimNotBlank(s: string)
    requires "10." <= Trim(s)
    ensures !IsBlank(s)
  {
    TrimEmptyIffBlank(s);
    assert |Trim(s)| >= 3;
  }

  /** Trimming keeps a leading "10.", which holds no white space. */
  lemma PrefixKeptByTrim(s: string)
    requires "10." <= s
    ensures s != "" && "10." <= Trim(s)
  {
    DoiPrefixSolid();
    TrimKeepsSolidPrefix("10.", s);
  }

  lemma DoiPrefixSolid()
    ensures forall i :: 0 <= i < |"10."| ==> !IsSpace("10."[i])
  {
    assert "10."[0] == '1' && "10."[1] == '0' && "10."[2] == '.';
  }

  /** A blank string is no DOI. */
  lemma BlankFailsValidateDOI(ws: string)
    requires IsBlank(ws)
    ensures !ValidateDOI(Some(ws))
  {
    TrimEmptyIffBlank(ws);
  }

  /** White space before a DOI does not change the verdict. */
  lemma ValidateDOIIgnoresLeadingSpace(ws: string, doi: string)
    requires IsBlank(ws)
    ensures ValidateDOI(Some(ws + doi)) == ValidateDOI(Some(doi))
  {
    if doi == "" {
      assert ws + doi == ws;
      BlankFailsValidateDOI(ws);
    } else {
      PaddedTrim(ws, doi);
    }
  }

  lemma PaddedTrim(ws: string, doi: string)
    requires IsBlank(ws) && doi != ""
    ensures ws + doi != "" && Trim(ws + doi) == Trim(doi)
  {
    TrimSkipsLeadingSpace(ws, doi);
    assert |ws + doi| > 0;
  }

  /** A string that itself starts with "10." passes `validateDOI`. */
  lemma StartsWithPrefixValidates(doi: string)
    requires "10." <= doi
    ensures ValidateDOI(Some(doi))
  {
    PrefixKeptByTrim(doi);
  }

  /** The converse fails: `validateDOI` also accepts a DOI after white space, which does not itself start with "10.". */
  lemma ValidateDOIAcceptsPadded(ws: string, doi: string)
    requires IsBlank(ws) && ws != ""
    requires "10." <= doi
    ensures ValidateDOI(Some(ws + doi))
    ensures !("10." <= ws + doi)
  {
    ValidateDOIIgnoresLeadingSpace(ws, doi);
    StartsWithPrefixValidates(doi);
    assert (ws + doi)[0] == ws[0];
  }

  /** `/^\d{4}-\d{2}-\d{2}$/`: four digits, a dash, two digits, a dash, two digits. */
  predicate IsDatePattern(s: string) {
    && |s| == 10 && s[4] == '-' && s[7] == '-'
    && forall i :: 0 <= i < 10 && i != 4 && i != 7 ==> IsDigit(s[i])
  }

  /** `validateDate(dateStr)`; `hostValid` is whether `new Date(dateStr)` has a valid time. */
  predicate ValidateDate(s: string, hostValid: string -> bool): (ok: bool)
    ensures ok <==> IsDatePattern(s) && hostValid(s)
  {
    s != "" && IsDatePattern(s) && hostValid(s)
  }

  /**
   * Every date `validateDate` accepts is the `yyyy-MM-dd` text of the date
   * it spells, so accepted dates and formatted dates are the same texts.
   */
  lemma ValidDateShape(s: string, hostValid: string -> bool)
    requires ValidateDate(s, hostValid)
    ensures var d := ReadDate(s);
      0 <= d.year < 10000 && 0 <= d.month < 100 && 0 <= d.day < 100 && FormatDate(d) == s
  {
    FormatReadDate(s);
  }

  function Pow10(w: nat): nat {
    if w == 0 then 1 else 10 * Pow10(w - 1)
  }

  /** `n` written with exactly `w` digits, padded with zeros. */
  function Digits(n: nat, w: nat): (s: string)
    ensures |s| == w
    ensures forall i :: 0 <= i < |s| ==> IsDigit(s[i])
  {
    if w == 0 then "" else Digits(n / 10, w - 1) + [DigitChar(n % 10)]
  }

  /** Fixed-width digits read back as the number when it fits. */
  lemma {:induction false} ValueOfDigits(n: nat, w: nat)
    requires n < Pow10(w)
    ensures Value(Digits(n, w)) == n
  {
    if w > 0 {
      var s := Digits(n, w);
      assert s[..|s| - 1] == Digits(n / 10, w - 1);
      ValueOfDigits(n / 10, w - 1);
    }
  }

  /** Writing a string of digits' value with as many digits gives the string back. */
  lemma {:induction false} DigitsOfValue(s: string)
    requires forall i :: 0 <= i < |s| ==> IsDigit(s[i])
    ensures Digits(Value(s), |s|) == s
  {
    if s != [] {
      var init := s[..|s| - 1];
      DigitsOfValue(init);
      var d := DigitValue(s[|s| - 1]);
      assert Value(s) / 10 == Value(init) && Value(s) % 10 == d;
      assert DigitChar(d) == s[|s| - 1];
      assert s == init + [s[|s| - 1]];
    }
  }

  /** Fixed-width digit strings compare as text exactly as their numbers compare. */
  lemma {:induction false} DigitsLexOrder(m: nat, n: nat, w: nat)
    requires m < Pow10(w) && n < Pow10(w)
    ensures LexLe(Digits(m, w), Digits(n, w)) <==> m <= n
  {
    if w > 0 {
      var hm, hn := Digits(m / 10, w - 1), Digits(n / 10, w - 1);
      assert m / 10 < Pow10(w - 1) && n / 10 < Pow10(w - 1);
      DigitsLexOrder(m / 10, n / 10, w - 1);
      LexLeConcat(hm, [DigitChar(m % 10)], hn, [DigitChar(n % 10)]);
      ValueOfDigits(m / 10, w - 1);
      ValueOfDigits(n / 10, w - 1);
      assert hm == hn <==> m / 10 == n / 10;
      assert LexLe([DigitChar(m % 10)], [DigitChar(n % 10)]) <==> m % 10 <= n % 10;
      assert m == 10 * (m / 10) + m % 10 && n == 10 * (n / 10) + n % 10;
    }
  }

  /** `format(date, 'yyyy-MM-dd')` for a four-digit year. */
  function FormatDate(d: Date): (s: string)
    requires 0 <= d.year < 10000 && 0 <= d.month < 100 && 0 <= d.day < 100
    ensures IsDatePattern(s)
  {
    var s := Digits(d.year, 4) + "-" + Digits(d.month, 2) + "-" + Digits(d.day, 2);
    assert forall i :: 0 <= i < 4 ==> s[i] == Digits(d.year, 4)[i];
    assert forall i :: 5 <= i < 7 ==> s[i] == Digits(d.month, 2)[i - 5];
    assert forall i :: 8 <= i < 10 ==> s[i] == Digits(d.day, 2)[i - 8];
    s
  }

  /** The year, month and day a string of the pattern spells. */
  function ReadDate(s: string): Date
    requires IsDatePattern(s)
  {
    assert forall i :: 0 <= i < 4 ==> s[..4][i] == s[i];
    assert forall i :: 0 <= i < 2 ==> s[5..7][i] == s[i + 5] && s[8..][i] == s[i + 8];
    Date(Value(s[..4]), Value(s[5..7]), Value(s[8..]))
  }

  /** Formatting a date and reading it back gives the date. */
  lemma ReadFormattedDate(d: Date)
    requires 0 <= d.year < 10000 && 0 <= d.month < 100 && 0 <= d.day < 100
    ensures ReadDate(FormatDate(d)) == d
  {
    var s := FormatDate(d);
    assert s[..4] == Digits(d.year, 4);
    assert s[5..7] == Digits(d.month, 2);
    assert s[8..] == Digits(d.day, 2);
    ValueOfDigits(d.year, 4);
    ValueOfDigits(d.month, 2);
    ValueOfDigits(d.day, 2);
  }

  /** Reading a string of the pattern and formatting the date gives the string. */
  lemma FormatReadDate(s: string)
    requires IsDatePattern(s)
    ensures var d := ReadDate(s);
      0 <= d.year < 10000 && 0 <= d.month < 100 && 0 <= d.day < 100 && FormatDate(d) == s
  {
    var y, m, dd := s[..4], s[5..7], s[8..];
    PatternParts(s);
    DigitsOfValue(y);
    DigitsOfValue(m);
    DigitsOfValue(dd);
    DigitsBound(y);
    DigitsBound(m);
    DigitsBound(dd);
    assert Pow10(4) == 10000 && Pow10(2) == 100;
  }

  /** A string of the pattern is its year, month and day digits joined by dashes. */
  lemma PatternParts(s: string)
    requires IsDatePattern(s)
    ensures forall i :: 0 <= i < 4 ==> IsDigit(s[..4][i])
    ensures forall i :: 0 <= i < 2 ==> IsDigit(s[5..7][i]) && IsDigit(s[8..][i])
    ensures s == s[..4] + "-" + s[5..7] + "-" + s[8..]
  {
    assert forall i :: 0 <= i < 4 ==> s[..4][i] == s[i];
    assert forall i :: 0 <= i < 2 ==> s[5..7][i] == s[i + 5] && s[8..][i] == s[i + 8];
  }

  /** A string of `w` digits denotes a number below `10^w`. */
  lemma {:induction false} DigitsBound(s: string)
    requires forall i :: 0 <= i < |s| ==> IsDigit(s[i])
    ensures Value(s) < Pow10(|s|)
  {
    if s != [] {
      DigitsBound(s[..|s| - 1]);
    }
  }
}
