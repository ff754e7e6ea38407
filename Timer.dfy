/**
 * src/components/reading/Timer.jsx: the session countdown shown while
 * reading. The elapsed seconds live in the reading page (its `Tick`);
 * this module is the arithmetic and the colour thresholds.
 */
module Timer {
  import opened Strings

  /** `Math.max(0, duration - elapsed)`, in seconds. */
  function Remaining(duration: int, elapsed: int): (r: nat)
    ensures r >= duration - elapsed
    ensures r == 0 || r == duration - elapsed
  {
    if duration - elapsed > 0 then duration - elapsed else 0
  }

  /** Each second the countdown drops by one, and it stops at zero. */
  lemma RemainingCountsDown(duration: int, elapsed: int)
    ensures Remaining(duration, elapsed + 1) == if Remaining(duration, elapsed) == 0 then 0 else Remaining(duration, elapsed) - 1
  {
  }

  /** `Math.floor(remaining / 60)` and `remaining % 60`, on a remaining time that is never negative. */
  function ClockParts(remaining: nat): (p: (nat, nat))
    ensures p.0 * 60 + p.1 == remaining
    ensures p.1 < 60
  {
    (remaining / 60, remaining % 60)
  }

  /** `String(x).padStart(2, '0')` on a decimal numeral. */
  function PadTwo(s: string): (r: string)
    requires |s| >= 1
    ensures |r| == if |s| >= 2 then |s| else 2
    ensures |s| >= 2 ==> r == s
    ensures r[|r| - |s|..] == s
  {
    if |s| >= 2 then s else ['0'] + s
  }

  /** Padding keeps the string a numeral of the same value. */
  lemma PadTwoValue(s: string)
    requires |s| >= 1
    requires forall i :: 0 <= i < |s| ==> IsDigit(s[i])
    ensures forall i :: 0 <= i < |PadTwo(s)| ==> IsDigit(PadTwo(s)[i])
    ensures Value(PadTwo(s)) == Value(s)
  {
    if |s| < 2 {
      ValueLeadingZero(s);
    }
  }

  /** A number has at most two digits exactly when it is below 100. */
  lemma DecimalTwoDigits(n: nat)
    ensures |Decimal(n)| <= 2 <==> n < 100
  {
    if n >= 10 {
      assert |Decimal(n)| == |Decimal(n / 10)| + 1;
      assert n / 10 < 10 <==> n < 100;
    }
  }

  /** `MM:SS` for a minute and a second count. */
  function ClockText(minutes: nat, seconds: nat): (d: string)
    ensures seconds < 100 ==> IsClock(d)
  {
    var mm := PadTwo(Decimal(minutes));
    var ss := PadTwo(Decimal(seconds));
    DecimalTwoDigits(seconds);
    PadTwoValue(Decimal(minutes));
    PadTwoValue(Decimal(seconds));
    if seconds < 100 then
      ColonJoin(mm, ss);
      mm + [':'] + ss
    else mm + [':'] + ss
  }

  /** A clock reading: the minute digits, a colon third from the end, two second digits. */
  predicate IsClock(d: string) {
    && |d| >= 5 && d[|d| - 3] == ':'
    && (forall i :: 0 <= i < |d| - 3 ==> IsDigit(d[i]))
    && IsDigit(d[|d| - 2]) && IsDigit(d[|d| - 1])
  }

  /** The number before the colon. */
  function ClockMinutes(d: string): nat
    requires IsClock(d)
  {
    Value(d[..|d| - 3])
  }

  /** The number after the colon. */
  function ClockSeconds(d: string): nat
    requires IsClock(d)
  {
    Value(d[|d| - 2..])
  }

  /** Two numerals around a colon make a clock reading that splits back into them. */
  lemma ColonJoin(mm: string, ss: string)
    requires |mm| >= 2 && |ss| == 2
    requires forall i :: 0 <= i < |mm| ==> IsDigit(mm[i])
    requires forall i :: 0 <= i < |ss| ==> IsDigit(ss[i])
    ensures IsClock(mm + [':'] + ss)
    ensures (mm + [':'] + ss)[..|mm|] == mm && (mm + [':'] + ss)[|mm| + 1..] == ss
  {
    var d := mm + [':'] + ss;
    assert d[|d| - 2] == ss[0] && d[|d| - 1] == ss[1];
    assert forall i :: 0 <= i < |mm| ==> d[i] == mm[i];
  }

  /** The text of a clock reading splits at its colon into the two numbers again. */
  lemma ClockTextReadsBack(minutes: nat, seconds: nat)
    requires seconds < 60
    ensures IsClock(ClockText(minutes, seconds))
    ensures ClockMinutes(ClockText(minutes, seconds)) == minutes
    ensures ClockSeconds(ClockText(minutes, seconds)) == seconds
    ensures minutes < 100 <==> |ClockText(minutes, seconds)| == 5
  {
    var mm := PadTwo(Decimal(minutes));
    var sec := PadTwo(Decimal(seconds));
    DecimalTwoDigits(seconds);
    DecimalTwoDigits(minutes);
    ValueOfDecimal(minutes);
    ValueOfDecimal(seconds);
    PadTwoValue(Decimal(minutes));
    PadTwoValue(Decimal(seconds));
    ColonJoin(mm, sec);
  }

  /** The countdown's `MM:SS` text. */
  function Display(remaining: nat): (d: string)
    ensures IsClock(d)
  {
    var p := ClockParts(remaining);
    ClockText(p.0, p.1)
  }

  /**
   * The display reads back as the remaining time, and under 100 minutes
   * it is exactly five characters long.
   */
  lemma DisplayReadsBack(remaining: nat)
    ensures IsClock(Display(remaining))
    ensures ClockMinutes(Display(remaining)) * 60 + ClockSeconds(Display(remaining)) == remaining
    ensures remaining < 6000 <==> |Display(remaining)| == 5
  {
    var p := ClockParts(remaining);
    ClockTextReadsBack(p.0, p.1);
    assert remaining < 6000 <==> p.0 < 100;
  }

  /** The countdown's colour class, from calm to alarmed. */
  datatype Tone = Calm | Yellow | Orange | TimeUp

  /** Remaining at most 300 s is orange, at most 600 s yellow, otherwise grey; zero overrides all. */
  function ToneOf(remaining: nat): (t: Tone)
    ensures t == TimeUp <==> remaining == 0
    ensures t == Orange <==> 0 < remaining <= 300
    ensures t == Yellow <==> 300 < remaining <= 600
    ensures t == Calm <==> remaining > 600
  {
    var t := if remaining <= 300 then Orange else if remaining <= 600 then Yellow else Calm;
    if remaining == 0 then TimeUp else t
  }

  /** The notice shown next to the countdown. */
  function Notice(remaining: nat): (n: string)
    ensures n != "" <==> ToneOf(remaining) == TimeUp
  {
    if remaining == 0 then "Zeit ist um!" else ""
  }

  function Severity(t: Tone): nat {
    match t
    case Calm => 0
    case Yellow => 1
    case Orange => 2
    case TimeUp => 3
  }

  /** Less time left never looks calmer. */
  lemma ToneMonotone(r1: nat, r2: nat)
    requires r1 <= r2
    ensures Severity(ToneOf(r1)) >= Severity(ToneOf(r2))
  {
  }

  /** As the seconds tick, the tone only ever escalates. */
  lemma ToneEscalates(duration: int, elapsed: int)
    ensures Severity(ToneOf(Remaining(duration, elapsed + 1))) >= Severity(ToneOf(Remaining(duration, elapsed)))
  {
    ToneMonotone(Remaining(duration, elapsed + 1), Remaining(duration, elapsed));
  }
}
