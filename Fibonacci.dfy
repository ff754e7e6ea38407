/**
 * src/utils/fibonacci.js: the twelve-entry table of review intervals in
 * weeks, the next review date and the expiry test with its "999 years
 * means never" sentinel.
 */
module Fibonacci {
  import opened Dates

  const FibonacciWeeks: seq<int> := [1, 1, 2, 3, 5, 8, 13, 21, 34, 55, 89, 144]

  /** The sentinel expiry that never expires. */
  const NeverExpires: int := 999

  /** The interval for a position in the table, clamped at both ends. */
  function GetFibonacciWeeks(index: int): (w: int)
    ensures 1 <= w <= 144
  {
    if index < 0 then FibonacciWeeks[0]
    else if index >= |FibonacciWeeks| then FibonacciWeeks[|FibonacciWeeks| - 1]
    else FibonacciWeeks[index]
  }

  /** A negative index gives the first entry, an index past the end the last. */
  lemma GetFibonacciWeeksClamps(index: int)
    ensures index < 0 ==> GetFibonacciWeeks(index) == 1
    ensures index >= 12 ==> GetFibonacciWeeks(index) == 144
    ensures 0 <= index < 12 ==> GetFibonacciWeeks(index) == FibonacciWeeks[index]
  {
  }

  /** Each entry is the sum of the two before it. */
  lemma FibonacciWeeksRecurrence(k: nat)
    requires k + 2 < |FibonacciWeeks|
    ensures FibonacciWeeks[k + 2] == FibonacciWeeks[k] + FibonacciWeeks[k + 1]
  {
  }

  lemma GetFibonacciWeeksStep(i: int)
    ensures GetFibonacciWeeks(i) <= GetFibonacciWeeks(i + 1)
  {
    if 0 <= i < 10 {
      FibonacciWeeksRecurrence(i);
    }
  }

  /** Intervals never shrink as the index grows. */
  lemma {:induction false} GetFibonacciWeeksMonotone(i: int, j: int)
    requires i <= j
    ensures GetFibonacciWeeks(i) <= GetFibonacciWeeks(j)
    decreases j - i
  {
    if i < j {
      GetFibonacciWeeksStep(i);
      GetFibonacciWeeksMonotone(i + 1, j);
    }
  }

  /** `weeks * 7` calendar days after `currentDate`. */
  function CalculateNextReviewDate(currentDate: Date, fibonacciIndex: int): (next: Date)
    requires Valid(currentDate)
    ensures Valid(next)
    ensures Ordinal(next) == Ordinal(currentDate) + 7 * GetFibonacciWeeks(fibonacciIndex)
  {
    AddDaysOrdinal(currentDate, 7 * GetFibonacciWeeks(fibonacciIndex));
    AddDays(currentDate, 7 * GetFibonacciWeeks(fibonacciIndex))
  }

  /** The next review date is at least a week and at most 144 weeks away. */
  lemma NextReviewDateBounds(currentDate: Date, fibonacciIndex: int)
    requires Valid(currentDate)
    ensures var next := CalculateNextReviewDate(currentDate, fibonacciIndex);
      Before(currentDate, next)
      && Ordinal(currentDate) + 7 <= Ordinal(next) <= Ordinal(currentDate) + 7 * 144
  {
  }

  /**
   * Whether a review on `nextReviewDate` falls after the paper's relevance
   * horizon, `expiryYears` years after it was added.
   */
  predicate IsExpired(paperAddedDate: Date, expiryYears: int, nextReviewDate: Date): (expired: bool)
    requires Valid(paperAddedDate) && Valid(nextReviewDate)
    ensures expired ==>
      expiryYears != NeverExpires && Ordinal(nextReviewDate) > Ordinal(AddYears(paperAddedDate, expiryYears))
  {
    if expiryYears == NeverExpires then false
    else Before(AddYears(paperAddedDate, expiryYears), nextReviewDate)
  }

  /** With the sentinel no date is ever expired; otherwise expiry is "strictly after the horizon". */
  lemma IsExpiredMeaning(added: Date, years: int, review: Date)
    requires Valid(added) && Valid(review)
    ensures years == NeverExpires ==> !IsExpired(added, years, review)
    ensures years != NeverExpires ==>
      (IsExpired(added, years, review) <==> Ordinal(review) > Ordinal(AddYears(added, years)))
    ensures years != NeverExpires && review == AddYears(added, years) ==> !IsExpired(added, years, review)
  {
  }

  /** A later review date never turns an expired paper back into a current one. */
  lemma IsExpiredMonotone(added: Date, years: int, r1: Date, r2: Date)
    requires Valid(added) && Valid(r1) && Valid(r2)
    requires Ordinal(r1) <= Ordinal(r2)
    requires IsExpired(added, years, r1)
    ensures IsExpired(added, years, r2)
  {
  }
}
