/**
 * Calendar dates as Python's `datetime.date` accepts them: the proleptic
 * Gregorian calendar, years 1 through 9999.
 */
module Calendar {

  datatype Date = Date(year: nat, month: nat, day: nat)

  const MIN_YEAR := 1
  const MAX_YEAR := 9999

  predicate IsLeapYear(y: int) {
    y % 4 == 0 && (y % 100 != 0 || y % 400 == 0)
  }

  function DaysInMonth(y: int, m: int): (n: int)
    requires 1 <= m <= 12
    ensures 28 <= n <= 31
    ensures n == 29 <==> m == 2 && IsLeapYear(y)
    ensures n == 28 <==> m == 2 && !IsLeapYear(y)
  {
    if m == 2 then (if IsLeapYear(y) then 29 else 28)
    else if m == 4 || m == 6 || m == 9 || m == 11 then 30
    else 31
  }

  /** A date that `datetime.date(year, month, day)` constructs without a ValueError. */
  predicate IsValid(d: Date)
    ensures IsValid(d) ==> 1 <= d.year <= 9999 && 1 <= d.month <= 12 && 1 <= d.day <= 31
  {
    MIN_YEAR <= d.year <= MAX_YEAR && 1 <= d.month <= 12 && 1 <= d.day <= DaysInMonth(d.year, d.month)
  }

  /** February 29th exists exactly in leap years. */
  lemma LeapDayValid(y: nat)
    requires MIN_YEAR <= y <= MAX_YEAR
    ensures IsValid(Date(y, 2, 29)) <==> IsLeapYear(y)
  {
  }

  /** The 31st exists exactly in January, March, May, July, August, October and December. */
  lemma ThirtyFirstValid(y: nat, m: nat)
    requires MIN_YEAR <= y <= MAX_YEAR
    ensures IsValid(Date(y, m, 31)) <==> m in {1, 3, 5, 7, 8, 10, 12}
  {
  }
}
