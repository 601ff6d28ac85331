/**
 * The baseline instant of every score history: `Date.UTC(eventYear, 11, 1, 5)`
 * (graph.js line 10), that is 1 December of the event year at 05:00 UTC, in
 * milliseconds since 1970-01-01T00:00:00Z on the proleptic Gregorian calendar.
 */
module CivilTime {

  const MillisPerHour := 3_600_000
  const MillisPerDay := 24 * MillisPerHour

  /** Date.UTC reads a year from 0 to 99 as 1900 to 1999. */
  function UtcYear(year: int): int
  {
    if 0 <= year <= 99 then 1900 + year else year
  }

  predicate IsLeapYear(y: int)
  {
    y % 4 == 0 && (y % 100 != 0 || y % 400 == 0)
  }

  /** Leap years in 1 .. y (a negative count below year 1); Dafny's division
      by a positive divisor rounds down, as the count needs. */
  function LeapYearsThrough(y: int): int
  {
    y / 4 - y / 100 + y / 400
  }

  /** Days from 1970-01-01 to 1 January of year y. */
  function DaysToYear(y: int): int
  {
    365 * (y - 1970) + LeapYearsThrough(y - 1) - LeapYearsThrough(1969)
  }

  /** Days in January to November of year y. */
  function DaysBeforeDecember(y: int): int
  {
    31 + (if IsLeapYear(y) then 29 else 28) + 31 + 30 + 31 + 30 + 31 + 31 + 30 + 31 + 30
  }

  /** Days from 1970-01-01 to 1 December of year y. */
  function DaysToDecember1(y: int): int
  {
    DaysToYear(y) + DaysBeforeDecember(y)
  }

  /** Milliseconds from the epoch to 1 December of the event year, 05:00 UTC. */
  function BaseTime(eventYear: int): int
  {
    DaysToDecember1(UtcYear(eventYear)) * MillisPerDay + 5 * MillisPerHour
  }

  /** Each of the three divisions in the count steps up exactly at a multiple. */
  lemma QuotientsStep(y: int)
    ensures y / 4 - (y - 1) / 4 == if y % 4 == 0 then 1 else 0
    ensures y / 100 - (y - 1) / 100 == if y % 100 == 0 then 1 else 0
    ensures y / 400 - (y - 1) / 400 == if y % 400 == 0 then 1 else 0
  {
  }

  /** Exactly the leap years add one to the running count. */
  lemma LeapYearsStep(y: int)
    ensures LeapYearsThrough(y) - LeapYearsThrough(y - 1) == if IsLeapYear(y) then 1 else 0
  {
    QuotientsStep(y);
    assert y % 400 == 0 ==> y % 100 == 0;
    assert y % 100 == 0 ==> y % 4 == 0;
  }

  /** A calendar year has 365 days, 366 in a leap year. */
  lemma {:induction false} DaysToYearStep(y: int)
    ensures DaysToYear(y + 1) - DaysToYear(y) == if IsLeapYear(y) then 366 else 365
  {
    LeapYearsStep(y);
  }

  /** From 1 December to the next is 366 days exactly when the February in
      between has 29 days. */
  lemma DecemberStep(y: int)
    ensures DaysToDecember1(y + 1) - DaysToDecember1(y) == if IsLeapYear(y + 1) then 366 else 365
  {
    DaysToYearStep(y);
  }

  /** From one baseline to the next is one year of days: 366 exactly when
      the February in between has 29 days. Years 99 and -1 are excluded:
      Date.UTC reads 99 as 1999 but 100 as 100, and -1 as -1 but 0 as 1900. */
  lemma BaseTimeYearApart(year: int)
    requires year != 99 && year != -1
    ensures BaseTime(year + 1) - BaseTime(year)
         == (if IsLeapYear(year + 1) then 366 else 365) * MillisPerDay
  {
    var y := UtcYear(year);
    assert UtcYear(year + 1) == y + 1;
    assert IsLeapYear(y + 1) == IsLeapYear(year + 1);
    DecemberStep(y);
  }

  /** A two-digit year is taken to be in the twentieth century. */
  lemma BaseTimeTwoDigitYear(year: int)
    requires 0 <= year <= 99
    ensures BaseTime(year) == BaseTime(1900 + year)
  {
  }

  /** Anchors: 1970-12-01T05:00Z and 2018-12-01T05:00Z. */
  lemma BaseTimeKnownValues()
    ensures BaseTime(1970) == 28_875_600_000
    ensures BaseTime(2018) == 1_543_640_400_000
  {
  }
}
