/** Calendar arithmetic for the year window of the monthly report: the first
    millisecond of a year in UTC, counted from 1970-01-01T00:00:00.000Z in the
    proleptic Gregorian calendar JavaScript's `Date` uses. */
module Dates {

  const MsPerDay: int := 86400000

  predicate IsLeap(y: int) {
    y % 4 == 0 && (y % 100 != 0 || y % 400 == 0)
  }

  function DaysInYear(y: int): int {
    if IsLeap(y) then 366 else 365
  }

  /** The number of leap years among the years before `y` (counted from a
      fixed origin; only differences matter). Dafny's division rounds down
      for a positive divisor, as the count needs. */
  function LeapsBefore(y: int): int {
    (y - 1) / 4 - (y - 1) / 100 + (y - 1) / 400
  }

  /** `Date.UTC(y, 0, 1)`: the first millisecond of year `y`. */
  function YearStart(y: int): int {
    (365 * (y - 1970) + LeapsBefore(y) - LeapsBefore(1970)) * MsPerDay
  }

  /** The window `new Date("<y>-01-01T00:00:00.000Z")` to
      `new Date("<y>-12-31T23:59:59.999Z")`, both ends included. */
  predicate InYear(t: int, y: int) {
    YearStart(y) <= t <= YearStart(y + 1) - 1
  }

  /** The origin and two known instants: 1970 starts at 0,
      2000-01-01T00:00:00.000Z is 946684800000 and 2024-01-01T00:00:00.000Z
      is 1704067200000. */
  lemma KnownYearStarts()
    ensures YearStart(1970) == 0
    ensures YearStart(2000) == 946684800000
    ensures YearStart(2024) == 1704067200000
  {
  }

  /** One more multiple of `d` lies in `(y - 1, y]` exactly when `d` divides `y`. */
  lemma FloorStep(y: int)
    ensures y / 4 - (y - 1) / 4 == (if y % 4 == 0 then 1 else 0)
    ensures y / 100 - (y - 1) / 100 == (if y % 100 == 0 then 1 else 0)
    ensures y / 400 - (y - 1) / 400 == (if y % 400 == 0 then 1 else 0)
  {
  }

  /** Consecutive year starts are a year's days apart. */
  lemma YearLength(y: int)
    ensures YearStart(y + 1) - YearStart(y) == DaysInYear(y) * MsPerDay
  {
    FloorStep(y);
    var a := 365 * (y - 1970) + LeapsBefore(y) - LeapsBefore(1970);
    var b := 365 * (y + 1 - 1970) + LeapsBefore(y + 1) - LeapsBefore(1970);
    assert LeapsBefore(y + 1) - LeapsBefore(y) == (if IsLeap(y) then 1 else 0);
    assert b - a == DaysInYear(y);
    assert YearStart(y + 1) - YearStart(y) == (b - a) * MsPerDay;
  }

  /** Year starts increase with the year. */
  lemma {:induction false} YearStartMonotone(a: int, b: int)
    requires a <= b
    ensures YearStart(a) <= YearStart(b)
    decreases b - a
  {
    if a < b {
      YearLength(a);
      YearStartMonotone(a + 1, b);
    }
  }

  /** Every instant lies in at most one year window. */
  lemma YearWindowsDisjoint(t: int, y1: int, y2: int)
    requires InYear(t, y1) && InYear(t, y2)
    ensures y1 == y2
  {
    if y1 < y2 {
      YearStartMonotone(y1 + 1, y2);
    } else if y2 < y1 {
      YearStartMonotone(y2 + 1, y1);
    }
  }

  /** Every instant lies in some year window. */
  lemma {:induction false} YearWindowsCover(t: int, y: int)
    ensures exists z :: InYear(t, z)
    decreases if t < YearStart(y) then YearStart(y) - t else t - YearStart(y)
  {
    YearLength(y);
    YearLength(y - 1);
    if t < YearStart(y - 1) {
      YearWindowsCover(t, y - 1);
    } else if t < YearStart(y) {
      assert InYear(t, y - 1);
    } else if t >= YearStart(y + 1) {
      YearWindowsCover(t, y + 1);
    } else {
      assert InYear(t, y);
    }
  }
}
