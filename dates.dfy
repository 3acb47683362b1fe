/** Proleptic Gregorian dates, standing for the parts of Go's `time` package
    that backend/internal/market/status.go uses: `time.Date` for a valid
    date, `Weekday`, and `AddDate(0, 0, ±1)`. Days are counted from
    0001-01-01, which is a Monday. */
module Dates {

  datatype Date = Date(year: int, month: int, day: int)

  predicate IsLeap(year: int) {
    year % 4 == 0 && (year % 100 != 0 || year % 400 == 0)
  }

  function DaysInMonth(year: int, month: int): (n: int)
    ensures 28 <= n <= 31
  {
    if month == 2 then (if IsLeap(year) then 29 else 28)
    else if month == 4 || month == 6 || month == 9 || month == 11 then 30
    else 31
  }

  /** A calendar date from year 1 on. */
  predicate Valid(d: Date) {
    d.year >= 1 && 1 <= d.month <= 12 && 1 <= d.day <= DaysInMonth(d.year, d.month)
  }

  function YearLength(year: int): int {
    if IsLeap(year) then 366 else 365
  }

  /** Days from 0001-01-01 to January 1 of `year`. */
  function DaysBeforeYear(year: int): int
    requires year >= 1
  {
    var p := year - 1;
    365 * p + p / 4 - p / 100 + p / 400
  }

  /** Days from January 1 to the first of `month` (month 13 stands for the
      end of the year). */
  function DaysBeforeMonth(year: int, month: int): int
    requires 1 <= month <= 13
  {
    [0, 31, 59, 90, 120, 151, 181, 212, 243, 273, 304, 334, 365][month - 1]
      + (if month > 2 && IsLeap(year) then 1 else 0)
  }

  /** Days from 0001-01-01 to `d`. */
  function DayNumber(d: Date): int
    requires Valid(d)
  {
    DaysBeforeYear(d.year) + DaysBeforeMonth(d.year, d.month) + d.day - 1
  }

  /** Day of the week with Sunday = 0, Monday = 1, ..., Saturday = 6. */
  function Weekday(d: Date): (w: int)
    requires Valid(d)
    ensures 0 <= w < 7
  {
    (DayNumber(d) + 1) % 7
  }

  const Sunday := 0
  const Monday := 1
  const Thursday := 4
  const Friday := 5
  const Saturday := 6

  /** The following day (`AddDate(0, 0, 1)`). */
  function NextDay(d: Date): (r: Date)
    requires Valid(d)
    ensures Valid(r)
  {
    if d.day < DaysInMonth(d.year, d.month) then Date(d.year, d.month, d.day + 1)
    else if d.month < 12 then Date(d.year, d.month + 1, 1)
    else Date(d.year + 1, 1, 1)
  }

  /** The preceding day (`AddDate(0, 0, -1)`); there is none before 0001-01-01. */
  function PrevDay(d: Date): (r: Date)
    requires Valid(d) && d != Date(1, 1, 1)
    ensures Valid(r)
  {
    if d.day > 1 then Date(d.year, d.month, d.day - 1)
    else if d.month > 1 then Date(d.year, d.month - 1, DaysInMonth(d.year, d.month - 1))
    else Date(d.year - 1, 12, 31)
  }

  /** `k` days later (`AddDate(0, 0, k)` for k >= 0). */
  function AddDays(d: Date, k: nat): (r: Date)
    requires Valid(d)
    ensures Valid(r)
    decreases k
  {
    if k == 0 then d else AddDays(NextDay(d), k - 1)
  }

  /** Going from p to p+1 raises p/n by one exactly at multiples of n. */
  lemma QuotientSteps(p: int)
    requires p >= 0
    ensures (p + 1) / 4 == p / 4 + (if (p + 1) % 4 == 0 then 1 else 0)
    ensures (p + 1) / 100 == p / 100 + (if (p + 1) % 100 == 0 then 1 else 0)
    ensures (p + 1) / 400 == p / 400 + (if (p + 1) % 400 == 0 then 1 else 0)
  {}

  /** January 1 of the next year is YearLength days later. */
  lemma DaysBeforeNextYear(year: int)
    requires year >= 1
    ensures DaysBeforeYear(year + 1) == DaysBeforeYear(year) + YearLength(year)
  {
    QuotientSteps(year - 1);
  }

  /** The twelve months fill the year, each taking DaysInMonth days. */
  lemma MonthsFillYear(year: int)
    ensures DaysBeforeMonth(year, 13) == YearLength(year)
    ensures forall m :: 1 <= m <= 12 ==> DaysBeforeMonth(year, m + 1) == DaysBeforeMonth(year, m) + DaysInMonth(year, m)
  {}

  /** NextDay advances the day number by one and the weekday by one. */
  lemma NextDayNumber(d: Date)
    requires Valid(d)
    ensures DayNumber(NextDay(d)) == DayNumber(d) + 1
    ensures Weekday(NextDay(d)) == (Weekday(d) + 1) % 7
  {
    if d.day < DaysInMonth(d.year, d.month) {
    } else if d.month < 12 {
      MonthsFillYear(d.year);
    } else {
      DaysBeforeNextYear(d.year);
      MonthsFillYear(d.year);
    }
    WeekdayStep(DayNumber(d) + 1);
  }

  lemma WeekdayStep(n: int)
    ensures (n + 1) % 7 == (n % 7 + 1) % 7
  {}

  /** PrevDay moves the day number back by one and undoes NextDay. */
  lemma PrevDayNumber(d: Date)
    requires Valid(d) && d != Date(1, 1, 1)
    ensures DayNumber(PrevDay(d)) == DayNumber(d) - 1
    ensures NextDay(PrevDay(d)) == d
  {
    if d.day == 1 && d.month == 1 {
      DaysBeforeNextYear(d.year - 1);
      MonthsFillYear(d.year - 1);
    }
  }

  /** Dates n days apart are n weekdays apart, modulo 7. */
  lemma WeekdayShift(d1: Date, d2: Date, n: int)
    requires Valid(d1) && Valid(d2) && DayNumber(d2) == DayNumber(d1) + n
    ensures Weekday(d2) == (Weekday(d1) + n) % 7
  {
    ModShift(DayNumber(d1) + 1, n);
  }

  lemma ModShift(a: int, n: int)
    ensures (a + n) % 7 == (a % 7 + n) % 7
  {}

  lemma {:induction false} AddDaysNumber(d: Date, k: nat)
    requires Valid(d)
    ensures DayNumber(AddDays(d, k)) == DayNumber(d) + k
    decreases k
  {
    if k > 0 {
      NextDayNumber(d);
      AddDaysNumber(NextDay(d), k - 1);
    }
  }

  /** Adding one more day is taking the next day. */
  lemma {:induction false} AddDaysSucc(d: Date, k: nat)
    requires Valid(d)
    ensures AddDays(d, k + 1) == NextDay(AddDays(d, k))
    decreases k
  {
    if k > 0 {
      AddDaysSucc(NextDay(d), k - 1);
    }
  }

  /** Day numbers identify dates. */
  lemma DayNumberInjective(d1: Date, d2: Date)
    requires Valid(d1) && Valid(d2) && DayNumber(d1) == DayNumber(d2)
    ensures d1 == d2
  {
    if d1.year != d2.year {
      if d1.year < d2.year {
        YearOrder(d1, d2);
      } else {
        YearOrder(d2, d1);
      }
    } else if d1.month != d2.month {
      if d1.month < d2.month {
        MonthOrder(d1.year, d1.month, d2.month);
      } else {
        MonthOrder(d1.year, d2.month, d1.month);
      }
    }
  }

  lemma MonthOrder(year: int, m1: int, m2: int)
    requires 1 <= m1 < m2 <= 13
    ensures DaysBeforeMonth(year, m2) >= DaysBeforeMonth(year, m1) + DaysInMonth(year, m1)
  {}

  lemma {:induction false} YearsGrow(y1: int, y2: int)
    requires 1 <= y1 < y2
    ensures DaysBeforeYear(y2) >= DaysBeforeYear(y1) + YearLength(y1)
    decreases y2 - y1
  {
    DaysBeforeNextYear(y1);
    if y1 + 1 < y2 {
      YearsGrow(y1 + 1, y2);
    }
  }

  /** Every date of an earlier year has a smaller day number. */
  lemma YearOrder(d1: Date, d2: Date)
    requires Valid(d1) && Valid(d2) && d1.year < d2.year
    ensures DayNumber(d1) < DayNumber(d2)
  {
    YearsGrow(d1.year, d2.year);
    if d1.month < 12 {
      MonthOrder(d1.year, d1.month, 13);
    }
    MonthsFillYear(d1.year);
  }
}
