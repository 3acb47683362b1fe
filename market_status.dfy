/** NYSE market calendar and status (backend/internal/market/status.go). The
    input is an Eastern local date-time: a valid date and the minute of the
    day. The trading boundaries 09:30 and 16:00 are whole minutes, so the
    minute decides every comparison with them exactly. */
module MarketStatus {
  import opened Dates
  import opened Wrappers

  /** An Eastern local date-time at minute granularity. */
  datatype DateTime = DateTime(date: Date, minute: int)

  predicate ValidTime(t: DateTime) {
    Valid(t.date) && 0 <= t.minute < 24 * 60
  }

  /** 09:30 and 16:00 as minutes of the day. */
  const OpenMinute := 9 * 60 + 30
  const CloseMinute := 16 * 60

  // ---------------------------------------------------------------------
  // Easter and Good Friday
  // ---------------------------------------------------------------------

  /** `computeEaster`: the Anonymous Gregorian algorithm, written as three
      steps (the epact h, the weekday correction l, and the late-March
      correction m). For year >= 1 every operand is non-negative, so Dafny's
      `/` and `%` agree with Go's. Easter falls between March 22 and April 25. */
  function ComputeEaster(year: int): (easter: Date)
    requires year >= 1
    ensures easter.year == year && Valid(easter)
    ensures (easter.month == 3 && 22 <= easter.day <= 31) || (easter.month == 4 && 1 <= easter.day <= 25)
  {
    var h := EasterH(year);
    var l := EasterL(year, h);
    var m := EasterM(year, h, l);
    EasterOffset(year % 19, h, l, m);
    Date(year, (h + l - 7 * m + 114) / 31, (h + l - 7 * m + 114) % 31 + 1)
  }

  /** The epact step: a = year mod 19, the century corrections d and g. */
  function EasterH(year: int): (h: int)
    requires year >= 1
    ensures 0 <= h < 30
  {
    var a := year % 19;
    var b := year / 100;
    var d := b / 4;
    var f := (b + 8) / 25;
    var g := (b - f + 1) / 3;
    (19 * a + b - d - g + 15) % 30
  }

  /** The weekday step, with e = century mod 4, i and k the quotient and
      remainder of the year within the century by 4. */
  function EasterL(year: int, h: int): (l: int)
    requires year >= 1
    ensures 0 <= l < 7
  {
    var b := year / 100;
    var c := year % 100;
    var e := b % 4;
    var i := c / 4;
    var k := c % 4;
    (32 + 2 * e + 2 * i - h - k) % 7
  }

  function EasterM(year: int, h: int, l: int): int
    requires year >= 1
  {
    var a := year % 19;
    (a + 11 * h + 22 * l) / 451
  }

  /** The offset h + l - 7m of Easter from March 22 lies in 0..34. */
  lemma EasterOffset(a: int, h: int, l: int, m: int)
    requires 0 <= a < 19 && 0 <= h < 30 && 0 <= l < 7 && m == (a + 11 * h + 22 * l) / 451
    ensures 0 <= h + l - 7 * m <= 34
  {}

  /** Easter for a few years, as published, each a Sunday. */
  lemma Easter2024()
    ensures ComputeEaster(2024) == Date(2024, 3, 31) && Weekday(Date(2024, 3, 31)) == Sunday
  {
    assert EasterH(2024) == 4 && EasterL(2024, 4) == 5 && EasterM(2024, 4, 5) == 0;
  }

  lemma Easter2025()
    ensures ComputeEaster(2025) == Date(2025, 4, 20) && Weekday(Date(2025, 4, 20)) == Sunday
  {
    assert EasterH(2025) == 23 && EasterL(2025, 23) == 6 && EasterM(2025, 23, 6) == 0;
  }

  lemma Easter2000()
    ensures ComputeEaster(2000) == Date(2000, 4, 23) && Weekday(Date(2000, 4, 23)) == Sunday
  {
    assert EasterH(2000) == 29 && EasterL(2000, 29) == 3 && EasterM(2000, 29, 3) == 0;
  }

  /** `goodFriday`: two days before Easter, in the same year. */
  function GoodFriday(year: int): (gf: Date)
    requires year >= 1
    ensures Valid(gf) && gf.year == year
  {
    var easter := ComputeEaster(year);
    PrevDay(PrevDay(easter))
  }

  /** Good Friday is two days before Easter, in March or April. */
  lemma GoodFridayFacts(year: int)
    requires year >= 1
    ensures DayNumber(GoodFriday(year)) == DayNumber(ComputeEaster(year)) - 2
    ensures GoodFriday(year).month == 3 || GoodFriday(year).month == 4
  {
    var easter := ComputeEaster(year);
    PrevDayNumber(easter);
    PrevDayNumber(PrevDay(easter));
  }

  // ---------------------------------------------------------------------
  // Holidays
  // ---------------------------------------------------------------------

  predicate IsWeekend(d: Date)
    requires Valid(d)
  {
    Weekday(d) == Saturday || Weekday(d) == Sunday
  }

  /** `observedDate`: a Saturday holiday is observed on the Friday before,
      a Sunday one on the Monday after, any other day as it is. */
  function ObservedDate(holiday: Date): (observed: Date)
    requires Valid(holiday)
    ensures Valid(observed)
  {
    var w := Weekday(holiday);
    if w == Saturday then
      assert holiday != Date(1, 1, 1) by { assert Weekday(Date(1, 1, 1)) == Monday; }
      PrevDay(holiday)
    else if w == Sunday then NextDay(holiday)
    else holiday
  }

  /** The observed day is always a weekday, at most one day away: a
      Saturday moves back to the Friday, a Sunday on to the Monday. */
  lemma ObservedDateFacts(holiday: Date)
    requires Valid(holiday)
    ensures !IsWeekend(ObservedDate(holiday))
    ensures Weekday(holiday) == Saturday ==>
              DayNumber(ObservedDate(holiday)) == DayNumber(holiday) - 1 && Weekday(ObservedDate(holiday)) == Friday
    ensures Weekday(holiday) == Sunday ==>
              DayNumber(ObservedDate(holiday)) == DayNumber(holiday) + 1 && Weekday(ObservedDate(holiday)) == Monday
    ensures !IsWeekend(holiday) ==> ObservedDate(holiday) == holiday
  {
    var w := Weekday(holiday);
    if w == Saturday {
      assert Weekday(Date(1, 1, 1)) == Monday;
      PrevDayNumber(holiday);
      PrevWeekday(holiday);
    } else if w == Sunday {
      NextDayNumber(holiday);
    }
  }

  lemma PrevWeekday(d: Date)
    requires Valid(d) && d != Date(1, 1, 1)
    ensures Weekday(d) == (Weekday(PrevDay(d)) + 1) % 7
  {
    PrevDayNumber(d);
    NextDayNumber(PrevDay(d));
  }

  /** The four fixed-date holidays. */
  datatype FixedHoliday = NewYearsDay | Juneteenth | IndependenceDay | Christmas

  function HolidayMonth(h: FixedHoliday): int {
    match h
    case NewYearsDay => 1
    case Juneteenth => 6
    case IndependenceDay => 7
    case Christmas => 12
  }

  function HolidayDay(h: FixedHoliday): int {
    match h
    case NewYearsDay => 1
    case Juneteenth => 19
    case IndependenceDay => 4
    case Christmas => 25
  }

  /** The holiday's date in the given year. */
  function HolidayDate(year: int, h: FixedHoliday): (d: Date)
    requires year >= 1
    ensures Valid(d)
  {
    Date(year, HolidayMonth(h), HolidayDay(h))
  }

  /** `isObservedFixedHoliday`: whether d has the month and day of the observed
      date of the holiday in d's year. Both branches of the source compare
      exactly this, and the year is not compared. */
  predicate IsObservedFixedHoliday(d: Date, h: FixedHoliday)
    requires Valid(d)
  {
    var observed := ObservedDate(HolidayDate(d.year, h));
    d.month == observed.month && d.day == observed.day
  }

  /** Comparing month and day without the year only ever adds weekend days:
      a weekday flagged by IsObservedFixedHoliday is the observed date itself
      (the one other date flagged is December 31 of a year whose January 1 is
      a Saturday, and that December 31 is itself a Saturday or a Sunday). */
  lemma ObservedFixedHolidayOnWeekday(d: Date, h: FixedHoliday)
    requires Valid(d) && IsObservedFixedHoliday(d, h) && !IsWeekend(d)
    ensures d == ObservedDate(HolidayDate(d.year, h))
  {
    var hd := HolidayDate(d.year, h);
    var observed := ObservedDate(hd);
    ObservedDateFacts(hd);
    if observed.year != d.year {
      // Only a Saturday January 1 is observed in another year, on December 31.
      assert h == NewYearsDay && Weekday(hd) == Saturday;
      DecemberThirtyFirst(d.year);
    }
  }

  /** December 31 is YearLength-1 days after January 1, so when January 1 is a
      Saturday, December 31 is a Saturday or a Sunday. */
  lemma DecemberThirtyFirst(year: int)
    requires year >= 1 && Weekday(Date(year, 1, 1)) == Saturday
    ensures IsWeekend(Date(year, 12, 31))
  {
    var extra := if IsLeap(year) then 1 else 0;
    assert DayNumber(Date(year, 12, 31)) == DayNumber(Date(year, 1, 1)) + 364 + extra;
    WeekdayShift(Date(year, 1, 1), Date(year, 12, 31), 364 + extra);
  }

  /** Every fixed holiday's observed date that falls in the holiday's own year
      is a holiday. */
  lemma FixedHolidaysObserved(year: int, h: FixedHoliday)
    requires year >= 1 && ObservedDate(HolidayDate(year, h)).year == year
    ensures IsNYSEHoliday(ObservedDate(HolidayDate(year, h)))
  {
    var observed := ObservedDate(HolidayDate(year, h));
    assert IsObservedFixedHoliday(observed, h);
  }

  /** `isNYSEHoliday`: the four observed fixed holidays, then Martin Luther
      King Jr. Day, Presidents' Day, Good Friday, Memorial Day, Labor Day and
      Thanksgiving by their day-of-month windows. */
  predicate IsNYSEHoliday(d: Date)
    requires Valid(d)
  {
    var w := Weekday(d);
    || IsObservedFixedHoliday(d, NewYearsDay)
    || IsObservedFixedHoliday(d, Juneteenth)
    || IsObservedFixedHoliday(d, IndependenceDay)
    || IsObservedFixedHoliday(d, Christmas)
    || (d.month == 1 && w == Monday && 15 <= d.day <= 21)
    || (d.month == 2 && w == Monday && 15 <= d.day <= 21)
    || (d.month == GoodFriday(d.year).month && d.day == GoodFriday(d.year).day)
    || (d.month == 5 && w == Monday && d.day >= 25)
    || (d.month == 9 && w == Monday && d.day <= 7)
    || (d.month == 11 && w == Thursday && 22 <= d.day <= 28)
  }

  /** Which occurrence of its weekday within the month a date is (1 for the
      first seven days, 2 for the next seven, ...). */
  function Occurrence(d: Date): int {
    (d.day - 1) / 7 + 1
  }

  /** No later occurrence of the same weekday in the month. */
  predicate IsLastOccurrence(d: Date) {
    d.day + 7 > DaysInMonth(d.year, d.month)
  }

  /** The day-of-month windows are the documented rules: third Monday of
      January and February, last Monday of May, first Monday of September,
      fourth Thursday of November. */
  lemma FloatingHolidayWindows(d: Date)
    requires Valid(d)
    ensures (15 <= d.day <= 21) <==> Occurrence(d) == 3
    ensures (22 <= d.day <= 28) <==> Occurrence(d) == 4
    ensures d.day <= 7 <==> Occurrence(d) == 1
    ensures d.month == 5 ==> (d.day >= 25 <==> IsLastOccurrence(d))
  {}

  /** Good Friday falls five weekdays after Easter's (two days before it). */
  lemma GoodFridayWeekday(year: int)
    requires year >= 1
    ensures Weekday(GoodFriday(year)) == (Weekday(ComputeEaster(year)) + 5) % 7
  {
    var easter := ComputeEaster(year);
    GoodFridayFacts(year);
    WeekdayShift(easter, GoodFriday(year), -2);
    BackTwo(Weekday(easter));
  }

  lemma BackTwo(w: int)
    requires 0 <= w < 7
    ensures (w + -2) % 7 == (w + 5) % 7
  {}

  /** A trading day: a weekday that is not an exchange holiday. */
  predicate IsTradingDay(d: Date)
    requires Valid(d)
  {
    !IsWeekend(d) && !IsNYSEHoliday(d)
  }

  /** Good Friday 2024 is March 29, a holiday. */
  lemma GoodFriday2024()
    ensures GoodFriday(2024) == Date(2024, 3, 29)
    ensures IsNYSEHoliday(Date(2024, 3, 29))
  {
    Easter2024();
  }

  /** Thanksgiving 2024 and Martin Luther King Jr. Day 2025 are holidays;
      Christmas 2021, a Saturday, is observed on Friday the 24th, and
      Christmas 2022, a Sunday, on Monday the 26th. */
  lemma KnownHolidays()
    ensures IsNYSEHoliday(Date(2024, 11, 28))
    ensures !IsTradingDay(Date(2025, 1, 20))
    ensures IsNYSEHoliday(Date(2021, 12, 24))
    ensures IsNYSEHoliday(Date(2022, 12, 26))
  {
    assert Weekday(Date(2024, 11, 28)) == Thursday;
    assert Weekday(Date(2025, 1, 20)) == Monday;
    assert IsObservedFixedHoliday(Date(2021, 12, 24), Christmas);
    assert IsObservedFixedHoliday(Date(2022, 12, 26), Christmas);
  }

  /** The Thursday before Good Friday 2024 is a trading day. */
  lemma KnownTradingDay()
    ensures IsTradingDay(Date(2024, 3, 28))
  {
    assert Weekday(Date(2024, 3, 28)) == Thursday;
    assert ObservedDate(Date(2024, 1, 1)) == Date(2024, 1, 1);
    assert ObservedDate(Date(2024, 6, 19)) == Date(2024, 6, 19);
    assert ObservedDate(Date(2024, 7, 4)) == Date(2024, 7, 4);
    assert ObservedDate(Date(2024, 12, 25)) == Date(2024, 12, 25);
    GoodFriday2024();
  }

  // ---------------------------------------------------------------------
  // Status
  // ---------------------------------------------------------------------

  /** `isNYSEOpen`: a trading day, from 09:30 inclusive to 16:00 exclusive. */
  predicate IsNYSEOpen(t: DateTime)
    requires ValidTime(t)
  {
    if IsWeekend(t.date) then false
    else if IsNYSEHoliday(t.date) then false
    else OpenMinute <= t.minute && t.minute < CloseMinute
  }

  /** The market is never open on a weekend or a holiday, and on a trading day
      it is open exactly from 09:30 to before 16:00. */
  lemma OpenHours(t: DateTime)
    requires ValidTime(t)
    ensures !IsTradingDay(t.date) ==> !IsNYSEOpen(t)
    ensures IsTradingDay(t.date) ==> (IsNYSEOpen(t) <==> 570 <= t.minute < 960)
  {}

  /** `todayClose`: 16:00 on the same day. */
  function TodayClose(t: DateTime): (c: DateTime)
    ensures c.date == t.date && c.minute == 960
  {
    DateTime(t.date, CloseMinute)
  }

  /** The first day among d, d+1, ..., d+n-1 that satisfies p, or d+n when
      none does. */
  function FirstFrom(d: Date, n: nat, p: Date -> bool): (r: Date)
    requires Valid(d)
    ensures Valid(r)
    decreases n
  {
    if n == 0 then d
    else if p(d) then d
    else FirstFrom(NextDay(d), n - 1, p)
  }

  /** The offset k of FirstFrom's result: no day before it satisfies p, and
      unless k == n the day found does. */
  lemma {:induction false} FirstFromOffset(d: Date, n: nat, p: Date -> bool) returns (k: nat)
    requires Valid(d)
    ensures k <= n && FirstFrom(d, n, p) == AddDays(d, k)
    ensures forall j: nat :: j < k ==> !p(AddDays(d, j))
    ensures k < n ==> p(AddDays(d, k))
    decreases n
  {
    if n > 0 && !p(d) {
      var k' := FirstFromOffset(NextDay(d), n - 1, p);
      k := k' + 1;
      forall j: nat | j < k ensures !p(AddDays(d, j)) {
        if j > 0 {
          assert AddDays(d, j) == AddDays(NextDay(d), j - 1);
        }
      }
    } else {
      k := 0;
    }
  }

  /** FirstFrom finds the first day satisfying p within n days. */
  lemma FirstFromIsFirst(d: Date, n: nat, p: Date -> bool)
    requires Valid(d)
    ensures exists k: nat :: && k <= n && FirstFrom(d, n, p) == AddDays(d, k)
                             && (forall j: nat :: j < k ==> !p(AddDays(d, j)))
                             && (k < n ==> p(AddDays(d, k)))
  {
    var k := FirstFromOffset(d, n, p);
  }

  /** Trading days as a total predicate on dates. */
  predicate TradingDay(d: Date) {
    Valid(d) && IsTradingDay(d)
  }

  /** The search loop of `nextMarketOpen`: the first trading day among
      d, d+1, ..., d+n-1, or d+n when there is none. */
  function SearchTradingDay(d: Date, n: nat): (r: Date)
    requires Valid(d)
    ensures Valid(r)
  {
    FirstFrom(d, n, TradingDay)
  }

  /** The number of days after today that `nextMarketOpen` examines. */
  const SearchDays: nat := 14

  /** `nextMarketOpen` (reference definition): today at 09:30 when that is
      still ahead and today is a trading day; otherwise 09:30 on the first
      trading day among the next 14 days, or on the 15th day if none is. */
  function NextOpen(t: DateTime): (r: DateTime)
    requires ValidTime(t)
    ensures ValidTime(r) && r.minute == OpenMinute
  {
    if t.minute < OpenMinute && TradingDay(t.date) then DateTime(t.date, OpenMinute)
    else DateTime(SearchTradingDay(NextDay(t.date), SearchDays), OpenMinute)
  }

  /** The search from the day after d returns d+k with 1 <= k <= n + 1;
      no day strictly between satisfies p, and unless k == n + 1 the day
      found does. */
  lemma FirstAfter(d: Date, n: nat, p: Date -> bool) returns (k: nat)
    requires Valid(d)
    ensures 1 <= k <= n + 1 && FirstFrom(NextDay(d), n, p) == AddDays(d, k)
    ensures forall j: nat :: 1 <= j < k ==> !p(AddDays(d, j))
    ensures k <= n ==> p(AddDays(d, k))
    ensures DayNumber(AddDays(d, k)) == DayNumber(d) + k
  {
    var start := NextDay(d);
    var k' := FirstFromOffset(start, n, p);
    k := k' + 1;
    assert AddDays(d, k) == AddDays(start, k');
    forall j: nat | 1 <= j < k ensures !p(AddDays(d, j)) {
      assert AddDays(d, j) == AddDays(start, j - 1);
    }
    AddDaysNumber(d, k);
  }

  /** The next open lies ahead of t: later the same day, when today is a
      trading day and 09:30 is still ahead, and otherwise k days later with
      1 <= k <= SearchDays + 1. No trading-day opening lies between t and
      it: the days skipped are not trading days, and within the days
      examined the day found is one. */
  lemma NextOpenIsNext(t: DateTime)
    requires ValidTime(t)
    ensures var r := NextOpen(t);
            if t.minute < OpenMinute && TradingDay(t.date) then r.date == t.date
            else exists k: nat :: && 1 <= k <= SearchDays + 1 && r.date == AddDays(t.date, k)
                                  && (forall j: nat :: 1 <= j < k ==> !TradingDay(AddDays(t.date, j)))
                                  && (k <= SearchDays ==> TradingDay(r.date))
    ensures var r := NextOpen(t);
            && DayNumber(t.date) <= DayNumber(r.date) <= DayNumber(t.date) + SearchDays + 1
            && (r.date == t.date ==> t.minute < OpenMinute && TradingDay(t.date))
  {
    var k := FirstAfter(t.date, SearchDays, TradingDay);
    if !(t.minute < OpenMinute && TradingDay(t.date)) {
      assert NextOpen(t).date == AddDays(t.date, k);
    }
  }

  /** `nextMarketOpen`: today at 09:30 if that is still ahead on a trading
      day, else the bounded search from tomorrow. */
  method NextMarketOpen(t: DateTime) returns (r: DateTime)
    requires ValidTime(t)
    ensures r == NextOpen(t)
  {
    if t.minute < OpenMinute && TradingDay(t.date) {
      return DateTime(t.date, OpenMinute);
    }
    var day := SearchFrom(NextDay(t.date), TradingDay);
    r := DateTime(day, OpenMinute);
  }

  /** The loop of `nextMarketOpen`: up to SearchDays candidates from
      `start`, each tested with `isOpenDay`, falling back to the day after
      the last. */
  method SearchFrom(start: Date, isOpenDay: Date -> bool) returns (day: Date)
    requires Valid(start)
    ensures day == FirstFrom(start, SearchDays, isOpenDay)
  {
    var candidate := start;
    for i := 0 to SearchDays
      invariant Valid(candidate)
      invariant FirstFrom(candidate, SearchDays - i, isOpenDay) == FirstFrom(start, SearchDays, isOpenDay)
    {
      if isOpenDay(candidate) {
        return candidate;
      }
      candidate := NextDay(candidate);
    }
    day := candidate;
  }

  /** `models.MarketStatus`. */
  datatype Status = Status(isOpen: bool, nextOpen: Option<DateTime>, nextClose: Option<DateTime>, message: string)

  /** `GetMarketStatus` for a given Eastern date-time. When open it reports
      only the close at 16:00 today; when closed only the next open. */
  function GetMarketStatus(now: DateTime): (s: Status)
    requires ValidTime(now)
    ensures s.isOpen == IsNYSEOpen(now)
    ensures s.isOpen ==> s.nextOpen.None? && s.nextClose == Some(DateTime(now.date, 960))
                         && s.message == "Market is open"
    ensures !s.isOpen ==> s.nextClose.None? && s.nextOpen == Some(NextOpen(now))
                          && s.message == "Market is closed"
  {
    if IsNYSEOpen(now) then Status(true, None, Some(TodayClose(now)), "Market is open")
    else Status(false, Some(NextOpen(now)), None, "Market is closed")
  }

  /** When open, the reported close is later the same day; when closed, the
      reported open is at 09:30, later than now: on a later day, or today
      before 09:30. */
  lemma StatusTimesAhead(now: DateTime)
    requires ValidTime(now)
    ensures var s := GetMarketStatus(now);
            && (s.isOpen ==> s.nextClose.value.date == now.date && now.minute < s.nextClose.value.minute)
            && (!s.isOpen ==> (&& s.nextOpen.value.minute == 570
                               && DayNumber(now.date) <= DayNumber(s.nextOpen.value.date)
                               && (s.nextOpen.value.date != now.date || now.minute < 570)))
  {
    var s := GetMarketStatus(now);
    if !s.isOpen {
      NextOpenIsNext(now);
    }
  }
}
