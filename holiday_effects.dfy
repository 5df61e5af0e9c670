/**
 * The seasonal background effect: the date of Easter by the Anonymous
 * Gregorian (Meeus/Jones/Butcher) computus, the holiday whose window holds the
 * current date, and how many particles it shows.  Dates are a year, a
 * 0-based month and a 1-based day; `Date` arithmetic becomes day-of-year
 * arithmetic.
 */
module HolidayEffects {

  /** The Easter Sunday of a year: a 1-based month and a day. */
  datatype MonthDay = MonthDay(month: int, day: int)

  /** `getEasterDate`; every quantity is non-negative for a year of 0 or more, so flooring division is `/`. */
  function EasterDate(year: nat): (r: MonthDay)
    ensures (r.month == 3 && 22 <= r.day <= 31) || (r.month == 4 && 1 <= r.day <= 25)
  {
    var a := year % 19;
    var b := year / 100;
    var c := year % 100;
    var d := b / 4;
    var e := b % 4;
    var f := (b + 8) / 25;
    var g := (b - f + 1) / 3;
    var h := (19 * a + b - d - g + 15) % 30;
    var i := c / 4;
    var k := c % 4;
    var l := (32 + 2 * e + 2 * i - h - k) % 7;
    EasterFromBounds(a, h, l);
    EasterFrom(a, h, l)
  }

  /** The last step of the computus, from the epact-like `h`, the weekday offset `l` and the Golden Number `a`. */
  function EasterFrom(a: int, h: int, l: int): MonthDay {
    var m := (a + 11 * h + 22 * l) / 451;
    MonthDay((h + l - 7 * m + 114) / 31, (h + l - 7 * m + 114) % 31 + 1)
  }

  lemma EasterFactors(year: nat)
    ensures var a := year % 19; var b := year / 100; var c := year % 100;
      var d := b / 4; var e := b % 4; var f := (b + 8) / 25; var g := (b - f + 1) / 3;
      var h := (19 * a + b - d - g + 15) % 30; var i := c / 4; var k := c % 4;
      var l := (32 + 2 * e + 2 * i - h - k) % 7;
      && 0 <= a < 19 && 0 <= h < 30 && 0 <= l < 7
      && EasterDate(year) == EasterFrom(a, h, l)
  {
  }

  /** When `m` is 1, `h` is 28 or 29 and `l` is 6; otherwise `h + l` is at most 34. */
  lemma {:induction false} EasterFromBounds(a: int, h: int, l: int)
    requires 0 <= a < 19 && 0 <= h < 30 && 0 <= l < 7
    ensures var r := EasterFrom(a, h, l);
      (r.month == 3 && 22 <= r.day <= 31) || (r.month == 4 && 1 <= r.day <= 25)
  {
    var s := a + 11 * h + 22 * l;
    assert 0 <= s <= 18 + 319 + 132;
    var m := s / 451;
    assert m == 0 || m == 1;
    if m == 1 {
      assert s >= 451;
      assert l == 6 && h >= 28;
    } else {
      assert s < 451;
      assert h + l <= 34;
    }
  }

  /** Easter Sunday falls between 22 March and 25 April. */
  lemma EasterInSpring(year: nat)
    ensures var r := EasterDate(year);
      (r.month == 3 && 22 <= r.day <= 31) || (r.month == 4 && 1 <= r.day <= 25)
  {
    EasterFactors(year);
    var a := year % 19;
    var b := year / 100;
    var c := year % 100;
    var f := (b + 8) / 25;
    var g := (b - f + 1) / 3;
    var h := (19 * a + b - b / 4 - g + 15) % 30;
    var l := (32 + 2 * (b % 4) + 2 * (c / 4) - h - c % 4) % 7;
    EasterFromBounds(a, h, l);
  }

  /** 2024 gives 31 March. */
  lemma Easter2024()
    ensures EasterDate(2024) == MonthDay(3, 31)
  {
    var year := 2024;
    var a := year % 19;
    assert a == 10;
    var b := year / 100;
    assert b == 20;
    var c := year % 100;
    assert c == 24;
    var f := (b + 8) / 25;
    assert f == 1;
    var g := (b - f + 1) / 3;
    assert g == 6;
    var h := (19 * a + b - b / 4 - g + 15) % 30;
    assert h == 4;
    var l := (32 + 2 * (b % 4) + 2 * (c / 4) - h - c % 4) % 7;
    assert l == 5;
    var m := (a + 11 * h + 22 * l) / 451;
    assert m == 0;
  }

  /** 2025 gives 20 April. */
  lemma Easter2025()
    ensures EasterDate(2025) == MonthDay(4, 20)
  {
    var year := 2025;
    var a := year % 19;
    assert a == 11;
    var b := year / 100;
    assert b == 20;
    var c := year % 100;
    assert c == 25;
    var f := (b + 8) / 25;
    assert f == 1;
    var g := (b - f + 1) / 3;
    assert g == 6;
    var h := (19 * a + b - b / 4 - g + 15) % 30;
    assert h == 23;
    var l := (32 + 2 * (b % 4) + 2 * (c / 4) - h - c % 4) % 7;
    assert l == 6;
    var m := (a + 11 * h + 22 * l) / 451;
    assert m == 0;
  }

  /* ---------------------------------------------------------------- windows */

  predicate IsLeapYear(year: int) {
    year % 4 == 0 && (year % 100 != 0 || year % 400 == 0)
  }

  function DaysInMonth(year: int, month0: int): int
    requires 0 <= month0 < 12
  {
    if month0 == 1 then (if IsLeapYear(year) then 29 else 28)
    else if month0 == 3 || month0 == 5 || month0 == 8 || month0 == 10 then 30
    else 31
  }

  /** The days of the year before the first of a 0-based month. */
  function DaysBefore(year: int, month0: int): int
    requires 0 <= month0 <= 12
  {
    if month0 == 0 then 0 else DaysBefore(year, month0 - 1) + DaysInMonth(year, month0 - 1)
  }

  /** The 0-based day of the year of a date. */
  function DayOfYear(year: int, month0: int, day: int): int
    requires 0 <= month0 < 12
  {
    DaysBefore(year, month0) + day - 1
  }

  predicate ValidDate(year: int, month0: int, day: int) {
    0 <= month0 < 12 && 1 <= day <= DaysInMonth(year, month0)
  }

  datatype HolidayType = Christmas | Halloween | Easter

  datatype HolidayConfig = HolidayConfig(kind: HolidayType, emoji: string, name: string)

  const Snowflakes := HolidayConfig(Christmas, "❄", "Snowflakes")
  const Pumpkins := HolidayConfig(Halloween, "\U{1F383}", "Pumpkins")
  const EasterEggs := HolidayConfig(Easter, "\U{1F95A}", "Easter Eggs")

  /** 15 December to 5 January, months 0-based. */
  predicate InChristmasWindow(month0: int, day: int) {
    (month0 == 11 && day >= 15) || (month0 == 0 && day <= 5)
  }

  /** 15 October to 2 November. */
  predicate InHalloweenWindow(month0: int, day: int) {
    (month0 == 9 && day >= 15) || (month0 == 10 && day <= 2)
  }

  /**
   * From midnight 14 days before Easter Sunday to midnight 7 days after it,
   * for a moment `msOfDay` milliseconds into its day: the seventh day after
   * is in only at its first millisecond.
   */
  function InEasterWindow(year: nat, month0: int, day: int, msOfDay: nat): (b: bool)
    requires 0 <= month0 < 12
    ensures var leap := if IsLeapYear(year) then 1 else 0;
      b ==> 66 + leap <= DayOfYear(year, month0, day) <= 121 + leap
  {
    EasterDayOfYear(year);
    var easter := EasterDate(year);
    var e := DaysBefore(year, easter.month - 1) + easter.day - 1;
    var today := DayOfYear(year, month0, day);
    today >= e - 14 && (today < e + 7 || (today == e + 7 && msOfDay == 0))
  }

  /**
   * `getCurrentHoliday` for the local date `year`, `month0`, `day` and the
   * time of day.  Each window gives its holiday, and outside all of them the
   * answer is Christmas, never nothing.
   */
  function CurrentHoliday(year: nat, month0: int, day: int, msOfDay: nat): (r: HolidayConfig)
    requires 0 <= month0 < 12
    ensures r.kind == Halloween <==> InHalloweenWindow(month0, day)
    ensures r.kind == Easter <==> !InHalloweenWindow(month0, day) && !InChristmasWindow(month0, day) && InEasterWindow(year, month0, day, msOfDay)
    ensures r == Snowflakes || r == Pumpkins || r == EasterEggs
  {
    if InChristmasWindow(month0, day) then Snowflakes
    else if InHalloweenWindow(month0, day) then Pumpkins
    else if InEasterWindow(year, month0, day, msOfDay) then EasterEggs
    else Snowflakes
  }

  /** The first days of February to June, counted from 1 January. */
  lemma MonthStarts(year: int)
    ensures var leap := if IsLeapYear(year) then 1 else 0;
      && DaysBefore(year, 1) == 31 && DaysBefore(year, 2) == 59 + leap && DaysBefore(year, 3) == 90 + leap
      && DaysBefore(year, 4) == 120 + leap && DaysBefore(year, 5) == 151 + leap
      && DaysInMonth(year, 1) == 28 + leap
  {
  }

  /** The day of the year of Easter Sunday: from 22 March to 25 April. */
  lemma EasterDayOfYear(year: nat)
    ensures var leap := if IsLeapYear(year) then 1 else 0; var easter := EasterDate(year);
      && 3 <= easter.month <= 4
      && 80 + leap <= DaysBefore(year, easter.month - 1) + easter.day - 1 <= 114 + leap
  {
    EasterInSpring(year);
    MonthStarts(year);
  }

  /** The Easter window lies within March to May, so the order of the checks never hides it. */
  lemma EasterWindowInSpring(year: nat, month0: int, day: int, msOfDay: nat)
    requires ValidDate(year, month0, day) && InEasterWindow(year, month0, day, msOfDay)
    ensures 2 <= month0 <= 4
    ensures !InChristmasWindow(month0, day) && !InHalloweenWindow(month0, day)
    ensures CurrentHoliday(year, month0, day, msOfDay) == EasterEggs
  {
    var leap := if IsLeapYear(year) then 1 else 0;
    EasterDayOfYear(year);
    MonthStarts(year);
    var today := DayOfYear(year, month0, day);
    assert 66 + leap <= today <= 121 + leap;
    if month0 >= 5 {
      DaysBeforeGrows(year, 5, month0);
    }
    assert month0 != 0 && month0 != 1;
  }

  lemma {:induction false} DaysBeforeGrows(year: int, m: int, n: int)
    requires 0 <= m <= n <= 12
    ensures DaysBefore(year, m) <= DaysBefore(year, n)
    decreases n - m
  {
    if m < n {
      DaysBeforeGrows(year, m, n - 1);
    }
  }

  /** The seventh day after Easter is in the window only at midnight: 8 April 2024 at 1 ms past midnight is out. */
  lemma EasterWindowClosesAtMidnight()
    ensures InEasterWindow(2024, 3, 7, 0)
    ensures !InEasterWindow(2024, 3, 7, 1)
    ensures InEasterWindow(2024, 2, 17, 0) && !InEasterWindow(2024, 2, 16, 86_399_999)
  {
    Easter2024();
    assert IsLeapYear(2024);
    MonthStarts(2024);
  }

  /**
   * The particle count: none before the component has mounted or while the
   * effect is disabled; once both hold, fewer, larger pumpkins (30) at
   * Halloween and 50 for the other holidays.  The empty holiday the
   * component starts with is replaced by the same effect that marks it
   * mounted, and every date has a holiday, so `mounted` covers that case.
   */
  function ParticleCount(mounted: bool, enabled: bool, holiday: HolidayConfig): (r: nat)
    ensures r == 0 <==> !mounted || !enabled
    ensures mounted && enabled ==> (r == 30 <==> holiday.kind == Halloween)
    ensures r <= 50
  {
    if !mounted || !enabled then 0 else if holiday.kind == Halloween then 30 else 50
  }

  /** Once mounted and enabled, the current holiday always shows particles. */
  lemma ParticlesShown(year: nat, month0: int, day: int, msOfDay: nat)
    requires 0 <= month0 < 12
    ensures var n := ParticleCount(true, true, CurrentHoliday(year, month0, day, msOfDay));
      (n == 30 <==> InHalloweenWindow(month0, day)) && (n == 30 || n == 50)
  {
  }
}
