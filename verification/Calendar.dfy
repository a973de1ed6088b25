/** Days, weekdays and the daylight-saving rules, in GMT. */
module Calendar {

  /** A GMT instant: its year, its day of that year from 1, and its second of that day. */
  datatype Instant = Instant(year: int, day: int, second: int)
  {
    predicate Valid() {
      1 <= year <= 9999 && 1 <= day <= YearLength(year) && 0 <= second < 86400
    }

    /** Seconds since the start of the year. */
    function InYear(): int { (day - 1) * 86400 + second }
  }

  predicate IsLeap(year: int) { year % 4 == 0 && (year % 100 != 0 || year % 400 == 0) }

  function YearLength(year: int): int { if IsLeap(year) then 366 else 365 }

  function MonthLength(year: int, month: int): int
    requires 1 <= month <= 12
  {
    if month == 2 then if IsLeap(year) then 29 else 28
    else if month in {4, 6, 9, 11} then 30 else 31
  }

  /** Days of the year before a month. */
  function BeforeMonth(year: int, month: int): int
    requires 1 <= month <= 12
  {
    if month == 1 then 0 else BeforeMonth(year, month - 1) + MonthLength(year, month - 1)
  }

  /** The proleptic Gregorian ordinal: 1 January of year 1, a Monday, is day 1. */
  function Ordinal(year: int, day: int): int {
    var y := year - 1;
    365 * y + y / 4 - y / 100 + y / 400 + day
  }

  /** The day of the week, Sunday being 0. */
  function DayOfWeek(year: int, month: int, day: int): (w: int)
    requires 1 <= month <= 12
    ensures 0 <= w < 7
  {
    Ordinal(year, BeforeMonth(year, month) + day) % 7
  }

  /** Months other than February alternate between 31 and 30 days, twice 31 around the turn of July; they add up to
      the year; and 1 January 1970 is a Thursday. */
  lemma MonthsExactly(year: int, month: int)
    requires 1 <= month <= 12
    ensures month != 2 ==> MonthLength(year, month) == 30 + (month + month / 8) % 2
    ensures MonthLength(year, 2) == YearLength(year) - 337
    ensures BeforeMonth(year, 1) == 0 && BeforeMonth(year, 12) + 31 == YearLength(year)
    ensures DayOfWeek(1970, 1, 1) == 4
  {
    assert BeforeMonth(year, 2) == BeforeMonth(year, 1) + MonthLength(year, 1);
    assert BeforeMonth(year, 3) == BeforeMonth(year, 2) + MonthLength(year, 2);
    assert BeforeMonth(year, 4) == BeforeMonth(year, 3) + MonthLength(year, 3);
    assert BeforeMonth(year, 5) == BeforeMonth(year, 4) + MonthLength(year, 4);
    assert BeforeMonth(year, 6) == BeforeMonth(year, 5) + MonthLength(year, 5);
    assert BeforeMonth(year, 7) == BeforeMonth(year, 6) + MonthLength(year, 6);
    assert BeforeMonth(year, 8) == BeforeMonth(year, 7) + MonthLength(year, 7);
    assert BeforeMonth(year, 9) == BeforeMonth(year, 8) + MonthLength(year, 8);
    assert BeforeMonth(year, 10) == BeforeMonth(year, 9) + MonthLength(year, 9);
    assert BeforeMonth(year, 11) == BeforeMonth(year, 10) + MonthLength(year, 10);
    assert BeforeMonth(year, 12) == BeforeMonth(year, 11) + MonthLength(year, 11);
  }

  /** The ordinals of consecutive years join up. */
  lemma YearsJoin(year: int)
    requires year >= 1
    ensures Ordinal(year + 1, 1) == Ordinal(year, YearLength(year)) + 1
  {
    MultiplesStep(year, 4);
    MultiplesStep(year, 100);
    MultiplesStep(year, 400);
    Centuries(year);
  }

  lemma MultiplesStep(y: int, k: int)
    requires k in {4, 100, 400}
    ensures y / k == (y - 1) / k + if y % k == 0 then 1 else 0
  {
  }

  lemma Centuries(y: int)
    ensures y % 400 == 0 ==> y % 100 == 0
    ensures y % 100 == 0 ==> y % 4 == 0
  {
  }

  // ---------------------------------------------------------------- weekdays of a month

  /** The day of the month of the n-th given weekday. */
  function NthWeekday(year: int, month: int, weekday: int, nth: int): int
    requires 1 <= month <= 12
  {
    var first := DayOfWeek(year, month, 1);
    1 + (weekday - first) % 7 + (nth - 1) * 7
  }

  /** The day of the month of the last given weekday. */
  function LastWeekday(year: int, month: int, weekday: int): int
    requires 1 <= month <= 12
  {
    var last := MonthLength(year, month);
    last - (DayOfWeek(year, month, last) - weekday) % 7
  }

  /** How many of the first `days` days of a month fall on a weekday. */
  function CountWeekday(year: int, month: int, weekday: int, days: nat): nat
    requires 1 <= month <= 12
  {
    if days == 0 then 0
    else CountWeekday(year, month, weekday, days - 1) + if DayOfWeek(year, month, days) == weekday then 1 else 0
  }

  lemma DaysAdvance(year: int, month: int, a: int, b: int)
    requires 1 <= month <= 12
    ensures DayOfWeek(year, month, b) == (DayOfWeek(year, month, a) + b - a) % 7
  {
    hide BeforeMonth;
  }

  /** Counting by the calendar: up to day d there is one for each whole week, and one more once the
      weekday's first date is reached in the last. */
  lemma {:induction false} CountByWeeks(year: int, month: int, weekday: int, days: nat)
    requires 1 <= month <= 12 && 0 <= weekday < 7
    ensures var first := NthWeekday(year, month, weekday, 1);
      CountWeekday(year, month, weekday, days) == (days + 7 - first) / 7
  {
    hide DayOfWeek;
    var w := DayOfWeek(year, month, 1);
    var first := NthWeekday(year, month, weekday, 1);
    if days > 0 {
      CountByWeeks(year, month, weekday, days - 1);
      DaysAdvance(year, month, 1, days);
      WeekdayHits(w, weekday, days, first);
      WeekStep(days - first);
    }
  }

  lemma WeekdayHits(w: int, weekday: int, n: int, first: int)
    requires 0 <= w < 7 && 0 <= weekday < 7 && first == 1 + (weekday - w) % 7
    ensures (w + n - 1) % 7 == weekday <==> (n - first) % 7 == 0
  {
    var k := (weekday - w) / 7;
    assert first == 1 + weekday - w - 7 * k;
    assert n - first == (w + n - 1) - weekday + 7 * k;
    assert (n - first) % 7 == ((w + n - 1) - weekday) % 7;
  }

  lemma WeekStep(k: int)
    ensures (k + 7) / 7 == (k + 6) / 7 + if k % 7 == 0 then 1 else 0
  {
  }

  /** It falls on that weekday, and it is the n-th to do so. */
  lemma NthWeekdayIsNth(year: int, month: int, weekday: int, nth: int)
    requires 1 <= month <= 12 && 0 <= weekday < 7 && nth >= 1
    ensures var d := NthWeekday(year, month, weekday, nth);
      d >= 1 && DayOfWeek(year, month, d) == weekday && CountWeekday(year, month, weekday, d) == nth
  {
    hide DayOfWeek, CountWeekday;
    var d := NthWeekday(year, month, weekday, nth);
    DaysAdvance(year, month, 1, d);
    CountByWeeks(year, month, weekday, d);
  }

  lemma BackToWeekday(from: int, weekday: int)
    requires 0 <= weekday < 7
    ensures (from - (from - weekday) % 7) % 7 == weekday
  {
    var q := (from - weekday) / 7;
    assert from - (from - weekday) % 7 == weekday + 7 * q;
  }

  lemma WithinAWeek(weekday: int, days: int)
    requires 0 <= weekday < 7 && 0 < days < 7
    ensures (weekday + days) % 7 != weekday
  {
  }

  /** It falls on that weekday, inside the month, and no later day of the month does. */
  lemma LastWeekdayIsLast(year: int, month: int, weekday: int)
    requires 1 <= month <= 12 && 0 <= weekday < 7
    ensures var d := LastWeekday(year, month, weekday);
      && MonthLength(year, month) - 7 < d <= MonthLength(year, month)
      && DayOfWeek(year, month, d) == weekday
      && forall later :: d < later <= MonthLength(year, month) ==> DayOfWeek(year, month, later) != weekday
  {
    hide DayOfWeek, MonthLength;
    var last := MonthLength(year, month);
    var d := LastWeekday(year, month, weekday);
    DaysAdvance(year, month, last, d);
    BackToWeekday(DayOfWeek(year, month, last), weekday);
    forall later | d < later <= last
      ensures DayOfWeek(year, month, later) != weekday
    {
      DaysAdvance(year, month, d, later);
      WithinAWeek(weekday, later - d);
    }
  }

  // ---------------------------------------------------------------- daylight saving

  datatype DstRule = NONE | US | EU | AU

  /** The second of the year at which a GMT hour of a month's day starts. */
  function At(year: int, month: int, day: int, hour: int): int
    requires 1 <= month <= 12
  {
    (BeforeMonth(year, month) + day - 1) * 86400 + hour * 3600
  }

  function UsStart(year: int): int { At(year, 3, NthWeekday(year, 3, 0, 2), 7) }

  function UsEnd(year: int): int { At(year, 11, NthWeekday(year, 11, 0, 1), 6) }

  function EuStart(year: int): int { At(year, 3, LastWeekday(year, 3, 0), 1) }

  function EuEnd(year: int): int { At(year, 10, LastWeekday(year, 10, 0), 1) }

  function AuStart(year: int): int { At(year, 10, NthWeekday(year, 10, 0, 1), 16) - 86400 }

  function AuEnd(year: int): int { At(year, 4, NthWeekday(year, 4, 0, 1), 16) - 86400 }

  predicate IsDst(rule: DstRule, g: Instant) {
    match rule
    case NONE => false
    case US => UsStart(g.year) <= g.InYear() < UsEnd(g.year)
    case EU => EuStart(g.year) <= g.InYear() < EuEnd(g.year)
    case AU => g.InYear() >= AuStart(g.year) || g.InYear() < AuEnd(g.year)
  }

  lemma MonthStarts(year: int)
    ensures BeforeMonth(year, 4) == BeforeMonth(year, 3) + 31
    ensures BeforeMonth(year, 10) == BeforeMonth(year, 3) + 214
    ensures BeforeMonth(year, 11) == BeforeMonth(year, 3) + 245
  {
    hide IsLeap;
    assert BeforeMonth(year, 4) == BeforeMonth(year, 3) + 31;
    assert BeforeMonth(year, 6) == BeforeMonth(year, 4) + 61;
    assert BeforeMonth(year, 8) == BeforeMonth(year, 6) + 61;
    assert BeforeMonth(year, 10) == BeforeMonth(year, 8) + 61;
    assert BeforeMonth(year, 11) == BeforeMonth(year, 10) + 31;
  }

  /** The switching dates of one year, as days of March, October and November. */
  lemma SwitchingDays(year: int)
    ensures var us, eu := NthWeekday(year, 3, 0, 2), LastWeekday(year, 3, 0);
      8 <= us <= 14 && eu - us == if us <= 10 then 21 else 14
    ensures var us, eu := NthWeekday(year, 11, 0, 1), LastWeekday(year, 10, 0);
      1 <= us <= 7 && 25 <= eu <= 31 && us + 31 - eu == 7
  {
    hide DayOfWeek, IsLeap, BeforeMonth;
    DaysAdvance(year, 3, 1, 31);
    SpringWeeks(DayOfWeek(year, 3, 1), DayOfWeek(year, 3, 31));
    DaysAdvance(year, 10, 31, 32);
    NovemberFollows(year);
    AutumnWeeks(DayOfWeek(year, 10, 31), DayOfWeek(year, 11, 1));
  }

  lemma NovemberFollows(year: int)
    ensures DayOfWeek(year, 11, 1) == DayOfWeek(year, 10, 32)
  {
    hide IsLeap, Ordinal;
    assert BeforeMonth(year, 11) == BeforeMonth(year, 10) + 31;
  }

  lemma SpringWeeks(first: int, last: int)
    requires 0 <= first < 7 && last == (first + 30) % 7
    ensures var us, eu := 8 + (0 - first) % 7, 31 - last; 8 <= us <= 14 && eu - us == if us <= 10 then 21 else 14
  {
  }

  lemma AutumnWeeks(last: int, next: int)
    requires 0 <= last < 7 && next == (last + 1) % 7
    ensures 1 + (0 - next) % 7 + last == 7
  {
  }

  /** Europe is on daylight time only while the US is, and the US alone for exactly two or three weeks
      less six hours in March, and a week and five hours in autumn: three or four weeks a year less one
      hour, in which London and New York are four hours apart instead of five. */
  lemma EuInsideUs(year: int)
    ensures UsStart(year) < EuStart(year) < EuEnd(year) < UsEnd(year)
    ensures EuStart(year) - UsStart(year) == (if NthWeekday(year, 3, 0, 2) <= 10 then 21 else 14) * 86400 - 6 * 3600
    ensures UsEnd(year) - EuEnd(year) == 7 * 86400 + 5 * 3600
  {
    hide BeforeMonth, NthWeekday, LastWeekday;
    SwitchingDays(year);
    MonthStarts(year);
  }

  lemma EuImpliesUs(g: Instant)
    ensures IsDst(EU, g) ==> IsDst(US, g)
    ensures IsDst(US, g) && !IsDst(EU, g) <==>
      UsStart(g.year) <= g.InYear() < EuStart(g.year) || EuEnd(g.year) <= g.InYear() < UsEnd(g.year)
  {
    hide UsStart, UsEnd, EuStart, EuEnd;
    EuInsideUs(g.year);
  }
}
