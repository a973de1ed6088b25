/** The venues and dealing sessions of the Python reference, in GMT. */
module Sessions {
  import opened Calendar
  import opened Wrappers

  datatype Venue = SYDNEY | TOKYO | HONGKONG | FRANKFURT | LONDON | NEWYORK

  /** A venue's clock and hours; local times are seconds of the day. */
  datatype Market = Market(offset: int, rule: DstRule, opens: int, closes: int, lunch: Option<(int, int)>)

  function Clock(hour: int, minute: int): int { hour * 3600 + minute * 60 }

  function MarketOf(v: Venue): Market {
    match v
    case SYDNEY => Market(10, AU, Clock(10, 0), Clock(16, 0), None)
    case TOKYO => Market(9, NONE, Clock(9, 0), Clock(15, 0), Some((Clock(11, 30), Clock(12, 30))))
    case HONGKONG => Market(8, NONE, Clock(9, 30), Clock(16, 0), Some((Clock(12, 0), Clock(13, 0))))
    case FRANKFURT => Market(1, EU, Clock(9, 0), Clock(17, 30), None)
    case LONDON => Market(0, EU, Clock(8, 0), Clock(16, 30), None)
    case NEWYORK => Market(-5, US, Clock(9, 30), Clock(16, 0), None)
  }

  /** Hours ahead of GMT. */
  function UtcOffset(v: Venue, g: Instant): int {
    MarketOf(v).offset + if IsDst(MarketOf(v).rule, g) then 1 else 0
  }

  /** A local wall clock: the weekday, Sunday being 0, and the second of the day. */
  datatype Local = Local(weekday: int, time: int)

  function Shifted(g: Instant, hours: int): (l: Local)
    ensures 0 <= l.weekday < 7 && 0 <= l.time < 86400
  {
    var s := g.second + hours * 3600;
    Local((Ordinal(g.year, g.day) + s / 86400) % 7, s % 86400)
  }

  function ToLocal(v: Venue, g: Instant): (l: Local)
    ensures 0 <= l.weekday < 7 && 0 <= l.time < 86400
  {
    Shifted(g, UtcOffset(v, g))
  }

  predicate Within(opens: int, closes: int, t: int) {
    if opens <= closes then opens <= t < closes else t >= opens || t < closes
  }

  predicate IsOpen(v: Venue, g: Instant) {
    var m, l := MarketOf(v), ToLocal(v, g);
    && 1 <= l.weekday <= 5
    && Within(m.opens, m.closes, l.time)
    && !(m.lunch.Some? && m.lunch.value.0 <= l.time < m.lunch.value.1)
  }

  // ---------------------------------------------------------------- dealing sessions

  datatype Session = AsianSession | LondonSession | NewYorkSession

  function Anchor(s: Session): Venue {
    match s case AsianSession => TOKYO case LondonSession => LONDON case NewYorkSession => NEWYORK
  }

  predicate IsDealing(s: Session, g: Instant) {
    Within(Clock(8, 0), Clock(17, 0), ToLocal(Anchor(s), g).time)
  }

  function ActiveSessions(g: Instant): seq<Session> {
    (if IsDealing(AsianSession, g) then [AsianSession] else [])
    + (if IsDealing(LondonSession, g) then [LondonSession] else [])
    + (if IsDealing(NewYorkSession, g) then [NewYorkSession] else [])
  }

  function InOverlap(g: Instant): seq<Session> {
    if |ActiveSessions(g)| > 1 then ActiveSessions(g) else []
  }

  /** The metals week is closed from Friday 22:00 to Sunday 22:00 GMT. */
  predicate IsWeekend(g: Instant) {
    var dow, hour := Ordinal(g.year, g.day) % 7, g.second / 3600;
    dow == 6 || (dow == 5 && hour >= 22) || (dow == 0 && hour < 22)
  }

  /** The weekend in seconds of the week: up to Sunday 22:00 and from Friday 22:00 on. */
  lemma WeekendExactly(g: Instant)
    requires g.Valid()
    ensures var t := Ordinal(g.year, g.day) % 7 * 86400 + g.second;
      IsWeekend(g) <==> t < 22 * 3600 || t >= (5 * 24 + 22) * 3600
  {
    hide Ordinal;
  }

  predicate GoldDayActive(g: Instant) { !IsWeekend(g) && ActiveSessions(g) != [] }

  function US1(g: Instant): int { if IsDst(US, g) then 1 else 0 }

  function EU1(g: Instant): int { if IsDst(EU, g) then 1 else 0 }

  /** Each session in GMT, by the daylight time in force. */
  lemma SessionWindows(g: Instant)
    requires g.Valid()
    ensures IsDealing(AsianSession, g) <==> g.second >= 23 * 3600 || g.second < 8 * 3600
    ensures IsDealing(LondonSession, g) <==> (8 - EU1(g)) * 3600 <= g.second < (17 - EU1(g)) * 3600
    ensures IsDealing(NewYorkSession, g) <==> (13 - US1(g)) * 3600 <= g.second < (22 - US1(g)) * 3600
  {
    hide IsDst, Ordinal;
    NoDaylightTime(g);
    SessionWindow(g, 9);
    SessionWindow(g, EU1(g));
    SessionWindow(g, US1(g) - 5);
  }

  /** A weekday in GMT, counted from Sunday; a day later for the venues already in tomorrow. */
  predicate Weekday(g: Instant, ahead: int) { 1 <= (Ordinal(g.year, g.day) + ahead) % 7 <= 5 }

  /** A span of the GMT day in minutes. */
  predicate Span(g: Instant, from: int, to: int) { from * 60 <= g.second < to * 60 }

  /** When each venue is open, in GMT, by the daylight time in force: the lunch breaks of Tokyo and Hong Kong
      included, and Sydney's summer opening on the evening before. */
  lemma VenuesInGmt(g: Instant)
    requires g.Valid()
    ensures IsOpen(TOKYO, g) <==> Weekday(g, 0) && (Span(g, 0, 150) || Span(g, 210, 360))
    ensures IsOpen(HONGKONG, g) <==> Weekday(g, 0) && (Span(g, 90, 240) || Span(g, 300, 480))
    ensures IsOpen(FRANKFURT, g) <==> Weekday(g, 0) && if IsDst(EU, g) then Span(g, 420, 930) else Span(g, 480, 990)
    ensures IsOpen(LONDON, g) <==> Weekday(g, 0) && if IsDst(EU, g) then Span(g, 420, 930) else Span(g, 480, 990)
    ensures IsOpen(NEWYORK, g) <==> Weekday(g, 0) && if IsDst(US, g) then Span(g, 810, 1200) else Span(g, 870, 1260)
    ensures IsOpen(SYDNEY, g) <==>
      if IsDst(AU, g) then (Weekday(g, 0) && Span(g, 0, 300)) || (Weekday(g, 1) && Span(g, 1380, 1440))
      else Weekday(g, 0) && Span(g, 0, 360)
  {
    hide IsDst, IsOpen, Weekday, Span;
    EasternVenues(g);
    WesternVenues(g);
  }

  lemma EasternVenues(g: Instant)
    requires g.Valid()
    ensures IsOpen(TOKYO, g) <==> Weekday(g, 0) && (Span(g, 0, 150) || Span(g, 210, 360))
    ensures IsOpen(HONGKONG, g) <==> Weekday(g, 0) && (Span(g, 90, 240) || Span(g, 300, 480))
    ensures IsOpen(SYDNEY, g) <==>
      if IsDst(AU, g) then (Weekday(g, 0) && Span(g, 0, 300)) || (Weekday(g, 1) && Span(g, 1380, 1440))
      else Weekday(g, 0) && Span(g, 0, 360)
  {
    hide IsDst, Ordinal, Shifted;
    NoDaylightTime(g);
    Ahead(g, 9);
    Ahead(g, 8);
    Ahead(g, if IsDst(AU, g) then 11 else 10);
  }

  lemma WesternVenues(g: Instant)
    requires g.Valid()
    ensures IsOpen(FRANKFURT, g) <==> Weekday(g, 0) && if IsDst(EU, g) then Span(g, 420, 930) else Span(g, 480, 990)
    ensures IsOpen(LONDON, g) <==> Weekday(g, 0) && if IsDst(EU, g) then Span(g, 420, 930) else Span(g, 480, 990)
    ensures IsOpen(NEWYORK, g) <==> Weekday(g, 0) && if IsDst(US, g) then Span(g, 810, 1200) else Span(g, 870, 1260)
  {
    hide IsDst, Ordinal, Shifted;
    Ahead(g, 1 + EU1(g));
    Ahead(g, EU1(g));
    Ahead(g, US1(g) - 5);
  }

  /** A local clock some hours ahead of GMT. */
  lemma Ahead(g: Instant, hours: int)
    requires g.Valid() && -12 <= hours <= 12
    ensures var l, s := Shifted(g, hours), g.second + hours * 3600;
      if s < 0 then l == Local((Ordinal(g.year, g.day) - 1) % 7, s + 86400)
      else if s < 86400 then l == Local(Ordinal(g.year, g.day) % 7, s)
      else l == Local((Ordinal(g.year, g.day) + 1) % 7, s - 86400)
  {
    hide Ordinal;
  }

  lemma NoDaylightTime(g: Instant)
    ensures !IsDst(NONE, g)
  {
  }

  lemma SessionWindow(g: Instant, hours: int)
    requires g.Valid() && -12 <= hours <= 12
    ensures var t, from := Shifted(g, hours).time, (8 - hours) * 3600;
      8 * 3600 <= t < 17 * 3600 <==>
        (from <= g.second < from + 9 * 3600 || from <= g.second - 86400 < from + 9 * 3600 || from <= g.second + 86400 < from + 9 * 3600)
  {
    hide Ordinal;
    var s := g.second + hours * 3600;
    assert s % 86400 == if s < 0 then s + 86400 else if s < 86400 then s else s - 86400;
  }

  /** London is four or five hours ahead of New York: four exactly in the weeks when the US has switched
      and Europe has not. */
  lemma LondonAheadOfNewYork(g: Instant)
    ensures var ahead := UtcOffset(LONDON, g) - UtcOffset(NEWYORK, g);
      && (ahead == 4 || ahead == 5)
      && (ahead == 4 <==> IsDst(US, g) && !IsDst(EU, g))
  {
    EuImpliesUs(g);
  }

  /** No session is open exactly from the New York close to 23:00 GMT, so outside the weekend the gold day
      is one span from the Asian open to the American close. */
  lemma GoldDayIsOneSpan(g: Instant)
    requires g.Valid()
    ensures ActiveSessions(g) == [] <==> (22 - US1(g)) * 3600 <= g.second < 23 * 3600
    ensures GoldDayActive(g) <==> !IsWeekend(g) && !((22 - US1(g)) * 3600 <= g.second < 23 * 3600)
  {
    hide IsDealing, IsDst, IsWeekend;
    SessionWindows(g);
    EuImpliesUs(g);
  }

  /** Asia and New York never trade at once.  London overlaps New York for four hours, or five exactly
      when the US has switched and Europe has not; and it overlaps Asia for the one hour of European
      summer time before 08:00 GMT. */
  lemma OverlapsExactly(g: Instant)
    requires g.Valid()
    ensures !(IsDealing(AsianSession, g) && IsDealing(NewYorkSession, g))
    ensures var from, until := (13 - US1(g)) * 3600, (17 - EU1(g)) * 3600;
      && (InOverlap(g) == [LondonSession, NewYorkSession] <==> from <= g.second < until)
      && until - from == (if IsDst(US, g) && !IsDst(EU, g) then 5 else 4) * 3600
    ensures InOverlap(g) == [AsianSession, LondonSession] <==> IsDst(EU, g) && 7 * 3600 <= g.second < 8 * 3600
    ensures InOverlap(g) in [[], [AsianSession, LondonSession], [LondonSession, NewYorkSession]]
  {
    hide IsDealing, IsDst;
    SessionWindows(g);
    EuImpliesUs(g);
    assert [AsianSession, LondonSession][0] != [LondonSession, NewYorkSession][0];
    if IsDealing(AsianSession, g) && IsDealing(LondonSession, g) {
      assert ActiveSessions(g) == [AsianSession, LondonSession];
    } else if IsDealing(LondonSession, g) && IsDealing(NewYorkSession, g) {
      assert ActiveSessions(g) == [LondonSession, NewYorkSession];
    } else {
      assert |ActiveSessions(g)| <= 1;
    }
  }

  // ---------------------------------------------------------------- the New York venue, second form

  /** session.py works in whole minutes of Eastern time. */
  function GmtToEastern(g: Instant): Local {
    Shifted(g, if IsDst(US, g) then -4 else -5)
  }

  predicate IsUsSessionOpen(eastern: Local) {
    1 <= eastern.weekday <= 5 && 9 * 60 + 30 <= eastern.time / 60 < 16 * 60
  }

  /** The New York venue and the US session open and close together. */
  lemma NewYorkAgrees(g: Instant)
    ensures IsOpen(NEWYORK, g) == IsUsSessionOpen(GmtToEastern(g))
  {
    hide IsDst, Shifted;
    var t := GmtToEastern(g).time;
    MinuteForm(t, 9 * 60 + 30);
    MinuteForm(t, 16 * 60);
  }

  /** A time of day is at or past a whole minute exactly when its minute of the day is. */
  lemma MinuteForm(t: int, minute: int)
    ensures t / 60 >= minute <==> t >= minute * 60
  {
  }
}
