/** The MQL5 mirror, which works in minutes of the day and fills its results in one by one. */
module GlobalSessions {
  import opened Calendar
  import opened Sessions
  import opened Wrappers

  const SESSIONS := [AsianSession, LondonSession, NewYorkSession]

  /** The broken-down time of the terminal, from seconds since 1970. */
  datatype Struct = Struct(dayOfWeek: int, hour: int, min: int)

  /** Days since 1 January 1970, a Thursday. */
  function Epoch(year: int, day: int): int { Ordinal(year, day) - 719163 }

  function TimeToStruct(seconds: int): Struct {
    var s := seconds % 86400;
    Struct((seconds / 86400 + 4) % 7, s / 3600, s % 3600 / 60)
  }

  function Seconds(g: Instant): int { Epoch(g.year, g.day) * 86400 + g.second }

  /** The terminal's weekday of a day of a month. */
  function StructWeekday(year: int, month: int, day: int): int
    requires 1 <= month <= 12
  {
    TimeToStruct(Epoch(year, BeforeMonth(year, month) + day) * 86400 + 12 * 3600).dayOfWeek
  }

  method NeoFLGS_NthWeekday(year: int, month: int, dow: int, nth: int) returns (day: int)
    requires 1 <= month <= 12 && 0 <= dow < 7
    ensures day == NthWeekday(year, month, dow, nth)
  {
    hide BeforeMonth, Ordinal;
    var f := StructWeekday(year, month, 1);
    StructWeekdayIs(year, month, 1);
    day := 1 + (dow - f + 7) % 7 + (nth - 1) * 7;
  }

  method NeoFLGS_DaysInMonth(year: int, month: int) returns (days: int)
    requires 1 <= month <= 12
    ensures days == MonthLength(year, month)
  {
    var table := [31, 28, 31, 30, 31, 30, 31, 31, 30, 31, 30, 31];
    if month == 2 && ((year % 4 == 0 && year % 100 != 0) || year % 400 == 0) {
      return 29;
    }
    return table[month - 1];
  }

  method NeoFLGS_LastWeekday(year: int, month: int, dow: int) returns (day: int)
    requires 1 <= month <= 12 && 0 <= dow < 7
    ensures day == LastWeekday(year, month, dow)
  {
    hide BeforeMonth, Ordinal, MonthLength;
    var last := NeoFLGS_DaysInMonth(year, month);
    var f := StructWeekday(year, month, last);
    StructWeekdayIs(year, month, last);
    day := last - (f - dow + 7) % 7;
  }

  lemma StructWeekdayIs(year: int, month: int, day: int)
    requires 1 <= month <= 12
    ensures StructWeekday(year, month, day) == DayOfWeek(year, month, day)
  {
    hide BeforeMonth, Ordinal;
    EpochWeekday(Ordinal(year, BeforeMonth(year, month) + day), 12 * 3600);
  }

  lemma EpochWeekday(ordinal: int, second: int)
    ensures ((((ordinal - 719163) * 86400 + second) / 86400) + 4) % 7 == (ordinal + second / 86400) % 7
    ensures ((ordinal - 719163) * 86400 + second) % 86400 == second % 86400
  {
    assert ((ordinal - 719163) * 86400 + second) / 86400 == ordinal - 719163 + second / 86400;
    assert ordinal - 719163 + 4 == ordinal - 7 * 102737;
  }

  /** The boundaries compare as seconds since 1970, the reference's as seconds of the year. */
  method NeoFLGS_IsDst(rule: DstRule, g: Instant) returns (dst: bool)
    ensures dst == IsDst(rule, g)
  {
    hide BeforeMonth, Ordinal, NthWeekday, LastWeekday;
    var gmt := Seconds(g);
    SecondsInYear(g);
    var y := g.year;
    if rule == US {
      var a := NeoFLGS_NthWeekday(y, 3, 0, 2);
      var b := NeoFLGS_NthWeekday(y, 11, 0, 1);
      return gmt >= Gmt(y, 3, a, 7) && gmt < Gmt(y, 11, b, 6);
    }
    if rule == EU {
      var a := NeoFLGS_LastWeekday(y, 3, 0);
      var b := NeoFLGS_LastWeekday(y, 10, 0);
      return gmt >= Gmt(y, 3, a, 1) && gmt < Gmt(y, 10, b, 1);
    }
    if rule == AU {
      var a := NeoFLGS_NthWeekday(y, 10, 0, 1);
      var b := NeoFLGS_NthWeekday(y, 4, 0, 1);
      return gmt >= Gmt(y, 10, a, 16) - 86400 || gmt < Gmt(y, 4, b, 16) - 86400;
    }
    return false;
  }

  /** Seconds since 1970 of an hour of a month's day. */
  function Gmt(year: int, month: int, day: int, hour: int): int
    requires 1 <= month <= 12
  {
    Epoch(year, 1) * 86400 + At(year, month, day, hour)
  }

  lemma SecondsInYear(g: Instant)
    ensures Seconds(g) == Epoch(g.year, 1) * 86400 + g.InYear()
  {
  }

  method NeoFLGS_MarketSpec(v: Venue) returns (baseOffset: int, rule: DstRule, openMin: int, closeMin: int, lunchStart: int, lunchEnd: int)
    ensures var m := MarketOf(v);
      && baseOffset == m.offset && rule == m.rule
      && openMin * 60 == m.opens && closeMin * 60 == m.closes
      && (m.lunch.None? ==> lunchStart == -1 && lunchEnd == -1)
      && (m.lunch.Some? ==> lunchStart >= 0 && lunchStart * 60 == m.lunch.value.0 && lunchEnd * 60 == m.lunch.value.1)
  {
    lunchStart, lunchEnd := -1, -1;
    match v {
      case SYDNEY =>
        baseOffset, rule, openMin, closeMin := 10, AU, 10 * 60, 16 * 60;
      case TOKYO =>
        baseOffset, rule, openMin, closeMin := 9, NONE, 9 * 60, 15 * 60;
        lunchStart, lunchEnd := 11 * 60 + 30, 12 * 60 + 30;
      case HONGKONG =>
        baseOffset, rule, openMin, closeMin := 8, NONE, 9 * 60 + 30, 16 * 60;
        lunchStart, lunchEnd := 12 * 60, 13 * 60;
      case FRANKFURT =>
        baseOffset, rule, openMin, closeMin := 1, EU, 9 * 60, 17 * 60 + 30;
      case LONDON =>
        baseOffset, rule, openMin, closeMin := 0, EU, 8 * 60, 16 * 60 + 30;
      case NEWYORK =>
        baseOffset, rule, openMin, closeMin := -5, US, 9 * 60 + 30, 16 * 60;
    }
  }

  /** The local broken-down time agrees with the reference's local clock. */
  method LocalStruct(v: Venue, g: Instant) returns (t: Struct)
    ensures var l := ToLocal(v, g); t.dayOfWeek == l.weekday && t.hour * 60 + t.min == l.time / 60
  {
    hide IsDst, Ordinal;
    var baseOffset, rule, o, c, ls, le := NeoFLGS_MarketSpec(v);
    var dst := NeoFLGS_IsDst(rule, g);
    var local := Seconds(g) + (baseOffset + if dst then 1 else 0) * 3600;
    t := TimeToStruct(local);
    EpochWeekday(Ordinal(g.year, g.day), g.second + UtcOffset(v, g) * 3600);
  }

  method NeoFLGS_IsMarketOpen(v: Venue, g: Instant) returns (open: bool)
    ensures open == IsOpen(v, g)
  {
    hide ToLocal, MarketOf;
    var baseOffset, rule, openMin, closeMin, lunchStart, lunchEnd := NeoFLGS_MarketSpec(v);
    var t := LocalStruct(v, g);
    if t.dayOfWeek == 0 || t.dayOfWeek == 6 {
      return false;
    }
    var minute := t.hour * 60 + t.min;
    ghost var l := ToLocal(v, g);
    MinuteForm(l.time, openMin);
    MinuteForm(l.time, closeMin);
    MinuteForm(l.time, lunchStart);
    MinuteForm(l.time, lunchEnd);
    var within := if openMin <= closeMin then minute >= openMin && minute < closeMin else minute >= openMin || minute < closeMin;
    if !within {
      return false;
    }
    if lunchStart >= 0 && minute >= lunchStart && minute < lunchEnd {
      return false;
    }
    return true;
  }

  method NeoFLGS_IsSessionOpen(s: Session, g: Instant) returns (open: bool)
    ensures open == IsDealing(s, g)
  {
    hide ToLocal;
    var t := LocalStruct(Anchor(s), g);
    var minute := t.hour * 60 + t.min;
    var openMin, closeMin := 8 * 60, 17 * 60;
    open := if openMin <= closeMin then minute >= openMin && minute < closeMin else minute >= openMin || minute < closeMin;
  }

  function SessionName(s: Session): string {
    match s case AsianSession => "Asian" case LondonSession => "London" case NewYorkSession => "NewYork"
  }

  /** Names joined by "+". */
  function Joined(sessions: seq<Session>): string {
    if sessions == [] then ""
    else if |sessions| == 1 then SessionName(sessions[0])
    else Joined(sessions[..|sessions| - 1]) + "+" + SessionName(sessions[|sessions| - 1])
  }

  function Dealing(sessions: seq<Session>, g: Instant): seq<Session> {
    if sessions == [] then []
    else Dealing(sessions[..|sessions| - 1], g)
         + if IsDealing(sessions[|sessions| - 1], g) then [sessions[|sessions| - 1]] else []
  }

  lemma DealingAll(g: Instant)
    ensures Dealing(SESSIONS, g) == ActiveSessions(g)
  {
    hide IsDealing;
    assert SESSIONS[..2] == [AsianSession, LondonSession];
    assert SESSIONS[..2][..1] == [AsianSession] && SESSIONS[..2][..1][..0] == [];
    assert Dealing([AsianSession], g) == if IsDealing(AsianSession, g) then [AsianSession] else [];
    assert Dealing(SESSIONS[..2], g) == Dealing([AsianSession], g) + if IsDealing(LondonSession, g) then [LondonSession] else [];
  }

  lemma JoinedAppend(sessions: seq<Session>, s: Session)
    ensures Joined(sessions + [s]) == (if sessions == [] then "" else Joined(sessions) + "+") + SessionName(s)
    ensures sessions != [] ==> Joined(sessions) != ""
  {
    assert (sessions + [s])[..|sessions|] == sessions;
  }

  lemma NothingDealing(g: Instant)
    ensures Dealing(SESSIONS[..0], g) == []
  {
  }

  lemma DealingNext(i: nat, g: Instant)
    requires i < |SESSIONS|
    ensures Dealing(SESSIONS[..i + 1], g)
         == Dealing(SESSIONS[..i], g) + if IsDealing(SESSIONS[i], g) then [SESSIONS[i]] else []
  {
    hide IsDealing;
    assert SESSIONS[..i + 1][..i] == SESSIONS[..i];
  }

  /** The names so far, with one session more. */
  lemma JoinedNext(i: nat, g: Instant)
    requires i < |SESSIONS|
    ensures var out := Joined(Dealing(SESSIONS[..i], g));
      Joined(Dealing(SESSIONS[..i + 1], g))
      == if IsDealing(SESSIONS[i], g) then out + (if out == "" then "" else "+") + SessionName(SESSIONS[i]) else out
  {
    hide IsDealing, Dealing, Joined;
    DealingNext(i, g);
    NothingJoined();
    var before := Dealing(SESSIONS[..i], g);
    JoinedAppend(before, SESSIONS[i]);
    assert before + [] == before;
    var name := SessionName(SESSIONS[i]);
    assert "" + "" + name == "" + name;
  }

  lemma NothingJoined()
    ensures Joined([]) == ""
  {
  }

  method NeoFLGS_ActiveSessions(g: Instant) returns (out: string)
    ensures out == Joined(ActiveSessions(g))
  {
    hide IsDealing, Dealing, Joined;
    out := "";
    var i := 0;
    NothingDealing(g);
    NothingJoined();
    while i < |SESSIONS|
      invariant 0 <= i <= |SESSIONS|
      invariant out == Joined(Dealing(SESSIONS[..i], g))
    {
      var s := SESSIONS[i];
      JoinedNext(i, g);
      var open := NeoFLGS_IsSessionOpen(s, g);
      if open {
        out := out + (if out == "" then "" else "+") + SessionName(s);
      }
      i := i + 1;
    }
    assert SESSIONS[..i] == SESSIONS;
    DealingAll(g);
  }

  method NeoFLGS_ActiveSessionCount(g: Instant) returns (n: nat)
    ensures n == |ActiveSessions(g)|
  {
    hide IsDealing, Dealing;
    n := 0;
    var i := 0;
    NothingDealing(g);
    while i < |SESSIONS|
      invariant 0 <= i <= |SESSIONS|
      invariant n == |Dealing(SESSIONS[..i], g)|
    {
      DealingNext(i, g);
      var open := NeoFLGS_IsSessionOpen(SESSIONS[i], g);
      if open {
        n := n + 1;
      }
      i := i + 1;
    }
    assert SESSIONS[..i] == SESSIONS;
    DealingAll(g);
  }

  method NeoFLGS_IsWeekendGmt(g: Instant) returns (weekend: bool)
    requires g.Valid()
    ensures weekend == IsWeekend(g)
  {
    hide Ordinal;
    var t := TimeToStruct(Seconds(g));
    EpochWeekday(Ordinal(g.year, g.day), g.second);
    weekend := t.dayOfWeek == 6 || (t.dayOfWeek == 5 && t.hour >= 22) || (t.dayOfWeek == 0 && t.hour < 22);
  }

  /** The terminal and the reference agree on the gold day at every instant. */
  method NeoFLGS_GoldDayActive(g: Instant) returns (active: bool)
    requires g.Valid()
    ensures active == GoldDayActive(g)
  {
    hide IsWeekend, ActiveSessions;
    var weekend := NeoFLGS_IsWeekendGmt(g);
    if weekend {
      return false;
    }
    var n := NeoFLGS_ActiveSessionCount(g);
    return n > 0;
  }
}
