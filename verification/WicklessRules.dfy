/** What a research pass finds, in the prices of the bars: which bars make levels and where, which levels are
    revisited, which break out and on which bar, and how far price then went. */
module WicklessRules {
  import opened Numeric
  import opened Wickless

  // ---------------------------------------------------------------- bars and zones

  /** A bar that moved at all; the pass skips the others. */
  predicate Moved(b: Bar) { b.high > b.low }

  /** A bar nearly all body: its wicks are within their share of its range, and its body is at least its own. */
  predicate Clean(b: Bar, s: Settings) {
    var range, body := b.high - b.low, Abs(b.close - b.open);
    Moved(b) && body > 0.0 && range - body <= s.wicklessRatio * range && body >= s.minBodyRatio * range
  }

  /** A bar reaches into the zone around a price. */
  predicate Reaches(price: real, b: Bar, s: Settings) { b.low <= price + s.tolerance && price - s.tolerance <= b.high }

  /** A bar closes beyond the zone, in the level's direction. */
  predicate ClosesBeyond(price: real, bull: bool, b: Bar, s: Settings) {
    if bull then b.close - price > s.tolerance else price - b.close > s.tolerance
  }

  /** The price a level stands for: the open of its bar or, on the clean-end basis, the end of the body with
      the shorter wick, the open when they are equal. */
  function Mark(b: Bar, basis: Basis): real {
    if basis.CandleOpen? then b.open
    else if b.close > b.open then (if b.open - b.low <= b.high - b.close then b.open else b.close)
    else (if b.high - b.open <= b.close - b.low then b.open else b.close)
  }

  lemma ShareOf(part: real, range: real, ratio: real)
    requires range > 0.0
    ensures part / range <= ratio <==> part <= ratio * range
    ensures part / range >= ratio <==> part >= ratio * range
  {
    var x := part / range;
    assert x * range == part;
    if x < ratio {
      MulLt(x, ratio, range, part, ratio * range);
    } else if x > ratio {
      MulLt(ratio, x, range, ratio * range, part);
    }
  }

  lemma WicklessIsClean(b: Bar, at: nat, s: Settings)
    requires Moved(b)
    ensures IsWickless(b, s) <==> Clean(b, s)
    ensures Clean(b, s) ==> NewLevel(b, at, s) == Level(Mark(b, s.basis), b.close > b.open, at, false, false, false)
  {
    var range, body := b.high - b.low, Abs(b.close - b.open);
    assert Upper(b) + Lower(b) == range - body;
    ShareOf(range - body, range, s.wicklessRatio);
    ShareOf(body, range, s.minBodyRatio);
  }

  // ---------------------------------------------------------------- what happens to a level

  /** A bar at or after index lo and after the level's own, within its age, that reaches into its zone. */
  predicate RevisitedSince(r: seq<Bar>, price: real, born: nat, lo: nat, s: Settings) {
    exists m :: lo <= m < born && Revisit(r, price, born, m, s)
  }

  predicate Revisit(r: seq<Bar>, price: real, born: nat, m: nat, s: Settings) {
    m < |r| && Moved(r[m]) && born - m <= s.maxLevelAge && Reaches(price, r[m], s)
  }

  /** The bar breaks out of the zone of a level revisited before: it closes beyond it and does not touch it. */
  predicate Breakout(r: seq<Bar>, price: real, bull: bool, born: nat, j: nat, s: Settings) {
    && j < |r| && j < born && Moved(r[j]) && born - j <= s.maxLevelAge
    && !Reaches(price, r[j], s) && ClosesBeyond(price, bull, r[j], s)
    && RevisitedSince(r, price, born, j + 1, s)
  }

  predicate BrokenSince(r: seq<Bar>, price: real, bull: bool, born: nat, lo: nat, s: Settings) {
    exists j :: lo <= j < born && Breakout(r, price, bull, born, j, s)
  }

  /** The first breakout after the level's own bar. */
  predicate BreaksAt(r: seq<Bar>, price: real, bull: bool, born: nat, j: nat, s: Settings) {
    Breakout(r, price, bull, born, j, s) && !BrokenSince(r, price, bull, born, j + 1, s)
  }

  predicate AgedSince(r: seq<Bar>, born: nat, lo: nat, s: Settings) {
    exists j :: lo <= j < born && OverAge(r, born, j, s)
  }

  predicate OverAge(r: seq<Bar>, born: nat, j: nat, s: Settings) { j < |r| && Moved(r[j]) && born - j > s.maxLevelAge }

  /** What the flags of a level say of the bars from index lo on. */
  predicate Tells(r: seq<Bar>, l: Level, lo: nat, s: Settings) {
    && (l.revisited <==> RevisitedSince(r, l.price, l.born, lo, s))
    && (l.consumed <==> BrokenSince(r, l.price, l.bull, l.born, lo, s) || AgedSince(r, l.born, lo, s))
    && (l.inside ==> l.revisited)
  }

  /** One bar more. */
  lemma SinceOneMore(r: seq<Bar>, price: real, bull: bool, born: nat, lo: nat, s: Settings)
    requires lo < |r| && lo < born
    ensures RevisitedSince(r, price, born, lo, s) <==> RevisitedSince(r, price, born, lo + 1, s) || Revisit(r, price, born, lo, s)
    ensures BrokenSince(r, price, bull, born, lo, s) <==> BrokenSince(r, price, bull, born, lo + 1, s) || Breakout(r, price, bull, born, lo, s)
    ensures AgedSince(r, born, lo, s) <==> AgedSince(r, born, lo + 1, s) || OverAge(r, born, lo, s)
  {
    hide Revisit, Breakout, OverAge;
    if RevisitedSince(r, price, born, lo, s) && !Revisit(r, price, born, lo, s) {
      var m :| lo <= m < born && Revisit(r, price, born, m, s);
      assert lo + 1 <= m < born && Revisit(r, price, born, m, s);
    }
    if BrokenSince(r, price, bull, born, lo, s) && !Breakout(r, price, bull, born, lo, s) {
      var j :| lo <= j < born && Breakout(r, price, bull, born, j, s);
      assert lo + 1 <= j < born && Breakout(r, price, bull, born, j, s);
    }
    if AgedSince(r, born, lo, s) && !OverAge(r, born, lo, s) {
      var j :| lo <= j < born && OverAge(r, born, j, s);
      assert lo + 1 <= j < born && OverAge(r, born, j, s);
    }
  }

  /** Within its age at a bar, a level was within it before; and what broke was revisited before. */
  lemma EarlierIsYounger(r: seq<Bar>, price: real, bull: bool, born: nat, lo: nat, s: Settings)
    ensures born - lo <= s.maxLevelAge ==> !AgedSince(r, born, lo, s)
    ensures BrokenSince(r, price, bull, born, lo, s) ==> RevisitedSince(r, price, born, lo, s)
  {
    if BrokenSince(r, price, bull, born, lo, s) {
      var j :| lo <= j < born && Breakout(r, price, bull, born, j, s);
      var m :| j + 1 <= m < born && Revisit(r, price, born, m, s);
    }
  }

  lemma AgedLater(r: seq<Bar>, born: nat, lo: nat, s: Settings)
    ensures AgedSince(r, born, lo + 1, s) ==> born - lo > s.maxLevelAge
  {
  }

  /** What a bar does to a level is what its prices say. */
  lemma BarTells(r: seq<Bar>, l: Level, i: nat, s: Settings)
    requires i < |r| && i < l.born && Moved(r[i]) && Tells(r, l, i + 1, s)
    ensures Tells(r, AfterBar(l, i, r[i], s), i, s)
    ensures Breaks(l, i, r[i], s) <==> BreaksAt(r, l.price, l.bull, l.born, i, s)
  {
    hide RevisitedSince, BrokenSince, AgedSince;
    SinceOneMore(r, l.price, l.bull, l.born, i, s);
    EarlierIsYounger(r, l.price, l.bull, l.born, i + 1, s);
    AgedLater(r, l.born, i, s);
  }

  lemma FlatBarTells(r: seq<Bar>, l: Level, i: nat, s: Settings)
    requires i < |r| && i < l.born && !Moved(r[i]) && Tells(r, l, i + 1, s)
    ensures Tells(r, l, i, s) && !Breakout(r, l.price, l.bull, l.born, i, s)
  {
    hide RevisitedSince, BrokenSince, AgedSince;
    SinceOneMore(r, l.price, l.bull, l.born, i, s);
  }

  lemma FreshTells(r: seq<Bar>, l: Level, s: Settings)
    requires !l.revisited && !l.inside && !l.consumed
    ensures Tells(r, l, l.born, s)
  {
  }

  // ---------------------------------------------------------------- what a sweep does

  predicate Broke(levels: seq<Level>, x: Break, at: nat, b: Bar, s: Settings) {
    x.bar == at && x.level < |levels| && x.bull == levels[x.level].bull && Breaks(levels[x.level], at, b, s)
  }

  lemma {:induction false} SweepExactly(c: State, k: nat, at: nat, b: Bar, s: Settings)
    requires k <= |c.levels|
    ensures var d := Sweep(c, k, at, b, s);
      && |d.levels| == |c.levels|
      && (forall j :: 0 <= j < |c.levels| ==> d.levels[j] == if j < k then c.levels[j] else AfterBar(c.levels[j], at, b, s))
      && (forall x :: x in d.breaks <==> x in c.breaks || (k <= x.level && Broke(c.levels, x, at, b, s)))
    decreases |c.levels| - k
  {
    hide AfterBar, Breaks;
    if k < |c.levels| {
      var e := StepLevel(c, k, at, b, s);
      SweepExactly(e, k + 1, at, b, s);
      forall x
        ensures x in Sweep(e, k + 1, at, b, s).breaks <==> x in c.breaks || (k <= x.level && Broke(c.levels, x, at, b, s))
      {
        assert x.level >= k + 1 ==> (Broke(e.levels, x, at, b, s) <==> Broke(c.levels, x, at, b, s));
      }
    }
  }

  // ---------------------------------------------------------------- the whole pass

  /** The level marks its bar. */
  predicate Marks(r: seq<Bar>, l: Level, s: Settings) {
    l.born < |r| && Clean(r[l.born], s) && l.price == Mark(r[l.born], s.basis) && l.bull == (r[l.born].close > r[l.born].open)
  }

  /** The levels are exactly the clean bars from index lo on, the oldest bar aside, oldest first. */
  predicate LevelsAt(r: seq<Bar>, levels: seq<Level>, lo: nat, s: Settings) {
    && (forall k :: 0 <= k < |levels| ==> Marks(r, levels[k], s) && lo <= levels[k].born < |r| - 1)
    && (forall j, k :: 0 <= j < k < |levels| ==> levels[j].born > levels[k].born)
    && (forall i :: lo <= i < |r| - 1 && Clean(r[i], s) ==> exists k :: 0 <= k < |levels| && levels[k].born == i)
  }

  /** The breaks are exactly the first breakouts. */
  ghost predicate BreaksOf(r: seq<Bar>, levels: seq<Level>, breaks: seq<Break>, lo: nat, s: Settings) {
    forall x: Break :: x in breaks <==>
      && x.level < |levels| && lo <= x.bar && x.bull == levels[x.level].bull
      && BreaksAt(r, levels[x.level].price, x.bull, levels[x.level].born, x.bar, s)
  }

  ghost predicate Exact(r: seq<Bar>, c: State, lo: nat, s: Settings) {
    && LevelsAt(r, c.levels, lo, s)
    && (forall k :: 0 <= k < |c.levels| ==> Tells(r, c.levels[k], lo, s))
    && BreaksOf(r, c.levels, c.breaks, lo, s)
  }

  lemma ClassifyMarks(r: seq<Bar>, c: State, i: nat, s: Settings)
    requires i + 1 < |r| && Moved(r[i]) && LevelsAt(r, c.levels, i + 1, s)
    ensures var d := Classify(c, i, r[i], s);
      && LevelsAt(r, d.levels, i, s) && d.breaks == c.breaks
      && |c.levels| <= |d.levels| && d.levels[..|c.levels|] == c.levels
      && forall k :: |c.levels| <= k < |d.levels| ==> d.levels[k].born == i && FreshLevelOf(d.levels[k])
  {
    hide Clean, Mark, IsWickless, NewLevel;
    WicklessIsClean(r[i], i, s);
    var d := Classify(c, i, r[i], s);
    forall j | i <= j < |r| - 1 && Clean(r[j], s)
      ensures exists k :: 0 <= k < |d.levels| && d.levels[k].born == j
    {
      if j == i {
        assert d.levels[|c.levels|].born == i;
      } else {
        var k :| 0 <= k < |c.levels| && c.levels[k].born == j;
        assert d.levels[k].born == j;
      }
    }
  }

  predicate FreshLevelOf(l: Level) { !l.revisited && !l.inside && !l.consumed }

  /** What a bar leaves of a level stands for the same price, bar and direction. */
  lemma BarKeepsMark(l: Level, at: nat, b: Bar, s: Settings)
    ensures var m := AfterBar(l, at, b, s); m.price == l.price && m.bull == l.bull && m.born == l.born
  {
  }

  lemma SweepKeepsMarks(r: seq<Bar>, c: State, d: State, i: nat, b: Bar, s: Settings)
    requires LevelsAt(r, c.levels, i, s) && |d.levels| == |c.levels|
    requires forall j :: 0 <= j < |c.levels| ==> d.levels[j] == AfterBar(c.levels[j], i, b, s)
    ensures LevelsAt(r, d.levels, i, s)
  {
    hide AfterBar, Clean, Mark;
    forall j | 0 <= j < |c.levels|
      ensures d.levels[j].price == c.levels[j].price && d.levels[j].bull == c.levels[j].bull && d.levels[j].born == c.levels[j].born
    {
      BarKeepsMark(c.levels[j], i, b, s);
    }
    forall m | i <= m < |r| - 1 && Clean(r[m], s)
      ensures exists k :: 0 <= k < |d.levels| && d.levels[k].born == m
    {
      var k :| 0 <= k < |c.levels| && c.levels[k].born == m;
      assert d.levels[k].born == m;
    }
  }

  /** A level is untouched before its own bar is past. */
  lemma OwnBar(l: Level, at: nat, b: Bar, s: Settings)
    requires l.born == at
    ensures AfterBar(l, at, b, s) == l && !Breaks(l, at, b, s)
  {
  }

  /** The level k after bar i. */
  lemma LevelTells(r: seq<Bar>, c: State, k: nat, i: nat, s: Settings)
    requires i + 1 < |r| && Moved(r[i]) && Exact(r, c, i + 1, s)
    requires k < |Classify(c, i, r[i], s).levels|
    ensures var l := Classify(c, i, r[i], s).levels[k];
      && Tells(r, AfterBar(l, i, r[i], s), i, s)
      && (Breaks(l, i, r[i], s) <==> BreaksAt(r, l.price, l.bull, l.born, i, s))
      && (k < |c.levels| ==> l == c.levels[k])
      && (k >= |c.levels| ==> l.born == i)
  {
    hide AfterBar, Breaks, Tells, BreaksAt, Classify, LevelsAt, BreaksOf, Breakout;
    ClassifyMarks(r, c, i, s);
    var d := Classify(c, i, r[i], s);
    var l := d.levels[k];
    if k < |c.levels| {
      assert l == d.levels[..|c.levels|][k];
      BornBefore(r, c.levels, k, i + 1, s);
      BarTells(r, l, i, s);
    } else {
      FreshTells(r, l, s);
      OwnBar(l, i, r[i], s);
      NoBreakAtBirth(r, l, i, s);
    }
  }

  lemma BornBefore(r: seq<Bar>, levels: seq<Level>, k: nat, lo: nat, s: Settings)
    requires LevelsAt(r, levels, lo, s) && k < |levels|
    ensures levels[k].born >= lo
  {
  }

  lemma NoBreakAtBirth(r: seq<Bar>, l: Level, i: nat, s: Settings)
    requires l.born == i
    ensures !BreaksAt(r, l.price, l.bull, l.born, i, s)
  {
  }

  lemma BarKeepsExact(r: seq<Bar>, c: State, i: nat, s: Settings)
    requires i + 1 < |r| && Moved(r[i]) && Exact(r, c, i + 1, s)
    ensures Exact(r, Process(c, i, r[i], s), i, s)
  {
    hide AfterBar, Breaks, Tells, BreaksAt, Classify, LevelsAt, Breakout, Sweep;
    ClassifyMarks(r, c, i, s);
    var d := Classify(c, i, r[i], s);
    var e := Sweep(d, 0, i, r[i], s);
    SweepExactly(d, 0, i, r[i], s);
    SweepKeepsMarks(r, d, e, i, r[i], s);
    forall k | 0 <= k < |e.levels|
      ensures Tells(r, e.levels[k], i, s)
    {
      LevelTells(r, c, k, i, s);
    }
    forall x: Break
      ensures x in e.breaks <==>
        && x.level < |e.levels| && i <= x.bar && x.bull == e.levels[x.level].bull
        && BreaksAt(r, e.levels[x.level].price, x.bull, e.levels[x.level].born, x.bar, s)
    {
      if x.level < |d.levels| {
        LevelTells(r, c, x.level, i, s);
        BarKeepsMark(d.levels[x.level], i, r[i], s);
        BreaksBeforeBirth(r, d.levels[x.level], x.bar, s);
      }
    }
  }

  /** Nothing breaks out at or before its own bar. */
  lemma BreaksBeforeBirth(r: seq<Bar>, l: Level, j: nat, s: Settings)
    ensures BreaksAt(r, l.price, l.bull, l.born, j, s) ==> j < l.born
  {
  }

  lemma FlatBarKeepsExact(r: seq<Bar>, c: State, i: nat, s: Settings)
    requires i + 1 < |r| && !Moved(r[i]) && Exact(r, c, i + 1, s)
    ensures Exact(r, c, i, s)
  {
    hide Tells, Breakout, BrokenSince, Mark;
    forall k | 0 <= k < |c.levels|
      ensures Tells(r, c.levels[k], i, s) && !Breakout(r, c.levels[k].price, c.levels[k].bull, c.levels[k].born, i, s)
    {
      FlatBarTells(r, c.levels[k], i, s);
    }
  }

  /** After every bar of every pass: the levels are exactly the clean bars, each at its mark; a level is
      revisited exactly when a later bar within its age reached into its zone; and the breaks are exactly the
      first bars that close beyond the zone in the level's direction, without touching it, once it has been
      revisited. */
  lemma {:induction false} PassExactly(r: seq<Bar>, i: nat, s: Settings)
    ensures Exact(r, StateAfter(r, i, s), i, s)
    decreases |r| - i
  {
    hide Exact, Process;
    if i + 1 >= |r| {
      NothingYet(r, i, s);
    } else {
      PassExactly(r, i + 1, s);
      if Moved(r[i]) {
        BarKeepsExact(r, StateAfter(r, i + 1, s), i, s);
      } else {
        FlatBarKeepsExact(r, StateAfter(r, i + 1, s), i, s);
        FlatBarSkips(StateAfter(r, i + 1, s), i, r[i], s);
      }
    }
  }

  lemma NothingYet(r: seq<Bar>, i: nat, s: Settings)
    requires i + 1 >= |r|
    ensures Exact(r, START, i, s)
  {
  }

  lemma FlatBarSkips(c: State, at: nat, b: Bar, s: Settings)
    requires !Moved(b)
    ensures Process(c, at, b, s) == c
  {
  }

  // ---------------------------------------------------------------- counts and outcomes

  lemma {:induction false} CountIsCardinality(levels: seq<Level>)
    ensures Revisited(levels) == |set k | 0 <= k < |levels| && levels[k].revisited|
  {
    if levels != [] {
      var n := |levels| - 1;
      CountIsCardinality(levels[..n]);
      var front := set k | 0 <= k < n && levels[..n][k].revisited;
      var all := set k | 0 <= k < |levels| && levels[k].revisited;
      assert all == if levels[n].revisited then front + {n} else front;
    }
  }

  /** The counters of a pass: its levels, the revisited ones, and its breaks, at most one a level. */
  lemma CountsExactly(r: seq<Bar>, i: nat, s: Settings)
    ensures var c := StateAfter(r, i, s);
      && c.wickless == |c.levels|
      && c.revisited == |set k | 0 <= k < |c.levels| && RevisitedSince(r, c.levels[k].price, c.levels[k].born, i, s)|
      && forall x, y :: 0 <= x < y < |c.breaks| ==> c.breaks[x].level != c.breaks[y].level
  {
    hide LevelsAt, BreaksOf, RevisitedSince, BrokenSince, AgedSince, Waiting;
    var c := StateAfter(r, i, s);
    StateIsValid(r, i, s);
    PassExactly(r, i, s);
    CountIsCardinality(c.levels);
    var told := set k | 0 <= k < |c.levels| && RevisitedSince(r, c.levels[k].price, c.levels[k].born, i, s);
    var marked := set k | 0 <= k < |c.levels| && c.levels[k].revisited;
    forall k | 0 <= k < |c.levels|
      ensures c.levels[k].revisited <==> RevisitedSince(r, c.levels[k].price, c.levels[k].born, i, s)
    {
      assert Tells(r, c.levels[k], i, s);
    }
    assert told == marked;
  }

  /** How far a bar moves beyond an entry, upward for a buy and downward for a sell. */
  function Excursion(b: Bar, bull: bool, entry: real): real { if bull then b.high - entry else entry - b.low }

  /** A bar newer than the entry's, within the forward window. */
  predicate InWindow(n: nat, at: nat, s: Settings) { n < at && at - n <= s.forwardBars }

  /** The favourable excursion of an entry at a bar's close is the farthest move of the window, or nothing when
      no bar of it moves that way. */
  lemma MfeExactly(r: seq<Bar>, at: nat, bull: bool, s: Settings)
    requires at < |r|
    ensures var m, entry := Mfe(r, at, bull, s), r[at].close;
      && m >= 0.0
      && (forall n :: 0 <= n < |r| && InWindow(n, at, s) ==> Excursion(r[n], bull, entry) <= m)
      && (m == 0.0 || exists n :: 0 <= n < |r| && InWindow(n, at, s) && Excursion(r[n], bull, entry) == m)
  {
    BestIsMaximum(r, Stop(at, s), at, bull, r[at].close);
    forall n: nat | n < |r|
      ensures InWindow(n, at, s) <==> Stop(at, s) <= n < at
      ensures Excursion(r[n], bull, r[at].close) == Favour(r[n], bull, r[at].close)
    {
    }
  }

  /** A graded break wins when a bar of the window moves the goal, or the goal is nothing. */
  predicate WinsAt(r: seq<Bar>, at: nat, bull: bool, s: Settings)
    requires at < |r|
  {
    var goal := s.tolerance * s.targetR;
    goal <= 0.0 || exists n :: 0 <= n < |r| && InWindow(n, at, s) && Excursion(r[n], bull, r[at].close) >= goal
  }

  lemma WinsWhenFarEnough(r: seq<Bar>, at: nat, bull: bool, s: Settings)
    requires at < |r|
    ensures Mfe(r, at, bull, s) >= s.tolerance * s.targetR <==> WinsAt(r, at, bull, s)
  {
    hide Mfe, Excursion, InWindow;
    MfeExactly(r, at, bull, s);
  }

  /** The wins of a run of breaks are those that win, each taken in its own direction or in the other. */
  lemma WinsExactly(r: seq<Bar>, breaks: seq<Break>, flip: bool, s: Settings)
    requires Within(breaks, |r|)
    ensures Wins(r, breaks, flip, s) == |set x | 0 <= x < |breaks| && WinsAt(r, breaks[x].bar, breaks[x].bull != flip, s)|
  {
    hide Wins, WinsAt;
    assert breaks[..|breaks|] == breaks;
    WinsOfFirst(r, breaks, |breaks|, flip, s);
    assert Winners(r, breaks, |breaks|, flip, s) == set x | 0 <= x < |breaks| && WinsAt(r, breaks[x].bar, breaks[x].bull != flip, s);
  }

  function Winners(r: seq<Bar>, breaks: seq<Break>, n: nat, flip: bool, s: Settings): set<int>
    requires Within(breaks, |r|) && n <= |breaks|
  {
    set x | 0 <= x < n && WinsAt(r, breaks[x].bar, breaks[x].bull != flip, s)
  }

  lemma {:induction false} WinsOfFirst(r: seq<Bar>, breaks: seq<Break>, n: nat, flip: bool, s: Settings)
    requires Within(breaks, |r|) && n <= |breaks|
    ensures Wins(r, breaks[..n], flip, s) == |Winners(r, breaks, n, flip, s)|
  {
    hide Wins, WinsAt, Winners;
    if n == 0 {
      NoWinners(r, breaks, flip, s);
    } else {
      WinsOfFirst(r, breaks, n - 1, flip, s);
      LastWins(r, breaks, n, flip, s);
      LastWinner(r, breaks, n, flip, s);
    }
  }

  lemma NoWinners(r: seq<Bar>, breaks: seq<Break>, flip: bool, s: Settings)
    requires Within(breaks, |r|)
    ensures Wins(r, breaks[..0], flip, s) == 0 && Winners(r, breaks, 0, flip, s) == {}
  {
    hide WinsAt;
  }

  lemma LastWins(r: seq<Bar>, breaks: seq<Break>, n: nat, flip: bool, s: Settings)
    requires Within(breaks, |r|) && 0 < n <= |breaks|
    ensures Wins(r, breaks[..n], flip, s) == Wins(r, breaks[..n - 1], flip, s)
         + if WinsAt(r, breaks[n - 1].bar, breaks[n - 1].bull != flip, s) then 1 else 0
  {
    hide Mfe, WinsAt;
    WinsWhenFarEnough(r, breaks[n - 1].bar, breaks[n - 1].bull != flip, s);
    assert breaks[..n][..n - 1] == breaks[..n - 1] && breaks[..n][n - 1] == breaks[n - 1];
  }

  lemma LastWinner(r: seq<Bar>, breaks: seq<Break>, n: nat, flip: bool, s: Settings)
    requires Within(breaks, |r|) && 0 < n <= |breaks|
    ensures |Winners(r, breaks, n, flip, s)| == |Winners(r, breaks, n - 1, flip, s)|
         + if WinsAt(r, breaks[n - 1].bar, breaks[n - 1].bull != flip, s) then 1 else 0
  {
    hide WinsAt;
    var before, all := Winners(r, breaks, n - 1, flip, s), Winners(r, breaks, n, flip, s);
    assert n - 1 !in before;
    if WinsAt(r, breaks[n - 1].bar, breaks[n - 1].bull != flip, s) {
      assert all == before + {n - 1};
    } else {
      assert all == before;
    }
  }

  // ---------------------------------------------------------------- one pass in numbers

  const SETTINGS := Settings(0.05, 0.5, 1.0, 50, 20, 3.0, CandleOpen)

  /** Newest first: a clean rise from 100, a dip back to 100, a close at 111, and two bars more. */
  const BARS := [
    Bar(111.0, 115.0, 109.0, 114.0), Bar(111.0, 112.0, 110.0, 111.0), Bar(103.0, 112.0, 103.0, 111.0),
    Bar(106.0, 107.0, 100.0, 105.0), Bar(100.0, 110.0, 100.0, 110.0), Bar(99.0, 101.0, 98.0, 100.0)]

  const LEVEL := Level(100.0, true, 4, false, false, false)

  const BREAK := Break(0, 2, true)

  /** The level at 100 is revisited, breaks out at 111, runs 4 for and 2 against, and wins at three times the
      tolerance; its control loses. */
  lemma PassInNumbers()
    ensures Within(StateAfter(BARS, 1, SETTINGS).breaks, |BARS|)
    ensures ResultOf(BARS, StateAfter(BARS, 1, SETTINGS), SETTINGS) == RunResult(1, 1, 1, 1, 1, 0, 4.0, 2.0, 2.0, 4.0)
  {
    hide Mfe, Mae, StateAfter;
    StatesInNumbers();
    OutcomesInNumbers();
    OneBreak(false);
    OneBreak(true);
  }

  lemma OneBreak(flip: bool)
    ensures SumMfe(BARS, [BREAK], flip, SETTINGS) == Mfe(BARS, 2, !flip, SETTINGS)
    ensures SumMae(BARS, [BREAK], flip, SETTINGS) == Mae(BARS, 2, !flip, SETTINGS)
    ensures Wins(BARS, [BREAK], flip, SETTINGS) == if Mfe(BARS, 2, !flip, SETTINGS) >= 3.0 then 1 else 0
  {
    hide Mfe, Mae;
    assert [BREAK][..0] == [];
    assert SumMfe(BARS, [], flip, SETTINGS) == SumMae(BARS, [], flip, SETTINGS) == 0.0 && Wins(BARS, [], flip, SETTINGS) == 0;
  }

  lemma OutcomesInNumbers()
    ensures Mfe(BARS, 2, true, SETTINGS) == Mae(BARS, 2, false, SETTINGS) == 4.0
    ensures Mfe(BARS, 2, false, SETTINGS) == Mae(BARS, 2, true, SETTINGS) == 2.0
  {
    assert Best(BARS, 2, 2, true, 111.0) == 0.0 && Best(BARS, 1, 2, true, 111.0) == 1.0 && Best(BARS, 0, 2, true, 111.0) == 4.0;
    assert Best(BARS, 2, 2, false, 111.0) == 0.0 && Best(BARS, 1, 2, false, 111.0) == 1.0 && Best(BARS, 0, 2, false, 111.0) == 2.0;
    Wickless.Mirror(BARS, 0, 2, true, 111.0);
    Wickless.Mirror(BARS, 0, 2, false, 111.0);
  }

  lemma StatesInNumbers()
    ensures StateAfter(BARS, 1, SETTINGS)
         == State([LEVEL.(revisited := true, consumed := true)], 1, 1, [BREAK])
  {
    hide Process;
    assert StateAfter(BARS, 5, SETTINGS) == START;
    var touched := LEVEL.(revisited := true, inside := true);
    var broken := LEVEL.(revisited := true, consumed := true);
    FirstBar();
    LaterBar(LEVEL, 1, 0, [], 3, touched, true, []);
    LaterBar(touched, 1, 1, [], 2, broken, false, [BREAK]);
    LaterBar(broken, 1, 1, [BREAK], 1, broken, false, []);
    assert [] + [BREAK] == [BREAK] && [BREAK] + [] == [BREAK];
    assert StateAfter(BARS, 4, SETTINGS) == State([LEVEL], 1, 0, []);
    assert StateAfter(BARS, 3, SETTINGS) == State([touched], 1, 1, []);
    assert StateAfter(BARS, 2, SETTINGS) == State([broken], 1, 1, [BREAK]);
  }

  lemma FirstBar()
    ensures Process(START, 4, BARS[4], SETTINGS) == State([LEVEL], 1, 0, [])
  {
    WicklessIsClean(BARS[4], 4, SETTINGS);
    var c := State([LEVEL], 1, 0, []);
    assert Classify(START, 4, BARS[4], SETTINGS) == c;
    assert [LEVEL][0 := LEVEL] == [LEVEL];
    assert StepLevel(c, 0, 4, BARS[4], SETTINGS) == c;
  }

  /** One of the three bars that make no level, over a single one. */
  lemma LaterBar(l: Level, wickless: nat, revisited: nat, breaks: seq<Break>, at: nat, after: Level, first: bool, broke: seq<Break>)
    requires 1 <= at <= 3 && after == AfterBar(l, at, BARS[at], SETTINGS) && first == (after.revisited && !l.revisited)
    requires broke == if Breaks(l, at, BARS[at], SETTINGS) then [Break(0, at, l.bull)] else []
    ensures Process(State([l], wickless, revisited, breaks), at, BARS[at], SETTINGS)
         == State([after], wickless, revisited + (if first then 1 else 0), breaks + broke)
  {
    hide AfterBar, Breaks, IsWickless, Clean;
    NotClean(at);
    WicklessIsClean(BARS[at], at, SETTINGS);
    var c := State([l], wickless, revisited, breaks);
    assert [l][0 := after] == [after];
    var d := StepLevel(c, 0, at, BARS[at], SETTINGS);
    assert d == State([after], wickless, revisited + (if first then 1 else 0), breaks + broke);
    assert Sweep(d, 1, at, BARS[at], SETTINGS) == d;
    assert Sweep(c, 0, at, BARS[at], SETTINGS) == d;
    assert Classify(c, at, BARS[at], SETTINGS) == c;
  }

  lemma NotClean(at: nat)
    requires 1 <= at <= 3
    ensures Moved(BARS[at]) && !Clean(BARS[at], SETTINGS)
  {
    assert BARS[1].close == BARS[1].open;
    assert BARS[2].high - BARS[2].low == 9.0 && Abs(BARS[2].close - BARS[2].open) == 8.0;
    assert BARS[3].high - BARS[3].low == 7.0 && Abs(BARS[3].close - BARS[3].open) == 1.0;
  }
}
