/** The wickless-revisit research pass over a price history. Bars are in series order: index 0 is the
    newest, so time runs toward smaller indices. */
module Wickless {
  import opened Numeric

  datatype Bar = Bar(open: real, high: real, low: real, close: real)

  datatype Basis = CandleOpen | CleanEnd

  datatype Settings = Settings(
    wicklessRatio: real,
    minBodyRatio: real,
    tolerance: real,
    maxLevelAge: int,
    forwardBars: int,
    targetR: real,
    basis: Basis)

  datatype Level = Level(price: real, bull: bool, born: nat, revisited: bool, inside: bool, consumed: bool)

  /** A level that broke out, the bar it did so on, and its direction. */
  datatype Break = Break(level: nat, bar: nat, bull: bool)

  /** Everything about a pass that is not an outcome measurement. */
  datatype State = State(levels: seq<Level>, wickless: nat, revisited: nat, breaks: seq<Break>)

  datatype RunResult = RunResult(
    wickless: nat, revisited: nat, broke: nat, graded: nat, win: nat, ctlWin: nat,
    mfe: real, mae: real, ctlMfe: real, ctlMae: real)

  // ---------------------------------------------------------------- bars and levels

  function Upper(b: Bar): real { b.high - Max(b.open, b.close) }

  function Lower(b: Bar): real { Min(b.open, b.close) - b.low }

  function CleanEndPrice(b: Bar, bull: bool): real {
    if bull then (if Lower(b) <= Upper(b) then b.open else b.close)
    else (if Upper(b) <= Lower(b) then b.open else b.close)
  }

  predicate IsWickless(b: Bar, s: Settings)
    requires b.high > b.low
  {
    var range, body := b.high - b.low, Abs(b.close - b.open);
    body > 0.0 && (Upper(b) + Lower(b)) / range <= s.wicklessRatio && body / range >= s.minBodyRatio
  }

  function NewLevel(b: Bar, at: nat, s: Settings): Level {
    var bull := b.close > b.open;
    Level(if s.basis.CleanEnd? then CleanEndPrice(b, bull) else b.open, bull, at, false, false, false)
  }

  predicate Touched(l: Level, b: Bar, s: Settings) {
    b.high >= l.price - s.tolerance && b.low <= l.price + s.tolerance
  }

  predicate BreaksOut(l: Level, b: Bar, s: Settings) {
    if l.bull then b.close > l.price + s.tolerance else b.close < l.price - s.tolerance
  }

  /** What a bar does to a level: nothing to a consumed or too young one; it ends an over-aged one; a
      touch marks the revisit and cannot also be the breakout; a revisited level may break. */
  function AfterBar(l: Level, at: nat, b: Bar, s: Settings): Level {
    if l.consumed || l.born <= at then l
    else if l.born - at > s.maxLevelAge then l.(consumed := true)
    else if Touched(l, b, s) then (if l.inside then l else l.(revisited := true, inside := true))
    else l.(inside := false, consumed := l.revisited && BreaksOut(l, b, s))
  }

  predicate Breaks(l: Level, at: nat, b: Bar, s: Settings) {
    && !l.consumed && l.born > at && l.born - at <= s.maxLevelAge
    && !Touched(l, b, s) && l.revisited && BreaksOut(l, b, s)
  }

  function StepLevel(c: State, k: nat, at: nat, b: Bar, s: Settings): State
    requires k < |c.levels|
  {
    var l := c.levels[k];
    var l' := AfterBar(l, at, b, s);
    c.(levels := c.levels[k := l'],
       revisited := c.revisited + (if l'.revisited && !l.revisited then 1 else 0),
       breaks := c.breaks + (if Breaks(l, at, b, s) then [Break(k, at, l.bull)] else []))
  }

  function Sweep(c: State, k: nat, at: nat, b: Bar, s: Settings): State
    requires k <= |c.levels|
    decreases |c.levels| - k
  {
    if k == |c.levels| then c else Sweep(StepLevel(c, k, at, b, s), k + 1, at, b, s)
  }

  function Classify(c: State, at: nat, b: Bar, s: Settings): State
    requires b.high > b.low
  {
    if IsWickless(b, s) then c.(levels := c.levels + [NewLevel(b, at, s)], wickless := c.wickless + 1) else c
  }

  function Process(c: State, at: nat, b: Bar, s: Settings): State {
    if b.high - b.low <= 0.0 then c else Sweep(Classify(c, at, b, s), 0, at, b, s)
  }

  const START := State([], 0, 0, [])

  /** The state after the bars from the second oldest down to index i. */
  function StateAfter(r: seq<Bar>, i: nat, s: Settings): State
    decreases |r| - i
  {
    if i + 1 >= |r| then START else Process(StateAfter(r, i + 1, s), i, r[i], s)
  }

  // ---------------------------------------------------------------- outcomes

  function Favour(b: Bar, bull: bool, entry: real): real {
    if bull then b.high - entry else entry - b.low
  }

  function Adverse(b: Bar, bull: bool, entry: real): real {
    if bull then entry - b.low else b.high - entry
  }

  /** The largest favourable move over the bars from lo up to, not including, hi; never negative. */
  function Best(r: seq<Bar>, lo: nat, hi: nat, bull: bool, entry: real): real
    requires hi <= |r|
    decreases hi - lo
  {
    if lo >= hi then 0.0 else Max(Best(r, lo + 1, hi, bull, entry), Favour(r[lo], bull, entry))
  }

  /** The largest adverse move over the same bars. */
  function Worst(r: seq<Bar>, lo: nat, hi: nat, bull: bool, entry: real): real
    requires hi <= |r|
    decreases hi - lo
  {
    if lo >= hi then 0.0 else Max(Worst(r, lo + 1, hi, bull, entry), Adverse(r[lo], bull, entry))
  }

  function Stop(at: nat, s: Settings): nat {
    if at as int - s.forwardBars <= 0 then 0 else at as int - s.forwardBars
  }

  function Mfe(r: seq<Bar>, at: nat, bull: bool, s: Settings): real
    requires at < |r|
  {
    Best(r, Stop(at, s), at, bull, r[at].close)
  }

  function Mae(r: seq<Bar>, at: nat, bull: bool, s: Settings): real
    requires at < |r|
  {
    Worst(r, Stop(at, s), at, bull, r[at].close)
  }

  method MeasureOutcome(r: seq<Bar>, at: nat, bull: bool, entry: real, s: Settings) returns (mfe: real, mae: real)
    requires at < |r|
    ensures mfe == Best(r, Stop(at, s), at, bull, entry)
    ensures mae == Worst(r, Stop(at, s), at, bull, entry)
  {
    mfe, mae := 0.0, 0.0;
    var stop := Stop(at, s);
    var i := at - 1;
    while i >= stop
      invariant i < at && (i >= stop - 1 || i == at - 1)
      invariant mfe == Best(r, i + 1, at, bull, entry)
      invariant mae == Worst(r, i + 1, at, bull, entry)
    {
      var fav := if bull then r[i].high - entry else entry - r[i].low;
      var adv := if bull then entry - r[i].low else r[i].high - entry;
      if fav > mfe {
        mfe := fav;
      }
      if adv > mae {
        mae := adv;
      }
      i := i - 1;
    }
  }

  /** The measurement is the maximum over its window: no bar exceeds it, and unless it is 0 some bar
      attains it. */
  lemma {:induction false} BestIsMaximum(r: seq<Bar>, lo: nat, hi: nat, bull: bool, entry: real)
    requires hi <= |r|
    ensures var best := Best(r, lo, hi, bull, entry);
      && best >= 0.0
      && (forall j :: lo <= j < hi ==> Favour(r[j], bull, entry) <= best)
      && (best == 0.0 || exists j :: lo <= j < hi && Favour(r[j], bull, entry) == best)
    decreases hi - lo
  {
    if lo < hi {
      BestIsMaximum(r, lo + 1, hi, bull, entry);
    }
  }

  predicate Within(breaks: seq<Break>, n: nat) { forall i :: 0 <= i < |breaks| ==> breaks[i].bar < n }

  /** Totals over the breaks; `flip` takes the opposite direction on every one of them. */
  function SumMfe(r: seq<Bar>, breaks: seq<Break>, flip: bool, s: Settings): real
    requires Within(breaks, |r|)
  {
    if breaks == [] then 0.0
    else
      var b := breaks[|breaks| - 1];
      SumMfe(r, breaks[..|breaks| - 1], flip, s) + Mfe(r, b.bar, b.bull != flip, s)
  }

  function SumMae(r: seq<Bar>, breaks: seq<Break>, flip: bool, s: Settings): real
    requires Within(breaks, |r|)
  {
    if breaks == [] then 0.0
    else
      var b := breaks[|breaks| - 1];
      SumMae(r, breaks[..|breaks| - 1], flip, s) + Mae(r, b.bar, b.bull != flip, s)
  }

  function Wins(r: seq<Bar>, breaks: seq<Break>, flip: bool, s: Settings): nat
    requires Within(breaks, |r|)
  {
    if breaks == [] then 0
    else
      var b := breaks[|breaks| - 1];
      Wins(r, breaks[..|breaks| - 1], flip, s)
        + if Mfe(r, b.bar, b.bull != flip, s) >= s.tolerance * s.targetR then 1 else 0
  }

  /** The result a state stands for: its counts, and the outcomes of its breaks both ways. */
  function ResultOf(r: seq<Bar>, c: State, s: Settings): RunResult
    requires Within(c.breaks, |r|)
  {
    RunResult(c.wickless, c.revisited, |c.breaks|, |c.breaks|,
              Wins(r, c.breaks, false, s), Wins(r, c.breaks, true, s),
              SumMfe(r, c.breaks, false, s), SumMae(r, c.breaks, false, s),
              SumMfe(r, c.breaks, true, s), SumMae(r, c.breaks, true, s))
  }

  // ---------------------------------------------------------------- what a pass keeps

  /** Levels revisited and still waiting to break. */
  function Waiting(levels: seq<Level>): nat {
    if levels == [] then 0
    else Waiting(levels[..|levels| - 1]) + (if levels[|levels| - 1].revisited && !levels[|levels| - 1].consumed then 1 else 0)
  }

  function Revisited(levels: seq<Level>): (n: nat)
    ensures n <= |levels|
  {
    if levels == [] then 0
    else Revisited(levels[..|levels| - 1]) + (if levels[|levels| - 1].revisited then 1 else 0)
  }

  lemma {:induction false} CountsAfterUpdate(levels: seq<Level>, k: nat, l: Level)
    requires k < |levels|
    ensures var was := levels[k];
      && Waiting(levels[k := l]) == Waiting(levels)
           - (if was.revisited && !was.consumed then 1 else 0) + (if l.revisited && !l.consumed then 1 else 0)
      && Revisited(levels[k := l]) == Revisited(levels) - (if was.revisited then 1 else 0) + (if l.revisited then 1 else 0)
    decreases |levels|
  {
    var n := |levels| - 1;
    if k == n {
      assert levels[k := l][..n] == levels[..n];
    } else {
      CountsAfterUpdate(levels[..n], k, l);
      assert levels[k := l][..n] == levels[..n][k := l];
    }
  }

  /** Counters match the levels; breaks are of revisited, consumed levels, within age, and no level
      breaks twice; what broke and what still waits was revisited. */
  predicate Valid(c: State, at: nat, n: nat, s: Settings) {
    && c.wickless == |c.levels|
    && c.revisited == Revisited(c.levels)
    && |c.breaks| + Waiting(c.levels) <= c.revisited
    && (forall k :: 0 <= k < |c.levels| ==> at <= c.levels[k].born < n)
    && (forall i :: 0 <= i < |c.breaks| ==>
          var b := c.breaks[i];
          && b.level < |c.levels| && c.levels[b.level].consumed && c.levels[b.level].bull == b.bull
          && at <= b.bar < c.levels[b.level].born && c.levels[b.level].born - b.bar <= s.maxLevelAge)
    && (forall i, j :: 0 <= i < j < |c.breaks| ==> c.breaks[i].level != c.breaks[j].level)
  }

  lemma StepKeepsValid(c: State, k: nat, at: nat, n: nat, b: Bar, s: Settings)
    requires Valid(c, at, n, s) && k < |c.levels|
    ensures Valid(StepLevel(c, k, at, b, s), at, n, s)
    ensures |StepLevel(c, k, at, b, s).levels| == |c.levels|
  {
    hide Touched, BreaksOut;
    CountsAfterUpdate(c.levels, k, AfterBar(c.levels[k], at, b, s));
  }

  lemma {:induction false} SweepKeepsValid(c: State, k: nat, at: nat, n: nat, b: Bar, s: Settings)
    requires Valid(c, at, n, s) && k <= |c.levels|
    ensures Valid(Sweep(c, k, at, b, s), at, n, s)
    decreases |c.levels| - k
  {
    hide Valid, StepLevel;
    if k < |c.levels| {
      StepKeepsValid(c, k, at, n, b, s);
      SweepKeepsValid(StepLevel(c, k, at, b, s), k + 1, at, n, b, s);
    }
  }

  lemma ClassifyKeepsValid(c: State, at: nat, n: nat, b: Bar, s: Settings)
    requires b.high > b.low && Valid(c, at + 1, n, s) && at < n
    ensures Valid(Classify(c, at, b, s), at, n, s)
  {
    hide IsWickless, NewLevel, Revisited, Waiting;
    if IsWickless(b, s) {
      var l := NewLevel(b, at, s);
      FreshLevel(b, at, s);
      FreshCounts(c.levels, l);
      var levels := c.levels + [l];
      assert forall k :: 0 <= k < |c.levels| ==> levels[k] == c.levels[k];
    }
  }

  /** A fresh level is neither revisited nor waiting to break. */
  lemma FreshCounts(levels: seq<Level>, l: Level)
    requires !l.revisited && !l.consumed
    ensures Revisited(levels + [l]) == Revisited(levels)
    ensures Waiting(levels + [l]) == Waiting(levels)
  {
    assert (levels + [l])[..|levels|] == levels;
  }

  lemma FreshLevel(b: Bar, at: nat, s: Settings)
    ensures var l := NewLevel(b, at, s); l.born == at && !l.revisited && !l.consumed
  {
  }

  /** Every state of every pass is valid. */
  lemma {:induction false} StateIsValid(r: seq<Bar>, i: nat, s: Settings)
    ensures Valid(StateAfter(r, i, s), i, |r|, s) && Within(StateAfter(r, i, s).breaks, |r|)
    decreases |r| - i
  {
    hide Sweep, Classify;
    if i + 1 < |r| {
      StateIsValid(r, i + 1, s);
      var c, b := StateAfter(r, i + 1, s), r[i];
      if b.high - b.low > 0.0 {
        ClassifyKeepsValid(c, i, |r|, b, s);
        SweepKeepsValid(Classify(c, i, b, s), 0, i, |r|, b, s);
      }
    }
  }

  // ---------------------------------------------------------------- the pass

  /** The pass's variables stand for a state. */
  ghost predicate Matches(r: seq<Bar>, c: State, levels: seq<Level>, result: RunResult, s: Settings) {
    levels == c.levels && Within(c.breaks, |r|) && result == ResultOf(r, c, s)
  }

  /** Two states with the same breaks differ in their results only by the two counters. */
  lemma SameBreaks(r: seq<Bar>, c: State, d: State, s: Settings)
    requires c.breaks == d.breaks && Within(c.breaks, |r|)
    ensures ResultOf(r, d, s) == ResultOf(r, c, s).(wickless := d.wickless, revisited := d.revisited)
  {
  }

  lemma OneMoreBreak(r: seq<Bar>, c: State, b: Break, s: Settings)
    requires Within(c.breaks, |r|) && b.bar < |r|
    ensures Within(c.breaks + [b], |r|)
    ensures var p, q := ResultOf(r, c, s), ResultOf(r, c.(breaks := c.breaks + [b]), s);
      var goal := s.tolerance * s.targetR;
      q == p.(broke := p.broke + 1, graded := p.graded + 1,
              mfe := p.mfe + Mfe(r, b.bar, b.bull, s), mae := p.mae + Mae(r, b.bar, b.bull, s),
              ctlMfe := p.ctlMfe + Mfe(r, b.bar, !b.bull, s), ctlMae := p.ctlMae + Mae(r, b.bar, !b.bull, s),
              win := p.win + (if Mfe(r, b.bar, b.bull, s) >= goal then 1 else 0),
              ctlWin := p.ctlWin + (if Mfe(r, b.bar, !b.bull, s) >= goal then 1 else 0))
  {
    hide Mfe, Mae;
    assert (c.breaks + [b])[..|c.breaks|] == c.breaks;
  }

  /** The body of the inner loop, for one level. */
  method VisitLevel(r: seq<Bar>, levels: seq<Level>, result: RunResult, k: nat, i: nat, s: Settings, ghost c: State)
    returns (levels': seq<Level>, result': RunResult)
    requires k < |levels| && i < |r| && Matches(r, c, levels, result, s)
    ensures Matches(r, StepLevel(c, k, i, r[i], s), levels', result', s)
  {
    hide Best, Worst, Touched, BreaksOut, ResultOf;
    levels', result' := levels, result;
    var bar := r[i];
    ghost var d := StepLevel(c, k, i, bar, s);
    assert levels[k := levels[k]] == levels && c.breaks + [] == c.breaks;
    SameCounters(r, c, s);
    if d.breaks == c.breaks {
      SameBreaks(r, c, d, s);
    }
    if levels[k].consumed {
      return;
    }
    if levels[k].born <= i {
      return;
    }
    if levels[k].born - i > s.maxLevelAge {
      levels' := levels[k := levels[k].(consumed := true)];
      return;
    }
    if Touched(levels[k], bar, s) {
      if !levels[k].inside {
        if !levels[k].revisited {
          result' := result.(revisited := result.revisited + 1);
        }
        levels' := levels[k := levels[k].(revisited := true, inside := true)];
      }
      return;
    }
    levels' := levels[k := levels[k].(inside := false)];
    if !levels[k].revisited {
      return;
    }
    if !BreaksOut(levels[k], bar, s) {
      return;
    }
    levels' := levels'[k := levels'[k].(consumed := true)];
    ghost var b := Break(k, i, levels[k].bull);
    OneMoreBreak(r, c, b, s);
    SameBreaks(r, c.(breaks := c.breaks + [b]), d, s);
    SameCounters(r, c.(breaks := c.breaks + [b]), s);
    result' := result'.(broke := result'.broke + 1);
    var mfe, mae := MeasureOutcome(r, i, levels[k].bull, bar.close, s);
    result' := result'.(mfe := result'.mfe + mfe, mae := result'.mae + mae, graded := result'.graded + 1);
    if mfe >= s.tolerance * s.targetR {
      result' := result'.(win := result'.win + 1);
    }
    var cf, ca := MeasureOutcome(r, i, !levels[k].bull, bar.close, s);
    result' := result'.(ctlMfe := result'.ctlMfe + cf, ctlMae := result'.ctlMae + ca);
    if cf >= s.tolerance * s.targetR {
      result' := result'.(ctlWin := result'.ctlWin + 1);
    }
  }

  method RunPass(r: seq<Bar>, s: Settings) returns (result: RunResult)
    ensures Within(StateAfter(r, 1, s).breaks, |r|)
    ensures result == ResultOf(r, StateAfter(r, 1, s), s)
  {
    hide ResultOf, IsWickless, NewLevel, StepLevel, Valid;
    result := RunResult(0, 0, 0, 0, 0, 0, 0.0, 0.0, 0.0, 0.0);
    var levels: seq<Level> := [];
    EmptyResult(r, s);
    ghost var c := START;
    var i := |r| - 2;
    while i >= 1
      invariant -2 <= i <= |r| - 2 && (i >= 0 || |r| < 2)
      invariant c == StateAfter(r, if i < 0 then 1 else i + 1, s)
      invariant Matches(r, c, levels, result, s)
    {
      var bar := r[i];
      if bar.high - bar.low <= 0.0 {
        i := i - 1;
        continue;
      }
      ghost var target := Process(c, i, bar, s);
      ghost var before := c;
      if IsWickless(bar, s) {
        levels := levels + [NewLevel(bar, i, s)];
        result := result.(wickless := result.wickless + 1);
      }
      c := Classify(c, i, bar, s);
      SameBreaks(r, before, c, s);
      SameCounters(r, before, s);
      var k := 0;
      while k < |levels|
        invariant k <= |levels| == |c.levels|
        invariant Matches(r, c, levels, result, s)
        invariant target == Sweep(c, k, i, bar, s)
      {
        levels, result := VisitLevel(r, levels, result, k, i, s, c);
        SameLevels(c, k, i, bar, s);
        c := StepLevel(c, k, i, bar, s);
        k := k + 1;
      }
      i := i - 1;
    }
  }

  lemma SameLevels(c: State, k: nat, at: nat, b: Bar, s: Settings)
    requires k < |c.levels|
    ensures |StepLevel(c, k, at, b, s).levels| == |c.levels|
  {
  }

  lemma SameCounters(r: seq<Bar>, c: State, s: Settings)
    requires Within(c.breaks, |r|)
    ensures ResultOf(r, c, s).wickless == c.wickless && ResultOf(r, c, s).revisited == c.revisited
  {
  }

  lemma EmptyResult(r: seq<Bar>, s: Settings)
    ensures ResultOf(r, START, s) == RunResult(0, 0, 0, 0, 0, 0, 0.0, 0.0, 0.0, 0.0)
  {
  }

  // ---------------------------------------------------------------- what a pass shows

  /** No lookahead: two histories that agree from bar i on, toward the past, have gone through the same
      levels, counts and breaks when bar i is done, whatever the newer bars are. */
  lemma {:induction false} NoLookahead(r: seq<Bar>, q: seq<Bar>, i: nat, s: Settings)
    requires |r| == |q| && (forall j :: i <= j < |r| ==> r[j] == q[j])
    ensures StateAfter(r, i, s) == StateAfter(q, i, s)
    decreases |r| - i
  {
    if i + 1 < |r| {
      NoLookahead(r, q, i + 1, s);
    }
  }

  /** The control is the mirror of the trade: what one direction gains the other one suffers. */
  lemma {:induction false} Mirror(r: seq<Bar>, lo: nat, hi: nat, bull: bool, entry: real)
    requires hi <= |r|
    ensures Worst(r, lo, hi, bull, entry) == Best(r, lo, hi, !bull, entry)
    decreases hi - lo
  {
    if lo < hi {
      Mirror(r, lo + 1, hi, bull, entry);
    }
  }

  lemma {:induction false} TotalsMirror(r: seq<Bar>, breaks: seq<Break>, flip: bool, s: Settings)
    requires Within(breaks, |r|)
    ensures SumMae(r, breaks, flip, s) == SumMfe(r, breaks, !flip, s)
  {
    if breaks != [] {
      var b := breaks[|breaks| - 1];
      TotalsMirror(r, breaks[..|breaks| - 1], flip, s);
      Mirror(r, Stop(b.bar, s), b.bar, b.bull != flip, r[b.bar].close);
      assert !(b.bull != flip) == (b.bull != !flip);
    }
  }

  /** Over every history: the control's excursions are the thesis's with the roles exchanged; every
      break is graded; nothing breaks that was not revisited, nor is revisited that was not found; no
      level breaks twice, nor outside its age, nor on the bar that made it. */
  lemma PassIsSound(r: seq<Bar>, s: Settings)
    ensures var c := StateAfter(r, 1, s);
      && Within(c.breaks, |r|)
      && var result := ResultOf(r, c, s);
      && result.ctlMfe == result.mae && result.ctlMae == result.mfe
      && result.graded == result.broke <= result.revisited <= result.wickless
      && (forall i, j :: 0 <= i < j < |c.breaks| ==> c.breaks[i].level != c.breaks[j].level)
      && (forall i :: 0 <= i < |c.breaks| ==>
            c.breaks[i].level < |c.levels|
            && 0 < c.levels[c.breaks[i].level].born - c.breaks[i].bar <= s.maxLevelAge)
  {
    hide Waiting, SumMfe, SumMae, Wins;
    var c := StateAfter(r, 1, s);
    StateIsValid(r, 1, s);
    TotalsMirror(r, c.breaks, false, s);
    TotalsMirror(r, c.breaks, true, s);
  }
}
