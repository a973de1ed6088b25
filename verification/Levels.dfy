/** The bounded store of price levels: adding with a duplicate check and an eviction, and the search for
    the nearest opposing level. */
module Levels {
  import opened Numeric

  datatype Kind = BreakoutBull | BreakoutBear | ReversalHigh | ReversalLow
  {
    predicate Bullish() { this == BreakoutBull || this == ReversalLow }

    predicate Bearish() { this == BreakoutBear || this == ReversalHigh }
  }

  /** A closed candle; times are seconds since 1970. */
  datatype Rates = Rates(time: int, high: real, low: real, open: real, close: real)

  datatype Level = Level(active: bool, revisited: bool, insideZone: bool, kind: Kind, price: real, source: Rates, shift: int, revisits: int)

  /** The inputs: the most levels to keep, and the tolerance in points of the symbol's digits. */
  datatype Inputs = Inputs(maxLevels: int, tolerancePoints: nat, digits: nat)
  {
    /** The symbol's point is the last decimal of its prices. */
    function Tolerance(): real { tolerancePoints as real / Pow10(digits) }

    function NormalizePrice(price: real): real { NormalizeDouble(price, digits) }
  }

  /** 1 January 2099, the date no level is looked for from. */
  const CUTOFF := 4070908800

  predicate SamePrice(c: Inputs, a: real, b: real) { Abs(a - b) <= c.Tolerance() }

  predicate IsOpposing(trade: Kind, candidate: Kind) {
    if trade.Bullish() then candidate.Bearish() else candidate.Bullish()
  }

  // ---------------------------------------------------------------- eviction

  /** The first inactive level, or the number of levels. */
  function FirstInactive(levels: seq<Level>): (k: nat)
    ensures k <= |levels|
    ensures forall i :: 0 <= i < k ==> levels[i].active
    ensures k < |levels| ==> !levels[k].active
  {
    if levels == [] || !levels[0].active then 0 else 1 + FirstInactive(levels[1..])
  }

  /** The first of the oldest levels dated before the cutoff, or -1. */
  function Oldest(levels: seq<Level>): (k: int)
    ensures -1 <= k < |levels|
  {
    if levels == [] then -1
    else
      var n := |levels| - 1;
      var k := Oldest(levels[..n]);
      if levels[n].source.time < (if k < 0 then CUTOFF else levels[k].source.time) then n else k
  }

  lemma {:induction false} OldestIsFirst(levels: seq<Level>)
    ensures var k := Oldest(levels);
      if k < 0 then forall i :: 0 <= i < |levels| ==> levels[i].source.time >= CUTOFF
      else
        && levels[k].source.time < CUTOFF
        && (forall i :: 0 <= i < |levels| ==> levels[k].source.time <= levels[i].source.time)
        && (forall i :: 0 <= i < k ==> levels[k].source.time < levels[i].source.time)
  {
    if levels != [] {
      OldestIsFirst(levels[..|levels| - 1]);
      assert levels == levels[..|levels| - 1] + [levels[|levels| - 1]];
    }
  }

  function Victim(levels: seq<Level>): (k: int)
    ensures -1 <= k < |levels|
  {
    if FirstInactive(levels) < |levels| then FirstInactive(levels) else Oldest(levels)
  }

  function Without<T>(s: seq<T>, k: int): seq<T>
    requires k < |s|
  {
    if k < 0 then s else s[..k] + s[k + 1..]
  }

  function Evicted(levels: seq<Level>): seq<Level> { Without(levels, Victim(levels)) }

  /** Eviction takes out one level and keeps the order of the rest: the first inactive one, else the first
      of the oldest.  It takes out none exactly when there is none, or all are active and dated from the
      cutoff on. */
  lemma EvictionIsExact(levels: seq<Level>)
    ensures var k := Victim(levels);
      && (k < 0 <==> forall i :: 0 <= i < |levels| ==> levels[i].active && levels[i].source.time >= CUTOFF)
      && (k < 0 ==> Evicted(levels) == levels)
      && (k >= 0 ==>
          && Evicted(levels) == levels[..k] + levels[k + 1..]
          && (!levels[k].active ==> forall i :: 0 <= i < k ==> levels[i].active)
          && (levels[k].active ==>
              && (forall i :: 0 <= i < |levels| ==> levels[i].active && levels[k].source.time <= levels[i].source.time)
              && (forall i :: 0 <= i < k ==> levels[k].source.time < levels[i].source.time)))
  {
    OldestIsFirst(levels);
  }

  // ---------------------------------------------------------------- adding

  predicate Duplicates(c: Inputs, levels: seq<Level>, kind: Kind, price: real) {
    exists i :: 0 <= i < |levels| && levels[i].active && levels[i].kind == kind && SamePrice(c, levels[i].price, price)
  }

  function Fresh(c: Inputs, kind: Kind, price: real, bar: Rates, shift: int): Level {
    Level(true, false, false, kind, c.NormalizePrice(price), bar, shift, 0)
  }

  function Added(c: Inputs, levels: seq<Level>, kind: Kind, price: real, bar: Rates, shift: int): seq<Level> {
    if price <= 0.0 || Duplicates(c, levels, kind, price) then levels
    else (if |levels| >= c.maxLevels then Evicted(levels) else levels) + [Fresh(c, kind, price, bar, shift)]
  }

  class LevelStore {
    const c: Inputs
    var levels: seq<Level>

    constructor (c: Inputs)
      ensures this.c == c && levels == []
    {
      this.c := c;
      levels := [];
    }

    method RemoveOldestInactiveOrOldest()
      modifies this
      ensures levels == Evicted(old(levels))
    {
      var n := |levels|;
      if n <= 0 {
        return;
      }
      var idx := -1;
      var i := 0;
      while i < n
        invariant 0 <= i <= n
        invariant idx == -1
        invariant forall j :: 0 <= j < i ==> levels[j].active
      {
        if !levels[i].active {
          idx := i;
          break;
        }
        i := i + 1;
      }
      if idx < 0 {
        var oldest := CUTOFF;
        i := 0;
        while i < n
          invariant 0 <= i <= n
          invariant idx == Oldest(levels[..i])
          invariant oldest == if idx < 0 then CUTOFF else levels[idx].source.time
        {
          assert levels[..i + 1][..i] == levels[..i];
          if levels[i].source.time < oldest {
            oldest := levels[i].source.time;
            idx := i;
          }
          i := i + 1;
        }
        assert levels[..n] == levels;
      }
      assert idx == Victim(levels);
      if idx >= 0 {
        Close(idx);
      }
    }

    /** Closes the gap at an index: the later levels move down one place each. */
    method Close(idx: nat)
      requires idx < |levels|
      modifies this
      ensures levels == Without(old(levels), idx)
    {
      ghost var before := levels;
      var n := |levels|;
      var j := idx;
      while j < n - 1
        invariant idx <= j <= n - 1
        invariant |levels| == n
        invariant forall k :: 0 <= k < idx ==> levels[k] == before[k]
        invariant forall k :: idx <= k < j ==> levels[k] == before[k + 1]
        invariant forall k :: j <= k < n ==> levels[k] == before[k]
      {
        levels := levels[j := levels[j + 1]];
        j := j + 1;
      }
      levels := levels[..n - 1];
    }

    method AddLevel(kind: Kind, price: real, bar: Rates, shift: int)
      modifies this
      ensures levels == Added(c, old(levels), kind, price, bar, shift)
    {
      hide Evicted;
      if price <= 0.0 {
        return;
      }
      var i := 0;
      while i < |levels|
        invariant 0 <= i <= |levels|
        invariant levels == old(levels)
        invariant forall j :: 0 <= j < i ==> !(levels[j].active && levels[j].kind == kind && SamePrice(c, levels[j].price, price))
      {
        if levels[i].active && levels[i].kind == kind && SamePrice(c, levels[i].price, price) {
          return;
        }
        i := i + 1;
      }
      if |levels| >= c.maxLevels {
        RemoveOldestInactiveOrOldest();
      }
      levels := levels + [Level(true, false, false, kind, c.NormalizePrice(price), bar, shift, 0)];
    }

    /** The nearest active opposing level on the profit side of the entry, or 0 when there is none. */
    method FindNextOpposingLevel(trade: Kind, entry: real) returns (best: real)
      ensures (forall i :: 0 <= i < |levels| ==> !Targets(levels[i], trade, entry)) ==> best == 0.0
      ensures (exists i :: 0 <= i < |levels| && Targets(levels[i], trade, entry)) ==>
        exists i :: 0 <= i < |levels| && Targets(levels[i], trade, entry) && levels[i].price == best
      ensures forall i :: 0 <= i < |levels| && Targets(levels[i], trade, entry) ==>
        Abs(best - entry) <= Abs(levels[i].price - entry)
    {
      var buy := trade.Bullish();
      best := 0.0;
      var found := false;
      var i := 0;
      while i < |levels|
        invariant 0 <= i <= |levels|
        invariant found <==> exists j :: 0 <= j < i && Targets(levels[j], trade, entry)
        invariant !found ==> best == 0.0
        invariant found ==> exists j :: 0 <= j < i && Targets(levels[j], trade, entry) && levels[j].price == best
        invariant forall j :: 0 <= j < i && Targets(levels[j], trade, entry) ==> if buy then best <= levels[j].price else best >= levels[j].price
      {
        var l := levels[i];
        if l.active && IsOpposing(trade, l.kind) {
          var p := l.price;
          if buy {
            if p > entry && (!found || p < best) {
              best, found := p, true;
            }
          } else {
            if p < entry && (!found || p > best) {
              best, found := p, true;
            }
          }
        }
        i := i + 1;
      }
      if (buy && best <= entry) || (!buy && best >= entry) {
        best := 0.0;
      }
    }
  }

  /** An active opposing level strictly on the profit side. */
  predicate Targets(l: Level, trade: Kind, entry: real) {
    l.active && IsOpposing(trade, l.kind) && if trade.Bullish() then l.price > entry else l.price < entry
  }

  /** A level is a target exactly when it is active, on the profit side of the entry, and of a kind that opposes
      the trade: bearish breakouts and reversal highs above a bullish trade, the other two below a bearish one. */
  lemma TargetsExactly(l: Level, trade: Kind, entry: real)
    ensures Targets(l, trade, entry)
       <==> && l.active
            && (trade in {BreakoutBull, ReversalLow} ==> l.kind in {BreakoutBear, ReversalHigh} && entry < l.price)
            && (trade in {BreakoutBear, ReversalHigh} ==> l.kind in {BreakoutBull, ReversalLow} && l.price < entry)
  {
  }

  /** What an add comes to: nothing for a price that is not positive or within the tolerance of an active level
      of its kind; else one more level, fresh and rounded, after an eviction when the store is full. */
  lemma AddedExactly(c: Inputs, levels: seq<Level>, kind: Kind, price: real, bar: Rates, shift: int)
    ensures var near := exists l :: l in levels && l.active && l.kind == kind
                                    && -c.Tolerance() <= l.price - price <= c.Tolerance();
      Added(c, levels, kind, price, bar, shift)
      == if price <= 0.0 || near then levels
         else (if |levels| < c.maxLevels then levels else Evicted(levels))
              + [Level(true, false, false, kind, NormalizeDouble(price, c.digits), bar, shift, 0)]
  {
    hide Evicted, NormalizeDouble, Inputs.Tolerance;
    if exists l :: l in levels && l.active && l.kind == kind && -c.Tolerance() <= l.price - price <= c.Tolerance() {
      var l :| l in levels && l.active && l.kind == kind && -c.Tolerance() <= l.price - price <= c.Tolerance();
      var i :| 0 <= i < |levels| && levels[i] == l;
      assert SamePrice(c, levels[i].price, price);
    }
  }

  // ---------------------------------------------------------------- runs

  /** What can happen to the store: a level is offered, or one is deactivated. */
  datatype Step = Add(kind: Kind, price: real, bar: Rates, shift: int) | Deactivate(k: nat)

  function StepOf(c: Inputs, levels: seq<Level>, s: Step): seq<Level> {
    match s
    case Add(kind, price, bar, shift) => Added(c, levels, kind, price, bar, shift)
    case Deactivate(k) => if k < |levels| then levels[k := levels[k].(active := false)] else levels
  }

  function Run(c: Inputs, steps: seq<Step>): seq<Level> {
    if steps == [] then [] else StepOf(c, Run(c, steps[..|steps| - 1]), steps[|steps| - 1])
  }

  /** Active levels of one kind are more than the tolerance apart. */
  predicate Apart(c: Inputs, levels: seq<Level>) {
    forall i, j :: 0 <= i < j < |levels| && levels[i].active && levels[j].active && levels[i].kind == levels[j].kind ==>
      Abs(levels[i].price - levels[j].price) > c.Tolerance()
  }

  /** Active levels of one kind are at least the tolerance apart. */
  predicate NotCloser(c: Inputs, levels: seq<Level>) {
    forall i, j :: 0 <= i < j < |levels| && levels[i].active && levels[j].active && levels[i].kind == levels[j].kind ==>
      Abs(levels[i].price - levels[j].price) >= c.Tolerance()
  }

  predicate Bounded(c: Inputs, levels: seq<Level>) {
    |levels| <= (if c.maxLevels < 1 then 1 else c.maxLevels) && forall i :: 0 <= i < |levels| ==> levels[i].source.time < CUTOFF
  }

  /** Every stored price is one the symbol quotes. */
  predicate Quoted(c: Inputs, levels: seq<Level>) {
    forall i :: 0 <= i < |levels| ==> OnGrid(levels[i].price, c.digits)
  }

  lemma EvictedIsSublist(levels: seq<Level>)
    ensures |Evicted(levels)| <= |levels|
    ensures var k := Victim(levels);
      forall i :: 0 <= i < |Evicted(levels)| ==>
        Evicted(levels)[i] == levels[if k < 0 || i < k then i else i + 1]
    ensures Victim(levels) >= 0 ==> |Evicted(levels)| == |levels| - 1
  {
  }

  lemma StepStaysBounded(c: Inputs, levels: seq<Level>, s: Step)
    requires Bounded(c, levels) && (s.Add? ==> s.bar.time < CUTOFF)
    ensures Bounded(c, StepOf(c, levels, s))
  {
    hide Evicted, Victim, Duplicates;
    EvictedIsSublist(levels);
    EvictionIsExact(levels);
    if levels != [] {
      assert levels[0].source.time < CUTOFF;
    }
  }

  /** The store never outgrows its limit, as long as candles are dated before the cutoff. */
  lemma {:induction false} SizeStaysBounded(c: Inputs, steps: seq<Step>)
    requires forall i :: 0 <= i < |steps| && steps[i].Add? ==> steps[i].bar.time < CUTOFF
    ensures Bounded(c, Run(c, steps))
  {
    hide StepOf;
    if steps != [] {
      SizeStaysBounded(c, steps[..|steps| - 1]);
      StepStaysBounded(c, Run(c, steps[..|steps| - 1]), steps[|steps| - 1]);
    }
  }

  lemma {:induction false} PricesStayQuoted(c: Inputs, steps: seq<Step>)
    ensures Quoted(c, Run(c, steps))
  {
    hide Evicted, Victim, Duplicates, OnGrid, NormalizeDouble;
    if steps != [] {
      PricesStayQuoted(c, steps[..|steps| - 1]);
      EvictedIsSublist(Run(c, steps[..|steps| - 1]));
      if steps[|steps| - 1].Add? {
        NormalizedIsOnGrid(steps[|steps| - 1].price, c.digits);
      }
    }
  }

  lemma NormalizedIsOnGrid(price: real, d: nat)
    ensures OnGrid(NormalizeDouble(price, d), d)
  {
    RoundedOnScale(price, Pow10(d));
  }

  lemma RoundedOnScale(x: real, p: real)
    requires p > 0.0
    ensures OnScale(RoundAway(x, p), p)
  {
    var y := x * p;
    var n := NearestAway(y);
    var q := RoundAway(x, p);
    assert q == n as real / p;
    DividedTimes(n, p, q);
  }

  lemma DividedTimes(n: int, p: real, q: real)
    requires p > 0.0 && q == n as real / p
    ensures OnScale(q, p)
  {
    assert q * p == n as real;
  }

  /** A price of d decimals, counted in units of the last one. */
  lemma Units(x: real, p: real) returns (k: int)
    requires OnScale(x, p)
    ensures IsProduct(x, p, k as real)
  {
    k := (x * p).Floor;
  }

  /** A step keeps the levels apart if what it adds is kept apart. */
  lemma AddKeepsApart(c: Inputs, levels: seq<Level>, kind: Kind, price: real, bar: Rates, shift: int)
    requires Apart(c, levels) && OnGrid(price, c.digits)
    ensures Apart(c, Added(c, levels, kind, price, bar, shift))
  {
    hide Evicted, Victim, OnGrid, NormalizeDouble;
    EvictedIsSublist(levels);
    RoundOnGrid(price, c.digits);
  }

  /** Candles quoted in the symbol's digits keep active levels of one kind more than the tolerance apart. */
  lemma {:induction false} LevelsStayApart(c: Inputs, steps: seq<Step>)
    requires forall i :: 0 <= i < |steps| && steps[i].Add? ==> OnGrid(steps[i].price, c.digits)
    ensures Apart(c, Run(c, steps))
  {
    hide Added, OnGrid;
    if steps != [] {
      LevelsStayApart(c, steps[..|steps| - 1]);
      var s := steps[|steps| - 1];
      if s.Add? {
        AddKeepsApart(c, Run(c, steps[..|steps| - 1]), s.kind, s.price, s.bar, s.shift);
      }
    }
  }

  lemma RoundingKeepsDistance(c: Inputs, a: real, price: real)
    requires OnGrid(a, c.digits) && Abs(a - price) > c.Tolerance()
    ensures Abs(a - c.NormalizePrice(price)) >= c.Tolerance()
  {
    hide NormalizeDouble, OnScale, IsProduct, Pow10;
    var p := Pow10(c.digits);
    var n := NormalizeDouble(price, c.digits);
    NormalizeBounds(price, c.digits);
    NormalizedIsOnGrid(price, c.digits);
    var ia := Units(a, p);
    var ib := Units(n, p);
    var k := if ia >= ib then ia - ib else ib - ia;
    GapOnScale(a, n, p, ia, ib);
    Nearer(a, n, price, 0.5 / p);
    ScaledDistance(Abs(a - n), p, c.tolerancePoints, k);
  }

  lemma Nearer(a: real, n: real, price: real, half: real)
    requires -half <= n - price <= half
    ensures Abs(a - n) >= Abs(a - price) - half
  {
  }

  lemma GapOnScale(a: real, b: real, p: real, ia: int, ib: int)
    requires IsProduct(a, p, ia as real) && IsProduct(b, p, ib as real) && p > 0.0
    ensures IsProduct(Abs(a - b), p, (if ia >= ib then ia - ib else ib - ia) as real)
  {
    assert (a - b) * p == (ia - ib) as real;
    assert (b - a) * p == (ib - ia) as real;
    if a >= b {
      assert (a - b) * p >= 0.0;
    } else {
      assert (b - a) * p >= 0.0;
    }
  }

  lemma ScaledDistance(distance: real, p: real, points: nat, k: nat)
    requires p > 0.0 && IsProduct(distance, p, k as real) && distance > points as real / p - 0.5 / p
    ensures distance >= points as real / p
  {
    var t := points as real / p;
    assert t * p == points as real;
    assert (t - 0.5 / p) * p == points as real - 0.5;
    assert distance * p > points as real - 0.5 by {
      MulStrict(distance, t - 0.5 / p, p);
    }
    assert k >= points;
    if distance < t {
      MulStrict(t, distance, p);
      assert false;
    }
  }

  lemma MulStrict(a: real, b: real, p: real)
    requires a > b && p > 0.0
    ensures a * p > b * p
  {
    assert (a - b) * p > 0.0;
  }

  lemma AddKeepsNotCloser(c: Inputs, levels: seq<Level>, kind: Kind, price: real, bar: Rates, shift: int)
    requires NotCloser(c, levels) && Quoted(c, levels)
    ensures NotCloser(c, Added(c, levels, kind, price, bar, shift))
  {
    hide Evicted, Victim, OnGrid, NormalizeDouble;
    EvictedIsSublist(levels);
    forall i | 0 <= i < |levels| && Abs(levels[i].price - price) > c.Tolerance()
      ensures Abs(levels[i].price - c.NormalizePrice(price)) >= c.Tolerance()
    {
      RoundingKeepsDistance(c, levels[i].price, price);
    }
  }

  /** Whatever the prices, active levels of one kind never come closer than the tolerance. */
  lemma {:induction false} LevelsNeverCloser(c: Inputs, steps: seq<Step>)
    ensures NotCloser(c, Run(c, steps))
  {
    hide Added;
    if steps != [] {
      var levels := Run(c, steps[..|steps| - 1]);
      LevelsNeverCloser(c, steps[..|steps| - 1]);
      PricesStayQuoted(c, steps[..|steps| - 1]);
      var s := steps[|steps| - 1];
      if s.Add? {
        AddKeepsNotCloser(c, levels, s.kind, s.price, s.bar, s.shift);
      }
    }
  }

  /** Exactly when an add keeps active levels apart, whatever the price: the check looks at the price as
      given and the store keeps it rounded, so a level it lets in comes as close as the tolerance, and the
      levels stay more than it apart if and only if the rounded price is not exactly that far from one. */
  lemma AddKeepsApartExactly(c: Inputs, levels: seq<Level>, kind: Kind, price: real, bar: Rates, shift: int)
    requires Apart(c, levels) && Quoted(c, levels) && price > 0.0 && !Duplicates(c, levels, kind, price)
    ensures var kept := if |levels| >= c.maxLevels then Evicted(levels) else levels;
      Apart(c, Added(c, levels, kind, price, bar, shift))
      <==> forall i :: 0 <= i < |kept| && kept[i].active && kept[i].kind == kind ==>
             Abs(kept[i].price - c.NormalizePrice(price)) != c.Tolerance()
  {
    hide Evicted, Victim, OnGrid, NormalizeDouble, Inputs.Tolerance;
    var kept := if |levels| >= c.maxLevels then Evicted(levels) else levels;
    var after := Added(c, levels, kind, price, bar, shift);
    EvictedIsSublist(levels);
    forall i | 0 <= i < |levels| && levels[i].active && levels[i].kind == kind
      ensures Abs(levels[i].price - c.NormalizePrice(price)) >= c.Tolerance()
    {
      RoundingKeepsDistance(c, levels[i].price, price);
    }
    assert after == kept + [Fresh(c, kind, price, bar, shift)];
    if Apart(c, after) {
      forall i | 0 <= i < |kept| && kept[i].active && kept[i].kind == kind
        ensures Abs(kept[i].price - c.NormalizePrice(price)) > c.Tolerance()
      {
        assert after[i] == kept[i] && after[|kept|].price == c.NormalizePrice(price);
      }
    }
  }

  /** An instance: with two digits and thirty points, 100.304 is not the same as 100.00, but would be kept as
      100.30, exactly the tolerance away.  The classifier offers quoted prices only. */
  lemma OffGridMeetsTheTolerance(bar: Rates)
    ensures var c := Inputs(200, 30, 2);
      !Apart(c, Run(c, [Add(BreakoutBull, 100.0, bar, 1), Add(BreakoutBull, 100.304, bar, 1)]))
  {
    var c := Inputs(200, 30, 2);
    var first, second := Add(BreakoutBull, 100.0, bar, 1), Add(BreakoutBull, 100.304, bar, 1);
    assert Pow10(2) == 100.0;
    assert [first][..0] == [] && [first, second][..1] == [first];
    var l := Fresh(c, BreakoutBull, 100.0, bar, 1);
    assert Run(c, [first]) == [l];
    assert l.price == 100.0;
    assert !Duplicates(c, [l], BreakoutBull, 100.304);
    assert Run(c, [first, second]) == [l, Fresh(c, BreakoutBull, 100.304, bar, 1)];
    var k := Fresh(c, BreakoutBull, 100.304, bar, 1);
    assert k.price == 100.3;
    assert c.Tolerance() == 0.3;
    assert [l, k][0] == l && [l, k][1] == k;
  }
}
