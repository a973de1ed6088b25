/** The brain's search for the price at which the combined basket reaches a money target. */
module BasketSolver {
  import opened Numeric
  import opened Wrappers
  import opened Terminal
  import opened MasterBrain

  /** What the basket formula reads: the bus, the two legs as far as they are found and selected, the balance
      and the contract value. */
  datatype Basket = Basket(vars: Vars, main: Option<Position>, straddle: Option<Position>, balance: real, perUnit: real)
  {
    /** Basket profit at a hypothetical price, both legs valued at that one price. */
    function At(price: real): real {
      balance - Baseline(vars, balance)
        + LegAt(main, price, perUnit) + LegAt(straddle, price, perUnit)
    }

    /** Money the basket gains per unit of price. */
    function Slope(): real { LegSlope(main, perUnit) + LegSlope(straddle, perUnit) }
  }

  function LegAt(p: Option<Position>, price: real, perUnit: real): real {
    match p
    case None => 0.0
    case Some(leg) => CalcProfit(leg.side, leg.volume, leg.open, price, perUnit) + leg.swap - SumAbs(leg.deals)
  }

  function LegSlope(p: Option<Position>, perUnit: real): real {
    match p
    case None => 0.0
    case Some(leg) => leg.side.Sign() * leg.volume * perUnit
  }

  // ---------------------------------------------------------------- the basket is affine

  lemma LegAffine(p: Option<Position>, a: real, b: real, perUnit: real)
    ensures LegAt(p, a, perUnit) - LegAt(p, b, perUnit) == LegSlope(p, perUnit) * (a - b)
  {
    if p.Some? {
      var unit := p.value.side.Sign() * p.value.volume * perUnit;
      assert unit * (a - p.value.open) - unit * (b - p.value.open) == unit * (a - b);
    }
  }

  lemma BasketAffine(k: Basket, a: real, b: real)
    ensures k.At(a) - k.At(b) == k.Slope() * (a - b)
  {
    LegAffine(k.main, a, b, k.perUnit);
    LegAffine(k.straddle, a, b, k.perUnit);
    assert (LegSlope(k.main, k.perUnit) + LegSlope(k.straddle, k.perUnit)) * (a - b)
        == LegSlope(k.main, k.perUnit) * (a - b) + LegSlope(k.straddle, k.perUnit) * (a - b);
  }

  /** The basket gains exactly by moving in this direction. */
  predicate Favours(k: Basket, direction: real) { k.Slope() * direction > 0.0 }

  /** An opposite straddle larger than the main turns the basket in its own favour, strictly. */
  lemma LargerStraddleFavours(k: Basket)
    requires k.main.Some? && k.straddle.Some? && k.perUnit > 0.0
    requires k.straddle.value.side == k.main.value.side.Opposite()
    requires k.straddle.value.volume > k.main.value.volume
    ensures Favours(k, k.straddle.value.side.Sign())
  {
    var m, s := k.main.value, k.straddle.value;
    assert (s.volume - m.volume) * k.perUnit > 0.0;
  }

  /** Strictly monotone: the further in the favoured direction, the more the basket is worth. */
  lemma FavouredMono(k: Basket, direction: real, a: real, b: real)
    requires Favours(k, direction)
    ensures k.At(a) < k.At(b) <==> (b - a) * direction > 0.0
  {
    hide Basket.At, Basket.Slope;
    BasketAffine(k, b, a);
    SameSign(k.Slope(), direction, b - a);
  }

  lemma SameSign(s: real, d: real, x: real)
    requires s * d > 0.0
    ensures s * x > 0.0 <==> x * d > 0.0
  {
    if s > 0.0 {
      assert d > 0.0;
    } else {
      assert s < 0.0 && d < 0.0;
    }
  }

  /** The two basket formulas differ by the spread on the straddle: valued at the main's closing
      price, BasketAtPrice exceeds BasketPnl by the straddle's volume times the spread. They agree
      exactly when there is no spread. */
  lemma FormulasDifferBySpread(vars: Vars, m: Position, s: Position, balance: real, q: Quote)
    requires s.side == m.side.Opposite()
    ensures var difference := Basket(vars, Some(m), Some(s), balance, q.perUnit).At(q.Closing(m.side))
                              - BasketPnl(vars, Some(m), Some(s), balance, q);
      && difference == s.volume * q.perUnit * (q.ask - q.bid)
      && (s.volume > 0.0 && q.perUnit > 0.0 ==> (difference == 0.0 <==> q.ask == q.bid))
  {
    hide SumAbs, Baseline;
    var x, y := q.Closing(m.side), q.Closing(s.side);
    LegAffine(Some(s), x, y, q.perUnit);
    assert LegAt(Some(s), y, q.perUnit) == LegValue(Some(s), q);
    assert LegAt(Some(m), x, q.perUnit) == LegValue(Some(m), q);
    SpreadProduct(m.side, s.volume, q);
  }

  lemma SpreadProduct(side: Side, volume: real, q: Quote)
    ensures var move := q.Closing(side) - q.Closing(side.Opposite());
      side.Opposite().Sign() * volume * q.perUnit * move == volume * q.perUnit * (q.ask - q.bid)
    ensures volume > 0.0 && q.perUnit > 0.0 ==> (volume * q.perUnit * (q.ask - q.bid) == 0.0 <==> q.ask == q.bid)
  {
    if volume > 0.0 && q.perUnit > 0.0 {
      ZeroProduct(volume, q.perUnit, q.ask - q.bid);
    }
  }

  lemma ZeroProduct(a: real, b: real, c: real)
    requires a > 0.0 && b > 0.0
    ensures a * b * c == 0.0 <==> c == 0.0
  {
    assert a * b > 0.0;
  }

  /** For a lone straddle the two formulas agree at its closing price, spread or not. */
  lemma FormulasAgreeOnLoneStraddle(vars: Vars, s: Position, balance: real, q: Quote)
    ensures Basket(vars, None, Some(s), balance, q.perUnit).At(q.Closing(s.side)) == BasketPnl(vars, None, Some(s), balance, q)
  {
  }

  // ---------------------------------------------------------------- the search

  function Growth(i: nat): (g: real)
    ensures g >= 1.0
  {
    if i == 0 then 1.0 else 1.35 * Growth(i - 1)
  }

  function Pow2(n: nat): (p: real)
    ensures p >= 1.0
  {
    if n == 0 then 1.0 else 2.0 * Pow2(n - 1)
  }

  /** The i-th probe of the widening search. */
  function Probe(from: real, unit: real, i: nat): real { from + unit * Growth(i) }

  /** The first probe from the i-th on that meets the target, if one of the sixty does. */
  function Bracket(k: Basket, from: real, unit: real, target: real, i: nat): Option<nat>
    decreases 60 - i
  {
    if i >= 60 then None
    else if k.At(Probe(from, unit, i)) >= target then Some(i)
    else Bracket(k, from, unit, target, i + 1)
  }

  function Bisect(k: Basket, lo: real, hi: real, target: real, n: nat): real
    decreases n
  {
    if n == 0 then hi
    else
      var mid := (lo + hi) / 2.0;
      if k.At(mid) >= target then Bisect(k, lo, mid, target, n - 1) else Bisect(k, mid, hi, target, n - 1)
  }

  /** The search's signed step. */
  function Unit(direction: real, point: real, atr3: real): real {
    var p := if point <= 0.0 then 0.00001 else point;
    direction * Max(p, atr3 * 0.25)
  }

  /** The price found, before it is rounded to the symbol's digits. */
  function Solution(k: Basket, from: real, unit: real, target: real): Option<real> {
    match Bracket(k, from, unit, target, 0)
    case None => None
    case Some(i) => Some(Bisect(k, from, Probe(from, unit, i), target, 50))
  }

  method SolveBasketPrice(k: Basket, from: real, direction: real, target: real, pointFact: real, atr3: real, digits: nat)
    returns (found: bool, result: real)
    ensures found <==> from > 0.0 && direction != 0.0 && Solution(k, from, Unit(direction, pointFact, atr3), target).Some?
    ensures result == if found then NormalizeDouble(Solution(k, from, Unit(direction, pointFact, atr3), target).value, digits) else 0.0
  {
    hide NormalizeDouble, Growth, Basket.At, Probe, Unit;
    found, result := false, 0.0;
    if from <= 0.0 || direction == 0.0 {
      return;
    }
    var lo, hi := from, from;
    var unit := Unit(direction, pointFact, atr3);
    var bracket := false;
    ghost var at := 0;
    for i := 0 to 60
      invariant !bracket
      invariant Bracket(k, from, unit, target, 0) == Bracket(k, from, unit, target, i)
    {
      hi := Probe(from, unit, i);
      if k.At(hi) >= target {
        bracket := true;
        at := i;
        break;
      }
    }
    if !bracket {
      return;
    }
    lo := from;
    ghost var hi0 := hi;
    for i := 0 to 50
      invariant Bisect(k, from, hi0, target, 50) == Bisect(k, lo, hi, target, 50 - i)
    {
      var mid := (lo + hi) / 2.0;
      if k.At(mid) >= target {
        hi := mid;
      } else {
        lo := mid;
      }
    }
    result := NormalizeDouble(hi, digits);
    found := true;
  }

  // ---------------------------------------------------------------- what the search finds

  /** The step is the larger of the point and a quarter of the three-minute range, in the asked direction; a
      point that is not positive counts as the fifth decimal. */
  lemma UnitExactly(direction: real, point: real, atr3: real)
    requires direction == 1.0 || direction == -1.0
    ensures var p, step := if point <= 0.0 then 0.00001 else point, Unit(direction, point, atr3) * direction;
      step == (if 4.0 * p >= atr3 then p else atr3 / 4.0) && step > 0.0
  {
  }

  lemma UnitFavours(k: Basket, direction: real, point: real, atr3: real)
    requires Favours(k, direction)
    ensures Favours(k, Unit(direction, point, atr3))
  {
    var step := Max(if point <= 0.0 then 0.00001 else point, atr3 * 0.25);
    assert k.Slope() * (direction * step) == (k.Slope() * direction) * step;
    assert (k.Slope() * direction) * step > 0.0;
  }

  lemma GrowthMono(i: nat, j: nat)
    requires i <= j
    ensures Growth(i) <= Growth(j)
  {
    if i < j {
      GrowthMono(i, j - 1);
    }
  }

  lemma ProbeMono(k: Basket, from: real, unit: real, i: nat, j: nat)
    requires Favours(k, unit) && i <= j
    ensures k.At(Probe(from, unit, i)) <= k.At(Probe(from, unit, j))
  {
    hide Growth, Favours, Basket.At;
    GrowthMono(i, j);
    ProbeGap(from, unit, Growth(i), Growth(j));
    FavouredMono(k, unit, Probe(from, unit, j), Probe(from, unit, i));
  }

  lemma ProbeGap(from: real, unit: real, x: real, y: real)
    requires x <= y
    ensures ((from + unit * x) - (from + unit * y)) * unit <= 0.0
  {
    var d := unit * (x - y);
    assert (from + unit * x) - (from + unit * y) == d;
    assert d * unit == (unit * unit) * (x - y);
    NonNegativeProduct(unit * unit, y - x);
  }

  lemma NonNegativeProduct(a: real, b: real)
    requires a >= 0.0 && b >= 0.0
    ensures a * b >= 0.0
  {
  }

  /** A bracket is the first probe that meets the target. */
  lemma {:induction false} BracketIsFirst(k: Basket, from: real, unit: real, target: real, i: nat)
    requires i <= 60
    ensures var r := Bracket(k, from, unit, target, i);
      && (r.Some? ==> i <= r.value < 60 && k.At(Probe(from, unit, r.value)) >= target)
      && (forall j: nat :: i <= j < (if r.Some? then r.value else 60) ==> k.At(Probe(from, unit, j)) < target)
    decreases 60 - i
  {
    if i < 60 && k.At(Probe(from, unit, i)) < target {
      BracketIsFirst(k, from, unit, target, i + 1);
    }
  }

  /** A bracket is found exactly when the sixtieth probe, 1.35^59 steps out, meets the target; so it is
      found whenever the exact root lies within that reach in the favoured direction. */
  lemma BracketFoundExactly(k: Basket, from: real, unit: real, target: real)
    requires Favours(k, unit)
    ensures Bracket(k, from, unit, target, 0).Some? <==> k.At(Probe(from, unit, 59)) >= target
  {
    hide Growth, Probe, Favours;
    BracketIsFirst(k, from, unit, target, 0);
    var r := Bracket(k, from, unit, target, 0);
    if r.Some? {
      ProbeMono(k, from, unit, r.value, 59);
    }
  }

  /** In particular whenever the root lies within that reach. */
  lemma RootWithinReach(k: Basket, from: real, unit: real, target: real, root: real)
    requires Favours(k, unit) && k.At(root) == target
    requires (root - from) * unit <= Growth(59) * (unit * unit)
    ensures Bracket(k, from, unit, target, 0).Some?
  {
    hide Growth, Favours, Basket.At, Bracket;
    BracketFoundExactly(k, from, unit, target);
    var far := Probe(from, unit, 59);
    BeyondRoot(from, unit, Growth(59), root);
    FavouredMono(k, unit, far, root);
  }

  lemma BeyondRoot(from: real, unit: real, growth: real, root: real)
    requires (root - from) * unit <= growth * (unit * unit)
    ensures (root - (from + unit * growth)) * unit <= 0.0
  {
    assert (unit * growth) * unit == growth * (unit * unit);
    assert (root - (from + unit * growth)) * unit == (root - from) * unit - (unit * growth) * unit;
  }

  /** At every bisection the upper end keeps meeting the target; when the lower end starts below it,
      the answer is within the starting width over 2^n of the exact root. */
  lemma {:induction false} BisectBounds(k: Basket, lo: real, hi: real, target: real, n: nat, unit: real, root: real)
    requires Favours(k, unit) && k.At(root) == target && k.At(hi) >= target
    ensures k.At(Bisect(k, lo, hi, target, n)) >= target
    ensures k.At(lo) < target ==> Abs(Bisect(k, lo, hi, target, n) - root) * Pow2(n) <= Abs(hi - lo)
    decreases n
  {
    hide Favours, Basket.At, Abs, Pow2;
    Powers(n);
    if n == 0 {
      if k.At(lo) < target {
        RootBetween(k, unit, lo, hi, root);
      }
    } else {
      var mid := (lo + hi) / 2.0;
      Midpoint(lo, hi);
      var r := Bisect(k, lo, hi, target, n);
      if k.At(mid) >= target {
        BisectBounds(k, lo, mid, target, n - 1, unit, root);
      } else {
        BisectBounds(k, mid, hi, target, n - 1, unit, root);
      }
      if k.At(lo) < target {
        assert Abs(r - root) * Pow2(n - 1) <= Abs(hi - lo) / 2.0;
        Double(Abs(r - root), Pow2(n - 1), Abs(hi - lo));
      }
    }
  }

  lemma Powers(n: nat)
    ensures n == 0 ==> Pow2(n) == 1.0
    ensures n > 0 ==> Pow2(n) == 2.0 * Pow2(n - 1)
  {
  }

  lemma Midpoint(lo: real, hi: real)
    ensures var mid := (lo + hi) / 2.0; Abs(hi - mid) == Abs(mid - lo) == Abs(hi - lo) / 2.0
  {
  }

  lemma Double(x: real, p: real, w: real)
    requires x * p <= w / 2.0
    ensures x * (2.0 * p) <= w
  {
    assert x * (2.0 * p) == 2.0 * (x * p);
  }

  lemma RootBetween(k: Basket, unit: real, lo: real, hi: real, root: real)
    requires Favours(k, unit) && k.At(lo) < k.At(root) <= k.At(hi)
    ensures Abs(hi - root) <= Abs(hi - lo)
  {
    hide Basket.At;
    FavouredMono(k, unit, lo, root);
    FavouredMono(k, unit, hi, root);
    Between(unit, lo, hi, root);
  }

  lemma Between(unit: real, lo: real, hi: real, root: real)
    requires (root - lo) * unit > 0.0 && (root - hi) * unit <= 0.0
    ensures Abs(hi - root) <= Abs(hi - lo)
  {
    if unit > 0.0 {
      assert root > lo && root <= hi;
    } else {
      assert unit < 0.0;
      assert root < lo && root >= hi;
    }
  }

  /** The width the bisection starts from: at most 1.35 times the larger of one step and the distance
      to the root. */
  lemma BracketWidth(k: Basket, from: real, unit: real, target: real, root: real)
    requires Favours(k, unit) && k.At(root) == target && Bracket(k, from, unit, target, 0).Some?
    ensures var i := Bracket(k, from, unit, target, 0).value;
      Abs(Probe(from, unit, i) - from) <= 1.35 * Max(Abs(unit), Abs(root - from))
  {
    hide Basket.At, Growth, Probe, Bracket, Favours;
    BracketIsFirst(k, from, unit, target, 0);
    var i := Bracket(k, from, unit, target, 0).value;
    if i == 0 {
      FirstWidth(from, unit);
    } else {
      FavouredMono(k, unit, Probe(from, unit, i - 1), root);
      NextWidth(from, unit, i, root);
    }
  }

  lemma FirstWidth(from: real, unit: real)
    ensures Abs(Probe(from, unit, 0) - from) == Abs(unit)
  {
  }

  lemma NextWidth(from: real, unit: real, i: nat, root: real)
    requires i > 0 && (root - Probe(from, unit, i - 1)) * unit > 0.0
    ensures Abs(Probe(from, unit, i) - from) <= 1.35 * Abs(root - from)
  {
    var g := Growth(i - 1);
    Beyond(unit, from, Probe(from, unit, i - 1), root, g);
    AbsTimes(unit, 1.35 * g);
    assert Probe(from, unit, i) - from == unit * (1.35 * g);
    assert Abs(unit) * (1.35 * g) == 1.35 * (Abs(unit) * g);
  }

  lemma AbsTimes(u: real, g: real)
    requires g >= 1.0
    ensures Abs(u * g) == Abs(u) * g
  {
  }

  lemma Beyond(unit: real, from: real, probe: real, root: real, g: real)
    requires probe == from + unit * g && g >= 1.0 && (root - probe) * unit > 0.0
    ensures Abs(unit) * g <= Abs(root - from)
  {
    if unit > 0.0 {
      assert root > probe;
    } else {
      assert unit < 0.0;
      assert root < probe;
    }
  }

  /** The solver's answer. It meets the target before rounding; from a start below the target it is
      within 1.35 * max(step, |root - start|) / 2^50 of the exact root. */
  lemma SolutionIsAccurate(k: Basket, from: real, unit: real, target: real, root: real)
    requires Favours(k, unit) && k.At(root) == target && Solution(k, from, unit, target).Some?
    ensures k.At(Solution(k, from, unit, target).value) >= target
    ensures k.At(from) < target ==>
      Abs(Solution(k, from, unit, target).value - root) * Pow2(50) <= 1.35 * Max(Abs(unit), Abs(root - from))
  {
    hide Basket.At, Pow2, Growth, Bisect, Probe, Favours;
    BracketIsFirst(k, from, unit, target, 0);
    var i := Bracket(k, from, unit, target, 0).value;
    BisectBounds(k, from, Probe(from, unit, i), target, 50, unit, root);
    BracketWidth(k, from, unit, target, root);
  }

  /** The solver for a main with a larger opposite straddle, searching in the straddle's direction from any
      start: whenever the exact price lies within 1.35^59 steps a solution is found; before it is rounded it
      meets the target; and from a start below the target it lies within 1.35 * max(step, distance) / 2^50 of
      the exact price. */
  lemma SolvesTheBasket(k: Basket, from: real, point: real, atr3: real, target: real, root: real)
    requires k.main.Some? && k.straddle.Some? && k.perUnit > 0.0
    requires var main, straddle := k.main.value, k.straddle.value;
      straddle.side == main.side.Opposite() && straddle.volume > main.volume
    requires k.At(root) == target
    ensures var unit := Unit(k.straddle.value.side.Sign(), point, atr3);
      && ((root - from) * unit <= Growth(59) * (unit * unit) ==> Solution(k, from, unit, target).Some?)
      && (Solution(k, from, unit, target).Some? ==>
            && k.At(Solution(k, from, unit, target).value) >= target
            && (k.At(from) < target ==>
                  Abs(Solution(k, from, unit, target).value - root) * Pow2(50) <= 1.35 * Max(Abs(unit), Abs(root - from))))
  {
    hide Favours, Basket.At, Unit, Solution, Growth, Pow2;
    var direction := k.straddle.value.side.Sign();
    LargerStraddleFavours(k);
    UnitFavours(k, direction, point, atr3);
    FavouredIsSolved(k, from, Unit(direction, point, atr3), target, root);
  }

  /** The same for any step in a favoured direction. */
  lemma FavouredIsSolved(k: Basket, from: real, unit: real, target: real, root: real)
    requires Favours(k, unit) && k.At(root) == target
    ensures (root - from) * unit <= Growth(59) * (unit * unit) ==> Solution(k, from, unit, target).Some?
    ensures Solution(k, from, unit, target).Some? ==>
      && k.At(Solution(k, from, unit, target).value) >= target
      && (k.At(from) < target ==>
            Abs(Solution(k, from, unit, target).value - root) * Pow2(50) <= 1.35 * Max(Abs(unit), Abs(root - from)))
  {
    hide *;
    if (root - from) * unit <= Growth(59) * (unit * unit) {
      RootWithinReach(k, from, unit, target, root);
      SolutionOfBracket(k, from, unit, target);
    }
    if Solution(k, from, unit, target).Some? {
      SolutionIsAccurate(k, from, unit, target, root);
    }
  }

  lemma SolutionOfBracket(k: Basket, from: real, unit: real, target: real)
    requires Bracket(k, from, unit, target, 0).Some?
    ensures Solution(k, from, unit, target).Some?
  {
  }

  /** The solver's assumptions can be met: a main bought at 100 and three times its volume sold at 90,
      worth 0 together at 85, searched for downwards from 90. */
  lemma SolverAssumptionsCanBeMet()
    ensures var main := Position(1, true, BUY, Entry, 0.01, 100.0, 0.0, [], 0.0);
      var straddle := Position(2, true, SELL, Straddle, 0.03, 90.0, 0.0, [], 0.0);
      var k := Basket(map[], Some(main), Some(straddle), 1000.0, 100.0);
      && Favours(k, -1.0) && k.At(85.0) == 0.0 && k.At(90.0) < 0.0
      && Solution(k, 90.0, -1.0, 0.0).Some?
  {
    var main := Position(1, true, BUY, Entry, 0.01, 100.0, 0.0, [], 0.0);
    var straddle := Position(2, true, SELL, Straddle, 0.03, 90.0, 0.0, [], 0.0);
    var k := Basket(map[], Some(main), Some(straddle), 1000.0, 100.0);
    hide Growth, Bracket, Bisect;
    ReachAtLeastFive();
    RootWithinReach(k, 90.0, -1.0, 0.0, 85.0);
  }

  lemma ReachAtLeastFive()
    ensures Growth(59) >= 5.0
  {
    assert Growth(2) == 1.35 * Growth(1) && Growth(1) == 1.35 * Growth(0);
    assert Growth(4) == 1.35 * Growth(3) && Growth(3) == 1.35 * Growth(2);
    assert Growth(6) == 1.35 * Growth(5) && Growth(5) == 1.35 * Growth(4);
    GrowthMono(6, 59);
  }
}
