/** How the brain sizes a straddle, and how the executor validates and executes the request. */
module BrainSizing {
  import opened Numeric
  import opened Terminal

  /** The ceiling slack of the brain's rounding; the executor's is STEP_SLACK. */
  const BRAIN_SLACK: real := 0.0000000001

  /** The symbol's volume facts as the broker reports them. */
  datatype VolumeSpec = VolumeSpec(min: real, max: real, step: real)
  {
    /** The brain's repairs of non-positive facts. */
    function Repaired(): VolumeSpec {
      var m := if min <= 0.0 then 0.01 else min;
      VolumeSpec(m, if max <= 0.0 then 100.0 else max, if step <= 0.0 then m else step)
    }

    /** The facts need no repair. */
    predicate Sane() { min > 0.0 && max > 0.0 && step > 0.0 }

    /** The step the executor's guard counts in; a finer step is lifted to a hundredth. */
    function GuardStep(): real { Max(step, 0.01) }

    /** The step the executed volume is counted in. */
    function ExecutionStep(): real { if step <= 0.0 then min else step }

    /** The guard's step has two decimals, so its last rounding changes nothing. */
    predicate GuardOnGrid() { OnGrid(GuardStep(), 2) }

    /** Half a hundredth of a lot, or any whole multiple of it. */
    predicate HalfHundredths() { step > 0.0 && IsInt(200.0 * step) }

    /** Minimum and guard step are whole numbers of execution steps of at least the eighth decimal. */
    ghost predicate Regular() {
      && min > 0.0 && GuardOnGrid() && ExecutionStep() >= 0.00000001
      && (exists n: int :: min == Lattice(0.0, ExecutionStep(), n))
      && (exists k: int :: GuardStep() == Lattice(0.0, ExecutionStep(), k))
    }

    /** The execution step has some number of decimals, three or more, all of them coarser than the slack. */
    ghost predicate Decimal() {
      exists d: nat :: d >= 3 && OnGrid(ExecutionStep(), d) && CoarserThanSlack(ExecutionStep(), d)
    }
  }

  /** The ceiling slack of a step is less than a unit of the d-th decimal. */
  predicate CoarserThanSlack(step: real, d: nat) { SlackUnits(step, Pow10(d)) < 1.0 }

  function SlackUnits(step: real, p: real): real { STEP_SLACK * step * p }

  function RoundUpLots(spec: VolumeSpec, requested: real, cap: real): real {
    var s := spec.Repaired();
    var hardCap := Min(s.max, Max(s.min, cap));
    if requested <= 0.0 then 0.0
    else
      var lots := Min(Lattice(0.0, s.step, StepCeil(requested, s.step, BRAIN_SLACK)), hardCap);
      if lots < s.min then 0.0 else NormalizeDouble(lots, 2)
  }

  /** Money the straddle must earn over the gap: the floating loss, costs and buffer, scaled up. */
  function RequiredMoney(rawProfit: real, commission: real, swap: real, buffer: real, safety: real): real {
    (Abs(rawProfit) + (commission + Abs(swap)) + buffer) * Max(1.0, safety)
  }

  /** What one lot earns over the gap between two prices. */
  function MoneyPerLot(side: Side, from: real, to: real, perUnit: real): real {
    Abs(CalcProfit(side, 1.0, from, to, perUnit))
  }

  function RequiredLots(money: real, oneLotGap: real): real {
    if oneLotGap > 0.0 then money / oneLotGap else 0.0
  }

  /** The executor's reading of a request: the volume to open, or 0 for a refusal. */
  function ValidateStraddleLots(requested: real, mainLot: real, spec: VolumeSpec, cap: real): real {
    if requested <= 0.0 then 0.0
    else
      var step := Max(spec.step, 0.01);
      var lots := NormalizeDouble(Lattice(0.0, step, StepCeil(Max(requested, spec.min), step, STEP_SLACK)), 2);
      if cap > 0.0 && lots > cap then 0.0
      else if lots <= mainLot then 0.0
      else lots
  }

  /** The largest volume the executor opens: broker maximum, configured maximum and, with the fund
      engine on, what the margin budget buys. */
  function ExecutionCap(spec: VolumeSpec, maxLot: real, fundLots: real, fundEngine: bool): real {
    var cap := Min(spec.max, maxLot);
    if fundEngine then Min(cap, fundLots) else cap
  }

  /** The cap admits a volume exactly when the broker, the configuration and, if asked, the margin budget do. */
  lemma CapExactly(v: real, spec: VolumeSpec, maxLot: real, fundLots: real, fundEngine: bool)
    ensures v <= ExecutionCap(spec, maxLot, fundLots, fundEngine)
       <==> v <= spec.max && v <= maxLot && (fundEngine ==> v <= fundLots)
  {
  }

  function CalculateExecutableLots(requested: real, spec: VolumeSpec, maxLot: real, fundLots: real, fundEngine: bool): real
    requires spec.min > 0.0
  {
    var step := if spec.step <= 0.0 then spec.min else spec.step;
    var cap := ExecutionCap(spec, maxLot, fundLots, fundEngine);
    if Min(spec.max, maxLot) < spec.min then 0.0
    else
      var lots := Min(Max(requested, spec.min), cap);
      if lots < spec.min then 0.0
      else NormalizeDouble(Min(Lattice(0.0, step, StepCeil(lots, step, STEP_SLACK)), cap), 2)
  }

  // ---------------------------------------------------------------- rounding to two decimals

  lemma Hundred()
    ensures Pow10(2) == 100.0
  {
    assert Pow10(1) == 10.0 * Pow10(0);
  }

  lemma RoundedInHundredths(x: real)
    ensures NormalizeDouble(x, 2) == NearestAway(x * 100.0) as real / 100.0
    ensures OnGrid(x, 2) <==> IsInt(x * 100.0)
    ensures OnGrid(NormalizeDouble(x, 2), 2)
  {
    Hundred();
    OnScaleFromInt(NormalizeDouble(x, 2), 100.0, NearestAway(x * 100.0));
  }

  /** A value of two decimals, counted in hundredths. */
  lemma InHundredths(x: real) returns (k: int)
    requires OnGrid(x, 2)
    ensures 100.0 * x == k as real
  {
    Hundred();
    k := (x * 100.0).Floor;
  }

  lemma NearestIs(y: real)
    requires y >= 0.0
    ensures NearestAway(y) as real <= y + 0.5 < NearestAway(y) as real + 1.0
  {
  }

  /** The hundredths a volume is rounded to. */
  lemma RoundedTo(x: real) returns (k: int)
    requires x >= 0.0
    ensures 100.0 * NormalizeDouble(x, 2) == k as real && k as real <= 100.0 * x + 0.5 < k as real + 1.0
  {
    hide NearestAway;
    RoundedInHundredths(x);
    NearestIs(x * 100.0);
    k := NearestAway(x * 100.0);
  }

  /** A rounded volume exceeds one of two decimals exactly when the volume was half a hundredth above it. */
  lemma RoundedAbove(x: real, m: real)
    requires x >= 0.0 && OnGrid(m, 2)
    ensures NormalizeDouble(x, 2) > m <==> x >= m + 0.005
  {
    hide NormalizeDouble, OnGrid;
    var k := RoundedTo(x);
    var j := InHundredths(m);
    IntsApart(k, j);
  }

  lemma IntsApart(k: int, j: int)
    ensures if k > j then k as real >= j as real + 1.0 else k as real <= j as real
  {
  }

  function Fraction(y: real): real { y - y.Floor as real }

  /** Rounding to two decimals reaches the volume exactly when what is left of its hundredths is nothing
      or at least a half. */
  lemma RoundingCoversExactly(x: real)
    requires x >= 0.0
    ensures NormalizeDouble(x, 2) >= x <==> Fraction(100.0 * x) == 0.0 || Fraction(100.0 * x) >= 0.5
  {
    hide NormalizeDouble, OnGrid;
    var k := RoundedTo(x);
    var f := (100.0 * x).Floor;
    assert f as real <= 100.0 * x < f as real + 1.0;
    assert k == f || k == f + 1;
  }

  // ---------------------------------------------------------------- the executor's checks

  /** Whatever the step, a validated volume has two decimals and is above the main. */
  lemma ValidatedIsHundredths(requested: real, mainLot: real, spec: VolumeSpec, cap: real)
    ensures var v := ValidateStraddleLots(requested, mainLot, spec, cap);
      OnGrid(v, 2) && (v != 0.0 ==> v > mainLot && (cap > 0.0 ==> v <= cap))
  {
    hide NormalizeDouble, OnGrid, StepCeil, Lattice;
    RoundedInHundredths(0.0);
    RoundedInHundredths(Lattice(0.0, spec.GuardStep(), StepCeil(Max(requested, spec.min), spec.GuardStep(), STEP_SLACK)));
  }

  /** A validated volume is a whole number of guard steps, above the main, within the cap, and short of
      the request by at most the executor's ceiling slack. */
  lemma ValidatedVolume(requested: real, mainLot: real, spec: VolumeSpec, cap: real) returns (n: int)
    requires spec.GuardOnGrid()
    ensures var v := ValidateStraddleLots(requested, mainLot, spec, cap);
      v != 0.0 ==>
        && v == Lattice(0.0, spec.GuardStep(), n)
        && v > mainLot
        && (cap > 0.0 ==> v <= cap)
        && v >= Max(requested, spec.min) - STEP_SLACK * spec.GuardStep()
  {
    hide StepCeil, NormalizeDouble, Lattice, OnGrid;
    var step := spec.GuardStep();
    n := StepCeil(Max(requested, spec.min), step, STEP_SLACK);
    LatticeAtZero(Max(requested, spec.min), step, STEP_SLACK, n);
    LatticeOnGrid(step, n, 2);
    RoundOnGrid(Lattice(0.0, step, n), 2);
  }

  /** With no cap, a positive request is refused exactly when, after lifting it to the broker
      minimum, it does not clear a main of m guard steps by more than the ceiling slack. */
  lemma RefusalThreshold(requested: real, m: nat, spec: VolumeSpec)
    requires spec.GuardOnGrid() && requested > 0.0
    ensures ValidateStraddleLots(requested, Lattice(0.0, spec.GuardStep(), m), spec, 0.0) == 0.0
       <==> Max(requested, spec.min) <= Lattice(0.0, spec.GuardStep(), m) + STEP_SLACK * spec.GuardStep()
  {
    hide StepCeil, NormalizeDouble, Lattice, OnGrid;
    var step := spec.GuardStep();
    var n := StepCeil(Max(requested, spec.min), step, STEP_SLACK);
    LatticeOnGrid(step, n, 2);
    RoundOnGrid(Lattice(0.0, step, n), 2);
    StepCeilExceeds(Max(requested, spec.min), step, STEP_SLACK, m);
    LatticeOrder(0.0, step, n, m);
    LatticeOrder(0.0, step, 0, m);
    ZeroLattice(step);
  }

  lemma ZeroLattice(step: real)
    ensures Lattice(0.0, step, 0) == 0.0
  {
  }

  lemma LatticeAtZero(x: real, step: real, slack: real, n: int)
    requires step > 0.0 && n == StepCeil(x, step, slack)
    ensures x - slack * step <= Lattice(0.0, step, n) < x - slack * step + step
  {
    StepCeilBounds(x, step, slack);
  }

  /** A request that is already a tradable number of guard steps passes unchanged: it is refused exactly
      when it exceeds a positive cap or does not exceed the main. */
  lemma ValidateLatticeRequest(n: int, mainLot: real, spec: VolumeSpec, cap: real)
    requires spec.GuardOnGrid() && spec.min > 0.0 && Lattice(0.0, spec.GuardStep(), n) >= spec.min
    ensures var lots := Lattice(0.0, spec.GuardStep(), n);
      ValidateStraddleLots(lots, mainLot, spec, cap)
        == if (cap > 0.0 && lots > cap) || lots <= mainLot then 0.0 else lots
  {
    hide StepCeil, NormalizeDouble, Lattice, OnGrid;
    StepCeilOfLattice(spec.GuardStep(), n, STEP_SLACK);
    LatticeOnGrid(spec.GuardStep(), n, 2);
    RoundOnGrid(Lattice(0.0, spec.GuardStep(), n), 2);
  }

  /** The last cap is transparent to a tradable volume of two decimals within it. */
  lemma ExecutesUncapped(n: int, spec: VolumeSpec, maxLot: real, fundLots: real, fundEngine: bool)
    requires spec.min > 0.0 && OnGrid(Lattice(0.0, spec.ExecutionStep(), n), 2)
    requires spec.min <= Lattice(0.0, spec.ExecutionStep(), n) <= ExecutionCap(spec, maxLot, fundLots, fundEngine)
    ensures CalculateExecutableLots(Lattice(0.0, spec.ExecutionStep(), n), spec, maxLot, fundLots, fundEngine)
         == Lattice(0.0, spec.ExecutionStep(), n)
  {
    hide StepCeil, NormalizeDouble, Lattice, OnGrid;
    StepCeilOfLattice(spec.ExecutionStep(), n, STEP_SLACK);
    RoundOnGrid(Lattice(0.0, spec.ExecutionStep(), n), 2);
  }

  lemma LatticeCompose(step: real, k: int, n: int)
    ensures Lattice(0.0, Lattice(0.0, step, k), n) == Lattice(0.0, step, n * k)
  {
    IntProduct(n, k);
    assert n as real * (k as real * step) == (n as real * k as real) * step;
  }

  /** A validated volume the execution cap admits is executed unchanged. */
  lemma ValidatedExecutes(requested: real, mainLot: real, spec: VolumeSpec, cap: real,
                          maxLot: real, fundLots: real, fundEngine: bool)
    requires spec.Regular()
    requires 0.0 < ValidateStraddleLots(requested, mainLot, spec, cap) <= ExecutionCap(spec, maxLot, fundLots, fundEngine)
    ensures var v := ValidateStraddleLots(requested, mainLot, spec, cap);
      CalculateExecutableLots(v, spec, maxLot, fundLots, fundEngine) == v
  {
    hide ValidateStraddleLots, CalculateExecutableLots, Lattice, OnGrid;
    var n := ValidatedVolume(requested, mainLot, spec, cap);
    var step := spec.ExecutionStep();
    var m: int :| spec.min == Lattice(0.0, step, m);
    var k: int :| spec.GuardStep() == Lattice(0.0, step, k);
    LatticeCompose(step, k, n);
    ValidatedIsHundredths(requested, mainLot, spec, cap);
    SlackBelowStep(spec);
    LatticeOrder(0.0, step, n * k + 1, m);
    LatticeNext(0.0, step, n * k);
    LatticeOrder(0.0, step, m, n * k);
    ExecutesUncapped(n * k, spec, maxLot, fundLots, fundEngine);
  }

  lemma SlackBelowStep(spec: VolumeSpec)
    requires spec.min > 0.0 && spec.ExecutionStep() >= 0.00000001
    ensures STEP_SLACK * spec.GuardStep() < spec.ExecutionStep()
  {
  }

  // ---------------------------------------------------------------- the last cap

  /** What the last cap leaves of a volume, before it is rounded. */
  function Carried(v: real, spec: VolumeSpec, cap: real): real
    requires spec.min > 0.0
  {
    var step := spec.ExecutionStep();
    Min(Lattice(0.0, step, StepCeil(Min(Max(v, spec.min), cap), step, STEP_SLACK)), cap)
  }

  lemma CarriedBounds(v: real, spec: VolumeSpec, cap: real)
    requires spec.min > 0.0 && cap >= spec.min
    ensures var x, lots := Carried(v, spec, cap), Min(Max(v, spec.min), cap);
      x >= 0.0 && lots - STEP_SLACK * spec.ExecutionStep() <= x <= cap
  {
    hide StepCeil, Lattice;
    var step, lots := spec.ExecutionStep(), Min(Max(v, spec.min), cap);
    var n := StepCeil(lots, step, STEP_SLACK);
    LatticeAtZero(lots, step, STEP_SLACK, n);
    LatticeOrder(0.0, step, n + 1, 0);
    LatticeNext(0.0, step, n);
    LatticeOrder(0.0, step, 0, n);
    ZeroLattice(step);
    assert lots - STEP_SLACK * step > -step;
  }

  /** The last cap is not a refusal, so it can undo the guard's: the volume sent exceeds a main of two
      decimals exactly when the cap admits the broker minimum and what it leaves is half a hundredth above
      the main; and for a decimal step that is exactly when the cap itself is. */
  lemma RecappedAboveMain(requested: real, mainLot: real, spec: VolumeSpec, cap: real,
                          maxLot: real, fundLots: real, fundEngine: bool)
    requires spec.min > 0.0 && mainLot >= 0.0 && OnGrid(mainLot, 2)
    requires ValidateStraddleLots(requested, mainLot, spec, cap) > 0.0
    ensures var v, c := ValidateStraddleLots(requested, mainLot, spec, cap), ExecutionCap(spec, maxLot, fundLots, fundEngine);
      var sent := CalculateExecutableLots(v, spec, maxLot, fundLots, fundEngine);
      && (sent > mainLot <==> c >= spec.min && Carried(v, spec, c) >= mainLot + 0.005)
      && (spec.Decimal() ==> (sent > mainLot <==> c >= spec.min && c >= mainLot + 0.005))
  {
    hide ValidateStraddleLots, NormalizeDouble, OnGrid, StepCeil, Lattice;
    var v, c := ValidateStraddleLots(requested, mainLot, spec, cap), ExecutionCap(spec, maxLot, fundLots, fundEngine);
    if c >= spec.min {
      CarriedBounds(v, spec, c);
      RoundedAbove(Carried(v, spec, c), mainLot);
      if spec.Decimal() && c >= mainLot + 0.005 {
        CarriedClears(requested, mainLot, spec, cap, c);
      }
    }
  }

  /** With a decimal step, a cap half a hundredth above the main leaves that much of the volume. */
  lemma CarriedClears(requested: real, mainLot: real, spec: VolumeSpec, cap: real, c: real)
    requires spec.min > 0.0 && OnGrid(mainLot, 2) && spec.Decimal() && c >= spec.min && c >= mainLot + 0.005
    requires ValidateStraddleLots(requested, mainLot, spec, cap) > 0.0
    ensures Carried(ValidateStraddleLots(requested, mainLot, spec, cap), spec, c) >= mainLot + 0.005
  {
    hide ValidateStraddleLots, OnGrid, StepCeil, Lattice;
    var v := ValidateStraddleLots(requested, mainLot, spec, cap);
    ValidatedIsHundredths(requested, mainLot, spec, cap);
    HundredthsApart(mainLot, v);
    var step := spec.ExecutionStep();
    var d: nat :| d >= 3 && OnGrid(step, d) && CoarserThanSlack(step, d);
    var lots := Min(Max(v, spec.min), c);
    var n := StepCeil(lots, step, STEP_SLACK);
    LatticeAtZero(lots, step, STEP_SLACK, n);
    LatticeOnGrid(step, n, d);
    HalfHundredthOnGrid(mainLot, d);
    GridGap(Lattice(0.0, step, n), mainLot + 0.005, d, step);
  }

  lemma HundredthsApart(a: real, b: real)
    requires OnGrid(a, 2) && OnGrid(b, 2) && b > a
    ensures b >= a + 0.01
  {
    hide OnGrid;
    var i := InHundredths(a);
    var j := InHundredths(b);
    IntsApart(j, i);
  }

  /** Half a hundredth above a value of two decimals has any number of decimals from three on. */
  lemma {:induction false} HalfHundredthOnGrid(m: real, d: nat)
    requires OnGrid(m, 2) && d >= 3
    ensures OnGrid(m + 0.005, d)
  {
    if d == 3 {
      Hundred();
      var k := InHundredths(m);
      assert (m + 0.005) * 1000.0 == (10 * k + 5) as real;
      OnScaleFromInt(m + 0.005, 1000.0, 10 * k + 5);
      assert Pow10(3) == 10.0 * Pow10(2);
    } else {
      HalfHundredthOnGrid(m, d - 1);
      OneMoreDecimal(m + 0.005, d - 1);
    }
  }

  lemma OneMoreDecimal(x: real, d: nat)
    requires OnGrid(x, d)
    ensures OnGrid(x, d + 1)
  {
    var k := Units(x, d);
    TimesTen(x, Pow10(d), k as real);
    OnScaleFromInt(x, Pow10(d + 1), 10 * k);
  }

  lemma TimesTen(x: real, p: real, xp: real)
    requires IsProduct(x, p, xp)
    ensures x * (10.0 * p) == 10.0 * xp
  {
    assert x * (10.0 * p) == 10.0 * (x * p);
  }

  lemma Units(x: real, d: nat) returns (k: int)
    requires OnGrid(x, d)
    ensures IsProduct(x, Pow10(d), k as real)
  {
    k := (x * Pow10(d)).Floor;
  }

  /** Two values of d decimals less than the last decimal apart do not lie in the wrong order. */
  lemma GridGap(x: real, y: real, d: nat, step: real)
    requires OnGrid(x, d) && OnGrid(y, d) && x >= y - STEP_SLACK * step && CoarserThanSlack(step, d)
    ensures x >= y
  {
    hide OnGrid, Pow10;
    var i := Units(x, d);
    var j := Units(y, d);
    UnitsApart(x, y, Pow10(d), i, j, step);
  }

  lemma UnitsApart(x: real, y: real, p: real, i: int, j: int, step: real)
    requires IsProduct(x, p, i as real) && IsProduct(y, p, j as real) && p > 0.0
    requires x >= y - STEP_SLACK * step && SlackUnits(step, p) < 1.0
    ensures x >= y
  {
    var slack := STEP_SLACK * step;
    assert slack * p == SlackUnits(step, p);
    assert (y - x) * p == (j - i) as real;
    if y > x {
      MulLe(y - x, slack, p, (j - i) as real, slack * p);
      MulLt(0.0, y - x, p, 0.0, (j - i) as real);
    }
  }

  /** An instance of the failing condition: a validated 0.05 against a main of 0.04 is opened as 0.03 when
      that is the configured maximum, a straddle smaller than the main it should recover. */
  lemma RecappingCanUndercutTheMain()
    ensures var spec := VolumeSpec(0.01, 100.0, 0.01);
      && ValidateStraddleLots(0.05, 0.04, spec, 0.0) == 0.05
      && CalculateExecutableLots(0.05, spec, 0.03, 0.0, false) == 0.03
  {
    Hundred();
    FloorIs(0.01 * 100.0, 1);
    FloorIs(5.0 - STEP_SLACK, 4);
    FloorIs(3.0 - STEP_SLACK, 2);
    FloorIs(5.5, 5);
    FloorIs(3.5, 3);
    assert StepCeil(0.05, 0.01, STEP_SLACK) == 5;
    assert StepCeil(0.03, 0.01, STEP_SLACK) == 3;
  }

  // ---------------------------------------------------------------- the brain's request

  /** The brain's sizing of a straddle for a losing main. */
  datatype Sizing = Sizing(money: real, oneLotGap: real, required: real, lots: real)

  function SizeForMain(main: Position, q: Quote, buffer: real, safety: real, maxLot: real, spec: VolumeSpec): Sizing {
    var current := q.Closing(main.side);
    var money := RequiredMoney(Profit(main, q), SumAbs(main.deals), main.swap, buffer, safety);
    var gap := MoneyPerLot(main.side.Opposite(), current, main.open, q.perUnit);
    var required := RequiredLots(money, gap);
    Sizing(money, gap, required, RoundUpLots(spec, required, maxLot))
  }

  /** The rounded-up requirement, before the caps. */
  function UncappedLots(required: real, spec: VolumeSpec): real
    requires spec.step > 0.0
  {
    Lattice(0.0, spec.step, StepCeil(required, spec.step, BRAIN_SLACK))
  }

  predicate NotCapped(required: real, maxLot: real, spec: VolumeSpec)
    requires spec.step > 0.0
  {
    UncappedLots(required, spec) <= Min(spec.max, Max(spec.min, maxLot))
  }

  /** The brain's ceiling slack, in lots. */
  function SlackLots(spec: VolumeSpec): real { BRAIN_SLACK * spec.step }

  /** Without a cap in the way the brain takes the lattice volume that reaches the requirement up to its
      slack, and rounds it to two decimals; the rounding keeps it covered exactly when what is left of its
      hundredths is nothing or at least a half. */
  lemma RoundUpUncapped(required: real, maxLot: real, spec: VolumeSpec) returns (n: nat)
    requires spec.Sane() && required > 0.0 && NotCapped(required, maxLot, spec)
    ensures n == StepCeil(required, spec.step, BRAIN_SLACK)
    ensures var lots := Lattice(0.0, spec.step, n);
      && UncappedLots(required, spec) == lots >= required - SlackLots(spec)
      && lots >= 0.0
      && RoundUpLots(spec, required, maxLot) == (if lots < spec.min then 0.0 else NormalizeDouble(lots, 2))
      && (NormalizeDouble(lots, 2) >= lots <==> Fraction(100.0 * lots) == 0.0 || Fraction(100.0 * lots) >= 0.5)
  {
    hide StepCeil, NormalizeDouble, Lattice, Fraction;
    var k := StepCeil(required, spec.step, BRAIN_SLACK);
    LatticeAtZero(required, spec.step, BRAIN_SLACK, k);
    LatticeOrder(0.0, spec.step, k + 1, 0);
    LatticeNext(0.0, spec.step, k);
    LatticeOrder(0.0, spec.step, 0, k);
    ZeroLattice(spec.step);
    n := k;
    RoundingCoversExactly(Lattice(0.0, spec.step, n));
  }

  /** A requirement the caps cut down is sized at the lower of the broker maximum and the larger of the broker
      minimum and the configured cap, and refused when that maximum is below the minimum. */
  lemma RoundUpCapped(required: real, maxLot: real, spec: VolumeSpec)
    requires spec.Sane() && required > 0.0 && !NotCapped(required, maxLot, spec)
    ensures RoundUpLots(spec, required, maxLot) ==
      if spec.max < spec.min then 0.0
      else NormalizeDouble(if maxLot <= spec.min then spec.min else if maxLot <= spec.max then maxLot else spec.max, 2)
  {
    hide NormalizeDouble, StepCeil, Lattice;
  }

  /** Whatever the requirement, nothing is asked for without one; and broker facts that are not positive count
      as a minimum of a hundredth, a maximum of a hundred and a step of the minimum. */
  lemma RoundUpRepairs(required: real, maxLot: real, spec: VolumeSpec)
    ensures required <= 0.0 ==> RoundUpLots(spec, required, maxLot) == 0.0
    ensures var min := if spec.min <= 0.0 then 0.01 else spec.min;
      var sane := VolumeSpec(min, if spec.max <= 0.0 then 100.0 else spec.max, if spec.step <= 0.0 then min else spec.step);
      sane.Sane() && RoundUpLots(spec, required, maxLot) == RoundUpLots(sane, required, maxLot)
  {
    hide NormalizeDouble, StepCeil, Lattice;
  }

  /** With a step of half hundredths the rounding never loses anything, and with whole ones it changes
      nothing. */
  lemma HalfHundredthsCover(step: real, n: nat)
    requires step > 0.0 && IsInt(200.0 * step)
    ensures NormalizeDouble(Lattice(0.0, step, n), 2) >= Lattice(0.0, step, n) >= 0.0
    ensures OnGrid(step, 2) ==> NormalizeDouble(Lattice(0.0, step, n), 2) == Lattice(0.0, step, n)
  {
    hide NormalizeDouble, OnGrid;
    var t := (200.0 * step).Floor;
    var lots := Lattice(0.0, step, n);
    Doubled(step, n, t);
    RoundingCoversExactly(lots);
    if OnGrid(step, 2) {
      LatticeOnGrid(step, n, 2);
      RoundOnGrid(lots, 2);
    }
  }

  lemma Doubled(step: real, n: nat, t: int)
    requires 200.0 * step == t as real && t >= 0
    ensures 200.0 * Lattice(0.0, step, n) == (n * t) as real && Lattice(0.0, step, n) >= 0.0
    ensures Fraction(100.0 * Lattice(0.0, step, n)) == 0.0 || Fraction(100.0 * Lattice(0.0, step, n)) == 0.5
  {
    IntProduct(n, t);
    var lots := Lattice(0.0, step, n);
    assert 200.0 * lots == n as real * (200.0 * step);
    var h := (n * t) / 2;
    assert n * t >= 0;
    if (n * t) % 2 == 0 {
      FloorIs(100.0 * lots, h);
    } else {
      FloorIs(100.0 * lots, h);
    }
  }

  /** A request of n whole steps loses exactly when the n steps leave less than half a hundredth. */
  lemma LosesExactly(spec: VolumeSpec, n: nat, maxLot: real)
    requires spec.Sane() && Lattice(0.0, spec.step, n) >= spec.min && NotCapped(Lattice(0.0, spec.step, n), maxLot, spec)
    ensures RoundUpLots(spec, Lattice(0.0, spec.step, n), maxLot) < Lattice(0.0, spec.step, n) <==> Loses(n, 100.0 * spec.step)
  {
    hide NormalizeDouble, OnGrid, StepCeil, RoundUpLots, NotCapped, UncappedLots, Fraction;
    var lots := Lattice(0.0, spec.step, n);
    HundredsOfLattice(spec.step, n, 100.0 * spec.step);
    StepCeilOfLattice(spec.step, n, BRAIN_SLACK);
    var m := RoundUpUncapped(lots, maxLot, spec);
    LeftInRange(100.0 * spec.step, n);
  }

  /** With any other step some request is rounded below itself, however large the broker minimum: from
      every count of steps on there is one that loses. */
  lemma OtherStepsUndercover(spec: VolumeSpec, from: nat, maxLot: real) returns (n: nat)
    requires spec.Sane() && !spec.HalfHundredths()
    ensures n >= from && Lattice(0.0, spec.step, n) >= spec.min
    ensures NotCapped(Lattice(0.0, spec.step, n), maxLot, spec) ==>
      RoundUpLots(spec, Lattice(0.0, spec.step, n), maxLot) < Lattice(0.0, spec.step, n)
  {
    hide RoundUpLots, NotCapped, Loses;
    var y := 100.0 * spec.step;
    assert 2.0 * y == 200.0 * spec.step;
    var least := (spec.min / spec.step).Floor + 1;
    var start := if from >= least then from else least;
    n := LosingCount(y, start);
    ReachesMinimum(spec.min, spec.step, least, n);
    if NotCapped(Lattice(0.0, spec.step, n), maxLot, spec) {
      LosesExactly(spec, n, maxLot);
    }
  }

  lemma HundredsOfLattice(step: real, n: int, y: real)
    requires y == 100.0 * step
    ensures Fraction(100.0 * Lattice(0.0, step, n)) == Left(y, n)
  {
    assert 100.0 * Lattice(0.0, step, n) == n as real * y;
  }

  lemma ReachesMinimum(min: real, step: real, least: int, n: nat)
    requires min > 0.0 && step > 0.0 && least == (min / step).Floor + 1 && n >= least
    ensures Lattice(0.0, step, n) >= min > 0.0
  {
    var q := min / step;
    assert q * step == min;
    MulLe(q, n as real, step, min, n as real * step);
  }

  /** The first such request, by the fraction f of a hundredth a step leaves: one step when f is below a
      half, else as many as it takes 1 - f to pass a half. */
  function FirstLoss(y: real): (n: int)
    requires !IsInt(2.0 * y)
  {
    if Fraction(y) < 0.5 then 1 else (0.5 / (1.0 - Fraction(y))).Floor + 1
  }

  /** What k steps leave of a hundredth. */
  function Left(y: real, k: int): real { Fraction(k as real * y) }

  predicate Loses(n: int, y: real) { 0.0 < Left(y, n) < 0.5 }

  /** It loses, and no smaller count does. */
  lemma FirstLossLoses(y: real)
    requires !IsInt(2.0 * y)
    ensures FirstLoss(y) >= 1 && Loses(FirstLoss(y), y)
    ensures forall k :: 0 <= k < FirstLoss(y) ==> !Loses(k, y)
  {
    var f, n := Fraction(y), FirstLoss(y);
    HalvesOnly(y);
    FirstMultiples(y);
    if f >= 0.5 {
      var g := 1.0 - f;
      forall k | 0 <= k <= n
        ensures Loses(k, y) <==> k == n
      {
        if k > 0 {
          PassesHalf(g, n);
          TurnsBack(y, g, n, k);
        }
      }
    }
  }

  lemma FirstMultiples(y: real)
    ensures Left(y, 0) == 0.0 && Left(y, 1) == Fraction(y)
  {
    assert 1.0 * y == y;
    FloorIs(0.0 * y, 0);
  }

  lemma HalvesOnly(y: real)
    requires !IsInt(2.0 * y)
    ensures 0.0 < Fraction(y) < 1.0 && Fraction(y) != 0.5
  {
    if Fraction(y) == 0.0 {
      FloorIs(2.0 * y, 2 * y.Floor);
    } else if Fraction(y) == 0.5 {
      FloorIs(2.0 * y, 2 * y.Floor + 1);
    }
  }

  /** n is the first count of g that passes a half. */
  lemma PassesHalf(g: real, n: int)
    requires 0.0 < g < 0.5 && n == (0.5 / g).Floor + 1
    ensures n >= 1 && (n - 1) as real * g <= 0.5 < n as real * g
  {
    var h := 0.5 / g;
    assert h * g == 0.5;
    MulLt(h, n as real, g, 0.5, n as real * g);
    MulLe((n - 1) as real, h, g, (n - 1) as real * g, 0.5);
  }

  /** Up to its n-th multiple a fraction 1 - g falls back by g each time, and the n-th is the first below a
      half. */
  lemma TurnsBack(y: real, g: real, n: int, k: int)
    requires 0.0 < g < 0.5 && g == 1.0 - Fraction(y) && 1 <= k <= n
    requires (n - 1) as real * g <= 0.5 < n as real * g
    ensures Loses(k, y) <==> k == n
  {
    var ng, kg := n as real * g, k as real * g;
    assert (n - 1) as real * g == ng - g;
    MulLe(1.0, k as real, g, g, kg);
    MulLe(k as real, n as real, g, kg, ng);
    if k < n {
      MulLe(k as real, (n - 1) as real, g, kg, ng - g);
    }
    assert k == n ==> kg == ng;
    LeftBack(y, g, k, kg);
  }

  lemma LeftBack(y: real, g: real, k: int, kg: real)
    requires g == 1.0 - Fraction(y) && kg == k as real * g && 0.0 < kg < 1.0
    ensures Left(y, k) == 1.0 - kg
  {
    hide Fraction;
    assert Fraction(y) == y - y.Floor as real by { FractionIs(y); }
    var up := y.Floor + 1;
    IntProduct(k, up);
    Spread(k as real, up as real, g, y, (k * up) as real, kg);
    FractionBelow(k as real * y, k * up, kg);
  }

  lemma FractionIs(y: real)
    ensures Fraction(y) == y - y.Floor as real
  {
  }

  lemma FractionBelow(x: real, w: int, below: real)
    requires x == w as real - below && 0.0 < below < 1.0
    ensures Fraction(x) == 1.0 - below
  {
    FloorIs(x, w - 1);
  }

  lemma Spread(k: real, up: real, g: real, y: real, kup: real, kg: real)
    requires y == up - g && kup == k * up && kg == k * g
    ensures k * y == kup - kg
  {
  }

  /** However far out one starts, a step that is no half hundredth loses again. */
  lemma LosingCount(y: real, from: nat) returns (n: nat)
    requires !IsInt(2.0 * y)
    ensures n >= from && Loses(n, y)
  {
    hide Fraction, Left;
    HalvesOnly(y);
    var pace := if Fraction(y) < 0.5 then Fraction(y) else 1.0 - Fraction(y);
    var fuel := (1.0 / pace).Floor + 1;
    EnoughFuel(pace, fuel);
    LeftInRange(y, from);
    NextMultiple(from, y);
    if Left(y, from) > 0.0 {
      n := SearchLoss(y, from, fuel, fuel as real * pace);
    } else if Fraction(y) < 0.5 {
      n := from + 1;
    } else {
      n := SearchLoss(y, from + 1, fuel, fuel as real * pace);
    }
  }

  lemma EnoughFuel(pace: real, fuel: int)
    requires 0.0 < pace && fuel == (1.0 / pace).Floor + 1
    ensures fuel >= 0 && fuel as real * pace > 1.0
  {
    var q := 1.0 / pace;
    assert q * pace == 1.0;
    MulLt(q, fuel as real, pace, 1.0, fuel as real * pace);
  }

  lemma LeftInRange(y: real, k: int)
    ensures 0.0 <= Left(y, k) < 1.0
  {
  }

  lemma NextMultiple(k: int, y: real)
    ensures var a := Left(y, k) + Fraction(y); Left(y, k + 1) == if a < 1.0 then a else a - 1.0
  {
    var x, a := k as real * y, Left(y, k) + Fraction(y);
    assert (k + 1) as real * y == x + y;
    FloorIs(x + y, x.Floor + y.Floor + if a < 1.0 then 0 else 1);
  }

  /** The search walks forward by f or back by 1 - f, at most `fuel` times; `reach` is how far that goes. */
  lemma {:induction false} SearchLoss(y: real, from: nat, fuel: nat, reach: real) returns (n: nat)
    requires !IsInt(2.0 * y) && Left(y, from) > 0.0
    requires IsProduct(fuel as real, if Fraction(y) < 0.5 then Fraction(y) else 1.0 - Fraction(y), reach)
    requires reach >= if Fraction(y) < 0.5 then 1.0 - Left(y, from) else Left(y, from)
    ensures n >= from && Loses(n, y)
    decreases fuel
  {
    hide Fraction, Left;
    HalvesOnly(y);
    LeftInRange(y, from);
    var f, x := Fraction(y), Left(y, from);
    var pace := if f < 0.5 then f else 1.0 - f;
    if x < 0.5 {
      n := from;
    } else {
      LessFuel(fuel, pace, reach);
      NextMultiple(from, y);
      if f < 0.5 && x + f >= 1.0 {
        NextMultiple(from + 1, y);
        n := if x + f == 1.0 then from + 2 else from + 1;
      } else {
        n := SearchLoss(y, from + 1, fuel - 1, reach - pace);
      }
    }
  }

  lemma LessFuel(fuel: nat, pace: real, reach: real)
    requires IsProduct(fuel as real, pace, reach) && reach > 0.0
    ensures fuel > 0 && IsProduct((fuel - 1) as real, pace, reach - pace)
  {
    assert fuel == 0 ==> fuel as real * pace == 0.0;
    assert (fuel - 1) as real * pace == fuel as real * pace - pace;
  }

  /** Under linear pricing the floating loss of the main is what its own volume loses over the gap. */
  lemma LossIsVolumeTimesGap(main: Position, q: Quote)
    requires main.volume > 0.0 && q.perUnit > 0.0 && main.open != q.Closing(main.side)
    ensures var gap := MoneyPerLot(main.side.Opposite(), q.Closing(main.side), main.open, q.perUnit);
      gap > 0.0 && IsProduct(main.volume, gap, Abs(Profit(main, q)))
  {
    var move := q.Closing(main.side) - main.open;
    var gap := MoneyPerLot(main.side.Opposite(), q.Closing(main.side), main.open, q.perUnit);
    var unit := q.perUnit * move;
    assert unit != 0.0;
    assert gap == Abs(unit);
    assert Profit(main, q) == main.side.Sign() * (main.volume * unit);
    AbsProduct(main.volume, unit);
  }

  lemma AbsProduct(v: real, u: real)
    requires v > 0.0
    ensures Abs(v * u) == v * Abs(u)
  {
  }

  lemma RequirementArithmetic(volume: real, gap: real, loss: real, extra: real, factor: real, money: real, required: real)
    requires volume > 0.0 && gap > 0.0 && loss >= 0.0 && extra >= 0.0 && factor >= 1.0
    requires IsProduct(volume, gap, loss) && IsProduct(loss + extra, factor, money) && IsProduct(required, gap, money)
    ensures AtLeastOver(required - volume, gap, extra) && required >= volume
  {
    MulLe(1.0, factor, loss + extra, loss + extra, (loss + extra) * factor);
    assert (required - volume) * gap == money - loss;
    if required < volume {
      MulLt(required, volume, gap, money, loss);
    }
  }

  /** lots, over a gap worth `gap` per lot, are worth at least the amount. */
  predicate AtLeastOver(lots: real, gap: real, amount: real) { lots * gap >= amount }

  /** The costs already paid or accrued, and the profit buffer. */
  function Extra(main: Position, buffer: real): real { SumAbs(main.deals) + Abs(main.swap) + buffer }

  lemma RequiredIsQuotient(money: real, gap: real)
    requires gap > 0.0
    ensures IsProduct(RequiredLots(money, gap), gap, money)
  {
  }

  lemma RequiredMoneyIsProduct(raw: real, commission: real, swap: real, buffer: real, safety: real)
    ensures IsProduct(Abs(raw) + (commission + Abs(swap) + buffer), Max(1.0, safety),
                      RequiredMoney(raw, commission, swap, buffer, safety))
  {
    MulCongruence(Abs(raw) + (commission + Abs(swap) + buffer), Abs(raw) + (commission + Abs(swap)) + buffer, Max(1.0, safety));
  }

  lemma MulCongruence(a: real, b: real, p: real)
    requires a == b
    ensures a * p == b * p
  {
  }

  /** The requirement in lots, over the gap, is the required money, and exceeds the main by at least
      what the costs and the buffer are worth over the gap. */
  lemma RequirementExceedsMain(main: Position, q: Quote, buffer: real, safety: real, maxLot: real, spec: VolumeSpec)
    requires main.volume > 0.0 && q.perUnit > 0.0 && main.open != q.Closing(main.side) && buffer >= 0.0
    ensures var s := SizeForMain(main, q, buffer, safety, maxLot, spec);
      && s.oneLotGap > 0.0
      && IsProduct(s.required, s.oneLotGap, s.money)
      && AtLeastOver(s.required - main.volume, s.oneLotGap, Extra(main, buffer))
      && s.required >= main.volume
  {
    hide RequiredMoney, MoneyPerLot, Profit, IsProduct, RequiredLots, RoundUpLots, AtLeastOver;
    var s := SizeForMain(main, q, buffer, safety, maxLot, spec);
    LossIsVolumeTimesGap(main, q);
    RequiredMoneyIsProduct(Profit(main, q), SumAbs(main.deals), main.swap, buffer, safety);
    RequiredIsQuotient(s.money, s.oneLotGap);
    RequirementArithmetic(main.volume, s.oneLotGap, Abs(Profit(main, q)), Extra(main, buffer), Max(1.0, safety),
                          s.money, s.required);
  }

  lemma CoverArithmetic(lots: real, slack: real, gap: real, required: real, money: real)
    requires gap > 0.0 && lots + slack >= required && IsProduct(required, gap, money)
    ensures AtLeastOver(lots + slack, gap, money)
  {
    MulLe(required, lots + slack, gap, money, (lots + slack) * gap);
  }

  lemma ClearsSlack(excess: real, slack: real, gap: real, extra: real)
    requires gap > 0.0 && AtLeastOver(excess, gap, extra) && !AtLeastOver(slack, gap, extra)
    ensures excess > slack
  {
    if excess <= slack {
      MulLe(excess, slack, gap, excess * gap, slack * gap);
    }
  }

  /** With a step of half hundredths the uncapped request covers the required money up to the slack, is
      never below a main of m steps, and is larger than it exactly when the requirement clears the main by
      more than the slack, or the main is itself no whole number of hundredths. */
  lemma BrainRequestCovers(main: Position, m: nat, q: Quote, buffer: real, safety: real, maxLot: real, spec: VolumeSpec)
    returns (n: nat)
    requires spec.Sane() && spec.HalfHundredths() && main.volume == Lattice(0.0, spec.step, m) && main.volume >= spec.min
    requires q.perUnit > 0.0 && main.open != q.Closing(main.side) && buffer >= 0.0
    requires NotCapped(SizeForMain(main, q, buffer, safety, maxLot, spec).required, maxLot, spec)
    ensures var s := SizeForMain(main, q, buffer, safety, maxLot, spec);
      && s.lots == NormalizeDouble(Lattice(0.0, spec.step, n), 2) >= Lattice(0.0, spec.step, n) >= main.volume
      && (OnGrid(spec.step, 2) ==> s.lots == Lattice(0.0, spec.step, n))
      && AtLeastOver(s.lots + SlackLots(spec), s.oneLotGap, s.money)
      && (s.lots > main.volume <==> s.required > main.volume + SlackLots(spec) || !OnGrid(main.volume, 2))
  {
    hide StepCeil, NormalizeDouble, Lattice, OnGrid, RequiredMoney, MoneyPerLot, Profit, IsProduct, AtLeastOver, Fraction,
         RoundUpLots, NotCapped, UncappedLots;
    RequirementExceedsMain(main, q, buffer, safety, maxLot, spec);
    var s := SizeForMain(main, q, buffer, safety, maxLot, spec);
    n := RoundUpUncapped(s.required, maxLot, spec);
    HalfHundredthsCover(spec.step, n);
    StepCeilExceeds(s.required, spec.step, BRAIN_SLACK, m);
    LatticeOrder(0.0, spec.step, m, n);
    StepCeilExceeds(s.required, spec.step, BRAIN_SLACK, m - 1);
    LatticeNext(0.0, spec.step, m - 1);
    CoverArithmetic(s.lots, SlackLots(spec), s.oneLotGap, s.required, s.money);
    RoundedInHundredths(main.volume);
    if OnGrid(main.volume, 2) {
      RoundOnGrid(main.volume, 2);
    }
  }

  /** When costs and buffer are worth more than the slack over the gap, the uncapped request exceeds
      the main; the executor then refuses it only under its cap, and otherwise opens that very
      volume unless the execution cap is smaller. */
  lemma BrainRequestIsExecuted(main: Position, m: nat, q: Quote, buffer: real, safety: real, maxLot: real,
                               spec: VolumeSpec, cap: real, eaMaxLot: real, fundLots: real, fundEngine: bool)
    requires spec.Sane() && spec.HalfHundredths() && spec.Regular()
    requires main.volume == Lattice(0.0, spec.step, m) && main.volume >= spec.min
    requires q.perUnit > 0.0 && main.open != q.Closing(main.side) && buffer >= 0.0
    requires var s := SizeForMain(main, q, buffer, safety, maxLot, spec);
      NotCapped(s.required, maxLot, spec) && !AtLeastOver(SlackLots(spec), s.oneLotGap, Extra(main, buffer))
    ensures var lots := SizeForMain(main, q, buffer, safety, maxLot, spec).lots;
      && lots > main.volume
      && ValidateStraddleLots(lots, main.volume, spec, cap) == (if cap > 0.0 && lots > cap then 0.0 else lots)
      && (lots <= ExecutionCap(spec, eaMaxLot, fundLots, fundEngine) ==>
            CalculateExecutableLots(lots, spec, eaMaxLot, fundLots, fundEngine) == lots)
  {
    hide StepCeil, NormalizeDouble, Lattice, OnGrid, RequiredMoney, MoneyPerLot, Profit, IsProduct, AtLeastOver,
         ValidateStraddleLots, CalculateExecutableLots, RoundUpLots, NotCapped;
    var s := SizeForMain(main, q, buffer, safety, maxLot, spec);
    RequirementExceedsMain(main, q, buffer, safety, maxLot, spec);
    var n := BrainRequestCovers(main, m, q, buffer, safety, maxLot, spec);
    ClearsSlack(s.required - main.volume, SlackLots(spec), s.oneLotGap, Extra(main, buffer));
    var j := InGuardSteps(spec, n);
    ValidateLatticeRequest(j, main.volume, spec, cap);
    if s.lots <= ExecutionCap(spec, eaMaxLot, fundLots, fundEngine) {
      var k: int :| spec.GuardStep() == Lattice(0.0, spec.ExecutionStep(), k);
      LatticeCompose(spec.step, k, j);
      LatticeOnGrid(spec.GuardStep(), j, 2);
      ExecutesUncapped(j * k, spec, eaMaxLot, fundLots, fundEngine);
    }
  }

  /** A rounded request is a whole number of guard steps. */
  lemma InGuardSteps(spec: VolumeSpec, n: nat) returns (j: int)
    requires spec.Sane() && spec.HalfHundredths() && spec.GuardOnGrid()
    ensures NormalizeDouble(Lattice(0.0, spec.step, n), 2) == Lattice(0.0, spec.GuardStep(), j)
  {
    hide NormalizeDouble, OnGrid;
    if spec.step >= 0.01 {
      HalfHundredthsCover(spec.step, n);
      j := n;
    } else {
      var lots := Lattice(0.0, spec.step, n);
      RoundedInHundredths(lots);
      j := NearestAway(lots * 100.0);
    }
  }

  /** An instance: with a step of 0.001 a requirement of 0.014 lots is rounded back down to 0.01 and the
      gap stays uncovered. */
  lemma FineStepsAreUndercovered()
    ensures RoundUpLots(VolumeSpec(0.001, 100.0, 0.001), 0.014, 10.0) == 0.01
  {
    Hundred();
    FloorIs(14.0 - BRAIN_SLACK, 13);
    assert StepCeil(0.014, 0.001, BRAIN_SLACK) == 14;
    FloorIs(1.9, 1);
  }

  /** The assumptions of the sizing results can be met: a hundredth bought at 100 and quoted at 90. */
  lemma AssumptionsCanBeMet()
    ensures var spec := VolumeSpec(0.01, 100.0, 0.01);
      var main := Position(1, true, BUY, Entry, 0.01, 100.0, 0.0, [], 0.0);
      var q := Quote(90.0, 90.0, 100.0);
      var s := SizeForMain(main, q, 1.0, 1.0, 10.0, spec);
      && spec.Sane() && spec.HalfHundredths() && spec.Regular() && main.volume == Lattice(0.0, spec.step, 1)
      && NotCapped(s.required, 10.0, spec)
      && !AtLeastOver(SlackLots(spec), s.oneLotGap, Extra(main, 1.0))
  {
    var spec := VolumeSpec(0.01, 100.0, 0.01);
    var main := Position(1, true, BUY, Entry, 0.01, 100.0, 0.0, [], 0.0);
    var q := Quote(90.0, 90.0, 100.0);
    var s := SizeForMain(main, q, 1.0, 1.0, 10.0, spec);
    Hundred();
    OnScaleFromInt(0.01, Pow10(2), 1);
    FloorIs(200.0 * 0.01, 2);
    assert spec.min == Lattice(0.0, spec.step, 1) && spec.GuardStep() == Lattice(0.0, spec.step, 1);
    assert Profit(main, q) == -10.0;
    assert s.money == 11.0 && s.oneLotGap == 1000.0;
    assert s.required == 0.011;
    FloorIs(1.1 - BRAIN_SLACK, 1);
    assert StepCeil(0.011, 0.01, BRAIN_SLACK) == 2;
  }
}
