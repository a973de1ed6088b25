/** Real-number helpers shared by the sizing modules: ceilings, the two rounding
    functions of the source languages, and the decimal grids they are exact on. */
module Numeric {

  /** The 1e-9 slack every ceiling and floor in the sizing code carries. */
  const STEP_SLACK: real := 0.000000001

  function Abs(x: real): real { if x < 0.0 then -x else x }

  function Min(x: real, y: real): real { if x <= y then x else y }

  function Max(x: real, y: real): real { if x >= y then x else y }

  function Ceil(x: real): int { if IsInt(x) then x.Floor else x.Floor + 1 }

  function Pow10(d: nat): (p: real)
    ensures p >= 1.0
  {
    if d == 0 then 1.0 else 10.0 * Pow10(d - 1)
  }

  /** Nearest integer, ties away from zero: the rule of MQL5's NormalizeDouble. */
  function NearestAway(y: real): int {
    if y >= 0.0 then (y + 0.5).Floor else -((0.5 - y).Floor)
  }

  /** Nearest integer, ties to even: the rule of Python's round. */
  function NearestEven(y: real): int {
    var f := y.Floor;
    var r := y - f as real;
    if r < 0.5 then f else if r > 0.5 then f + 1 else if f % 2 == 0 then f else f + 1
  }

  function RoundAway(x: real, p: real): real
    requires p > 0.0
  {
    NearestAway(x * p) as real / p
  }

  function RoundEven(x: real, p: real): real
    requires p > 0.0
  {
    NearestEven(x * p) as real / p
  }

  function NormalizeDouble(x: real, d: nat): real { RoundAway(x, Pow10(d)) }

  function PyRound(x: real, d: nat): real { RoundEven(x, Pow10(d)) }

  /** x has at most d decimal places. */
  predicate OnGrid(x: real, d: nat) { OnScale(x, Pow10(d)) }

  predicate OnScale(x: real, p: real) { IsInt(x * p) }

  predicate IsInt(y: real) { y.Floor as real == y }

  lemma FloorIs(x: real, n: int)
    requires n as real <= x < n as real + 1.0
    ensures x.Floor == n
  {
  }

  lemma ScaleBack(n: real, p: real, x: real)
    requires p > 0.0 && x * p == n
    ensures n / p == x
  {
  }

  lemma OnScaleFromInt(x: real, p: real, n: int)
    requires x * p == n as real
    ensures OnScale(x, p)
  {
    FloorIs(x * p, n);
  }

  lemma NearestOfInt(y: real)
    requires IsInt(y)
    ensures NearestAway(y) as real == y && NearestEven(y) as real == y
  {
    if y >= 0.0 {
      FloorIs(y + 0.5, y.Floor);
    } else {
      FloorIs(0.5 - y, -y.Floor);
    }
  }

  lemma RoundOfInt(x: real, p: real)
    requires p > 0.0 && OnScale(x, p)
    ensures RoundAway(x, p) == x && RoundEven(x, p) == x
  {
    var y := x * p;
    NearestOfInt(y);
    assert RoundAway(x, p) == y / p && RoundEven(x, p) == y / p;
    ScaleBack(y, p, x);
  }

  /** Both roundings leave a value with d decimals alone. */
  lemma RoundOnGrid(x: real, d: nat)
    requires OnGrid(x, d)
    ensures NormalizeDouble(x, d) == x && PyRound(x, d) == x
  {
    RoundOfInt(x, Pow10(d));
  }

  lemma NearestAwayBounds(y: real)
    ensures -0.5 <= NearestAway(y) as real - y <= 0.5
  {
  }

  lemma DivMono(a: real, b: real, p: real)
    requires a <= b && p > 0.0
    ensures a / p <= b / p
  {
  }

  /** a times b is c. Named so that products can be passed between lemmas as facts. */
  predicate IsProduct(a: real, b: real, c: real) { a * b == c }

  // The two lemmas below take the products by name, which keeps callers linear.
  lemma MulLe(a: real, b: real, p: real, ap: real, bp: real)
    requires a <= b && p >= 0.0 && ap == a * p && bp == b * p
    ensures ap <= bp
  {
  }

  lemma MulLt(a: real, b: real, p: real, ap: real, bp: real)
    requires a < b && p > 0.0 && ap == a * p && bp == b * p
    ensures ap < bp
  {
  }

  lemma RoundAwayBounds(x: real, p: real)
    requires p > 0.0
    ensures -0.5 / p <= RoundAway(x, p) - x <= 0.5 / p
  {
    var n := NearestAway(x * p) as real;
    NearestAwayBounds(x * p);
    assert (n - x * p) / p == n / p - x by { ScaleBack(n - x * p, p, n / p - x); }
    DivMono(n - x * p, 0.5, p);
    DivMono(-0.5, n - x * p, p);
  }

  /** Rounding to d decimals moves a value by at most half a unit of the last place. */
  lemma NormalizeBounds(x: real, d: nat)
    ensures -0.5 / Pow10(d) <= NormalizeDouble(x, d) - x <= 0.5 / Pow10(d)
  {
    RoundAwayBounds(x, Pow10(d));
  }

  /** The n-th point of the lattice that starts at `base` and advances by `step`. */
  function Lattice(base: real, step: real, n: int): real { base + n as real * step }

  lemma LatticeOnScale(base: real, step: real, n: int, p: real)
    requires OnScale(base, p) && OnScale(step, p)
    ensures OnScale(Lattice(base, step, n), p)
  {
    var b, s := (base * p).Floor, (step * p).Floor;
    Distribute(base, n as real, step, p);
    IntProduct(n, s);
    OnScaleFromInt(Lattice(base, step, n), p, b + n * s);
  }

  lemma Distribute(a: real, n: real, b: real, p: real)
    ensures (a + n * b) * p == a * p + n * (b * p)
  {
  }

  lemma IntProduct(n: int, s: int)
    ensures n as real * s as real == (n * s) as real
  {
  }

  /** Rounding is the identity on a lattice whose base and step have d decimals. */
  lemma RoundLattice(base: real, step: real, n: int, d: nat)
    requires OnGrid(base, d) && OnGrid(step, d)
    ensures PyRound(Lattice(base, step, n), d) == Lattice(base, step, n)
    ensures NormalizeDouble(Lattice(base, step, n), d) == Lattice(base, step, n)
  {
    LatticeOnScale(base, step, n, Pow10(d));
    RoundOnGrid(Lattice(base, step, n), d);
  }

  /** The first decimal count in 0..8 at which `round` reproduces the step to 1e-9, else 8. */
  function FirstDigits(step: real, round: (real, nat) -> real, d: nat): nat
    decreases 9 - d
  {
    if d > 8 then 8
    else if Abs(step - round(step, d)) < STEP_SLACK then d
    else FirstDigits(step, round, d + 1)
  }

  function PyDigits(step: real): nat { FirstDigits(step, PyRound, 0) }

  function MqlDigits(step: real): nat { FirstDigits(step, NormalizeDouble, 0) }

  lemma EqualDistances(y: real)
    ensures Abs(y - NearestEven(y) as real) == Abs(y - NearestAway(y) as real)
  {
    var f := y.Floor;
    var r := y - f as real;
    if y >= 0.0 {
      FloorIs(y + 0.5, if r < 0.5 then f else f + 1);
    } else {
      FloorIs(0.5 - y, if r <= 0.5 then -f else -f - 1);
    }
  }

  lemma RoundingErrorsAgree(x: real, p: real)
    requires p > 0.0
    ensures Abs(x - RoundEven(x, p)) == Abs(x - RoundAway(x, p))
  {
    var y, e, a := x * p, NearestEven(x * p) as real, NearestAway(x * p) as real;
    EqualDistances(y);
    if e != a {
      assert e + a == 2.0 * y;
      Mirror(x, p, e, a);
    }
  }

  lemma Mirror(x: real, p: real, e: real, a: real)
    requires p > 0.0 && e + a == 2.0 * (x * p)
    ensures x - e / p == a / p - x
  {
    var u, v := e / p, a / p;
    assert u * p == e && v * p == a;
    assert (u + v) * p == (2.0 * x) * p;
    ScaleBack((u + v) * p, p, u + v);
    ScaleBack((u + v) * p, p, 2.0 * x);
  }

  lemma {:induction false} FirstDigitsAgree(step: real, d: nat)
    ensures FirstDigits(step, PyRound, d) == FirstDigits(step, NormalizeDouble, d)
    decreases 9 - d
  {
    if d <= 8 {
      RoundingErrorsAgree(step, Pow10(d));
      FirstDigitsAgree(step, d + 1);
    }
  }

  /** The Python and MQL5 digit searches answer alike on every step, although the two
      languages break rounding ties differently. */
  lemma DigitSearchesAgree(step: real)
    ensures PyDigits(step) == MqlDigits(step)
  {
    FirstDigitsAgree(step, 0);
  }

  /** The number of steps of size `step` that reaches `amount`, forgiving a shortfall of `slack` steps. */
  function StepCeil(amount: real, step: real, slack: real): int
    requires step > 0.0
  {
    Ceil(amount / step - slack)
  }

  /** The number of steps of size `step` within `amount`, forgiving an overshoot of `slack` steps. */
  function StepFloor(amount: real, step: real, slack: real): int
    requires step > 0.0
  {
    (amount / step + slack).Floor
  }

  lemma ScaleUnitInterval(lo: real, n: real, step: real, los: real, ns: real)
    requires step > 0.0 && lo <= n < lo + 1.0 && los == lo * step && ns == n * step
    ensures los <= ns < los + step
  {
    MulLe(lo, n, step, los, ns);
    MulLt(n, lo + 1.0, step, ns, los + step);
  }

  lemma DivShift(amount: real, step: real, c: real, t: real)
    requires step > 0.0 && t == amount / step + c
    ensures t * step == amount + c * step
  {
    var x := amount / step;
    assert x * step == amount;
    assert t * step == x * step + c * step;
  }

  lemma StepCeilBounds(amount: real, step: real, slack: real)
    requires step > 0.0
    ensures var m := StepCeil(amount, step, slack) as real * step;
      amount - slack * step <= m < amount - slack * step + step
  {
    var lo, n := amount / step - slack, StepCeil(amount, step, slack) as real;
    DivShift(amount, step, -slack, lo);
    ScaleUnitInterval(lo, n, step, amount - slack * step, n * step);
  }

  lemma StepFloorBounds(amount: real, step: real, slack: real)
    requires step > 0.0
    ensures var m := StepFloor(amount, step, slack) as real * step;
      amount + slack * step - step < m <= amount + slack * step
  {
    var hi, n := amount / step + slack, StepFloor(amount, step, slack) as real;
    DivShift(amount, step, slack, hi);
    ScaleUnitInterval(n, hi, step, n * step, amount + slack * step);
  }

  /** Step counts grow with the amount. */
  lemma StepCeilMono(a: real, b: real, step: real, slack: real)
    requires step > 0.0 && a <= b
    ensures StepCeil(a, step, slack) <= StepCeil(b, step, slack)
  {
    DivMono(a, b, step);
  }

  lemma StepFloorMono(a: real, b: real, step: real, slack: real)
    requires step > 0.0 && a <= b
    ensures StepFloor(a, step, slack) <= StepFloor(b, step, slack)
  {
    DivMono(a, b, step);
  }

  /** Lattice points of a positive step are ordered as their indices. */
  lemma LatticeOrder(base: real, step: real, m: int, n: int)
    requires step > 0.0
    ensures m <= n <==> Lattice(base, step, m) <= Lattice(base, step, n)
    ensures m < n <==> Lattice(base, step, m) < Lattice(base, step, n)
  {
    var ms, ns := m as real * step, n as real * step;
    if m < n {
      MulLt(m as real, n as real, step, ms, ns);
    } else if n < m {
      MulLt(n as real, m as real, step, ns, ms);
    }
  }

  /** The lattice point a ceiling picks: at most the slack below the volume, less than a step above. */
  lemma LatticeCeil(volume: real, base: real, step: real, slack: real)
    requires step > 0.0
    ensures var v := Lattice(base, step, StepCeil(volume - base, step, slack));
      volume - slack * step <= v < volume - slack * step + step
  {
    StepCeilBounds(volume - base, step, slack);
  }

  /** The lattice point a floor picks: at most the slack above the volume, less than a step below. */
  lemma LatticeFloor(volume: real, base: real, step: real, slack: real)
    requires step > 0.0
    ensures var v := Lattice(base, step, StepFloor(volume - base, step, slack));
      volume + slack * step - step < v <= volume + slack * step
  {
    StepFloorBounds(volume - base, step, slack);
  }

  lemma LatticeNext(base: real, step: real, n: int)
    ensures Lattice(base, step, n + 1) == Lattice(base, step, n) + step
  {
    assert (n + 1) as real * step == n as real * step + step;
  }

  /** A ceiling with any slack below one step recognises a lattice point. */
  lemma StepCeilOfLattice(step: real, n: int, slack: real)
    requires step > 0.0 && 0.0 <= slack < 1.0
    ensures StepCeil(Lattice(0.0, step, n), step, slack) == n
  {
    hide Ceil;
    var v := Lattice(0.0, step, n);
    var k := StepCeil(v, step, slack);
    StepCeilBounds(v, step, slack);
    MulLe(0.0, slack, step, 0.0, slack * step);
    MulLt(slack, 1.0, step, slack * step, step);
    if k < n {
      LatticeOrder(0.0, step, k + 1, n);
      LatticeNext(0.0, step, k);
    } else if k > n {
      LatticeOrder(0.0, step, n + 1, k);
      LatticeNext(0.0, step, n);
    }
  }

  /** A slackened ceiling passes m steps exactly when the amount passes m steps plus the slack. */
  lemma StepCeilExceeds(amount: real, step: real, slack: real, m: int)
    requires step > 0.0
    ensures StepCeil(amount, step, slack) > m <==> amount > Lattice(0.0, step, m) + slack * step
  {
    var y, ms := amount / step - slack, m as real * step;
    DivShift(amount, step, -slack, y);
    var ys := amount - slack * step;
    assert ys == y * step;
    if y > m as real {
      MulLt(m as real, y, step, ms, ys);
    } else {
      MulLe(y, m as real, step, ys, ms);
    }
  }

  lemma LatticeOnGrid(step: real, n: int, d: nat)
    requires OnGrid(step, d)
    ensures OnGrid(Lattice(0.0, step, n), d)
  {
    assert OnScale(0.0, Pow10(d));
    LatticeOnScale(0.0, step, n, Pow10(d));
  }
}
