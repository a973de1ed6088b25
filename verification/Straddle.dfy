/** Recovery-straddle sizing: python/neofl_core/straddle.py and its MQL5 mirror. */
module Straddle {
  import opened Numeric
  import opened Wrappers
  import Bucket

  datatype Outcome = Approved | Declined | Blocked

  datatype SizingMode = Ratio | FixedDistance

  datatype Request = Request(
    mainVolume: real,
    mainEntry: real,
    straddleEntry: real,
    mainIsLong: bool,
    mode: SizingMode,
    recoveryDistance: real,
    recoveryRatio: real,
    volumeMin: real,
    volumeMax: real,
    volumeStep: real)
  {
    /** The adverse distance between the two entries. */
    function Gap(): real {
      if mainIsLong then mainEntry - straddleEntry else straddleEntry - mainEntry
    }

    /** The main's loss across the gap, per unit of contract value. */
    function GapLoss(): real { Gap() * mainVolume }

    /** Broker minimum and step are decimals of the precision the step implies. */
    predicate BrokerGrid() {
      && volumeStep > 0.0
      && OnGrid(volumeStep, PyDigits(volumeStep))
      && OnGrid(volumeMin, PyDigits(volumeStep))
    }
  }

  datatype Sizing = Sizing(
    outcome: Outcome,
    volume: real,
    gap: real,
    recoveryDistance: real,
    zeroPrice: real,
    coverage: real)

  /** Exact straddle volume for recovery within d; None stands for the raised ValueError. */
  function RequiredVolume(mainVolume: real, gap: real, d: real): Option<real> {
    if d <= 0.0 then None else Some(mainVolume * (gap + d) / d)
  }

  /** Exact straddle volume for recovery in gap/n; None stands for the raised ValueError. */
  function VolumeForRatio(mainVolume: real, n: real): Option<real> {
    if n <= 0.0 then None else Some(mainVolume * (n + 1.0))
  }

  /** Whole steps above the minimum, before rounding to the step's decimals. */
  function StepsUp(volume: real, volumeMin: real, volumeStep: real): int
    requires volumeStep > 0.0
  {
    StepCeil(volume - volumeMin, volumeStep, STEP_SLACK)
  }

  function CeilToStep(volume: real, volumeMin: real, volumeStep: real): real
    requires volumeStep > 0.0
  {
    if volume <= volumeMin then volumeMin
    else PyRound(Lattice(volumeMin, volumeStep, StepsUp(volume, volumeMin, volumeStep)), PyDigits(volumeStep))
  }

  /** The unrounded requirement of a request, in either mode. */
  function Exact(q: Request): Option<real> {
    match q.mode
    case FixedDistance => RequiredVolume(q.mainVolume, q.Gap(), q.recoveryDistance)
    case Ratio => VolumeForRatio(q.mainVolume, q.recoveryRatio)
  }

  function Refusal(outcome: Outcome, gap: real): Sizing {
    Sizing(outcome, 0.0, gap, 0.0, 0.0, 0.0)
  }

  function SizeStraddle(q: Request): Sizing
    requires q.volumeStep > 0.0
  {
    var gap := q.Gap();
    if gap <= 0.0 then Refusal(Blocked, gap)
    else if q.mainVolume <= 0.0 then Refusal(Blocked, gap)
    else if q.recoveryRatio <= 0.0 then Refusal(Blocked, gap)
    else match Exact(q)
      case None => Refusal(Blocked, gap)
      case Some(exact) => Finish(q, exact)
  }

  /** Everything after the exact volume is known. */
  function Finish(q: Request, exact: real): Sizing
    requires q.volumeStep > 0.0
  {
    var gap, volume := q.Gap(), CeilToStep(exact, q.volumeMin, q.volumeStep);
    if volume > q.volumeMax then Refusal(Declined, gap)
    else if volume <= q.mainVolume then Refusal(Declined, gap)
    else
      var distance := gap * q.mainVolume / (volume - q.mainVolume);
      var zero := if q.mainIsLong then q.straddleEntry - distance else q.straddleEntry + distance;
      Sizing(Approved, volume, gap, distance, zero, if exact > 0.0 then volume / exact else 0.0)
  }

  // ---------------------------------------------------------------- rounding up

  /** On a decimal grid the rounded volume is a whole number of steps above the minimum, short
      of the requirement by at most the ceiling slack and over it by less than one step. */
  lemma CeilToStepBounds(volume: real, volumeMin: real, volumeStep: real) returns (n: nat)
    requires volumeStep > 0.0
    requires OnGrid(volumeStep, PyDigits(volumeStep)) && OnGrid(volumeMin, PyDigits(volumeStep))
    ensures var v := CeilToStep(volume, volumeMin, volumeStep);
      && v == Lattice(volumeMin, volumeStep, n)
      && volume - STEP_SLACK * volumeStep <= v
      && (v == volumeMin || v < volume + volumeStep)
  {
    hide PyRound, PyDigits, OnGrid, StepCeil;
    if volume <= volumeMin {
      n := 0;
    } else {
      var k := StepsUp(volume, volumeMin, volumeStep);
      RoundLattice(volumeMin, volumeStep, k, PyDigits(volumeStep));
      LatticeCeil(volume, volumeMin, volumeStep, STEP_SLACK);
      LatticeOrder(volumeMin, volumeStep, -1, k);
      n := k;
    }
  }

  // ---------------------------------------------------------------- what an approval means

  /** The distance the request asks to recover in: D itself, or gap/n. */
  function RequestedDistance(q: Request): real
    requires q.recoveryRatio > 0.0
  {
    match q.mode
    case FixedDistance => q.recoveryDistance
    case Ratio => q.Gap() / q.recoveryRatio
  }

  lemma DivTimes(a: real, b: real)
    requires b != 0.0
    ensures a / b * b == a
  {
  }

  /** Both modes solve the same equation: the exact volume in excess of the main, times the
      requested distance, is the gap loss of the main. */
  lemma ExactSolvesEquation(q: Request)
    requires q.Gap() > 0.0 && q.mainVolume > 0.0 && q.recoveryRatio > 0.0 && Exact(q).Some?
    ensures RequestedDistance(q) > 0.0
    ensures IsProduct(Exact(q).value - q.mainVolume, RequestedDistance(q), q.GapLoss())
    ensures Exact(q).value > q.mainVolume
  {
    var g, m, d, e := q.Gap(), q.mainVolume, RequestedDistance(q), Exact(q).value;
    match q.mode
    case FixedDistance =>
      DivTimes(m * (g + d), d);
      assert e * d == m * (g + d);
      ExcessPositive(e - m, d, g, m);
    case Ratio =>
      var n := q.recoveryRatio;
      DivTimes(g, n);
      assert d > 0.0;
      assert e - m == m * n;
      assert (m * n) * d == m * (d * n);
      ExcessPositive(e - m, d, g, m);
  }

  lemma ExcessPositive(x: real, d: real, g: real, m: real)
    requires d > 0.0 && g > 0.0 && m > 0.0 && x * d == g * m
    ensures x > 0.0
  {
    assert g * m > 0.0;
  }

  lemma ApprovedBasics(q: Request)
    requires q.volumeStep > 0.0 && SizeStraddle(q).outcome == Approved
    ensures q.Gap() > 0.0 && q.mainVolume > 0.0 && q.recoveryRatio > 0.0 && Exact(q).Some?
    ensures SizeStraddle(q) == Finish(q, Exact(q).value)
    ensures SizeStraddle(q).volume == CeilToStep(Exact(q).value, q.volumeMin, q.volumeStep)
    ensures q.mainVolume < SizeStraddle(q).volume <= q.volumeMax
  {
  }

  /** An approved volume is on the broker lattice, strictly above the main, at most the ceiling
      slack under the exact need and less than one step over it (or is the broker minimum). */
  lemma ApprovedVolume(q: Request) returns (n: nat)
    requires q.BrokerGrid() && SizeStraddle(q).outcome == Approved
    ensures Exact(q).Some?
    ensures var v, exact := SizeStraddle(q).volume, Exact(q).value;
      && v == Lattice(q.volumeMin, q.volumeStep, n)
      && q.mainVolume < v <= q.volumeMax
      && exact - STEP_SLACK * q.volumeStep <= v
      && (v == q.volumeMin || v < exact + q.volumeStep)
  {
    ApprovedBasics(q);
    n := CeilToStepBounds(Exact(q).value, q.volumeMin, q.volumeStep);
  }

  /** The delta-neutral refusal happens only inside the ceiling slack: a request whose exact need
      clears the main by more than the slack is approved unless it exceeds the broker maximum. */
  lemma RefusedOnlyForMaximum(q: Request)
    requires q.BrokerGrid() && q.Gap() > 0.0 && q.mainVolume > 0.0 && q.recoveryRatio > 0.0
    requires Exact(q).Some? && Exact(q).value > q.mainVolume + STEP_SLACK * q.volumeStep
    ensures SizeStraddle(q).outcome == Approved
       <==> CeilToStep(Exact(q).value, q.volumeMin, q.volumeStep) <= q.volumeMax
  {
    var n := CeilToStepBounds(Exact(q).value, q.volumeMin, q.volumeStep);
  }

  /** Every request, whatever its fields: it is blocked exactly without an adverse gap, a main, a positive ratio
      or, in FIXED_DISTANCE, a positive distance; otherwise it is approved exactly when the rounded need exceeds
      the main and not the maximum.  A refusal carries the gap alone; an approval its price, and the share of
      the need it covers. */
  lemma OutcomeExactly(q: Request)
    requires q.volumeStep > 0.0
    ensures var r := SizeStraddle(q);
      && r.gap == (if q.mainIsLong then q.mainEntry - q.straddleEntry else q.straddleEntry - q.mainEntry)
      && (r.outcome == Blocked <==> r.gap <= 0.0 || q.mainVolume <= 0.0 || q.recoveryRatio <= 0.0
                                    || (q.mode.FixedDistance? && q.recoveryDistance <= 0.0))
      && (r.outcome != Blocked ==>
            && Exact(q).Some?
            && (r.outcome == Approved
                <==> q.mainVolume < CeilToStep(Exact(q).value, q.volumeMin, q.volumeStep) <= q.volumeMax))
      && (r.outcome != Approved ==> r.volume == r.recoveryDistance == r.zeroPrice == r.coverage == 0.0)
      && (r.outcome == Approved ==>
            && Exact(q).Some?
            && r.recoveryDistance == (if q.mainIsLong then q.straddleEntry - r.zeroPrice else r.zeroPrice - q.straddleEntry)
            && r.coverage * Exact(q).value == r.volume)
  {
    hide CeilToStep;
    var r := SizeStraddle(q);
    if r.outcome == Approved {
      ApprovedBasics(q);
      ExactSolvesEquation(q);
      DivTimes(r.volume, Exact(q).value);
    }
  }

  /** dist exceeds asked by no more than the factor excess / (excess - slack). */
  predicate WithinSlack(dist: real, asked: real, excess: real, slack: real) {
    dist * (excess - slack) <= asked * excess
  }

  /** The reported distance brings the bucket home: (V - Vm) * distance is the gap loss. It exceeds
      the requested distance only by what the ceiling slack can cost, and never when the rounded
      volume reaches the exact one. */
  lemma ApprovedDistance(q: Request)
    requires q.BrokerGrid() && SizeStraddle(q).outcome == Approved
    ensures q.recoveryRatio > 0.0 && Exact(q).Some?
    ensures var r, excess := SizeStraddle(q), Exact(q).value - q.mainVolume;
      && IsProduct(r.volume - q.mainVolume, r.recoveryDistance, q.GapLoss())
      && r.recoveryDistance > 0.0
      && WithinSlack(r.recoveryDistance, RequestedDistance(q), excess, STEP_SLACK * q.volumeStep)
      && (r.volume >= Exact(q).value ==> r.recoveryDistance <= RequestedDistance(q))
  {
    hide SizeStraddle, Exact, RequestedDistance, Lattice, WithinSlack, IsProduct;
    ApprovedBasics(q);
    ExactSolvesEquation(q);
    ReportedDistance(q);
    var n := ApprovedVolume(q);
    var r := SizeStraddle(q);
    DistanceBound(r.volume - q.mainVolume, Exact(q).value - q.mainVolume, STEP_SLACK * q.volumeStep,
                  r.recoveryDistance, RequestedDistance(q), q.GapLoss());
  }

  lemma ReportedDistance(q: Request)
    requires q.volumeStep > 0.0 && SizeStraddle(q).outcome == Approved
    ensures var r := SizeStraddle(q); IsProduct(r.volume - q.mainVolume, r.recoveryDistance, q.GapLoss())
  {
    hide CeilToStep, Exact;
    DivTimes(q.Gap() * q.mainVolume, SizeStraddle(q).volume - q.mainVolume);
  }

  lemma DistanceBound(have: real, excess: real, slack: real, dist: real, asked: real, loss: real)
    requires have > 0.0 && excess > 0.0 && asked > 0.0
    requires IsProduct(have, dist, loss) && IsProduct(excess, asked, loss) && have >= excess - slack
    ensures dist > 0.0
    ensures WithinSlack(dist, asked, excess, slack)
    ensures have >= excess ==> dist <= asked
  {
    assert loss > 0.0;
    assert dist > 0.0;
    MulLe(excess - slack, have, dist, (excess - slack) * dist, loss);
    if have >= excess && dist > asked {
      MulLt(asked, dist, have, asked * have, loss);
      MulLe(excess, have, asked, loss, have * asked);
    }
  }

  // ---------------------------------------------------------------- the bucket agrees

  /** The bucket of the main and an opposite straddle of volume v, without costs. */
  function TwoLegs(q: Request, v: real, k: real): Bucket.Bucket {
    var main := Bucket.Position(1, Bucket.Main, if q.mainIsLong then Bucket.Buy else Bucket.Sell,
                                q.mainVolume, q.mainEntry, k, 0.0, 0.0);
    var straddle := Bucket.Position(2, Bucket.Straddle, if q.mainIsLong then Bucket.Sell else Bucket.Buy,
                                    v, q.straddleEntry, k, 0.0, 0.0);
    Bucket.Bucket([main, straddle], 0.0)
  }

  /** The module's bucket equation, for either direction of the main. */
  function BucketPL(q: Request, v: real, price: real, k: real): real {
    var mainDir := if q.mainIsLong then 1.0 else -1.0;
    var strDir := if q.mainIsLong then -1.0 else 1.0;
    ((price - q.mainEntry) * mainDir * q.mainVolume + (price - q.straddleEntry) * strDir * v) * k
  }

  /** The straddle module's two-leg formula is the bucket engine's total. */
  lemma BucketPLIsTotal(q: Request, v: real, price: real, k: real)
    ensures BucketPL(q, v, price, k) == TwoLegs(q, v, k).Total(price)
  {
    var ps := TwoLegs(q, v, k).positions;
    Bucket.PairSums(ps[0], ps[1], price);
    var a := (price - q.mainEntry) * (if q.mainIsLong then 1.0 else -1.0) * q.mainVolume;
    var b := (price - q.straddleEntry) * (if q.mainIsLong then -1.0 else 1.0) * v;
    assert (a + b) * k == a * k + b * k;
  }

  lemma TwoLegsSlope(q: Request, v: real, k: real)
    ensures TwoLegs(q, v, k).Slope() == (if q.mainIsLong then q.mainVolume - v else v - q.mainVolume) * k
  {
    var ps := TwoLegs(q, v, k).positions;
    Bucket.PairSums(ps[0], ps[1], 0.0);
  }

  /** At the reported zero price the two legs cancel exactly. */
  lemma ZeroPriceCancels(q: Request, v: real, distance: real, k: real)
    requires IsProduct(v - q.mainVolume, distance, q.GapLoss())
    ensures BucketPL(q, v, if q.mainIsLong then q.straddleEntry - distance else q.straddleEntry + distance, k) == 0.0
  {
    var m, g := q.mainVolume, q.Gap();
    assert (v - m) * distance == v * distance - m * distance;
    var z := if q.mainIsLong then q.straddleEntry - distance else q.straddleEntry + distance;
    var mainMove := if q.mainIsLong then z - q.mainEntry else q.mainEntry - z;
    assert mainMove == -(g + distance);
    assert mainMove * m == -(g * m) - m * distance;
    var sum := (z - q.mainEntry) * (if q.mainIsLong then 1.0 else -1.0) * m
             + (z - q.straddleEntry) * (if q.mainIsLong then -1.0 else 1.0) * v;
    assert sum == mainMove * m + distance * v;
    assert sum == 0.0;
  }

  /** The two derivations agree: at the reported zero price the bucket total is exactly 0, and the
      bucket engine returns that very price, unless its slope falls below the neutral threshold,
      in which case it returns none. */
  lemma BucketConfirmsZeroPrice(q: Request, k: real)
    requires q.volumeStep > 0.0 && SizeStraddle(q).outcome == Approved && k > 0.0
    ensures var r := SizeStraddle(q);
      && TwoLegs(q, r.volume, k).Total(r.zeroPrice) == 0.0
      && TwoLegs(q, r.volume, k).ZeroFloatingPrice()
         == if (r.volume - q.mainVolume) * k >= Bucket.NEUTRAL_SLOPE then Some(r.zeroPrice) else None
  {
    hide CeilToStep, Exact, IsProduct;
    var r := SizeStraddle(q);
    var b := TwoLegs(q, r.volume, k);
    ReportedDistance(q);
    ZeroPriceCancels(q, r.volume, r.recoveryDistance, k);
    BucketPLIsTotal(q, r.volume, r.zeroPrice, k);
    TwoLegsSlope(q, r.volume, k);
    assert Abs(b.Slope()) == (r.volume - q.mainVolume) * k;
    if b.ZeroFloatingPrice().Some? {
      Bucket.ZeroPriceIsTheOnlyRoot(b, r.zeroPrice);
    }
  }

  // ---------------------------------------------------------------- how the size follows the gap

  lemma CeilToStepMono(a: real, b: real, volumeMin: real, volumeStep: real)
    requires volumeStep > 0.0 && a <= b
    requires OnGrid(volumeStep, PyDigits(volumeStep)) && OnGrid(volumeMin, PyDigits(volumeStep))
    ensures CeilToStep(a, volumeMin, volumeStep) <= CeilToStep(b, volumeMin, volumeStep)
  {
    hide PyRound, PyDigits, OnGrid, StepCeil, Lattice;
    var n := CeilToStepBounds(b, volumeMin, volumeStep);
    LatticeOrder(volumeMin, volumeStep, 0, n);
    LatticeStart(volumeMin, volumeStep);
    if a > volumeMin {
      var i, j := StepsUp(a, volumeMin, volumeStep), StepsUp(b, volumeMin, volumeStep);
      StepCeilMono(a - volumeMin, b - volumeMin, volumeStep, STEP_SLACK);
      RoundLattice(volumeMin, volumeStep, i, PyDigits(volumeStep));
      RoundLattice(volumeMin, volumeStep, j, PyDigits(volumeStep));
      LatticeOrder(volumeMin, volumeStep, i, j);
    }
  }

  lemma LatticeStart(base: real, step: real)
    ensures Lattice(base, step, 0) == base
  {
  }

  /** Requests that differ at most in the two entry prices. */
  predicate SameTerms(p: Request, q: Request) {
    p.(mainEntry := 0.0, straddleEntry := 0.0, mainIsLong := true)
      == q.(mainEntry := 0.0, straddleEntry := 0.0, mainIsLong := true)
  }

  /** FIXED_DISTANCE: a wider gap never sizes smaller. */
  lemma FixedDistanceGrowsWithGap(p: Request, q: Request)
    requires SameTerms(p, q) && p.mode == FixedDistance && p.BrokerGrid() && p.Gap() <= q.Gap()
    requires SizeStraddle(p).outcome == Approved && SizeStraddle(q).outcome == Approved
    ensures SizeStraddle(p).volume <= SizeStraddle(q).volume
  {
    hide CeilToStep, Exact;
    ApprovedBasics(p);
    ApprovedBasics(q);
    RequirementGrows(p, q);
    CeilToStepMono(Exact(p).value, Exact(q).value, p.volumeMin, p.volumeStep);
  }

  lemma RequirementGrows(p: Request, q: Request)
    requires SameTerms(p, q) && p.mode == FixedDistance && p.mainVolume > 0.0 && p.Gap() <= q.Gap()
    requires Exact(p).Some? && Exact(q).Some?
    ensures Exact(p).value <= Exact(q).value
  {
    QuotientGrows(p.mainVolume, p.Gap(), q.Gap(), p.recoveryDistance);
  }

  lemma QuotientGrows(m: real, g: real, h: real, d: real)
    requires m > 0.0 && g <= h && d > 0.0
    ensures m * (g + d) / d <= m * (h + d) / d
  {
    MulLe(g + d, h + d, m, m * (g + d), m * (h + d));
    DivMono(m * (g + d), m * (h + d), d);
  }

  /** RATIO: outcome and volume are the same at every positive gap. */
  lemma RatioIgnoresGap(p: Request, q: Request)
    requires SameTerms(p, q) && p.mode == Ratio && p.volumeStep > 0.0 && p.Gap() > 0.0 && q.Gap() > 0.0
    ensures SizeStraddle(p).outcome == SizeStraddle(q).outcome
    ensures SizeStraddle(p).volume == SizeStraddle(q).volume
  {
    assert Exact(p) == Exact(q);
  }

  // ---------------------------------------------------------------- the MQL5 sizer

  function MqlCeilToStep(volume: real, volumeMin: real, volumeStep: real): real
    requires volumeStep > 0.0
  {
    if volume <= volumeMin then volumeMin
    else NormalizeDouble(Lattice(volumeMin, volumeStep, StepsUp(volume, volumeMin, volumeStep)), MqlDigits(volumeStep))
  }

  /** The MQL5 sizer's result: it guards only the parameter its mode uses, and caps at the lower of
      the broker maximum and a positive extra cap. */
  function MqlSize(q: Request, extraCap: real): Sizing
    requires q.volumeStep > 0.0
  {
    var gap := q.Gap();
    if gap <= 0.0 || q.mainVolume <= 0.0 || Exact(q).None? then Refusal(Blocked, gap)
    else
      var volume := MqlCeilToStep(Exact(q).value, q.volumeMin, q.volumeStep);
      var cap := if extraCap > 0.0 then Min(q.volumeMax, extraCap) else q.volumeMax;
      if volume > cap || volume <= q.mainVolume then Refusal(Declined, gap)
      else
        var distance := gap * q.mainVolume / (volume - q.mainVolume);
        var zero := if q.mainIsLong then q.straddleEntry - distance else q.straddleEntry + distance;
        Sizing(Approved, volume, gap, distance, zero, if Exact(q).value > 0.0 then volume / Exact(q).value else 0.0)
  }

  method NeoFLStrCeilToStep(volume: real, vmin: real, vstep: real) returns (r: real)
    requires vstep > 0.0
    ensures r == MqlCeilToStep(volume, vmin, vstep)
  {
    if volume <= vmin {
      return vmin;
    }
    var steps := StepCeil(volume - vmin, vstep, STEP_SLACK);
    var digits := 8;
    for d := 0 to 9
      invariant digits == 8 && MqlDigits(vstep) == FirstDigits(vstep, NormalizeDouble, d)
    {
      if Abs(vstep - NormalizeDouble(vstep, d)) < STEP_SLACK {
        digits := d;
        break;
      }
    }
    assert digits == MqlDigits(vstep);
    r := NormalizeDouble(Lattice(vmin, vstep, steps), digits);
  }

  method NeoFLStrSize(q: Request, straddleMaxLot: real) returns (r: Sizing)
    requires q.volumeStep > 0.0
    ensures r == MqlSize(q, straddleMaxLot)
  {
    hide MqlCeilToStep;
    r := Sizing(Blocked, 0.0, 0.0, 0.0, 0.0, 0.0);
    r := r.(gap := if q.mainIsLong then q.mainEntry - q.straddleEntry else q.straddleEntry - q.mainEntry);
    if r.gap <= 0.0 {
      return;
    }
    if q.mainVolume <= 0.0 {
      return;
    }
    var exact := 0.0;
    if q.mode == FixedDistance {
      if q.recoveryDistance <= 0.0 {
        return;
      }
      exact := RequiredVolume(q.mainVolume, r.gap, q.recoveryDistance).value;
    } else {
      if q.recoveryRatio <= 0.0 {
        return;
      }
      exact := VolumeForRatio(q.mainVolume, q.recoveryRatio).value;
    }
    var volume := NeoFLStrCeilToStep(exact, q.volumeMin, q.volumeStep);
    var cap := if straddleMaxLot > 0.0 then Min(q.volumeMax, straddleMaxLot) else q.volumeMax;
    if volume > cap {
      return r.(outcome := Declined);
    }
    if volume <= q.mainVolume {
      return r.(outcome := Declined);
    }
    r := r.(recoveryDistance := r.gap * q.mainVolume / (volume - q.mainVolume));
    r := r.(zeroPrice := if q.mainIsLong then q.straddleEntry - r.recoveryDistance
                         else q.straddleEntry + r.recoveryDistance);
    r := r.(coverage := if exact > 0.0 then volume / exact else 0.0);
    r := r.(volume := volume);
    r := r.(outcome := Approved);
  }

  lemma CeilMirrorsAgree(volume: real, volumeMin: real, volumeStep: real)
    requires volumeStep > 0.0
    requires OnGrid(volumeStep, PyDigits(volumeStep)) && OnGrid(volumeMin, PyDigits(volumeStep))
    ensures MqlCeilToStep(volume, volumeMin, volumeStep) == CeilToStep(volume, volumeMin, volumeStep)
  {
    hide PyRound, NormalizeDouble, OnGrid, StepCeil;
    DigitSearchesAgree(volumeStep);
    RoundLattice(volumeMin, volumeStep, StepsUp(volume, volumeMin, volumeStep), PyDigits(volumeStep));
  }

  /** The request as the mirror sees it: its extra cap is one more maximum. */
  function CappedAt(q: Request, extraCap: real): Request {
    q.(volumeMax := if extraCap > 0.0 then Min(q.volumeMax, extraCap) else q.volumeMax)
  }

  /** The two languages return the same exactly when the ratio is positive, or the mode is RATIO, or another
      guard blocks the request: in FIXED_DISTANCE only the Python sizer refuses a non-positive ratio. */
  lemma SizersAgree(q: Request, extraCap: real)
    requires q.BrokerGrid()
    ensures MqlSize(q, extraCap) == SizeStraddle(CappedAt(q, extraCap))
       <==> q.recoveryRatio > 0.0 || q.mode == Ratio || q.Gap() <= 0.0 || q.mainVolume <= 0.0 || q.recoveryDistance <= 0.0
  {
    hide Exact, SizeStraddle, MqlSize;
    ExtraCapIsMaximum(q, extraCap);
    UncappedSizersAgree(CappedAt(q, extraCap));
  }

  /** In FIXED_DISTANCE the mirror is the reference at any positive ratio, and the lower maximum. */
  lemma MirrorIgnoresTheRatio(q: Request, extraCap: real, ratio: real)
    requires q.BrokerGrid() && q.mode.FixedDistance? && ratio > 0.0
    ensures MqlSize(q, extraCap) == SizeStraddle(CappedAt(q, extraCap).(recoveryRatio := ratio))
  {
    hide MqlSize, SizeStraddle, Exact;
    SizersAgree(q.(recoveryRatio := ratio), extraCap);
    RatioUnread(q, extraCap, ratio);
  }

  lemma RatioUnread(q: Request, extraCap: real, ratio: real)
    requires q.volumeStep > 0.0 && q.mode.FixedDistance?
    ensures MqlSize(q.(recoveryRatio := ratio), extraCap) == MqlSize(q, extraCap)
  {
    hide MqlCeilToStep, Exact;
    ExactUnread(q, ratio);
  }

  lemma ExactUnread(q: Request, ratio: real)
    requires q.mode.FixedDistance?
    ensures Exact(q.(recoveryRatio := ratio)) == Exact(q)
  {
  }

  lemma ExtraCapIsMaximum(q: Request, extraCap: real)
    requires q.volumeStep > 0.0
    ensures MqlSize(q, extraCap) == MqlSize(CappedAt(q, extraCap), 0.0)
  {
    hide MqlCeilToStep;
  }

  lemma UncappedSizersAgree(q: Request)
    requires q.BrokerGrid()
    ensures MqlSize(q, 0.0) == SizeStraddle(q)
       <==> q.recoveryRatio > 0.0 || q.mode == Ratio || q.Gap() <= 0.0 || q.mainVolume <= 0.0 || q.recoveryDistance <= 0.0
  {
    hide CeilToStep, MqlCeilToStep;
    if Exact(q).Some? {
      CeilMirrorsAgree(Exact(q).value, q.volumeMin, q.volumeStep);
    }
  }

  /** An instance: a ratio of 0, which FIXED_DISTANCE does not use, blocks the request in Python only. */
  lemma OnlyTheReferenceBlocks()
    ensures var q := Request(0.01, 100.0, 90.0, true, FixedDistance, 10.0, 0.0, 0.01, 100.0, 0.01);
      && q.BrokerGrid()
      && SizeStraddle(q).outcome == Blocked
      && MqlSize(q, 0.0).outcome == Approved && MqlSize(q, 0.0).volume == 0.02
  {
    hide PyDigits, OnGrid, CeilToStep, MqlCeilToStep;
    HundredthIsDecimal();
    TwoHundredths();
  }

  lemma TwoHundredths()
    ensures MqlCeilToStep(0.02, 0.01, 0.01) == 0.02
  {
    hide PyDigits, OnGrid, CeilToStep, MqlCeilToStep, StepsUp;
    HundredthIsDecimal();
    CeilMirrorsAgree(0.02, 0.01, 0.01);
    var n := CeilToStepBounds(0.02, 0.01, 0.01);
    assert n == 1;
  }

  lemma HundredthIsDecimal()
    ensures OnGrid(0.01, PyDigits(0.01))
  {
    hide Pow10, PyRound;
    FirstPowers();
    FloorIs(0.0, 0);
    RoundedHundredth();
    assert PyDigits(0.01) == FirstDigits(0.01, PyRound, 1) == FirstDigits(0.01, PyRound, 2) == 2;
    FloorIs(0.01 * 100.0, 1);
  }

  lemma RoundedHundredth()
    ensures PyRound(0.01, 0) == 0.0 && PyRound(0.01, 1) == 0.0 && PyRound(0.01, 2) == 0.01
  {
    hide Pow10;
    FirstPowers();
    FloorIs(0.01, 0);
    FloorIs(0.01 * 10.0, 0);
    FloorIs(0.01 * 100.0, 1);
  }

  lemma FirstPowers()
    ensures Pow10(0) == 1.0 && Pow10(1) == 10.0 && Pow10(2) == 100.0
  {
    assert Pow10(2) == 10.0 * Pow10(1) && Pow10(1) == 10.0 * Pow10(0);
  }
}
