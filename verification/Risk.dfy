/** Risk sizing: python/neofl_core/risk.py and its MQL5 mirror. */
module Risk {
  import opened Numeric

  datatype Outcome = Approved | Declined | Blocked

  datatype RiskModel = FixedLot | PercentEquity | PercentBalance

  datatype ContractSpec = ContractSpec(
    tickSize: real, tickValue: real, volumeMin: real, volumeMax: real, volumeStep: real)
  {
    /** The checks of ContractSpec.validate. */
    predicate Valid() {
      tickSize > 0.0 && tickValue > 0.0 && volumeStep > 0.0 && volumeMin > 0.0 && volumeMax >= volumeMin
    }

    /** Minimum and step are decimals of the precision the step implies. */
    predicate BrokerGrid() {
      volumeStep > 0.0 && OnGrid(volumeStep, PyDigits(volumeStep)) && OnGrid(volumeMin, PyDigits(volumeStep))
    }

    /** How far the floor's slack lets a volume overshoot. */
    function Slack(): real { STEP_SLACK * volumeStep }
  }

  datatype RiskConfig = RiskConfig(
    model: RiskModel,
    fixedLot: real,
    riskPercent: real,
    hardMaxLot: real,
    maxTotalExposureLot: real,
    maxOpenPositions: int,
    allowMinLotOverride: bool)

  datatype RiskResult = RiskResult(outcome: Outcome, volume: real, riskMoney: real, riskPercent: real)

  datatype Inputs = Inputs(
    stopDistance: real,
    spec: ContractSpec,
    cfg: RiskConfig,
    equity: real,
    balance: real,
    openPositions: int,
    openExposure: real)
  {
    function Account(): real { if cfg.model.PercentEquity? then equity else balance }

    function Budget(): real { BudgetOf(Account(), cfg.riskPercent) }

    /** Money one lot loses over the stop distance. */
    function PerLot(): real
      requires spec.Valid()
    {
      MoneyAtRisk(1.0, stopDistance, spec)
    }

    function Room(): real { cfg.maxTotalExposureLot - openExposure }

    /** The request can be evaluated at all. */
    predicate Evaluable() {
      && spec.Valid() && stopDistance > 0.0
      && (cfg.model.FixedLot? || Account() > 0.0)
    }

    /** Neither the position count nor the exposure limit already forbids a trade. */
    predicate WithinLimits() {
      && !(cfg.maxOpenPositions > 0 && openPositions >= cfg.maxOpenPositions)
      && !(cfg.maxTotalExposureLot > 0.0 && Room() <= 0.0)
    }

    /** The volume the model asks for, before any cap. */
    function Wanted(): real
      requires Evaluable()
    {
      if cfg.model.FixedLot? then cfg.fixedLot
      else
        PerLotPositive(this);
        LotsFor(Budget(), PerLot())
    }

    /** The volume left after the hard ceiling, the exposure room and the broker maximum. */
    function Capped(): real
      requires Evaluable()
    {
      var a := if cfg.hardMaxLot > 0.0 && Wanted() > cfg.hardMaxLot then cfg.hardMaxLot else Wanted();
      var b := if cfg.maxTotalExposureLot > 0.0 then Min(a, Room()) else a;
      Min(b, spec.volumeMax)
    }
  }

  function BudgetOf(account: real, percent: real): real { account * percent / 100.0 }

  function LotsFor(budget: real, perLot: real): real
    requires perLot > 0.0
  {
    budget / perLot
  }

  function MoneyAtRisk(volume: real, stopDistance: real, spec: ContractSpec): real
    requires spec.tickSize > 0.0
  {
    if volume <= 0.0 || stopDistance <= 0.0 then 0.0
    else stopDistance / spec.tickSize * spec.tickValue * volume
  }

  function StepsDown(volume: real, spec: ContractSpec): int
    requires spec.volumeStep > 0.0
  {
    StepFloor(volume - spec.volumeMin, spec.volumeStep, STEP_SLACK)
  }

  /** Floor onto the broker's lattice, then round to the step's decimals with `round`. */
  function FloorToStep(volume: real, spec: ContractSpec, round: (real, nat) -> real): real
    requires spec.volumeStep > 0.0
  {
    if volume <= 0.0 then 0.0
    else round(Max(0.0, Lattice(spec.volumeMin, spec.volumeStep, StepsDown(volume, spec))),
               FirstDigits(spec.volumeStep, round, 0))
  }

  function Refused(outcome: Outcome): RiskResult { RiskResult(outcome, 0.0, 0.0, 0.0) }

  function RiskSize(q: Inputs, round: (real, nat) -> real): RiskResult {
    if !q.spec.Valid() || q.stopDistance <= 0.0 then Refused(Blocked)
    else if q.cfg.maxOpenPositions > 0 && q.openPositions >= q.cfg.maxOpenPositions then Refused(Declined)
    else if !q.Evaluable() then Refused(Blocked)
    else if !q.WithinLimits() then Refused(Declined)
    else if q.Capped() < q.spec.volumeMin && !q.cfg.allowMinLotOverride then Refused(Declined)
    else
      var volume := FloorToStep(Max(q.Capped(), q.spec.volumeMin), q.spec, round);
      if volume < q.spec.volumeMin || volume <= 0.0 then Refused(Declined)
      else
        var risk := MoneyAtRisk(volume, q.stopDistance, q.spec);
        RiskResult(Approved, volume, risk, if q.equity > 0.0 then risk / q.equity * 100.0 else 0.0)
  }

  lemma PerLotPositive(q: Inputs)
    requires q.spec.Valid() && q.stopDistance > 0.0
    ensures q.PerLot() > 0.0
  {
    assert q.stopDistance / q.spec.tickSize > 0.0;
    PositiveProduct(q.stopDistance / q.spec.tickSize, q.spec.tickValue);
  }

  lemma PositiveProduct(a: real, b: real)
    requires a > 0.0 && b > 0.0
    ensures a * b > 0.0
  {
  }

  // ---------------------------------------------------------------- the two implementations

  method VolumeDigits(step: real) returns (digits: nat)
    ensures digits == PyDigits(step)
  {
    for d := 0 to 9
      invariant PyDigits(step) == FirstDigits(step, PyRound, d)
    {
      if Abs(step - PyRound(step, d)) < STEP_SLACK {
        return d;
      }
    }
    return 8;
  }

  method Size(q: Inputs) returns (r: RiskResult)
    ensures r == RiskSize(q, PyRound)
  {
    hide PyRound, StepsDown, Lattice, FirstDigits, MoneyAtRisk, FloorToStep, BudgetOf, LotsFor;
    if !q.spec.Valid() {
      return Refused(Blocked);
    }
    if q.stopDistance <= 0.0 {
      return Refused(Blocked);
    }
    if q.cfg.maxOpenPositions > 0 && q.openPositions >= q.cfg.maxOpenPositions {
      return Refused(Declined);
    }
    var desired;
    if q.cfg.model == FixedLot {
      desired := q.cfg.fixedLot;
    } else {
      var account := if q.cfg.model == PercentEquity then q.equity else q.balance;
      if account <= 0.0 {
        return Refused(Blocked);
      }
      var perLot := MoneyAtRisk(1.0, q.stopDistance, q.spec);
      PerLotPositive(q);
      if perLot <= 0.0 {
        return Refused(Blocked);
      }
      desired := LotsFor(BudgetOf(account, q.cfg.riskPercent), perLot);
    }
    if q.cfg.hardMaxLot > 0.0 && desired > q.cfg.hardMaxLot {
      desired := q.cfg.hardMaxLot;
    }
    if q.cfg.maxTotalExposureLot > 0.0 {
      var room := q.cfg.maxTotalExposureLot - q.openExposure;
      if room <= 0.0 {
        return Refused(Declined);
      }
      desired := Min(desired, room);
    }
    desired := Min(desired, q.spec.volumeMax);
    if desired < q.spec.volumeMin {
      if !q.cfg.allowMinLotOverride {
        return Refused(Declined);
      }
      desired := q.spec.volumeMin;
    }
    var volume := FloorToStep(desired, q.spec, PyRound);
    if volume < q.spec.volumeMin || volume <= 0.0 {
      return Refused(Declined);
    }
    var risk := MoneyAtRisk(volume, q.stopDistance, q.spec);
    r := RiskResult(Approved, volume, risk, if q.equity > 0.0 then risk / q.equity * 100.0 else 0.0);
  }

  /** A position as the terminal lists it; `live` is false when its ticket cannot be selected. */
  datatype Listed = Listed(live: bool, symbol: string, magic: nat, volume: real)

  predicate Counts(p: Listed, symbol: string, magic: nat) { p.live && p.symbol == symbol && p.magic == magic }

  function OpenCount(ps: seq<Listed>, symbol: string, magic: nat): nat {
    if ps == [] then 0
    else (if Counts(ps[0], symbol, magic) then 1 else 0) + OpenCount(ps[1..], symbol, magic)
  }

  function OpenExposure(ps: seq<Listed>, symbol: string, magic: nat): real {
    if ps == [] then 0.0
    else (if Counts(ps[0], symbol, magic) then ps[0].volume else 0.0) + OpenExposure(ps[1..], symbol, magic)
  }

  /** Nothing is open in an empty list, and a position adds one, and its volume, exactly when it can be
      selected and is of the symbol and the magic number, wherever it stands. */
  lemma {:induction false} OpenExactly(a: seq<Listed>, p: Listed, b: seq<Listed>, symbol: string, magic: nat)
    ensures OpenCount([], symbol, magic) == 0 && OpenExposure([], symbol, magic) == 0.0
    ensures var mine := p.live && p.symbol == symbol && p.magic == magic;
      && OpenCount(a + [p] + b, symbol, magic) == OpenCount(a + b, symbol, magic) + (if mine then 1 else 0)
      && OpenExposure(a + [p] + b, symbol, magic) == OpenExposure(a + b, symbol, magic) + (if mine then p.volume else 0.0)
  {
    if a == [] {
      assert a + [p] + b == [p] + b && a + b == b;
      assert ([p] + b)[1..] == b;
    } else {
      OpenExactly(a[1..], p, b, symbol, magic);
      assert (a + [p] + b)[1..] == a[1..] + [p] + b && (a + b)[1..] == a[1..] + b;
    }
  }

  method NeoFLRiskOpenExposure(ps: seq<Listed>, symbol: string, magic: nat) returns (total: real)
    ensures total == OpenExposure(ps, symbol, magic)
  {
    total := 0.0;
    var i := |ps| - 1;
    while i >= 0
      invariant -1 <= i < |ps|
      invariant total == OpenExposure(ps[i + 1..], symbol, magic)
    {
      assert ps[i..][1..] == ps[i + 1..];
      if Counts(ps[i], symbol, magic) {
        total := total + ps[i].volume;
      }
      i := i - 1;
    }
    assert ps[0..] == ps;
  }

  method NeoFLRiskOpenCount(ps: seq<Listed>, symbol: string, magic: nat) returns (n: nat)
    ensures n == OpenCount(ps, symbol, magic)
  {
    n := 0;
    var i := |ps| - 1;
    while i >= 0
      invariant -1 <= i < |ps|
      invariant n == OpenCount(ps[i + 1..], symbol, magic)
    {
      assert ps[i..][1..] == ps[i + 1..];
      if Counts(ps[i], symbol, magic) {
        n := n + 1;
      }
      i := i - 1;
    }
    assert ps[0..] == ps;
  }

  /** What the MQL5 sizer reads from the terminal, put as inputs of the reference sizer. */
  function TerminalInputs(ps: seq<Listed>, symbol: string, magic: nat, stopDistance: real,
                          spec: ContractSpec, cfg: RiskConfig, equity: real, balance: real): Inputs
  {
    Inputs(stopDistance, spec, cfg, equity, balance,
           OpenCount(ps, symbol, magic), OpenExposure(ps, symbol, magic))
  }

  /** The MQL5 sizer. `known` says that the symbol is recognised and available. */
  method NeoFLRiskSize(known: bool, ps: seq<Listed>, symbol: string, magic: nat, stopDistance: real,
                       spec: ContractSpec, cfg: RiskConfig, equity: real, balance: real)
    returns (r: RiskResult)
    ensures r == if known
                 then RiskSize(TerminalInputs(ps, symbol, magic, stopDistance, spec, cfg, equity, balance), NormalizeDouble)
                 else Refused(Blocked)
  {
    hide NormalizeDouble, StepsDown, Lattice, FirstDigits, MoneyAtRisk, FloorToStep, OpenCount, OpenExposure, BudgetOf, LotsFor;
    ghost var q := TerminalInputs(ps, symbol, magic, stopDistance, spec, cfg, equity, balance);
    r := Refused(Blocked);
    if !known || !spec.Valid() || stopDistance <= 0.0 {
      return;
    }
    var count := NeoFLRiskOpenCount(ps, symbol, magic);
    if cfg.maxOpenPositions > 0 && count >= cfg.maxOpenPositions {
      return r.(outcome := Declined);
    }
    var desired := 0.0;
    if cfg.model == FixedLot {
      desired := cfg.fixedLot;
    } else {
      var account := if cfg.model == PercentEquity then equity else balance;
      if account <= 0.0 {
        return;
      }
      var perLot := MoneyAtRisk(1.0, stopDistance, spec);
      PerLotPositive(q);
      if perLot <= 0.0 {
        return;
      }
      desired := LotsFor(BudgetOf(account, cfg.riskPercent), perLot);
    }
    if cfg.hardMaxLot > 0.0 && desired > cfg.hardMaxLot {
      desired := cfg.hardMaxLot;
    }
    if cfg.maxTotalExposureLot > 0.0 {
      var open := NeoFLRiskOpenExposure(ps, symbol, magic);
      var room := cfg.maxTotalExposureLot - open;
      if room <= 0.0 {
        return r.(outcome := Declined);
      }
      if desired > room {
        desired := room;
      }
    }
    if desired > spec.volumeMax {
      desired := spec.volumeMax;
    }
    if desired < spec.volumeMin {
      if !cfg.allowMinLotOverride {
        return r.(outcome := Declined);
      }
      desired := spec.volumeMin;
    }
    var volume := FloorToStep(desired, spec, NormalizeDouble);
    if volume < spec.volumeMin || volume <= 0.0 {
      return r.(outcome := Declined);
    }
    var risk := MoneyAtRisk(volume, stopDistance, spec);
    r := r.(outcome := Approved);
    r := r.(volume := volume);
    r := r.(riskMoney := risk);
    r := r.(riskPercent := if equity > 0.0 then risk / equity * 100.0 else 0.0);
  }

  /** For a known symbol on a decimal grid the two sizers agree on outcome, volume and risk. */
  lemma SizersAgree(q: Inputs)
    requires q.spec.BrokerGrid()
    ensures RiskSize(q, NormalizeDouble) == RiskSize(q, PyRound)
  {
    hide StepsDown, MoneyAtRisk, PyRound, NormalizeDouble, FloorToStep, OnGrid;
    if q.spec.Valid() && q.Evaluable() {
      FloorsAgree(Max(q.Capped(), q.spec.volumeMin), q.spec);
    }
  }

  // ---------------------------------------------------------------- flooring

  lemma FloorValue(volume: real, spec: ContractSpec) returns (n: nat)
    requires spec.Valid() && spec.BrokerGrid() && volume >= spec.volumeMin
    ensures n == StepsDown(volume, spec)
    ensures FloorToStep(volume, spec, PyRound) == Lattice(spec.volumeMin, spec.volumeStep, n)
    ensures FloorToStep(volume, spec, NormalizeDouble) == Lattice(spec.volumeMin, spec.volumeStep, n)
    ensures var v := Lattice(spec.volumeMin, spec.volumeStep, n);
      volume + spec.Slack() - spec.volumeStep < v <= volume + spec.Slack() && v >= spec.volumeMin
  {
    hide PyRound, NormalizeDouble, OnGrid, StepFloor, Lattice, FirstDigits;
    var base, step, k := spec.volumeMin, spec.volumeStep, StepsDown(volume, spec);
    LatticeFloor(volume, base, step, STEP_SLACK);
    LatticeStart(base, step);
    LatticeOrder(base, step, -1, k);
    LatticeOrder(base, step, 0, k);
    n := k;
    DigitSearchesAgree(step);
    RoundLattice(base, step, k, PyDigits(step));
  }

  lemma LatticeStart(base: real, step: real)
    ensures Lattice(base, step, 0) == base && Lattice(base, step, -1) == base - step
  {
  }

  lemma FloorsAgree(volume: real, spec: ContractSpec)
    requires spec.Valid() && spec.BrokerGrid() && volume >= spec.volumeMin
    ensures FloorToStep(volume, spec, NormalizeDouble) == FloorToStep(volume, spec, PyRound)
  {
    var n := FloorValue(volume, spec);
  }

  // ---------------------------------------------------------------- what an approval means

  /** A volume respects every limit the request names, each stretched by the slack.  In the percent models the
      limit is in money: a stop costs one tick value a lot for every tick of it. */
  predicate Fits(q: Inputs, v: real, slack: real) {
    && v <= q.spec.volumeMax + slack
    && (q.cfg.hardMaxLot > 0.0 ==> v <= q.cfg.hardMaxLot + slack)
    && (q.cfg.maxTotalExposureLot > 0.0 ==> q.openExposure + v <= q.cfg.maxTotalExposureLot + slack)
    && match q.cfg.model
       case FixedLot => v <= q.cfg.fixedLot + slack
       case PercentEquity => WithinBudget(q, v - slack, q.equity)
       case PercentBalance => WithinBudget(q, v - slack, q.balance)
  }

  /** What the volume loses over the stop, times the tick size, is within the percentage of the account. */
  predicate WithinBudget(q: Inputs, v: real, account: real) {
    v * (q.stopDistance * q.spec.tickValue) * 100.0 <= account * q.cfg.riskPercent * q.spec.tickSize
  }

  /** A stop costs its tick value for every tick of it and every lot. */
  lemma StopCostsTicks(v: real, stopDistance: real, spec: ContractSpec)
    requires spec.Valid() && v > 0.0 && stopDistance > 0.0
    ensures MoneyAtRisk(v, stopDistance, spec) * spec.tickSize == v * (stopDistance * spec.tickValue)
  {
    var ticks := stopDistance / spec.tickSize;
    assert ticks * spec.tickSize == stopDistance;
    assert ticks * spec.tickValue * v * spec.tickSize == v * (ticks * spec.tickSize * spec.tickValue);
  }

  /** Without a volume, or without a stop, nothing is at risk. */
  lemma NothingAtRisk(v: real, stopDistance: real, spec: ContractSpec)
    requires spec.Valid() && (v <= 0.0 || stopDistance <= 0.0)
    ensures MoneyAtRisk(v, stopDistance, spec) == 0.0
  {
  }

  /** A stop of k ticks loses k tick values a lot. */
  lemma TicksCostTheirValue(v: real, k: nat, spec: ContractSpec)
    requires spec.Valid() && v > 0.0 && k > 0
    ensures MoneyAtRisk(v, k as real * spec.tickSize, spec) == k as real * spec.tickValue * v
  {
    SameQuotient(k as real, spec.tickSize);
  }

  lemma SameQuotient(a: real, b: real)
    requires b > 0.0 && a > 0.0
    ensures a * b / b == a && a * b > 0.0
  {
  }

  lemma BudgetInMoney(q: Inputs, v: real)
    requires q.Evaluable()
    ensures v * q.PerLot() <= q.Budget() <==> WithinBudget(q, v, q.Account())
  {
    hide MoneyAtRisk;
    StopCostsTicks(1.0, q.stopDistance, q.spec);
    var cost, ts := q.stopDistance * q.spec.tickValue, q.spec.tickSize;
    ScaledBudget(v, q.PerLot(), cost, ts, q.Account() * q.cfg.riskPercent, q.Budget());
  }

  lemma ScaledBudget(v: real, perLot: real, cost: real, ts: real, percents: real, budget: real)
    requires ts > 0.0 && perLot * ts == cost && budget == percents / 100.0
    ensures v * perLot <= budget <==> v * cost * 100.0 <= percents * ts
  {
    var x, bt := v * perLot, budget * ts;
    assert x * ts == v * cost;
    assert bt * 100.0 == percents * ts;
    if x <= budget {
      MulLe(x, budget, ts, x * ts, bt);
    } else {
      MulLt(budget, x, ts, bt, x * ts);
    }
  }

  lemma BudgetInLots(budget: real, perLot: real, v: real)
    requires perLot > 0.0
    ensures v * perLot <= budget <==> v <= LotsFor(budget, perLot)
  {
    var d := budget / perLot;
    assert d * perLot == budget;
    if v <= d {
      MulLe(v, d, perLot, v * perLot, budget);
    } else {
      MulLt(d, v, perLot, budget, v * perLot);
    }
  }

  /** All limits together are one bound: the capped volume plus the slack. */
  lemma FitsIsCap(q: Inputs, v: real, slack: real)
    requires q.Evaluable()
    ensures Fits(q, v, slack) <==> v <= q.Capped() + slack
  {
    hide MoneyAtRisk, BudgetOf, LotsFor, WithinBudget;
    PerLotPositive(q);
    BudgetInMoney(q, v - slack);
    BudgetInLots(q.Budget(), q.PerLot(), v - slack);
  }

  lemma ApprovedShape(q: Inputs)
    requires q.spec.BrokerGrid() && !q.cfg.allowMinLotOverride
    ensures RiskSize(q, PyRound).outcome == Approved
       <==> q.Evaluable() && q.WithinLimits() && q.Capped() >= q.spec.volumeMin
    ensures RiskSize(q, PyRound).outcome == Approved ==>
      && RiskSize(q, PyRound).volume == FloorToStep(q.Capped(), q.spec, PyRound)
      && RiskSize(q, PyRound).riskMoney == MoneyAtRisk(RiskSize(q, PyRound).volume, q.stopDistance, q.spec)
  {
    hide PyRound, StepsDown, Lattice, FirstDigits, MoneyAtRisk, FloorToStep, OnGrid;
    if q.Evaluable() && q.Capped() >= q.spec.volumeMin {
      var n := FloorValue(q.Capped(), q.spec);
    }
  }

  /** An approved volume is a lattice point no smaller than the broker minimum, respects every
      limit up to the floor's slack, and is the largest lattice point that does. */
  lemma ApprovedIsLargestFit(q: Inputs, m: int) returns (n: nat)
    requires q.spec.BrokerGrid() && !q.cfg.allowMinLotOverride
    requires RiskSize(q, PyRound).outcome == Approved
    ensures q.Evaluable()
    ensures var v := RiskSize(q, PyRound).volume;
      && v == Lattice(q.spec.volumeMin, q.spec.volumeStep, n)
      && v >= q.spec.volumeMin
      && Fits(q, v, q.spec.Slack())
      && (Fits(q, Lattice(q.spec.volumeMin, q.spec.volumeStep, m), q.spec.Slack()) ==> Lattice(q.spec.volumeMin, q.spec.volumeStep, m) <= v)
  {
    hide PyRound, Lattice, MoneyAtRisk, FloorToStep, OnGrid, Fits, RiskSize;
    ApprovedShape(q);
    n := FloorValue(q.Capped(), q.spec);
    var base, step := q.spec.volumeMin, q.spec.volumeStep;
    FitsIsCap(q, Lattice(base, step, n), q.spec.Slack());
    FitsIsCap(q, Lattice(base, step, m), q.spec.Slack());
    if m > n {
      LatticeOrder(base, step, n + 1, m);
      LatticeNext(base, step, n);
    } else {
      LatticeOrder(base, step, m, n);
    }
  }

  /** In the percent models what the approved volume loses over the stop stays within the percentage of the
      account, but for what the floor's slack loses. */
  lemma ApprovedRiskWithinBudget(q: Inputs)
    requires q.spec.BrokerGrid() && !q.cfg.allowMinLotOverride && !q.cfg.model.FixedLot?
    requires RiskSize(q, PyRound).outcome == Approved
    ensures var account := if q.cfg.model.PercentEquity? then q.equity else q.balance;
      && RiskSize(q, PyRound).riskMoney * q.spec.tickSize == RiskSize(q, PyRound).volume * (q.stopDistance * q.spec.tickValue)
      && WithinBudget(q, RiskSize(q, PyRound).volume - 0.000000001 * q.spec.volumeStep, account)
  {
    hide PyRound, Lattice, FloorToStep, OnGrid, RiskSize, WithinBudget, MoneyAtRisk;
    var n := ApprovedIsLargestFit(q, 0);
    ApprovedShape(q);
    StopCostsTicks(RiskSize(q, PyRound).volume, q.stopDistance, q.spec);
  }

  // ---------------------------------------------------------------- every request

  /** The request's facts can be sized at all. */
  predicate Readable(q: Inputs) {
    && q.spec.tickSize > 0.0 && q.spec.tickValue > 0.0
    && 0.0 < q.spec.volumeMin <= q.spec.volumeMax && q.spec.volumeStep > 0.0
    && q.stopDistance > 0.0
  }

  predicate AccountFunded(q: Inputs) {
    match q.cfg.model
    case FixedLot => true
    case PercentEquity => q.equity > 0.0
    case PercentBalance => q.balance > 0.0
  }

  predicate Crowded(q: Inputs) { q.cfg.maxOpenPositions > 0 && q.openPositions >= q.cfg.maxOpenPositions }

  predicate Exposed(q: Inputs) { q.cfg.maxTotalExposureLot > 0.0 && q.openExposure >= q.cfg.maxTotalExposureLot }

  /** What every request comes to, whatever its facts.  It is blocked when the facts are unreadable, or the
      account is empty and the position count allows another; it is approved when neither limit is used up and
      the broker minimum fits, or may be taken regardless. */
  lemma OutcomeExactly(q: Inputs)
    requires q.spec.volumeStep > 0.0 ==> q.spec.BrokerGrid()
    ensures var r := RiskSize(q, PyRound);
      && (r.outcome == Blocked <==> !Readable(q) || (!Crowded(q) && !AccountFunded(q)))
      && (r.outcome == Approved <==> Readable(q) && AccountFunded(q) && !Crowded(q) && !Exposed(q)
                                     && (q.cfg.allowMinLotOverride || Fits(q, q.spec.volumeMin, 0.0)))
      && (r.outcome != Approved ==> r.volume == r.riskMoney == r.riskPercent == 0.0)
  {
    hide PyRound, StepsDown, Lattice, FirstDigits, MoneyAtRisk, FloorToStep, OnGrid, Fits;
    if q.Evaluable() {
      FitsIsCap(q, q.spec.volumeMin, 0.0);
      var n := FloorValue(Max(q.Capped(), q.spec.volumeMin), q.spec);
    }
  }

  /** The volume and risk of an approved request: the largest lattice point that fits up to the slack, or the
      broker minimum when not even that fits; its loss over the stop; and that loss in percent of equity. */
  lemma ApprovalExactly(q: Inputs, m: int) returns (n: nat)
    requires q.spec.BrokerGrid() && RiskSize(q, PyRound).outcome == Approved
    ensures var r, slack := RiskSize(q, PyRound), 0.000000001 * q.spec.volumeStep;
      && r.volume == Lattice(q.spec.volumeMin, q.spec.volumeStep, n)
      && (if Fits(q, q.spec.volumeMin, 0.0)
          then Fits(q, r.volume, slack)
               && (Fits(q, Lattice(q.spec.volumeMin, q.spec.volumeStep, m), slack) ==> Lattice(q.spec.volumeMin, q.spec.volumeStep, m) <= r.volume)
          else r.volume == q.spec.volumeMin)
      && r.riskMoney * q.spec.tickSize == r.volume * (q.stopDistance * q.spec.tickValue)
      && (if q.equity > 0.0 then r.riskPercent * q.equity == r.riskMoney * 100.0 else r.riskPercent == 0.0)
  {
    hide RiskSize, Lattice, Fits, OnGrid, PyRound;
    n := ApprovedPoint(q, m);
    ApprovedFigures(q);
  }

  lemma ApprovedPoint(q: Inputs, m: int) returns (n: nat)
    requires q.spec.BrokerGrid() && RiskSize(q, PyRound).outcome == Approved
    ensures var v, slack := RiskSize(q, PyRound).volume, q.spec.Slack();
      && v == Lattice(q.spec.volumeMin, q.spec.volumeStep, n)
      && (if Fits(q, q.spec.volumeMin, 0.0)
          then Fits(q, v, slack)
               && (Fits(q, Lattice(q.spec.volumeMin, q.spec.volumeStep, m), slack) ==> Lattice(q.spec.volumeMin, q.spec.volumeStep, m) <= v)
          else v == q.spec.volumeMin)
  {
    hide PyRound, StepsDown, Lattice, FirstDigits, MoneyAtRisk, FloorToStep, OnGrid, Fits, Inputs.Capped, RiskSize;
    ApprovedIs(q);
    var base, step, slack := q.spec.volumeMin, q.spec.volumeStep, q.spec.Slack();
    n := FloorValue(Max(q.Capped(), base), q.spec);
    FitsIsCap(q, base, 0.0);
    FitsIsCap(q, Lattice(base, step, n), slack);
    FitsIsCap(q, Lattice(base, step, m), slack);
    LatticeStart(base, step);
    if q.Capped() < base {
      NothingAbove(base, step, slack, n);
    } else if m > n {
      LatticeOrder(base, step, n + 1, m);
      LatticeNext(base, step, n);
    } else {
      LatticeOrder(base, step, m, n);
    }
  }

  /** An approval floors the capped volume, or the minimum above it. */
  lemma ApprovedIs(q: Inputs)
    requires q.spec.BrokerGrid() && RiskSize(q, PyRound).outcome == Approved
    ensures q.Evaluable()
    ensures var r := RiskSize(q, PyRound);
      && r.volume == FloorToStep(Max(q.Capped(), q.spec.volumeMin), q.spec, PyRound) > 0.0
      && r.riskMoney == MoneyAtRisk(r.volume, q.stopDistance, q.spec)
      && r.riskPercent == if q.equity > 0.0 then r.riskMoney / q.equity * 100.0 else 0.0
  {
    hide PyRound, StepsDown, Lattice, FirstDigits, MoneyAtRisk, FloorToStep, OnGrid, Inputs.Capped;
  }

  lemma ApprovedFigures(q: Inputs)
    requires q.spec.BrokerGrid() && RiskSize(q, PyRound).outcome == Approved
    ensures var r := RiskSize(q, PyRound);
      && r.riskMoney * q.spec.tickSize == r.volume * (q.stopDistance * q.spec.tickValue)
      && (if q.equity > 0.0 then r.riskPercent * q.equity == r.riskMoney * 100.0 else r.riskPercent == 0.0)
  {
    hide PyRound, MoneyAtRisk, FloorToStep, OnGrid, Inputs.Capped, RiskSize;
    ApprovedIs(q);
    StopCostsTicks(RiskSize(q, PyRound).volume, q.stopDistance, q.spec);
    if q.equity > 0.0 {
      PercentBack(RiskSize(q, PyRound).riskMoney, q.equity);
    }
  }

  lemma NothingAbove(base: real, step: real, slack: real, n: nat)
    requires step > 0.0 && slack < step && Lattice(base, step, n) <= base + slack
    ensures n == 0
  {
    if n > 0 {
      LatticeOrder(base, step, 1, n);
    }
  }

  lemma PercentBack(risk: real, equity: real)
    requires equity > 0.0
    ensures risk / equity * 100.0 * equity == risk * 100.0
  {
    var x := risk / equity;
    assert x * equity == risk;
    assert x * 100.0 * equity == x * equity * 100.0;
  }

  // ---------------------------------------------------------------- monotonicity

  lemma VolumeFollowsCap(p: Inputs, q: Inputs)
    requires p.spec == q.spec && p.spec.BrokerGrid() && !p.cfg.allowMinLotOverride && !q.cfg.allowMinLotOverride
    requires p.Evaluable() && p.WithinLimits() && p.Capped() >= p.spec.volumeMin ==>
      q.Evaluable() && q.WithinLimits() && p.Capped() <= q.Capped()
    ensures RiskSize(p, PyRound).volume <= RiskSize(q, PyRound).volume
  {
    hide PyRound, Lattice, MoneyAtRisk, FloorToStep, OnGrid, StepFloor;
    ApprovedShape(p);
    ApprovedShape(q);
    if RiskSize(q, PyRound).outcome == Approved {
      var j := FloorValue(q.Capped(), q.spec);
      if RiskSize(p, PyRound).outcome == Approved {
        var i := FloorValue(p.Capped(), p.spec);
        StepFloorMono(p.Capped() - p.spec.volumeMin, q.Capped() - q.spec.volumeMin, p.spec.volumeStep, STEP_SLACK);
        LatticeOrder(p.spec.volumeMin, p.spec.volumeStep, i, j);
      }
    }
  }

  lemma QuotientMono(a: real, b: real, p: real)
    requires p > 0.0 && a <= b
    ensures LotsFor(a, p) <= LotsFor(b, p)
  {
  }

  lemma BudgetMono(a: real, b: real, pct: real)
    requires a <= b && pct >= 0.0
    ensures BudgetOf(a, pct) <= BudgetOf(b, pct)
  {
    MulLe(a, b, pct, a * pct, b * pct);
  }

  lemma NonNegativeBudget(a: real, pct: real)
    requires a >= 0.0 && pct >= 0.0
    ensures BudgetOf(a, pct) >= 0.0
  {
  }

  lemma NegativeBudget(a: real, pct: real, perLot: real)
    requires a > 0.0 && pct < 0.0 && perLot > 0.0
    ensures LotsFor(BudgetOf(a, pct), perLot) < 0.0
  {
    assert a * pct < 0.0;
    NegativeQuotient(a * pct / 100.0, perLot);
  }

  lemma NegativeQuotient(a: real, p: real)
    requires a < 0.0 && p > 0.0
    ensures a / p < 0.0
  {
  }

  /** A larger account never sizes smaller, whatever the risk percentage. */
  lemma SizeGrowsWithAccount(p: Inputs, q: Inputs)
    requires p.spec.BrokerGrid() && !p.cfg.allowMinLotOverride && !p.cfg.model.FixedLot?
    requires q == p.(equity := q.equity, balance := q.balance) && p.Account() <= q.Account()
    ensures RiskSize(p, PyRound).volume <= RiskSize(q, PyRound).volume
  {
    hide MoneyAtRisk, OnGrid, RiskSize, BudgetOf, LotsFor;
    if p.Evaluable() {
      PerLotPositive(p);
      if p.cfg.riskPercent >= 0.0 {
        BudgetMono(p.Account(), q.Account(), p.cfg.riskPercent);
        QuotientMono(p.Budget(), q.Budget(), p.PerLot());
      } else {
        NegativeBudget(p.Account(), p.cfg.riskPercent, p.PerLot());
      }
    }
    VolumeFollowsCap(p, q);
  }

  lemma LongerDivisor(a: real, p: real, q: real)
    requires a >= 0.0 && 0.0 < p <= q
    ensures LotsFor(a, q) <= LotsFor(a, p)
  {
    var x, y := a / p, a / q;
    assert x * p == a && y * q == a;
    if y > x {
      MulLt(x, y, p, a, y * p);
      MulLe(p, q, y, p * y, a);
    }
  }

  lemma PerLotMono(p: Inputs, q: Inputs)
    requires p.spec == q.spec && p.spec.Valid() && 0.0 < p.stopDistance <= q.stopDistance
    ensures p.PerLot() <= q.PerLot()
  {
    DivMono(p.stopDistance, q.stopDistance, p.spec.tickSize);
    MulLe(p.stopDistance / p.spec.tickSize, q.stopDistance / p.spec.tickSize, p.spec.tickValue,
          p.stopDistance / p.spec.tickSize * p.spec.tickValue, q.stopDistance / p.spec.tickSize * p.spec.tickValue);
  }

  /** A wider stop never sizes larger. */
  lemma SizeShrinksWithStop(p: Inputs, q: Inputs)
    requires p.spec.BrokerGrid() && !p.cfg.allowMinLotOverride
    requires q == p.(stopDistance := q.stopDistance) && 0.0 < p.stopDistance <= q.stopDistance
    ensures RiskSize(q, PyRound).volume <= RiskSize(p, PyRound).volume
  {
    hide MoneyAtRisk, OnGrid, RiskSize, BudgetOf, LotsFor;
    if q.Evaluable() && !q.cfg.model.FixedLot? {
      PerLotMono(p, q);
      PerLotPositive(p);
      if p.cfg.riskPercent >= 0.0 {
        NonNegativeBudget(p.Account(), p.cfg.riskPercent);
        LongerDivisor(p.Budget(), p.PerLot(), q.PerLot());
      } else {
        NegativeBudget(p.Account(), p.cfg.riskPercent, q.PerLot());
      }
    }
    VolumeFollowsCap(q, p);
  }

  /** The assumptions can be met: an account of 10000 risking one percent over a stop of 5. */
  lemma AssumptionsCanBeMet()
    ensures var spec := ContractSpec(0.01, 1.0, 0.01, 100.0, 0.01);
      var cfg := RiskConfig(PercentEquity, 0.01, 1.0, 0.0, 0.0, 0, false);
      var q := Inputs(5.0, spec, cfg, 10000.0, 10000.0, 0, 0.0);
      spec.BrokerGrid() && RiskSize(q, PyRound).outcome == Approved
  {
    var spec := ContractSpec(0.01, 1.0, 0.01, 100.0, 0.01);
    var cfg := RiskConfig(PercentEquity, 0.01, 1.0, 0.0, 0.0, 0, false);
    var q := Inputs(5.0, spec, cfg, 10000.0, 10000.0, 0, 0.0);
    HundredthHasTwoDigits();
    PerLotPositive(q);
    assert q.PerLot() == 500.0;
    assert q.Budget() == 100.0;
    assert LotsFor(100.0, 500.0) == 0.2;
    assert q.Capped() == 0.2;
    ApprovedShape(q);
  }

  lemma HundredthHasTwoDigits()
    ensures PyDigits(0.01) == 2 && OnGrid(0.01, 2)
  {
    assert Pow10(0) == 1.0 && Pow10(1) == 10.0 * Pow10(0) && Pow10(2) == 10.0 * Pow10(1);
    FloorIs(0.01, 0);
    FloorIs(0.1, 0);
    FloorIs(1.0, 1);
    assert PyRound(0.01, 0) == 0.0 && PyRound(0.01, 1) == 0.0 && PyRound(0.01, 2) == 0.01;
    assert FirstDigits(0.01, PyRound, 2) == 2;
    assert FirstDigits(0.01, PyRound, 1) == 2;
  }
}
