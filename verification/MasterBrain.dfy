/** The master brain's update: a persistent state machine that reads the terminal and writes its
    commands and its own state to the bus. It never trades. */
module MasterBrain {
  import opened Numeric
  import opened Wrappers
  import opened Terminal
  import opened BrainSizing

  datatype Config = Config(
    activationDdPct: real,
    activationAtr: real,
    hardDdPct: real,
    graceM3Bars: int,
    recoveryDdPct: real,
    tpFactor: real,
    profitBufferMoney: real,
    safetyFactor: real,
    maxStraddleLot: real,
    exitToleranceMoney: real,
    desiredBasketProfit: real,
    emergencyBasketLossPct: real)
  {
    /** The basket profit from which exits are allowed. */
    function Target(): real { desiredBasketProfit - exitToleranceMoney }
  }

  datatype Candle = Candle(open: real, close: real)

  /** One look at the terminal. `m3Open` is the open time of the current M3 bar, 0 when unknown;
      `rates` are the copied M3 bars, newest first; the two flags say whether a position found by
      the scan can still be selected. */
  datatype View = View(
    positions: seq<Position>,
    balance: real,
    equity: real,
    quote: Quote,
    atr3: real,
    m3Open: int,
    rates: seq<Candle>,
    now: int,
    spec: VolumeSpec,
    point: real,
    mainLive: bool,
    straddleLive: bool)
  {
    predicate Flat() { FindMain(positions).None? && FindStraddle(positions).None? }

    /** The main and the straddle as far as they can be selected. */
    function MainLeg(): Option<Position> { if mainLive then FindMain(positions) else None }

    function StraddleLeg(): Option<Position> { if straddleLive then FindStraddle(positions) else None }
  }

  /** The (int) cast of the source: truncation toward zero. */
  function Trunc(x: real): int { if x >= 0.0 then x.Floor else -((-x).Floor) }

  function StateOf(vars: Vars): int { Trunc(Get(vars, RISK_STATE, 0.0)) }

  function GraceOf(vars: Vars): int { Trunc(Get(vars, GRACE_BARS_LEFT, 0.0)) }

  predicate NewM3(vars: Vars, v: View) {
    v.m3Open != 0 && v.m3Open as real != Get(vars, MB_LAST_M3, 0.0)
  }

  function AdverseCandle(c: Candle, mainBuy: bool): int {
    if (mainBuy && c.close < c.open) || (!mainBuy && c.close > c.open) then 1 else 0
  }

  /** Adverse candles among the last two closed M3 bars; 0 when fewer than four could be copied. */
  function AdverseM3Bars(rates: seq<Candle>, mainBuy: bool): int {
    if |rates| < 4 then 0 else AdverseCandle(rates[1], mainBuy) + AdverseCandle(rates[2], mainBuy)
  }

  // ---------------------------------------------------------------- basket accounting

  /** The balance the basket is measured from: the stored one, or today's when none is stored. */
  function Baseline(vars: Vars, balance: real): real {
    var base := Get(vars, MB_BASE_BALANCE, 0.0);
    if base <= 0.0 then balance else base
  }

  /** What an open leg contributes: floating profit and swap, less commission already paid. */
  function LegValue(p: Option<Position>, q: Quote): real {
    match p
    case None => 0.0
    case Some(leg) => Profit(leg, q) + leg.swap - SumAbs(leg.deals)
  }

  /** What the basket of a main and a straddle is worth, measured from the baseline. */
  function BasketPnl(vars: Vars, main: Option<Position>, straddle: Option<Position>, balance: real, q: Quote): real {
    balance - Baseline(vars, balance) + LegValue(main, q) + LegValue(straddle, q)
  }

  /** The basket an update sees: a leg that cannot be selected is left out. */
  function SeenPnl(vars: Vars, v: View): real {
    BasketPnl(vars, v.MainLeg(), v.StraddleLeg(), v.balance, v.quote)
  }

  method ComputeBasketPnl(bus: Bus, v: View) returns (pnl: real)
    modifies bus
    ensures pnl == SeenPnl(old(bus.vars), v)
    ensures bus.vars == if Get(old(bus.vars), MB_BASE_BALANCE, 0.0) <= 0.0
                        then old(bus.vars)[MB_BASE_BALANCE := v.balance] else old(bus.vars)
  {
    var base := Get(bus.vars, MB_BASE_BALANCE, 0.0);
    if base <= 0.0 {
      base := v.balance;
      bus.Put(MB_BASE_BALANCE, base);
    }
    var realized := v.balance - base;
    var floating := 0.0;
    var main := ScanMain(v.positions);
    if main.Some? && v.mainLive {
      floating := floating + (Profit(main.value, v.quote) + main.value.swap);
      var paid := PositionCommission(main.value);
      floating := floating - paid;
    }
    var straddle := ScanStraddle(v.positions);
    if straddle.Some? && v.straddleLive {
      floating := floating + (Profit(straddle.value, v.quote) + straddle.value.swap);
      var paid := PositionCommission(straddle.value);
      floating := floating - paid;
    }
    pnl := realized + floating;
  }

  // ---------------------------------------------------------------- what one update decides

  /** The update's outcome while a straddle is open. */
  datatype Verdict = Verdict(exit: bool, terminate: bool, emergency: bool, state: int, grace: int)

  function NetProfit(p: Position, q: Quote): real { Profit(p, q) + p.swap }

  /** A loss as a percentage of equity. */
  function LossPct(profit: real, equity: real): real
    requires equity != 0.0
  {
    -profit / equity * 100.0
  }

  function EmergencyLoss(v: View, cfg: Config): real {
    Max(cfg.exitToleranceMoney, v.equity * Max(0.1, cfg.emergencyBasketLossPct) / 100.0)
  }

  predicate Recovering(main: Position, v: View, cfg: Config) {
    var profit := NetProfit(main, v.quote);
    profit >= 0.0 || (v.equity > 0.0 && LossPct(profit, v.equity) <= cfg.recoveryDdPct)
  }

  predicate HardDrawdown(main: Position, v: View, cfg: Config) {
    var profit := NetProfit(main, v.quote);
    cfg.hardDdPct > 0.0 && v.equity > 0.0 && profit < 0.0 && LossPct(profit, v.equity) >= cfg.hardDdPct
  }

  /** A lone straddle exits on the basket target alone. Next to a main it also exits while the main
      is recovering, or on a new M3 bar of the hard state once the basket is back to the tolerance.
      Termination is the emergency, or a used-up grace with the target reached while the basket is
      still below the tolerance. */
  function StraddleVerdict(vars: Vars, v: View, cfg: Config): Verdict {
    var main, basket := FindMain(v.positions), SeenPnl(vars, v);
    var live := main.Some? && v.mainLive;
    var hard := live && HardDrawdown(main.value, v, cfg) && StateOf(vars) < 3;
    var state := if hard then 3 else StateOf(vars);
    var granted := if hard then cfg.graceM3Bars else GraceOf(vars);
    var hardBar := live && state == 3 && NewM3(vars, v);
    var grace := if hardBar && granted > 0 then granted - 1 else granted;
    var hit := basket >= cfg.Target();
    var emergency := basket <= -EmergencyLoss(v, cfg);
    Verdict(
      (main.None? && hit) || (live && Recovering(main.value, v, cfg) && hit)
        || (hardBar && basket >= -cfg.exitToleranceMoney),
      emergency || (hardBar && basket < -cfg.exitToleranceMoney && grace <= 0 && hit),
      emergency, state, grace)
  }

  /** Loss percentage, risk state and the arming conditions of an update that sees only a main. */
  function MainLossPct(main: Position, v: View): real {
    var profit := NetProfit(main, v.quote);
    if profit < 0.0 && v.equity > 0.0 then LossPct(profit, v.equity) else 0.0
  }

  function MainState(vars: Vars, main: Position, v: View, cfg: Config): int {
    var adverse := Abs(v.quote.Closing(main.side) - main.open);
    var triggered := MainLossPct(main, v) >= cfg.activationDdPct
                     || (v.atr3 > 0.0 && adverse >= v.atr3 * cfg.activationAtr);
    if StateOf(vars) == 0 && triggered then 2 else StateOf(vars)
  }

  predicate WantsStraddle(vars: Vars, main: Position, v: View, cfg: Config) {
    && MainState(vars, main, v, cfg) >= 2
    && NetProfit(main, v.quote) < 0.0
    && AdverseM3Bars(v.rates, main.side.BUY?) >= 2
  }

  function SizingOf(main: Position, v: View, cfg: Config): Sizing {
    SizeForMain(main, v.quote, cfg.profitBufferMoney, cfg.safetyFactor, cfg.maxStraddleLot, v.spec)
  }

  /** The price published as basket target: the main's entry, plus the distance on which the net
      exposure earns the desired profit. */
  function TargetPrice(main: Position, v: View, cfg: Config): real {
    var favorable := main.side.Opposite().Sign();
    var point := if v.point <= 0.0 then 0.00001 else v.point;
    var current := v.quote.Closing(main.side);
    var mainStep := MoneyPerLot(main.side, current, current + favorable * point, v.quote.perUnit) * main.volume;
    var strStep := MoneyPerLot(main.side.Opposite(), current, current + favorable * point, v.quote.perUnit)
                   * SizingOf(main, v, cfg).lots;
    var netStep := Max(0.0, strStep - mainStep);
    var extra := if netStep > 0.0 && cfg.desiredBasketProfit > 0.0
                 then cfg.desiredBasketProfit / netStep * point * Max(1.0, cfg.tpFactor) else 0.0;
    main.open + favorable * extra
  }

  // ---------------------------------------------------------------- the bus after an update

  function Preamble(vars: Vars, v: View, cfg: Config): Vars {
    var a := vars[HEARTBEAT := v.now as real][DESIRED_BASKET_PROFIT := cfg.desiredBasketProfit][TP_FACTOR := cfg.tpFactor];
    var b := a[STRADDLE_ARM := 0.0][STRADDLE_EXIT := 0.0][BASKET_TERMINATE := 0.0][BASKET_EMERGENCY := 0.0];
    if NewM3(vars, v) then b[MB_LAST_M3 := v.m3Open as real] else b
  }

  /** The bus with the three straddle commands set to these values. */
  function Commanded(vars: Vars, exit: bool, terminate: bool, emergency: bool): Vars {
    vars[STRADDLE_EXIT := Bit(exit)][BASKET_TERMINATE := Bit(terminate)][BASKET_EMERGENCY := Bit(emergency)]
  }

  /** The basket figures an update publishes while a straddle is open. */
  function Figures(vars: Vars, pre: Vars, straddle: Position, v: View, cfg: Config): Vars {
    pre[MB_BASE_BALANCE := Baseline(vars, v.balance)]
       [STRADDLE_ACTIVE_PNL := NetProfit(straddle, v.quote)]
       [BASKET_PNL := SeenPnl(vars, v)]
       [BASKET_BASE_BALANCE := Baseline(vars, v.balance)]
       [BASKET_EMERGENCY_LOSS := EmergencyLoss(v, cfg)]
  }

  function AfterStraddle(vars: Vars, pre: Vars, straddle: Position, v: View, cfg: Config): Vars {
    var d := StraddleVerdict(vars, v, cfg);
    Commanded(Figures(vars, pre, straddle, v, cfg), d.exit, d.terminate, d.emergency)
      [RISK_STATE := d.state as real][GRACE_BARS_LEFT := d.grace as real]
  }

  /** How much of the required money the request covers, in percent. */
  function Coverage(s: Sizing): real {
    var money := if s.oneLotGap > 0.0 then s.lots * s.oneLotGap else 0.0;
    if s.money > 0.0 then Min(9999.0, money / s.money * 100.0) else 100.0
  }

  function Sized(vars: Vars, main: Position, v: View, cfg: Config): Vars {
    var s := SizingOf(main, v, cfg);
    var current := v.quote.Closing(main.side);
    var gap := if main.open == current then v.point else Abs(main.open - current);
    var a := vars[STRADDLE_REQUIRED_MONEY := s.money][STRADDLE_GAP_PRICE := gap]
                 [STRADDLE_GAP_MONEY_PER_LOT := s.oneLotGap][STRADDLE_REQUIRED_LOTS := s.required]
                 [STRADDLE_LOTS := s.lots][STRADDLE_COVERAGE := Coverage(s)]
                 [STRADDLE_START := current][STRADDLE_MAIN_ENTRY := main.open];
    if s.lots <= 0.0 then a
    else
      var target := TargetPrice(main, v, cfg);
      a[BASKET_BE_PRICE := main.open][BASKET_TARGET_PRICE := target][STRADDLE_BE_DISTANCE := gap]
       [STRADDLE_TARGET_DISTANCE := Abs(target - current)][STRADDLE_TP_PRICE := target][STRADDLE_ARM := 1.0]
  }

  function AfterMain(vars: Vars, pre: Vars, main: Position, v: View, cfg: Config): Vars {
    var state := MainState(vars, main, v, cfg);
    var a := pre[POSITION_LOSS_PCT := MainLossPct(main, v)]
                [M3_ADVERSE := Bit(AdverseM3Bars(v.rates, main.side.BUY?) >= 2)]
                [DD_PCT := MainLossPct(main, v)][M1_STATE := state as real];
    var b := if WantsStraddle(vars, main, v, cfg) then Sized(a, main, v, cfg) else a;
    b[RISK_STATE := state as real][GRACE_BARS_LEFT := GraceOf(vars) as real]
  }

  function Updated(vars: Vars, v: View, cfg: Config): Vars {
    var pre := Preamble(vars, v, cfg);
    match (FindStraddle(v.positions), FindMain(v.positions))
    case (Some(straddle), _) => if v.straddleLive then AfterStraddle(vars, pre, straddle, v, cfg) else pre
    case (None, Some(main)) =>
      var cleared := pre[MB_BASE_BALANCE := 0.0];
      if v.mainLive then AfterMain(vars, cleared, main, v, cfg) else cleared
    case (None, None) =>
      pre[M1_STATE := 0.0][RISK_STATE := 0.0][BASKET_PNL := 0.0][STRADDLE_ACTIVE_PNL := 0.0]
  }

  // ---------------------------------------------------------------- the update itself

  method ResetCommands(bus: Bus)
    modifies bus
    ensures bus.vars == old(bus.vars)[STRADDLE_ARM := 0.0][STRADDLE_EXIT := 0.0][BASKET_TERMINATE := 0.0][BASKET_EMERGENCY := 0.0]
  {
    bus.Put(STRADDLE_ARM, 0.0);
    bus.Put(STRADDLE_EXIT, 0.0);
    bus.Put(BASKET_TERMINATE, 0.0);
    bus.Put(BASKET_EMERGENCY, 0.0);
  }

  /** Raises one of the three commands. */
  method Raise(bus: Bus, k: Key, ghost base: Vars, ghost exit: bool, ghost terminate: bool, ghost emergency: bool)
    requires bus.vars == Commanded(base, exit, terminate, emergency)
    requires k == STRADDLE_EXIT || k == BASKET_TERMINATE || k == BASKET_EMERGENCY
    modifies bus
    ensures bus.vars == Commanded(base, exit || k == STRADDLE_EXIT, terminate || k == BASKET_TERMINATE,
                                  emergency || k == BASKET_EMERGENCY)
  {
    bus.Put(k, 1.0);
  }

  /** The part of the straddle branch that also looks at a live main. */
  method ManagePair(bus: Bus, main: Position, basket: real, newM3: bool, state0: int, grace0: int, v: View, cfg: Config,
                    ghost base: Vars, ghost terminate: bool)
    returns (state: int, grace: int)
    requires bus.vars == Commanded(base, false, terminate, terminate)
    modifies bus
    ensures state == if HardDrawdown(main, v, cfg) && state0 < 3 then 3 else state0
    ensures var granted := if HardDrawdown(main, v, cfg) && state0 < 3 then cfg.graceM3Bars else grace0;
      grace == if state == 3 && newM3 && granted > 0 then granted - 1 else granted
    ensures bus.vars == Commanded(base,
      (Recovering(main, v, cfg) && basket >= cfg.Target()) || (state == 3 && newM3 && basket >= -cfg.exitToleranceMoney),
      terminate || (state == 3 && newM3 && basket < -cfg.exitToleranceMoney && grace <= 0 && basket >= cfg.Target()),
      terminate)
  {
    hide Recovering, HardDrawdown, Commanded;
    state, grace := state0, grace0;
    ghost var exit := false;
    if Recovering(main, v, cfg) && basket >= cfg.desiredBasketProfit - cfg.exitToleranceMoney {
      Raise(bus, STRADDLE_EXIT, base, false, terminate, terminate);
      exit := true;
    }
    if HardDrawdown(main, v, cfg) {
      if state < 3 {
        state := 3;
        grace := cfg.graceM3Bars;
      }
    }
    if state == 3 && newM3 {
      if grace > 0 {
        grace := grace - 1;
      }
      if basket >= -cfg.exitToleranceMoney {
        Raise(bus, STRADDLE_EXIT, base, exit, terminate, terminate);
      } else if grace <= 0 && basket >= cfg.desiredBasketProfit - cfg.exitToleranceMoney {
        Raise(bus, BASKET_TERMINATE, base, exit, terminate, terminate);
      }
    }
  }

  /** The preamble clears the commands and leaves the brain's own state alone. */
  lemma PreambleFacts(vars: Vars, straddle: Position, v: View, cfg: Config)
    ensures var pre := Preamble(vars, v, cfg);
      && pre == Commanded(pre, false, false, false)
      && Get(pre, MB_BASE_BALANCE, 0.0) == Get(vars, MB_BASE_BALANCE, 0.0)
      && StateOf(pre) == StateOf(vars) && GraceOf(pre) == GraceOf(vars)
      && SeenPnl(pre, v) == SeenPnl(vars, v)
      && Figures(pre, pre, straddle, v, cfg) == Figures(vars, pre, straddle, v, cfg)
  {
  }

  /** Publishes the basket figures and returns the basket profit. */
  method PublishFigures(bus: Bus, straddle: Position, v: View, cfg: Config) returns (basket: real)
    requires bus.vars == Commanded(bus.vars, false, false, false)
    modifies bus
    ensures basket == SeenPnl(old(bus.vars), v)
    ensures bus.vars == Figures(old(bus.vars), old(bus.vars), straddle, v, cfg)
    ensures bus.vars == Commanded(bus.vars, false, false, false)
  {
    hide SeenPnl, NetProfit, EmergencyLoss, Baseline, Commanded;
    ghost var pre := bus.vars;
    basket := ComputeBasketPnl(bus, v);
    BaselineStored(pre, v.balance);
    var base := Get(bus.vars, MB_BASE_BALANCE, v.balance);
    bus.Put(STRADDLE_ACTIVE_PNL, NetProfit(straddle, v.quote));
    bus.Put(BASKET_PNL, basket);
    bus.Put(BASKET_BASE_BALANCE, base);
    bus.Put(BASKET_EMERGENCY_LOSS, EmergencyLoss(v, cfg));
    FiguresCommanded(pre, straddle, v, cfg);
  }

  /** Storing the balance when none is stored leaves the baseline of the basket stored. */
  lemma BaselineStored(vars: Vars, balance: real)
    ensures (if Get(vars, MB_BASE_BALANCE, 0.0) <= 0.0 then vars[MB_BASE_BALANCE := balance] else vars)
         == vars[MB_BASE_BALANCE := Baseline(vars, balance)]
  {
  }

  lemma FiguresCommanded(pre: Vars, straddle: Position, v: View, cfg: Config)
    requires pre == Commanded(pre, false, false, false)
    ensures Figures(pre, pre, straddle, v, cfg) == Commanded(Figures(pre, pre, straddle, v, cfg), false, false, false)
  {
    hide SeenPnl, NetProfit, EmergencyLoss, Baseline;
    var f := Figures(pre, pre, straddle, v, cfg);
    assert forall k :: k in {STRADDLE_EXIT, BASKET_TERMINATE, BASKET_EMERGENCY} ==> k in f && f[k] == Commanded(pre, false, false, false)[k];
  }

  method ManageStraddle(bus: Bus, ghost before: Vars, straddle: Position, main: Option<Position>, newM3: bool,
                        state0: int, grace0: int, v: View, cfg: Config)
    requires bus.vars == Preamble(before, v, cfg)
    requires FindMain(v.positions) == main
    requires newM3 == NewM3(before, v) && state0 == StateOf(before) && grace0 == GraceOf(before)
    modifies bus
    ensures bus.vars == AfterStraddle(before, Preamble(before, v, cfg), straddle, v, cfg)
  {
    hide StateOf, GraceOf, FindMain, Recovering, HardDrawdown, EmergencyLoss, SeenPnl, Preamble, Figures, Commanded, NewM3;
    PreambleFacts(before, straddle, v, cfg);
    var basket := PublishFigures(bus, straddle, v, cfg);
    ghost var figures := bus.vars;
    ghost var d := StraddleVerdict(before, v, cfg);
    var state, grace := state0, grace0;
    if main.None? {
      if basket >= cfg.desiredBasketProfit - cfg.exitToleranceMoney {
        Raise(bus, STRADDLE_EXIT, figures, false, false, false);
      }
    }
    if basket <= -EmergencyLoss(v, cfg) {
      Raise(bus, BASKET_EMERGENCY, figures, main.None? && d.exit, false, false);
      Raise(bus, BASKET_TERMINATE, figures, main.None? && d.exit, false, true);
    }
    if main.Some? && v.mainLive {
      state, grace := ManagePair(bus, main.value, basket, newM3, state, grace, v, cfg, figures, d.emergency);
    }
    assert bus.vars == Commanded(figures, d.exit, d.terminate, d.emergency);
    bus.Put(RISK_STATE, state as real);
    bus.Put(GRACE_BARS_LEFT, grace as real);
  }

  method CountAdverse(rates: seq<Candle>, mainBuy: bool) returns (n: int)
    ensures n == AdverseM3Bars(rates, mainBuy)
  {
    if |rates| < 4 {
      return 0;
    }
    n := 0;
    for i := 1 to 3
      invariant n == if i == 1 then 0 else if i == 2 then AdverseCandle(rates[1], mainBuy)
                     else AdverseCandle(rates[1], mainBuy) + AdverseCandle(rates[2], mainBuy)
    {
      var bull := rates[i].close > rates[i].open;
      var bear := rates[i].close < rates[i].open;
      if (mainBuy && bear) || (!mainBuy && bull) {
        n := n + 1;
      }
    }
  }

  /** Publishes the sizing of a wanted straddle and, when it is positive, arms it. */
  method PublishSizing(bus: Bus, main: Position, v: View, cfg: Config)
    modifies bus
    ensures bus.vars == Sized(old(bus.vars), main, v, cfg)
  {
    hide SizingOf, TargetPrice, Coverage;
    var current := v.quote.Closing(main.side);
    var gap := Abs(main.open - current);
    if gap <= 0.0 {
      gap := v.point;
    }
    var s := SizingOf(main, v, cfg);
    bus.Put(STRADDLE_REQUIRED_MONEY, s.money);
    bus.Put(STRADDLE_GAP_PRICE, gap);
    bus.Put(STRADDLE_GAP_MONEY_PER_LOT, s.oneLotGap);
    bus.Put(STRADDLE_REQUIRED_LOTS, s.required);
    bus.Put(STRADDLE_LOTS, s.lots);
    bus.Put(STRADDLE_COVERAGE, Coverage(s));
    bus.Put(STRADDLE_START, current);
    bus.Put(STRADDLE_MAIN_ENTRY, main.open);
    if s.lots > 0.0 {
      var target := TargetPrice(main, v, cfg);
      bus.Put(BASKET_BE_PRICE, main.open);
      bus.Put(BASKET_TARGET_PRICE, target);
      bus.Put(STRADDLE_BE_DISTANCE, gap);
      bus.Put(STRADDLE_TARGET_DISTANCE, Abs(target - current));
      bus.Put(STRADDLE_TP_PRICE, target);
      bus.Put(STRADDLE_ARM, 1.0);
    }
  }

  /** The loss percentage of a main, and the state it triggers. */
  method Trigger(ghost before: Vars, main: Position, state0: int, v: View, cfg: Config) returns (lossPct: real, state: int)
    requires state0 == StateOf(before)
    ensures lossPct == MainLossPct(main, v) && state == MainState(before, main, v, cfg)
  {
    hide StateOf, NetProfit, LossPct;
    state := state0;
    var profit := NetProfit(main, v.quote);
    var adverse := Abs(v.quote.Closing(main.side) - main.open);
    lossPct := if profit < 0.0 && v.equity > 0.0 then LossPct(profit, v.equity) else 0.0;
    var ddTrigger := lossPct >= cfg.activationDdPct;
    var distanceTrigger := v.atr3 > 0.0 && adverse >= v.atr3 * cfg.activationAtr;
    if state == 0 && (ddTrigger || distanceTrigger) {
      state := 2;
    }
  }

  method ManageMain(bus: Bus, ghost before: Vars, main: Position, state0: int, grace: int, v: View, cfg: Config)
    requires state0 == StateOf(before) && grace == GraceOf(before)
    modifies bus
    ensures bus.vars == AfterMain(before, old(bus.vars), main, v, cfg)
  {
    hide StateOf, GraceOf, NetProfit, Sized, AdverseM3Bars, MainLossPct, MainState;
    var profit := NetProfit(main, v.quote);
    var lossPct, state := Trigger(before, main, state0, v, cfg);
    var bars := CountAdverse(v.rates, main.side.BUY?);
    bus.Put(POSITION_LOSS_PCT, lossPct);
    bus.Put(M3_ADVERSE, Bit(bars >= 2));
    bus.Put(DD_PCT, lossPct);
    bus.Put(M1_STATE, state as real);
    if state >= 2 && profit < 0.0 && bars >= 2 {
      PublishSizing(bus, main, v, cfg);
    }
    bus.Put(RISK_STATE, state as real);
    bus.Put(GRACE_BARS_LEFT, grace as real);
  }

  method Update(bus: Bus, v: View, cfg: Config)
    modifies bus
    ensures bus.vars == Updated(old(bus.vars), v, cfg)
  {
    hide AfterStraddle, AfterMain, StateOf, GraceOf;
    ghost var before := bus.vars;
    bus.Put(HEARTBEAT, v.now as real);
    bus.Put(DESIRED_BASKET_PROFIT, cfg.desiredBasketProfit);
    bus.Put(TP_FACTOR, cfg.tpFactor);
    ResetCommands(bus);
    var main := ScanMain(v.positions);
    var straddle := ScanStraddle(v.positions);
    var newM3 := NewM3(bus.vars, v);
    assert newM3 == NewM3(before, v);
    if newM3 {
      bus.Put(MB_LAST_M3, v.m3Open as real);
    }
    assert bus.vars == Preamble(before, v, cfg);
    var state, grace := StateOf(bus.vars), GraceOf(bus.vars);
    StatePersists(before, v, cfg);
    if main.None? && straddle.None? {
      bus.Put(M1_STATE, 0.0);
      bus.Put(RISK_STATE, 0.0);
      bus.Put(BASKET_PNL, 0.0);
      bus.Put(STRADDLE_ACTIVE_PNL, 0.0);
      return;
    }
    if straddle.Some? {
      if !v.straddleLive {
        return;
      }
      ManageStraddle(bus, before, straddle.value, main, newM3, state, grace, v, cfg);
      return;
    }
    bus.Put(MB_BASE_BALANCE, 0.0);
    if !v.mainLive {
      return;
    }
    ManageMain(bus, before, main.value, state, grace, v, cfg);
  }

  lemma StatePersists(vars: Vars, v: View, cfg: Config)
    ensures StateOf(Preamble(vars, v, cfg)) == StateOf(vars) && GraceOf(Preamble(vars, v, cfg)) == GraceOf(vars)
  {
  }

  // ---------------------------------------------------------------- what every update keeps

  /** The risk state is 0, 2 or 3, and the grace lies between 0 and the configured bars. */
  predicate StateInRange(vars: Vars, cfg: Config) {
    && StateOf(vars) in {0, 2, 3}
    && (0 <= GraceOf(vars) <= cfg.graceM3Bars || cfg.graceM3Bars <= GraceOf(vars) <= 0)
  }

  /** Commands exclude each other: arming belongs to a basket without a straddle. */
  predicate CommandsExclusive(vars: Vars) {
    Flag(vars, STRADDLE_ARM) ==>
      !Flag(vars, STRADDLE_EXIT) && !Flag(vars, BASKET_TERMINATE) && !Flag(vars, BASKET_EMERGENCY)
  }

  /** Whatever armed a straddle also cleared the basket's baseline. */
  predicate ArmedMeansNoBaseline(vars: Vars) {
    Flag(vars, STRADDLE_ARM) ==> Get(vars, MB_BASE_BALANCE, 0.0) == 0.0
  }

  /** The keys the executor takes orders from, and the baseline. */
  predicate IsProtocolKey(k: Key) {
    k in {STRADDLE_EXIT, BASKET_TERMINATE, BASKET_EMERGENCY, MB_BASE_BALANCE}
  }

  lemma SizedFlags(vars: Vars, main: Position, v: View, cfg: Config, k: Key)
    requires IsProtocolKey(k) && Get(vars, STRADDLE_ARM, 0.0) == 0.0
    ensures Get(Sized(vars, main, v, cfg), k, 0.0) == Get(vars, k, 0.0)
    ensures Get(Sized(vars, main, v, cfg), STRADDLE_ARM, 0.0) == Bit(SizingOf(main, v, cfg).lots > 0.0)
  {
    hide SizingOf, TargetPrice, Coverage;
  }

  lemma AfterMainFlags(vars: Vars, pre: Vars, main: Position, v: View, cfg: Config, k: Key)
    requires IsProtocolKey(k) && Get(pre, STRADDLE_ARM, 0.0) == 0.0
    ensures Get(AfterMain(vars, pre, main, v, cfg), k, 0.0) == Get(pre, k, 0.0)
    ensures Get(AfterMain(vars, pre, main, v, cfg), STRADDLE_ARM, 0.0)
         == Bit(WantsStraddle(vars, main, v, cfg) && SizingOf(main, v, cfg).lots > 0.0)
  {
    hide Sized, SizingOf, MainState, MainLossPct, WantsStraddle, AdverseM3Bars;
    var a := pre[POSITION_LOSS_PCT := MainLossPct(main, v)]
                [M3_ADVERSE := Bit(AdverseM3Bars(v.rates, main.side.BUY?) >= 2)]
                [DD_PCT := MainLossPct(main, v)][M1_STATE := MainState(vars, main, v, cfg) as real];
    SizedFlags(a, main, v, cfg, k);
  }

  lemma AfterStraddleFlags(vars: Vars, pre: Vars, straddle: Position, v: View, cfg: Config)
    requires Get(pre, STRADDLE_ARM, 0.0) == 0.0
    ensures var after, d := AfterStraddle(vars, pre, straddle, v, cfg), StraddleVerdict(vars, v, cfg);
      && Get(after, STRADDLE_ARM, 0.0) == 0.0
      && Get(after, STRADDLE_EXIT, 0.0) == Bit(d.exit)
      && Get(after, BASKET_TERMINATE, 0.0) == Bit(d.terminate)
      && Get(after, BASKET_EMERGENCY, 0.0) == Bit(d.emergency)
  {
    hide StraddleVerdict, EmergencyLoss, SeenPnl, NetProfit, Baseline;
  }

  lemma PreambleFlags(vars: Vars, v: View, cfg: Config)
    ensures var pre := Preamble(vars, v, cfg);
      && Get(pre, STRADDLE_ARM, 0.0) == Get(pre, STRADDLE_EXIT, 0.0) == 0.0
      && Get(pre, BASKET_TERMINATE, 0.0) == Get(pre, BASKET_EMERGENCY, 0.0) == 0.0
  {
  }

  /** After an update, ARM is up exactly when there is a live losing main without a straddle, the
      state has reached 2, both closed M3 candles are adverse and the sizing is positive. */
  lemma ArmFlag(vars: Vars, v: View, cfg: Config)
    ensures Flag(Updated(vars, v, cfg), STRADDLE_ARM)
       <==> && FindStraddle(v.positions).None? && FindMain(v.positions).Some? && v.mainLive
            && NetProfit(FindMain(v.positions).value, v.quote) < 0.0
            && MainState(vars, FindMain(v.positions).value, v, cfg) >= 2
            && AdverseM3Bars(v.rates, FindMain(v.positions).value.side.BUY?) >= 2
            && SizingOf(FindMain(v.positions).value, v, cfg).lots > 0.0
  {
    hide AfterMain, AfterStraddle, Preamble, MainState, NetProfit, AdverseM3Bars, SizingOf;
    var pre := Preamble(vars, v, cfg);
    PreambleFlags(vars, v, cfg);
    if FindStraddle(v.positions).Some? {
      AfterStraddleFlags(vars, pre, FindStraddle(v.positions).value, v, cfg);
    } else if FindMain(v.positions).Some? {
      AfterMainFlags(vars, pre[MB_BASE_BALANCE := 0.0], FindMain(v.positions).value, v, cfg, STRADDLE_EXIT);
    }
  }

  /** After an update, EXIT, TERMINATE and EMERGENCY are what the straddle verdict says, and are all
      down without a live straddle. */
  lemma ExitFlags(vars: Vars, v: View, cfg: Config)
    ensures var after, d := Updated(vars, v, cfg), StraddleVerdict(vars, v, cfg);
      var open := FindStraddle(v.positions).Some? && v.straddleLive;
      && (Flag(after, STRADDLE_EXIT) <==> open && d.exit)
      && (Flag(after, BASKET_TERMINATE) <==> open && d.terminate)
      && (Flag(after, BASKET_EMERGENCY) <==> open && d.emergency)
  {
    hide AfterMain, AfterStraddle, Preamble, StraddleVerdict;
    var pre := Preamble(vars, v, cfg);
    PreambleFlags(vars, v, cfg);
    if FindStraddle(v.positions).Some? {
      AfterStraddleFlags(vars, pre, FindStraddle(v.positions).value, v, cfg);
    } else if FindMain(v.positions).Some? {
      var cleared := pre[MB_BASE_BALANCE := 0.0];
      AfterMainFlags(vars, cleared, FindMain(v.positions).value, v, cfg, STRADDLE_EXIT);
      AfterMainFlags(vars, cleared, FindMain(v.positions).value, v, cfg, BASKET_TERMINATE);
      AfterMainFlags(vars, cleared, FindMain(v.positions).value, v, cfg, BASKET_EMERGENCY);
    }
  }

  /** A lone straddle never exits on its own profit: only the basket target lets it out. */
  lemma ResidualLegExitsOnBasketOnly(vars: Vars, v: View, cfg: Config)
    requires FindMain(v.positions).None?
    ensures Flag(Updated(vars, v, cfg), STRADDLE_EXIT)
       <==> && FindStraddle(v.positions).Some? && v.straddleLive
            && SeenPnl(vars, v) >= cfg.Target()
  {
    ExitFlags(vars, v, cfg);
  }

  /** With a non-negative profit target the second road to termination is closed: it asks for a
      basket below minus the tolerance and at or above the target minus the tolerance. */
  lemma TerminateIsEmergency(vars: Vars, v: View, cfg: Config)
    requires cfg.desiredBasketProfit >= 0.0
    ensures Flag(Updated(vars, v, cfg), BASKET_TERMINATE) <==> Flag(Updated(vars, v, cfg), BASKET_EMERGENCY)
  {
    hide Updated;
    ExitFlags(vars, v, cfg);
  }

  lemma TruncOfInt(n: int)
    ensures Trunc(n as real) == n
  {
  }

  /** The state and grace an update leaves behind. */
  lemma StateAfterUpdate(vars: Vars, v: View, cfg: Config)
    ensures var main, straddle := FindMain(v.positions), FindStraddle(v.positions);
      && StateOf(Updated(vars, v, cfg)) ==
         (if v.Flat() then 0
          else if straddle.Some? && v.straddleLive then StraddleVerdict(vars, v, cfg).state
          else if straddle.None? && v.mainLive then MainState(vars, main.value, v, cfg)
          else StateOf(vars))
      && GraceOf(Updated(vars, v, cfg)) ==
         (if straddle.Some? && v.straddleLive then StraddleVerdict(vars, v, cfg).grace else GraceOf(vars))
  {
    hide SizingOf, TargetPrice, NetProfit, LossPct, EmergencyLoss, SeenPnl, AdverseM3Bars, StraddleVerdict, MainState,
         MainLossPct, Coverage, LegValue, Baseline;
  }

  /** One update keeps the state range, never lowers the state while a position is open, and resets
      it when flat. */
  lemma UpdateKeepsState(vars: Vars, v: View, cfg: Config)
    requires StateInRange(vars, cfg)
    ensures StateInRange(Updated(vars, v, cfg), cfg)
    ensures !v.Flat() ==> StateOf(Updated(vars, v, cfg)) >= StateOf(vars)
    ensures v.Flat() ==> StateOf(Updated(vars, v, cfg)) == 0
  {
    hide Updated, NetProfit, EmergencyLoss, SeenPnl, Recovering, HardDrawdown, MainLossPct, NewM3, StateOf, GraceOf;
    StateAfterUpdate(vars, v, cfg);
  }

  /** Every update leaves the commands exclusive, and an armed basket without a baseline. */
  lemma UpdateKeepsCommands(vars: Vars, v: View, cfg: Config)
    ensures CommandsExclusive(Updated(vars, v, cfg))
    ensures ArmedMeansNoBaseline(Updated(vars, v, cfg))
  {
    hide AfterMain, Preamble, MainState, NetProfit, AdverseM3Bars, SizingOf, StraddleVerdict;
    ArmFlag(vars, v, cfg);
    ExitFlags(vars, v, cfg);
    if Flag(Updated(vars, v, cfg), STRADDLE_ARM) {
      var cleared := Preamble(vars, v, cfg)[MB_BASE_BALANCE := 0.0];
      PreambleFlags(vars, v, cfg);
      AfterMainFlags(vars, cleared, FindMain(v.positions).value, v, cfg, MB_BASE_BALANCE);
    }
  }

  /** A run of the brain: a first bus, and one view of the terminal per update. */
  function Run(vars: Vars, views: seq<View>, cfg: Config): Vars
    decreases |views|
  {
    if views == [] then vars else Updated(Run(vars, views[..|views| - 1], cfg), views[|views| - 1], cfg)
  }

  /** Over every run from a bus in range: the range holds at the end; if no update saw a flat
      terminal the state has not fallen; and after at least one update the commands exclude each
      other. */
  lemma {:induction false} RunKeepsState(vars: Vars, views: seq<View>, cfg: Config)
    requires StateInRange(vars, cfg)
    ensures StateInRange(Run(vars, views, cfg), cfg)
    ensures (forall i :: 0 <= i < |views| ==> !views[i].Flat()) ==> StateOf(Run(vars, views, cfg)) >= StateOf(vars)
    ensures views != [] ==> CommandsExclusive(Run(vars, views, cfg))
    ensures views != [] && cfg.desiredBasketProfit >= 0.0 ==>
      (Flag(Run(vars, views, cfg), BASKET_TERMINATE) <==> Flag(Run(vars, views, cfg), BASKET_EMERGENCY))
  {
    hide StateInRange, Updated, CommandsExclusive, StateOf, Flag;
    if views != [] {
      var front, last := views[..|views| - 1], views[|views| - 1];
      RunKeepsState(vars, front, cfg);
      UpdateKeepsState(Run(vars, front, cfg), last, cfg);
      UpdateKeepsCommands(Run(vars, front, cfg), last, cfg);
      if cfg.desiredBasketProfit >= 0.0 {
        TerminateIsEmergency(Run(vars, front, cfg), last, cfg);
      }
    }
  }

  /** An empty bus is in range. */
  lemma EmptyBusInRange(cfg: Config)
    ensures StateInRange(map[], cfg)
  {
  }

  // ---------------------------------------------------------------- basket accounting

  /** What one update does to the baseline: the first that sees a straddle fixes it to the balance of the
      moment, later ones keep it, and one that sees only a main clears it. */
  lemma UpdateBaseline(vars: Vars, v: View, cfg: Config)
    ensures var before, after := Get(vars, MB_BASE_BALANCE, 0.0), Get(Updated(vars, v, cfg), MB_BASE_BALANCE, 0.0);
      after == if FindStraddle(v.positions).Some? then (if v.straddleLive && before <= 0.0 then v.balance else before)
               else if FindMain(v.positions).Some? then 0.0 else before
  {
    hide StraddleVerdict, EmergencyLoss, SeenPnl, NetProfit, AfterMain, FindMain, FindStraddle;
    var pre := Preamble(vars, v, cfg)[MB_BASE_BALANCE := 0.0];
    PreambleFlags(vars, v, cfg);
    if FindMain(v.positions).Some? {
      AfterMainFlags(vars, pre, FindMain(v.positions).value, v, cfg, MB_BASE_BALANCE);
    }
  }

  /** Closing the main at the current quote moves its floating result into the balance.  With a baseline
      stored the basket changes by the commission subtracted while the main was open less the fee booked on
      closing, so by nothing without costs.  With none the basket is measured from the balance of the
      moment, and loses all the main contributed; the two come to the same exactly when the close books
      nothing. */
  lemma BasketIsContinuous(vars: Vars, main: Position, straddle: Option<Position>, balance: real, q: Quote)
    ensures var move := BasketPnl(vars, None, straddle, balance + Booked(main, q), q)
                        - BasketPnl(vars, Some(main), straddle, balance, q);
      var stored := Get(vars, MB_BASE_BALANCE, 0.0) > 0.0;
      && move == (if stored then SumAbs(main.deals) - main.exitFee else -LegValue(Some(main), q))
      && (move == SumAbs(main.deals) - main.exitFee <==> stored || Booked(main, q) == 0.0)
  {
    hide SumAbs, Profit;
  }
}
