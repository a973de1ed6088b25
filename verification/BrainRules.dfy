/** What an update of the brain decides, in prices, balances and equity: when it raises each command, what
    state it leaves behind, and what the figures it publishes are worth. */
module BrainRules {
  import opened Numeric
  import opened Wrappers
  import opened Terminal
  import opened BrainSizing
  import opened MasterBrain

  /** What a position has made so far: a buy is closed at the bid, a sell at the ask. */
  function Made(p: Position, q: Quote): real {
    (if p.side.BUY? then q.bid - p.open else p.open - q.ask) * p.volume * q.perUnit + p.swap
  }

  lemma MadeIsNet(p: Position, q: Quote)
    ensures NetProfit(p, q) == Made(p, q)
  {
    var move := q.Closing(p.side) - p.open;
    SignedMove(p.volume, q.perUnit, move);
  }

  lemma SignedMove(volume: real, perUnit: real, move: real)
    ensures 1.0 * volume * perUnit * move == move * volume * perUnit
    ensures -1.0 * volume * perUnit * move == (-move) * volume * perUnit
  {
  }

  /** What a leg adds to the basket: what it has made, less the commission paid for it. */
  function Adds(p: Option<Position>, live: bool, q: Quote): real {
    if p.Some? && live then Made(p.value, q) - SumAbs(p.value.deals) else 0.0
  }

  /** The basket: the balance gained since the baseline, if one is stored, and what the open legs add. */
  function Worth(vars: Vars, v: View): real {
    var stored := Get(vars, MB_BASE_BALANCE, 0.0);
    (if stored > 0.0 then v.balance - stored else 0.0)
    + Adds(FindMain(v.positions), v.mainLive, v.quote) + Adds(FindStraddle(v.positions), v.straddleLive, v.quote)
  }

  lemma SeenIsWorth(vars: Vars, v: View)
    ensures SeenPnl(vars, v) == Worth(vars, v)
  {
    hide Profit, Made;
    forall p: Position
      ensures Profit(p, v.quote) + p.swap == Made(p, v.quote)
    {
      MadeIsNet(p, v.quote);
    }
  }

  // ---------------------------------------------------------------- losses against equity

  /** A loss of at least this percentage of a positive equity. */
  predicate LosesPercent(made: real, percent: real, equity: real) {
    made < 0.0 && equity > 0.0 && -made * 100.0 >= percent * equity
  }

  lemma PercentOf(made: real, percent: real, equity: real)
    requires equity > 0.0
    ensures LossPct(made, equity) >= percent <==> -made * 100.0 >= percent * equity
    ensures LossPct(made, equity) <= percent <==> -made * 100.0 <= percent * equity
  {
    var pct := LossPct(made, equity);
    QuotientTimes(-made, equity, pct);
    Scaled(pct, percent, equity);
  }

  lemma QuotientTimes(a: real, e: real, pct: real)
    requires e > 0.0 && pct == a / e * 100.0
    ensures pct * e == a * 100.0
  {
    var x := a / e;
    assert x * e == a;
    assert x * 100.0 * e == x * e * 100.0;
  }

  lemma Scaled(a: real, b: real, p: real)
    requires p > 0.0
    ensures a >= b <==> a * p >= b * p
    ensures a <= b <==> a * p <= b * p
  {
    if a < b {
      MulLt(a, b, p, a * p, b * p);
    } else if b < a {
      MulLt(b, a, p, b * p, a * p);
    }
  }

  /** The main has stopped losing, or loses no more than the recovery percentage of a positive equity. */
  predicate Recovers(m: Position, v: View, cfg: Config) {
    var made := Made(m, v.quote);
    made >= 0.0 || (v.equity > 0.0 && -made * 100.0 <= cfg.recoveryDdPct * v.equity)
  }

  /** The hard loss: at least the configured percentage of equity, when one is configured. */
  predicate HardLoss(m: Position, v: View, cfg: Config) {
    cfg.hardDdPct > 0.0 && LosesPercent(Made(m, v.quote), cfg.hardDdPct, v.equity)
  }

  /** The loss, or the distance from the entry against the three-minute range, that starts a recovery. */
  predicate Activates(m: Position, v: View, cfg: Config) {
    var made := Made(m, v.quote);
    || (if made < 0.0 && v.equity > 0.0 then LosesPercent(made, cfg.activationDdPct, v.equity) else cfg.activationDdPct <= 0.0)
    || (v.atr3 > 0.0
        && Abs((if m.side.BUY? then v.quote.bid else v.quote.ask) - m.open) >= v.atr3 * cfg.activationAtr)
  }

  lemma MainRules(m: Position, v: View, cfg: Config)
    ensures Recovering(m, v, cfg) <==> Recovers(m, v, cfg)
    ensures HardDrawdown(m, v, cfg) <==> HardLoss(m, v, cfg)
  {
    hide NetProfit, Made, LossPct;
    MadeIsNet(m, v.quote);
    if v.equity > 0.0 {
      PercentOf(Made(m, v.quote), cfg.recoveryDdPct, v.equity);
      PercentOf(Made(m, v.quote), cfg.hardDdPct, v.equity);
    }
  }

  lemma TriggerRule(vars: Vars, m: Position, v: View, cfg: Config)
    ensures MainState(vars, m, v, cfg) == if StateOf(vars) == 0 && Activates(m, v, cfg) then 2 else StateOf(vars)
  {
    hide NetProfit, Made, LossPct, StateOf;
    MadeIsNet(m, v.quote);
    if v.equity > 0.0 {
      PercentOf(Made(m, v.quote), cfg.activationDdPct, v.equity);
    }
  }

  // ---------------------------------------------------------------- when each command is raised

  /** A live straddle is open. */
  predicate StraddleOpen(v: View) { FindStraddle(v.positions).Some? && v.straddleLive }

  /** The current three-minute bar has not been seen before. */
  predicate NewBar(vars: Vars, v: View) { v.m3Open != 0 && v.m3Open as real != Get(vars, MB_LAST_M3, 0.0) }

  /** The main of a basket is live and its loss has been hard, now or before. */
  predicate Hard(vars: Vars, v: View, cfg: Config) {
    && FindMain(v.positions).Some? && v.mainLive
    && (StateOf(vars) == 3 || (StateOf(vars) < 3 && HardLoss(FindMain(v.positions).value, v, cfg)))
  }

  /** The bars left to the basket: a loss that turns hard now grants them anew. */
  function Granted(vars: Vars, v: View, cfg: Config): int {
    if StateOf(vars) < 3 && Hard(vars, v, cfg) then cfg.graceM3Bars else GraceOf(vars)
  }

  /** The basket has lost both the tolerance and the emergency percentage of equity. */
  predicate Emergency(vars: Vars, v: View, cfg: Config) {
    && Worth(vars, v) <= -cfg.exitToleranceMoney
    && Worth(vars, v) <= -(v.equity * Max(0.1, cfg.emergencyBasketLossPct) / 100.0)
  }

  /** EMERGENCY is raised exactly for a live straddle whose basket has lost that much. */
  lemma EmergencyExactly(vars: Vars, v: View, cfg: Config)
    ensures Flag(Updated(vars, v, cfg), BASKET_EMERGENCY) <==> StraddleOpen(v) && Emergency(vars, v, cfg)
  {
    hide Updated, FindMain, FindStraddle, SeenPnl, Worth, Recovering, HardDrawdown, NewM3, StateOf, GraceOf;
    ExitFlags(vars, v, cfg);
    SeenIsWorth(vars, v);
  }

  /** EXIT is raised exactly for a live straddle: alone, when the basket has reached its target less the
      tolerance; next to a live main, when it has and the main recovers, or on a new bar of the hard state
      when the basket is back at the tolerance. */
  lemma ExitExactly(vars: Vars, v: View, cfg: Config)
    ensures var main, worth := FindMain(v.positions), Worth(vars, v);
      Flag(Updated(vars, v, cfg), STRADDLE_EXIT)
      <==> && StraddleOpen(v)
           && (if main.None? then worth >= cfg.desiredBasketProfit - cfg.exitToleranceMoney
               else v.mainLive &&
                    (|| (worth >= cfg.desiredBasketProfit - cfg.exitToleranceMoney && Recovers(main.value, v, cfg))
                     || (worth >= -cfg.exitToleranceMoney && NewBar(vars, v) && Hard(vars, v, cfg))))
  {
    hide Updated, FindMain, FindStraddle, SeenPnl, Worth, Recovering, HardDrawdown, StateOf, GraceOf, Recovers, HardLoss;
    ExitFlags(vars, v, cfg);
    SeenIsWorth(vars, v);
    if FindMain(v.positions).Some? {
      MainRules(FindMain(v.positions).value, v, cfg);
    }
  }

  /** TERMINATE is raised exactly in an emergency, or when the last granted bar of the hard state passes with
      the basket below the tolerance and yet at its target less the tolerance. */
  lemma TerminateExactly(vars: Vars, v: View, cfg: Config)
    ensures var worth := Worth(vars, v);
      Flag(Updated(vars, v, cfg), BASKET_TERMINATE)
      <==> StraddleOpen(v) &&
           (|| Emergency(vars, v, cfg)
            || (NewBar(vars, v) && Hard(vars, v, cfg) && Granted(vars, v, cfg) <= 1
                && cfg.desiredBasketProfit - cfg.exitToleranceMoney <= worth < -cfg.exitToleranceMoney))
  {
    hide Updated, FindMain, FindStraddle, SeenPnl, Worth, Recovering, HardDrawdown, StateOf, GraceOf, Recovers, HardLoss;
    ExitFlags(vars, v, cfg);
    SeenIsWorth(vars, v);
    if FindMain(v.positions).Some? {
      MainRules(FindMain(v.positions).value, v, cfg);
    }
  }

  /** ARM is raised exactly without a straddle, for a live main that has lost, in a recovery that has started
      before or starts now, after two closed bars against it, when the sizing is positive. */
  lemma ArmExactly(vars: Vars, v: View, cfg: Config)
    ensures Flag(Updated(vars, v, cfg), STRADDLE_ARM)
       <==> && FindStraddle(v.positions).None? && FindMain(v.positions).Some? && v.mainLive
            && var m := FindMain(v.positions).value;
            && Made(m, v.quote) < 0.0
            && (StateOf(vars) >= 2 || (StateOf(vars) == 0 && Activates(m, v, cfg)))
            && AgainstTwice(m, v)
            && SizingOf(m, v, cfg).lots > 0.0
  {
    hide Updated, FindMain, FindStraddle, MainState, NetProfit, Made, SizingOf, StateOf, Activates, AdverseM3Bars, AgainstTwice;
    ArmFlag(vars, v, cfg);
    if FindMain(v.positions).Some? {
      AdverseTwice(FindMain(v.positions).value, v);
      MadeIsNet(FindMain(v.positions).value, v.quote);
      TriggerRule(vars, FindMain(v.positions).value, v, cfg);
    }
  }

  /** The state an update leaves: 0 when flat; 3 once the loss of a live main next to a live straddle is hard;
      2 once the recovery of a live lone main has started; and otherwise what it was. */
  lemma StateExactly(vars: Vars, v: View, cfg: Config)
    ensures var main, straddle := FindMain(v.positions), FindStraddle(v.positions);
      StateOf(Updated(vars, v, cfg)) ==
        if main.None? && straddle.None? then 0
        else if StraddleOpen(v) && Hard(vars, v, cfg) then 3
        else if straddle.None? && v.mainLive && StateOf(vars) == 0 && Activates(main.value, v, cfg) then 2
        else StateOf(vars)
  {
    hide Updated, FindMain, FindStraddle, SeenPnl, Recovering, HardDrawdown, StateOf, GraceOf, MainState, HardLoss, Activates,
         EmergencyLoss;
    StateAfterUpdate(vars, v, cfg);
    if FindMain(v.positions).Some? {
      MainRules(FindMain(v.positions).value, v, cfg);
      TriggerRule(vars, FindMain(v.positions).value, v, cfg);
    }
  }

  /** The grace an update leaves: what was granted, less one on a new bar of the hard state, never below zero
      from above. */
  lemma GraceExactly(vars: Vars, v: View, cfg: Config)
    ensures var granted := Granted(vars, v, cfg);
      GraceOf(Updated(vars, v, cfg)) ==
        if !StraddleOpen(v) then GraceOf(vars)
        else if NewBar(vars, v) && Hard(vars, v, cfg) && granted > 0 then granted - 1
        else granted
  {
    hide Updated, FindMain, FindStraddle, SeenPnl, Recovering, HardDrawdown, StateOf, GraceOf, HardLoss, EmergencyLoss;
    StateAfterUpdate(vars, v, cfg);
    if FindMain(v.positions).Some? {
      MainRules(FindMain(v.positions).value, v, cfg);
    }
  }

  // ---------------------------------------------------------------- the figures beside the commands

  /** A bar is new once: an update that knows the current bar remembers it. */
  lemma BarIsNewOnce(vars: Vars, v: View, cfg: Config)
    ensures Get(Updated(vars, v, cfg), MB_LAST_M3, 0.0) == if v.m3Open != 0 then v.m3Open as real else Get(vars, MB_LAST_M3, 0.0)
    ensures !NewBar(Updated(vars, v, cfg), v)
  {
    hide FindMain, FindStraddle, StraddleVerdict, EmergencyLoss, SeenPnl, NetProfit, Baseline, SizingOf, TargetPrice, Coverage,
         WantsStraddle, MainState, MainLossPct, AdverseM3Bars;
  }

  /** With nothing of ours open the figures are cleared. */
  lemma FlatIsCleared(vars: Vars, v: View, cfg: Config)
    requires v.Flat()
    ensures var after := Updated(vars, v, cfg);
      forall k :: k in {M1_STATE, RISK_STATE, BASKET_PNL, STRADDLE_ACTIVE_PNL} ==> k in after && after[k] == 0.0
  {
  }

  /** With a live lone main: its loss in percent of equity, whether the last bars moved against it, and the state. */
  lemma MainFigures(vars: Vars, v: View, cfg: Config)
    requires FindStraddle(v.positions).None? && FindMain(v.positions).Some? && v.mainLive
    ensures var m, after := FindMain(v.positions).value, Updated(vars, v, cfg);
      var made, pct := Made(m, v.quote), Get(after, POSITION_LOSS_PCT, 0.0);
      && (if made < 0.0 && v.equity > 0.0 then pct * v.equity == -made * 100.0 else pct == 0.0)
      && Get(after, DD_PCT, 0.0) == pct
      && Get(after, M1_STATE, 0.0) == Get(after, RISK_STATE, 0.0)
      && (Flag(after, M3_ADVERSE) <==> AgainstTwice(m, v))
  {
    hide Updated, FindMain, FindStraddle, MainState, NetProfit, Made, AgainstTwice, AdverseM3Bars, LossPct;
    var m := FindMain(v.positions).value;
    PublishedLoss(vars, v, cfg);
    MadeIsNet(m, v.quote);
    AdverseTwice(m, v);
    if v.equity > 0.0 {
      LossIs(Made(m, v.quote), v.equity);
      QuotientTimes(-Made(m, v.quote), v.equity, LossPct(Made(m, v.quote), v.equity));
    }
  }

  lemma PublishedLoss(vars: Vars, v: View, cfg: Config)
    requires FindStraddle(v.positions).None? && FindMain(v.positions).Some? && v.mainLive
    ensures var m, after := FindMain(v.positions).value, Updated(vars, v, cfg);
      && Get(after, POSITION_LOSS_PCT, 0.0) == Get(after, DD_PCT, 0.0) == MainLossPct(m, v)
      && Get(after, M1_STATE, 0.0) == Get(after, RISK_STATE, 0.0)
      && Get(after, M3_ADVERSE, 0.0) == Bit(AdverseM3Bars(v.rates, m.side.BUY?) >= 2)
  {
    hide FindMain, FindStraddle, SizingOf, TargetPrice, Coverage, WantsStraddle, MainState, MainLossPct, AdverseM3Bars;
  }

  lemma LossIs(made: real, equity: real)
    requires equity > 0.0
    ensures LossPct(made, equity) == -made / equity * 100.0
  {
  }

  /** The last two closed bars both moved against the main, among at least four copied. */
  predicate AgainstTwice(m: Position, v: View) {
    && |v.rates| >= 4
    && (forall i :: 1 <= i <= 2 ==> if m.side.BUY? then v.rates[i].close < v.rates[i].open
                                    else v.rates[i].close > v.rates[i].open)
  }

  lemma AdverseTwice(m: Position, v: View)
    ensures AdverseM3Bars(v.rates, m.side.BUY?) >= 2 <==> AgainstTwice(m, v)
  {
  }

  /** With a live straddle: the baseline the basket is measured from, and the loss that is an emergency. */
  lemma StraddleFigures(vars: Vars, v: View, cfg: Config)
    requires StraddleOpen(v)
    ensures var after := Updated(vars, v, cfg);
      && Get(after, BASKET_BASE_BALANCE, 0.0) == Get(after, MB_BASE_BALANCE, 0.0)
      && Get(after, BASKET_EMERGENCY_LOSS, 0.0) >= cfg.exitToleranceMoney
      && (Emergency(vars, v, cfg) <==> Worth(vars, v) + Get(after, BASKET_EMERGENCY_LOSS, 0.0) <= 0.0)
  {
    hide FindMain, FindStraddle, StraddleVerdict, SeenPnl, Worth, NetProfit;
  }

  // ---------------------------------------------------------------- what an armed request is worth

  /** The money one lot makes on the way from the current price back to the main's entry. */
  function Gap(m: Position, q: Quote): real { Abs(m.open - (if m.side.BUY? then q.bid else q.ask)) * q.perUnit }

  /** What the straddle is to earn: the main's floating loss, its commission and swap, and a buffer, times a
      safety factor of at least one. */
  function Owed(m: Position, v: View, cfg: Config): real {
    (Abs(Made(m, v.quote) - m.swap) + SumAbs(m.deals) + Abs(m.swap) + cfg.profitBufferMoney) * Max(1.0, cfg.safetyFactor)
  }

  lemma GapIsMoneyPerLot(m: Position, q: Quote)
    requires q.perUnit > 0.0
    ensures MoneyPerLot(m.side.Opposite(), q.Closing(m.side), m.open, q.perUnit) == Gap(m, q)
  {
    var move := m.open - q.Closing(m.side);
    SignedMove(1.0, q.perUnit, move);
    AbsProduct(q.perUnit, move);
    SignedMove(1.0, q.perUnit, -move);
  }

  lemma OwedIsRequired(m: Position, v: View, cfg: Config)
    ensures SizingOf(m, v, cfg).money == Owed(m, v, cfg)
  {
    hide Profit, Made, RoundUpLots, SumAbs;
    MadeIsNet(m, v.quote);
    var factor := Max(1.0, cfg.safetyFactor);
    MulCongruence(Abs(Made(m, v.quote) - m.swap) + SumAbs(m.deals) + Abs(m.swap) + cfg.profitBufferMoney,
                  Abs(Profit(m, v.quote)) + (SumAbs(m.deals) + Abs(m.swap)) + cfg.profitBufferMoney, factor);
  }

  lemma SizedFigures(vars: Vars, v: View, cfg: Config)
    requires Flag(Updated(vars, v, cfg), STRADDLE_ARM)
    ensures FindMain(v.positions).Some?
    ensures var m, s, after := FindMain(v.positions).value, SizingOf(FindMain(v.positions).value, v, cfg), Updated(vars, v, cfg);
      && Get(after, STRADDLE_REQUIRED_MONEY, 0.0) == s.money
      && Get(after, STRADDLE_REQUIRED_LOTS, 0.0) == s.required
      && Get(after, STRADDLE_LOTS, 0.0) == s.lots > 0.0
      && Get(after, STRADDLE_COVERAGE, 0.0) == Coverage(s)
      && Get(after, BASKET_TARGET_PRICE, 0.0) == Get(after, STRADDLE_TP_PRICE, 0.0) == TargetPrice(m, v, cfg)
      && Get(after, BASKET_BE_PRICE, 0.0) == Get(after, STRADDLE_MAIN_ENTRY, 0.0) == m.open
      && Get(after, STRADDLE_START, 0.0) == v.quote.Closing(m.side)
      && Get(after, STRADDLE_GAP_MONEY_PER_LOT, 0.0) == s.oneLotGap
      && Get(after, STRADDLE_TARGET_DISTANCE, 0.0) == Abs(TargetPrice(m, v, cfg) - v.quote.Closing(m.side))
  {
    hide FindMain, FindStraddle, SizingOf, WantsStraddle, MainState, MainLossPct, TargetPrice, AdverseM3Bars, NetProfit, Coverage;
    ArmFlag(vars, v, cfg);
    WantedIs(vars, v, cfg);
  }

  lemma WantedIs(vars: Vars, v: View, cfg: Config)
    requires Flag(Updated(vars, v, cfg), STRADDLE_ARM)
    ensures FindStraddle(v.positions).None? && FindMain(v.positions).Some? && v.mainLive
    ensures WantsStraddle(vars, FindMain(v.positions).value, v, cfg)
  {
    hide Updated, FindMain, FindStraddle, SizingOf, MainState, AdverseM3Bars, NetProfit;
    ArmFlag(vars, v, cfg);
  }

  /** An armed request has a gap to cover. */
  lemma GapIsPositive(vars: Vars, v: View, cfg: Config)
    requires Flag(Updated(vars, v, cfg), STRADDLE_ARM) && v.quote.perUnit > 0.0
    ensures FindMain(v.positions).Some? && Gap(FindMain(v.positions).value, v.quote) > 0.0
  {
    hide Updated, FindMain, FindStraddle;
    WantedIs(vars, v, cfg);
    var m := FindMain(v.positions).value;
    var move := m.open - v.quote.Closing(m.side);
    if move == 0.0 {
      NoGapNoRequest(vars, v, cfg);
    }
    assert Abs(move) * v.quote.perUnit >= 0.0;
  }

  /** An armed request, in money: over the gap the published requirement earns exactly what is owed, and the
      volume asked for is that requirement rounded up and capped. */
  lemma RequestEarnsWhatIsOwed(vars: Vars, v: View, cfg: Config)
    requires Flag(Updated(vars, v, cfg), STRADDLE_ARM) && v.quote.perUnit > 0.0
    ensures FindMain(v.positions).Some?
    ensures var m, after := FindMain(v.positions).value, Updated(vars, v, cfg);
      && IsProduct(Get(after, STRADDLE_REQUIRED_LOTS, 0.0), Gap(m, v.quote), Owed(m, v, cfg))
      && Get(after, STRADDLE_LOTS, 0.0) == RoundUpLots(v.spec, Get(after, STRADDLE_REQUIRED_LOTS, 0.0), cfg.maxStraddleLot)
      && Get(after, STRADDLE_REQUIRED_MONEY, 0.0) == Owed(m, v, cfg)
  {
    hide Updated, FindMain, FindStraddle, Owed, Gap, RequiredMoney, MoneyPerLot, Profit, RoundUpLots, IsProduct, RequiredLots;
    SizedFigures(vars, v, cfg);
    var m := FindMain(v.positions).value;
    OwedIsRequired(m, v, cfg);
    GapIsMoneyPerLot(m, v.quote);
    GapIsPositive(vars, v, cfg);
    RequiredIsQuotient(SizingOf(m, v, cfg).money, Gap(m, v.quote));
  }

  /** Prices of an armed request: where it starts, the main's entry, and the gap between them, a point wide when
      there is none. */
  lemma PublishedPrices(vars: Vars, v: View, cfg: Config)
    requires Flag(Updated(vars, v, cfg), STRADDLE_ARM)
    ensures FindMain(v.positions).Some?
    ensures var m, after := FindMain(v.positions).value, Updated(vars, v, cfg);
      var start, target := Get(after, STRADDLE_START, 0.0), Get(after, BASKET_TARGET_PRICE, 0.0);
      && start == (if m.side.BUY? then v.quote.bid else v.quote.ask)
      && Get(after, STRADDLE_MAIN_ENTRY, 0.0) == Get(after, BASKET_BE_PRICE, 0.0) == m.open
      && Get(after, STRADDLE_GAP_PRICE, 0.0) == Get(after, STRADDLE_BE_DISTANCE, 0.0)
      && Get(after, STRADDLE_GAP_PRICE, 0.0) == (if m.open > start then m.open - start else if start > m.open then start - m.open else v.point)
      && Get(after, STRADDLE_TP_PRICE, 0.0) == target
      && Get(after, STRADDLE_TARGET_DISTANCE, 0.0) == (if target >= start then target - start else start - target)
  {
    hide FindMain, FindStraddle, SizingOf, WantsStraddle, MainState, MainLossPct, TargetPrice, AdverseM3Bars, NetProfit, Coverage;
    SizedFigures(vars, v, cfg);
    WantedIs(vars, v, cfg);
  }

  /** Without a gap between entry and price nothing is asked for. */
  lemma NoGapNoRequest(vars: Vars, v: View, cfg: Config)
    requires FindMain(v.positions).Some? ==> Gap(FindMain(v.positions).value, v.quote) == 0.0
    ensures !Flag(Updated(vars, v, cfg), STRADDLE_ARM)
  {
    hide Updated, FindMain, FindStraddle, MainState, NetProfit, AdverseM3Bars, Profit;
    ArmFlag(vars, v, cfg);
    if FindMain(v.positions).Some? {
      NoGapNoMoney(FindMain(v.positions).value, v.quote);
    }
  }

  lemma NoGapNoMoney(m: Position, q: Quote)
    requires Gap(m, q) == 0.0
    ensures MoneyPerLot(m.side.Opposite(), q.Closing(m.side), m.open, q.perUnit) == 0.0
  {
    var move := m.open - q.Closing(m.side);
    SignedMove(1.0, q.perUnit, move);
    assert move == 0.0 || q.perUnit == 0.0;
  }

  /** The published coverage is the share of what is owed that the volume earns over the gap, in percent and at
      most 9999; and all of it when nothing is owed. */
  lemma CoverageIsShare(vars: Vars, v: View, cfg: Config)
    requires Flag(Updated(vars, v, cfg), STRADDLE_ARM) && v.quote.perUnit > 0.0
    ensures FindMain(v.positions).Some?
    ensures var m, after := FindMain(v.positions).value, Updated(vars, v, cfg);
      var covered, owed := Get(after, STRADDLE_LOTS, 0.0) * Gap(m, v.quote) * 100.0, Owed(m, v, cfg);
      if owed > 0.0
      then Get(after, STRADDLE_COVERAGE, 0.0) * owed == if covered <= 9999.0 * owed then covered else 9999.0 * owed
      else Get(after, STRADDLE_COVERAGE, 0.0) == 100.0
  {
    hide Updated, FindMain, FindStraddle, Owed, Gap, RequiredMoney, MoneyPerLot, Profit, RoundUpLots, RequiredLots, Coverage;
    SizedFigures(vars, v, cfg);
    var m := FindMain(v.positions).value;
    OwedIsRequired(m, v, cfg);
    GapIsMoneyPerLot(m, v.quote);
    GapIsPositive(vars, v, cfg);
    CoverageOf(SizingOf(m, v, cfg));
  }

  lemma CoverageOf(s: Sizing)
    requires s.oneLotGap > 0.0
    ensures var covered := s.lots * s.oneLotGap * 100.0;
      if s.money > 0.0 then Coverage(s) * s.money == if covered <= 9999.0 * s.money then covered else 9999.0 * s.money
      else Coverage(s) == 100.0
  {
    if s.money > 0.0 {
      var pct := s.lots * s.oneLotGap / s.money * 100.0;
      QuotientTimes(s.lots * s.oneLotGap, s.money, pct);
      Scaled(9999.0, pct, s.money);
    }
  }

  /** At the published target the straddle beyond the main earns the desired profit times the factor, counted
      from the main's entry; without a volume beyond the main, or a profit to earn, it is the entry itself. */
  lemma TargetEarnsTheProfit(vars: Vars, v: View, cfg: Config)
    requires Flag(Updated(vars, v, cfg), STRADDLE_ARM) && v.quote.perUnit > 0.0
    ensures FindMain(v.positions).Some?
    ensures var m, after := FindMain(v.positions).value, Updated(vars, v, cfg);
      var target, net := Get(after, BASKET_TARGET_PRICE, 0.0), Get(after, STRADDLE_LOTS, 0.0) - m.volume;
      if net > 0.0 && cfg.desiredBasketProfit > 0.0
      then (if m.side.BUY? then m.open - target else target - m.open) * (net * v.quote.perUnit)
           == cfg.desiredBasketProfit * Max(1.0, cfg.tpFactor)
      else target == m.open
  {
    hide Updated, FindMain, FindStraddle, TargetPrice, SizingOf;
    SizedFigures(vars, v, cfg);
    TargetOf(FindMain(v.positions).value, v, cfg);
  }

  lemma TargetOf(m: Position, v: View, cfg: Config)
    requires v.quote.perUnit > 0.0
    ensures var target, net := TargetPrice(m, v, cfg), SizingOf(m, v, cfg).lots - m.volume;
      if net > 0.0 && cfg.desiredBasketProfit > 0.0
      then (if m.side.BUY? then m.open - target else target - m.open) * (net * v.quote.perUnit)
           == cfg.desiredBasketProfit * Max(1.0, cfg.tpFactor)
      else target == m.open
  {
    hide SizingOf, TargetPrice;
    var lots := SizingOf(m, v, cfg).lots;
    var net, point := lots - m.volume, if v.point <= 0.0 then 0.00001 else v.point;
    var unit := v.quote.perUnit * point;
    TargetIs(m, v, cfg);
    NetSteps(unit, lots, m.volume);
    if net > 0.0 && cfg.desiredBasketProfit > 0.0 {
      DistanceEarns(cfg.desiredBasketProfit, unit * net, point, Max(1.0, cfg.tpFactor), v.quote.perUnit, net);
    }
  }

  /** The distance that earns the desired profit when a point earns this much. */
  function ExtraDistance(perPoint: real, point: real, cfg: Config): real {
    var netStep := Max(0.0, perPoint);
    if netStep > 0.0 && cfg.desiredBasketProfit > 0.0
    then cfg.desiredBasketProfit / netStep * point * Max(1.0, cfg.tpFactor) else 0.0
  }

  lemma TargetIs(m: Position, v: View, cfg: Config)
    requires v.quote.perUnit > 0.0
    ensures var point := if v.point <= 0.0 then 0.00001 else v.point;
      var unit := v.quote.perUnit * point;
      var extra := ExtraDistance(unit * SizingOf(m, v, cfg).lots - unit * m.volume, point, cfg);
      TargetPrice(m, v, cfg) == if m.side.BUY? then m.open - extra else m.open + extra
  {
    hide SizingOf, MoneyPerLot;
    PointMoney(m.side, v.quote.Closing(m.side), if v.point <= 0.0 then 0.00001 else v.point, v.quote.perUnit);
  }

  /** What a lot earns over one point, either way. */
  lemma PointMoney(side: Side, current: real, point: real, perUnit: real)
    requires point > 0.0 && perUnit > 0.0
    ensures MoneyPerLot(side, current, current + side.Opposite().Sign() * point, perUnit) == perUnit * point
    ensures MoneyPerLot(side.Opposite(), current, current + side.Opposite().Sign() * point, perUnit) == perUnit * point
  {
    var move := side.Opposite().Sign() * point;
    assert (current + move) - current == move;
    SignedMove(1.0, perUnit, move);
    AbsProduct(perUnit, point);
    assert (-point) * 1.0 * perUnit == -(perUnit * point);
  }

  lemma NetSteps(unit: real, lots: real, volume: real)
    requires unit > 0.0
    ensures unit * lots - unit * volume == unit * (lots - volume)
    ensures unit * (lots - volume) > 0.0 <==> lots - volume > 0.0
  {
    if lots - volume <= 0.0 {
      assert unit * (lots - volume) <= 0.0;
    }
  }

  lemma DistanceEarns(profit: real, step: real, point: real, factor: real, perUnit: real, net: real)
    requires point > 0.0 && net > 0.0 && perUnit > 0.0 && step == perUnit * point * net && step > 0.0
    ensures profit / step * point * factor * (net * perUnit) == profit * factor
  {
    var x := profit / step;
    assert x * step == profit;
    assert x * point * factor * (net * perUnit) == x * (perUnit * point * net) * factor;
  }
}
