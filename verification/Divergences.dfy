/** Two runs on which the brain and the advisor do not keep what their comments promise: one loses the main's
    result from the basket, the other opens a straddle sized for a main that is gone.  Both from any state
    armed for them, and both as whole legal runs of an advisor just attached. */
module Divergences {
  import opened Numeric
  import opened Wrappers
  import opened Terminal
  import opened BrainSizing
  import opened MasterBrain
  import opened Executor
  import opened Protocol

  /** A tick in which nothing happens but the advisor's own steps. */
  function Calm(a: Answers, attempts: seq<Attempt>): TickInput {
    TickInput([], false, false, {}, false, a, false, false, a, attempts != [], attempts)
  }

  /** No exit is commanded. */
  predicate NoExits(vars: Vars) {
    !Flag(vars, STRADDLE_EXIT) && !Flag(vars, BASKET_TERMINATE) && !Flag(vars, BASKET_EMERGENCY)
  }

  /** Without a straddle and with no exit commanded such a tick comes to the first pass over the commands
      unchanged. */
  lemma CalmTick(w: World, s: Settings, a: Answers, attempts: seq<Attempt>, cfg: Config)
    requires s.spec.min > 0.0 && s.useObserverNetwork && Inv(w, s, cfg, true)
    requires FindStraddle(w.positions).None? && NoExits(w.vars)
    ensures var w0 := ReadNetwork(w, s);
      && w0 == w.(ok := true, lots := Get(w.vars, STRADDLE_LOTS, 0.0), arm := Flag(w.vars, STRADDLE_ARM), exit := false,
                  terminate := false, held := w.published)
      && Tick(w, s, Calm(a, attempts), cfg) == Finish(Execute(w0, s, a), s, Calm(a, attempts), cfg)
    ensures LegalTick(w, s, Calm(a, attempts), cfg, true)
  {
    hide Execute, Finish, StateInRange, OpeningOk, Legs, Ledger, Shape, RecoveryDue, FindStraddle, NoStraddle, Second, Breached;
    var w0 := ReadNetwork(w, s);
    RecoveryNeverDue(w, s, true);
    assert Guard(w0, false, false) == (w0, false);
    assert Manage(w0, s, Calm(a, attempts)) == w0;
  }

  /** A brain request the executor would send against this main, on a hedging account with the order filled. */
  predicate Sends(w: World, s: Settings, main: Position, a: Answers)
    requires s.spec.min > 0.0
  {
    var w0 := ReadNetwork(w, s);
    s.hedging && a.gate && a.filled.Some? && Validated(w0, s, main) > 0.0 && Executable(w0, s, main, a) > 0.0
  }

  /** A straddle was opened against this main, and recorded. */
  predicate Opened(w: World, t: World, main: Position, f: Fill) {
    && t.positions != [] && t.positions[..|t.positions| - 1] == w.positions
    && IsStraddle(t.positions[|t.positions| - 1]) && t.positions[|t.positions| - 1].ticket > w.lastTicket
    && t.positions[|t.positions| - 1]
       == NewPosition(t.lastTicket, f, main.side.Opposite(), Straddle, t.positions[|t.positions| - 1].volume)
    && t.history != [] && t.history[..|t.history| - 1] == w.history
    && t.history[|t.history| - 1].main == main
    && t.history[|t.history| - 1].sizedFor == w.held && t.history[|t.history| - 1].requested == w.lots
    && t.history[|t.history| - 1].entries == w.entries
    && t.vars == w.vars[STRADDLE_ARM := 0.0]
    && t.balance == w.balance - f.fee && t.quote == w.quote && t.now == w.now
    && !t.arm && t.exit == w.exit && t.terminate == w.terminate
  }

  /** With a lone main, ARM up and a live brain, a calm tick opens the straddle. */
  lemma ArmedTickOpens(w: World, s: Settings, a: Answers, cfg: Config)
    requires s.spec.min > 0.0 && s.useObserverNetwork && Inv(w, s, cfg, true) && Flag(w.vars, STRADDLE_ARM) && BrainAlive(w, s)
    requires FindMain(w.positions).Some? && Sends(w, s, FindMain(w.positions).value, a)
    ensures LegalTick(w, s, Calm(a, []), cfg, true)
    ensures Opened(ReadNetwork(w, s), Tick(w, s, Calm(a, []), cfg), FindMain(w.positions).value, a.filled.value)
  {
    hide Inv, FindMain, FindStraddle, Tick, LegalTick, BrainAlive, ArmStraddle, Finish, Execute, Opened, Validated, Executable;
    ArmedFacts(w, s, cfg);
    CalmTick(w, s, a, [], cfg);
    AliveAsRead(w, s);
    var w0 := ReadNetwork(w, s);
    ArmOpens(w0, s, a);
    OnlyArmed(w0, s, a);
    var w1 := ArmStraddle(w0, s, a);
    OpenedSettled(w0, w1, FindMain(w.positions).value, a.filled.value);
    Settles(w1, s, a, cfg);
  }

  lemma OpenedSettled(w: World, t: World, main: Position, f: Fill)
    requires Opened(w, t, main, f)
    ensures !t.arm && t.exit == w.exit && t.terminate == w.terminate
  {
  }

  lemma AliveAsRead(w: World, s: Settings)
    ensures BrainAlive(ReadNetwork(w, s), s) == BrainAlive(w, s)
  {
  }

  /** ARM up on a trusted bus. */
  lemma ArmedFacts(w: World, s: Settings, cfg: Config)
    requires s.spec.min > 0.0 && Inv(w, s, cfg, true) && Flag(w.vars, STRADDLE_ARM)
    ensures FindStraddle(w.positions).None? && Get(w.vars, MB_BASE_BALANCE, 0.0) == 0.0
    ensures NoExits(w.vars)
    ensures w.published.SizedFor? ==> Get(w.vars, STRADDLE_LOTS, 0.0) == w.published.lots
  {
    hide Shape, Legs, OpeningOk, Ledger, StateInRange;
    NoStraddleFound(w.positions);
  }

  /** An arming that is sent opens the straddle. */
  lemma ArmOpens(w: World, s: Settings, a: Answers)
    requires s.spec.min > 0.0 && FindStraddle(w.positions).None? && FindMain(w.positions).Some?
    requires ReadNetwork(w, s) == w && Sends(w, s, FindMain(w.positions).value, a)
    ensures Opened(w, ArmStraddle(w, s, a), FindMain(w.positions).value, a.filled.value)
  {
    hide Validated, Executable, ReadNetwork, FindMain, FindStraddle, ExecutionCap;
  }

  /** With neither an exit nor a termination held, a pass over the commands is the arming. */
  lemma OnlyArmed(w: World, s: Settings, a: Answers)
    requires s.spec.min > 0.0 && w.ok && !w.exit && !w.terminate && w.arm && BrainAlive(w, s)
    ensures Execute(w, s, a) == ArmStraddle(w, s, a)
  {
    hide ArmStraddle, BrainAlive, FindStraddle, CloseBoth;
  }

  /** With no command held a calm tick has nothing left to do. */
  lemma Settles(w: World, s: Settings, a: Answers, cfg: Config)
    requires s.spec.min > 0.0 && !w.arm && !w.exit && !w.terminate
    ensures Finish(w, s, Calm(a, []), cfg) == w
  {
    hide ArmStraddle, BrainAlive, FindStraddle, FindMain, CloseBoth;
    assert Execute(w, s, a) == w;
  }

  /** The broker has issued every ticket there is, once. */
  predicate Tickets(w: World) {
    UniqueTickets(w.positions) && forall p :: p in w.positions ==> p.ticket <= w.lastTicket
  }

  lemma MainStaysLast(w: World, t: World, main: Position, f: Fill)
    requires Opened(w, t, main, f) && Tickets(w) && FindMain(w.positions) == Some(main)
    ensures FindMain(t.positions) == Some(main) && FindStraddle(t.positions) == Some(t.positions[|t.positions| - 1])
    ensures UniqueTickets(t.positions)
  {
    hide FindMain, FindStraddle;
    var n := |t.positions| - 1;
    LastScanned(t.positions);
    assert forall i :: 0 <= i < n ==> t.positions[i] == t.positions[..n][i] && t.positions[i] in w.positions;
  }

  lemma LastScanned(ps: seq<Position>)
    requires ps != [] && IsStraddle(ps[|ps| - 1])
    ensures FindMain(ps) == FindMain(ps[..|ps| - 1]) && FindStraddle(ps) == Some(ps[|ps| - 1])
  {
  }

  /** How such a state comes about: the brain looks at a live losing main without a straddle and wants one. */
  lemma BrainArms(w: World, v: View, s: Settings, cfg: Config)
    requires s.spec.min > 0.0 && Inv(w, s, cfg, true) && Legal(w, BrainUpdate(v), true) && v.now > 0 && s.brainMaxAge >= 0
    requires FindStraddle(w.positions).None? && FindMain(w.positions).Some? && v.mainLive
    requires WantsStraddle(w.vars, FindMain(w.positions).value, v, cfg) && SizingOf(FindMain(w.positions).value, v, cfg).lots > 0.0
    ensures var u, main := React(w, BrainUpdate(v), cfg), FindMain(w.positions).value;
      && Inv(u, s, cfg, true) && Flag(u.vars, STRADDLE_ARM) && BrainAlive(u, s)
      && u.published == SizedFor(main.ticket, w.entries, SizingOf(main, v, cfg).lots)
      && Get(u.vars, STRADDLE_LOTS, 0.0) == SizingOf(main, v, cfg).lots
  {
    hide Inv, FindMain, FindStraddle, Updated;
    BrainKeeps(w, v, s, cfg, true);
    ArmFlag(w.vars, v, cfg);
    PublishedFigures(w.vars, v, cfg);
    TruncOfInt(v.now);
  }

  /** The run that loses the main's result, from any trusted state with a lone main and ARM up: the advisor
      opens the straddle, and the broker closes the main before the brain has looked again.  It is legal; the
      close drops all the main contributed from the basket; and what the brain then publishes is the
      straddle's result alone, against a baseline it stores only now. */
  lemma LossBeforeTheFirstLook(w: World, s: Settings, a: Answers, v: View, cfg: Config)
    requires s.spec.min > 0.0 && s.useObserverNetwork && s.onePositionOnly && Tickets(w)
    requires Inv(w, s, cfg, true) && Flag(w.vars, STRADDLE_ARM) && BrainAlive(w, s)
    requires FindMain(w.positions).Some? && Sends(w, s, FindMain(w.positions).value, a)
    requires var t := Tick(w, s, Calm(a, []), cfg);
      Legal(CloseTickets(t, {FindMain(w.positions).value.ticket}), BrainUpdate(v), true) && v.straddleLive
    ensures var main := FindMain(w.positions).value;
      var t := Tick(w, s, Calm(a, []), cfg);
      var u := CloseTickets(t, {main.ticket});
      var steps := [AdvisorTick(Calm(a, [])), Happens(BrokerClose({main.ticket})), Happens(BrainUpdate(v))];
      && LegalRun(w, steps, s, cfg, true)
      && BasketOf(u) - BasketOf(t) == -LegValue(Some(main), w.quote)
      && u.balance == w.balance - a.filled.value.fee + Booked(main, w.quote)
      && Protocol.Run(w, steps, s, cfg).balance == u.balance
      && FindStraddle(u.positions).Some?
      && FindStraddle(u.positions).value
         == NewPosition(t.lastTicket, a.filled.value, main.side.Opposite(), Straddle, FindStraddle(u.positions).value.volume)
      && Get(Protocol.Run(w, steps, s, cfg).vars, BASKET_PNL, 0.0) == LegValue(FindStraddle(u.positions), w.quote)
      && Get(Protocol.Run(w, steps, s, cfg).vars, MB_BASE_BALANCE, 0.0) == u.balance
  {
    hide Inv, FindMain, FindStraddle, Tick, BrainAlive, Validated, Executable, LegValue, Shape, Legs, UniqueTickets, Updated,
         BasketOf, LegalTick, Keep, SumBooked, LegalRun, Protocol.Run;
    var main := FindMain(w.positions).value;
    var i := Calm(a, []);
    ArmedTickOpens(w, s, a, cfg);
    var t := Tick(w, s, i, cfg);
    MainStaysLast(ReadNetwork(w, s), t, main, a.filled.value);
    ArmedFacts(w, s, cfg);
    TickKeeps(w, s, i, cfg, true);
    ShapeOf(t, s, cfg);
    ClosingMainKeepsBasket(t);
    BookedOnce(t.positions, main, t.quote);
    assert main in t.positions;
    var u := CloseTickets(t, {main.ticket});
    FirstLook(u.vars, v, cfg);
    ThreeSteps(w, AdvisorTick(i), Happens(BrokerClose({main.ticket})), Happens(BrainUpdate(v)), s, cfg);
  }

  lemma ShapeOf(w: World, s: Settings, cfg: Config)
    requires s.spec.min > 0.0 && Inv(w, s, cfg, true)
    ensures Shape(Legs(w.positions))
  {
  }

  /** The brain's first look at a straddle without a main. */
  lemma FirstLook(vars: Vars, v: View, cfg: Config)
    requires FindStraddle(v.positions).Some? && FindMain(v.positions).None? && v.straddleLive
    requires Get(vars, MB_BASE_BALANCE, 0.0) == 0.0
    ensures Get(Updated(vars, v, cfg), BASKET_PNL, 0.0) == LegValue(FindStraddle(v.positions), v.quote)
    ensures Get(Updated(vars, v, cfg), MB_BASE_BALANCE, 0.0) == v.balance
  {
    hide StraddleVerdict, EmergencyLoss, NetProfit, FindMain, FindStraddle, SumAbs, Profit;
  }

  lemma ThreeSteps(w: World, a: Step, b: Step, c: Step, s: Settings, cfg: Config)
    requires s.spec.min > 0.0
    ensures Protocol.Run(w, [a, b, c], s, cfg) == Apply(Apply(Apply(w, a, s, cfg), b, s, cfg), c, s, cfg)
    ensures LegalRun(w, [a, b, c], s, cfg, true) <==>
      && LegalStep(w, a, s, cfg, true) && LegalStep(Apply(w, a, s, cfg), b, s, cfg, true)
      && LegalStep(Apply(Apply(w, a, s, cfg), b, s, cfg), c, s, cfg, true)
  {
    hide Apply, LegalStep;
    TwoSteps(w, a, b, s, cfg);
    assert [a, b, c][..2] == [a, b];
  }

  lemma TwoSteps(w: World, a: Step, b: Step, s: Settings, cfg: Config)
    requires s.spec.min > 0.0
    ensures Protocol.Run(w, [a, b], s, cfg) == Apply(Apply(w, a, s, cfg), b, s, cfg)
    ensures LegalRun(w, [a, b], s, cfg, true) <==> LegalStep(w, a, s, cfg, true) && LegalStep(Apply(w, a, s, cfg), b, s, cfg, true)
  {
    hide Apply, LegalStep;
    assert [a, b][..1] == [a];
    OneStep(w, a, s, cfg);
  }

  /** The run that opens a straddle sized for a position that no longer exists, from any trusted state with
      ARM up and nothing of ours open any more: with the heartbeat still live, one tick opens a new entry and
      the next a straddle against it, of the volume the brain sized for the main before. */
  lemma ArmingOutlivesItsMain(w: World, s: Settings, e: Attempt, a: Answers, cfg: Config)
    requires s.spec.min > 0.0 && s.useObserverNetwork && s.onePositionOnly
    requires Inv(w, s, cfg, true) && Flag(w.vars, STRADDLE_ARM) && BrainAlive(w, s) && w.published.SizedFor?
    requires !HasOurs(w.positions) && e.reachesGate && e.gate && e.filled.Some?
    requires FindMain(Tick(w, s, Calm(a, [e]), cfg).positions).Some? ==>
      Sends(Tick(w, s, Calm(a, [e]), cfg), s, FindMain(Tick(w, s, Calm(a, [e]), cfg).positions).value, a)
    ensures var steps := [AdvisorTick(Calm(a, [e])), AdvisorTick(Calm(a, []))];
      var h := Protocol.Run(w, steps, s, cfg).history;
      && LegalRun(w, steps, s, cfg, true)
      && h != [] && h[..|h| - 1] == w.history
      && h[|h| - 1].sizedFor == w.published && h[|h| - 1].requested == w.published.lots
      && h[|h| - 1].main.ticket > w.published.ticket
  {
    hide Inv, FindMain, FindStraddle, Tick, BrainAlive, Validated, Executable, Shape, Legs, LegalTick, LegalRun, Protocol.Run, HasOurs;
    var i := Calm(a, [e]);
    ArmedFacts(w, s, cfg);
    LedgerOf(w, s, cfg);
    CalmTick(w, s, a, [e], cfg);
    TickKeeps(w, s, i, cfg, true);
    EntryTick(w, s, e, a, cfg);
    var t := Tick(w, s, i, cfg);
    AliveAs(w, t, s);
    ArmedTickOpens(t, s, a, cfg);
    TwoSteps(w, AdvisorTick(i), AdvisorTick(Calm(a, [])), s, cfg);
  }

  lemma AliveAs(w: World, t: World, s: Settings)
    requires w.vars == t.vars && w.now == t.now
    ensures BrainAlive(t, s) == BrainAlive(w, s)
  {
  }

  /** What an entry changes. */
  predicate Entered(w: World, t: World, e: Attempt, f: Fill) {
    && t.positions == w.positions + [NewPosition(NextTicket(w.lastTicket, f), f, if e.buy then BUY else SELL, Entry, e.lots)]
    && t.lastTicket == NextTicket(w.lastTicket, f) && t.entries == w.entries + 1
    && t.balance == w.balance - f.fee
    && t.vars == w.vars && t.now == w.now && t.quote == w.quote && t.published == w.published && t.history == w.history
  }

  /** A calm tick with nothing of ours open opens the entry and leaves the bus alone. */
  lemma EntryTick(w: World, s: Settings, e: Attempt, a: Answers, cfg: Config)
    requires s.spec.min > 0.0 && s.useObserverNetwork && Inv(w, s, cfg, true) && NoExits(w.vars)
    requires !HasOurs(w.positions) && e.reachesGate && e.gate && e.filled.Some?
    ensures Entered(w, Tick(w, s, Calm(a, [e]), cfg), e, e.filled.value)
    ensures var t := Tick(w, s, Calm(a, [e]), cfg);
      FindMain(t.positions) == Some(t.positions[|t.positions| - 1]) && FindMain(t.positions).value.ticket > w.lastTicket
    ensures LegalTick(w, s, Calm(a, [e]), cfg, true)
  {
    hide Inv, BrainAlive, Validated, Executable, Tick, LegalTick, CloseBoth, ArmStraddle, FindStraddle, NoExits;
    NothingFound(w.positions);
    CalmTick(w, s, a, [e], cfg);
    var w0 := ReadNetwork(w, s);
    assert Execute(w0, s, a) == w0 by { ArmsNothing(w0, s, a); }
    assert [e][1..] == [];
    var t := ExecuteSignal(w0, s, e).0;
    assert Finish(w0, s, Calm(a, [e]), cfg) == t;
  }

  lemma LedgerOf(w: World, s: Settings, cfg: Config)
    requires s.spec.min > 0.0 && Inv(w, s, cfg, true)
    ensures w.published.SizedFor? ==> w.published.ticket <= w.lastTicket
  {
  }

  lemma NothingFound(ps: seq<Position>)
    requires !HasOurs(ps)
    ensures FindMain(ps).None? && FindStraddle(ps).None?
  {
  }

  lemma ArmsNothing(w: World, s: Settings, a: Answers)
    requires s.spec.min > 0.0 && FindMain(w.positions).None? && !w.exit && !w.terminate
    ensures Execute(w, s, a) == w
  {
    hide FindStraddle, BrainAlive, CloseBoth;
  }

  // ---------------------------------------------------------------- both runs from the start

  const LOT_SPEC := VolumeSpec(0.01, 100.0, 0.01)

  const SETTINGS := Settings(true, true, true, 60, false, 0.0, 0.0, false, 0.0, LOT_SPEC, 10.0, 0.0, 10.0, 0.0)

  const CONFIG := Config(1.0, 1.0, 0.0, 3, 0.0, 1.0, 1.0, 1.0, 10.0, 0.0, 0.0, 50.0)

  const BEFORE := Quote(100.0, 100.0, 100.0)

  const AFTER := Quote(90.0, 90.0, 100.0)

  /** An advisor just attached, with an empty bus. */
  const START := World(map[], [], 1000.0, BEFORE, 1000, false, false, false, false, 0.0, 0, 0, Nobody, Nobody, [])

  const ENTRY := Attempt(true, true, true, 0.01, Some(Fill(0, 100.0, 0.0, 0.0)))

  const ANSWERS := Answers(true, true, true, false, 0.0, true, Some(Fill(0, 90.0, 0.0, 0.0)))

  const MAIN := Position(1, true, BUY, Entry, 0.01, 100.0, 0.0, [0.0], 0.0)

  const FALLING := [Candle(91.0, 90.0), Candle(92.0, 91.0), Candle(93.0, 92.0), Candle(94.0, 93.0)]

  /** What the brain sees of a world. */
  function Look(w: World): View {
    View(w.positions, w.balance, w.balance, w.quote, 0.0, 0, FALLING, w.now, LOT_SPEC, 0.01, true, true)
  }

  /** An entry at 100, a fall to 90, and an update of the brain. */
  const ARMING := [
    AdvisorTick(Calm(ANSWERS, [ENTRY])),
    Happens(MarketMove(AFTER, 1000, 1000.0, [MAIN], 1)),
    Happens(BrainUpdate(View([MAIN], 1000.0, 1000.0, AFTER, 0.0, 0, FALLING, 1000, LOT_SPEC, 0.01, true, true)))]

  /** A hundredth bought at 100 and quoted at 90 loses 10; with a buffer of 1 the brain asks for 0.02. */
  lemma MainIsLosing(v: View)
    requires v.quote == AFTER && v.spec == LOT_SPEC && v.equity == 1000.0 && v.rates == FALLING
    ensures WantsStraddle(map[], MAIN, v, CONFIG) && SizingOf(MAIN, v, CONFIG).lots == 0.02
  {
    assert NetProfit(MAIN, v.quote) == -10.0;
    assert MainLossPct(MAIN, v) == 1.0;
    TruncOfInt(0);
    assert AdverseM3Bars(FALLING, true) == 2;
    var s := SizingOf(MAIN, v, CONFIG);
    assert MAIN.deals[..0] == [];
    assert SumAbs(MAIN.deals) == 0.0;
    assert s.money == 11.0 && s.oneLotGap == 1000.0 && s.required == 0.011;
    TwoSmallestLots();
  }

  lemma TwoSmallestLots()
    ensures RoundUpLots(LOT_SPEC, 0.011, 10.0) == 0.02
    ensures ValidateStraddleLots(0.02, 0.01, LOT_SPEC, 10.0) == 0.02
    ensures CalculateExecutableLots(0.02, LOT_SPEC, 10.0, 0.0, false) == 0.02
  {
    Hundred();
    FloorIs(1.1 - BRAIN_SLACK, 1);
    FloorIs(2.0 - STEP_SLACK, 1);
    FloorIs(2.5, 2);
    assert StepCeil(0.011, 0.01, BRAIN_SLACK) == 2;
    assert StepCeil(0.02, 0.01, STEP_SLACK) == 2;
  }

  /** 0.02 lots pass the checks against a main of 0.01. */
  lemma RequestSends(w: World, main: Position)
    requires main.volume == 0.01 && Get(w.vars, STRADDLE_LOTS, 0.0) == 0.02
    ensures Sends(w, SETTINGS, main, ANSWERS)
  {
    hide ValidateStraddleLots, CalculateExecutableLots;
    TwoSmallestLots();
  }

  lemma StartIsFresh()
    ensures Fresh(START) && BusOk(START.vars, CONFIG) && Inv(START, SETTINGS, CONFIG, true) && NoExits(START.vars)
  {
    TruncOfInt(0);
  }

  /** The arming is a legal run. */
  lemma ArmedFromTheStart()
    ensures var w := Protocol.Run(START, ARMING, SETTINGS, CONFIG);
      && LegalRun(START, ARMING, SETTINGS, CONFIG, true)
      && Inv(w, SETTINGS, CONFIG, true) && Flag(w.vars, STRADDLE_ARM) && BrainAlive(w, SETTINGS)
      && w.positions == [MAIN] && w.lastTicket == 1 && w.balance == 1000.0 && w.quote == AFTER
      && w.published == SizedFor(1, 1, 0.02) && Get(w.vars, STRADDLE_LOTS, 0.0) == 0.02 && w.history == []
  {
    hide Inv, BusOk, FindMain, FindStraddle, Tick, LegalTick, BrainAlive, Updated, WantsStraddle, SizingOf, Fresh;
    StartIsFresh();
    var a, b, c := ARMING[0], ARMING[1], ARMING[2];
    assert ARMING == [a, b, c];
    EntryTick(START, SETTINGS, ENTRY, ANSWERS, CONFIG);
    TickKeeps(START, SETTINGS, a.input, CONFIG, true);
    var w1 := Apply(START, a, SETTINGS, CONFIG);
    assert w1.positions == [MAIN];
    ReactKeeps(w1, b.event, SETTINGS, CONFIG, true);
    var w2 := Apply(w1, b, SETTINGS, CONFIG);
    LoneEntry(MAIN);
    MainIsLosing(c.event.view);
    BrainArms(w2, c.event.view, SETTINGS, CONFIG);
    ThreeSteps(START, a, b, c, SETTINGS, CONFIG);
  }

  lemma LoneEntry(p: Position)
    requires p.ours && p.tag == Entry
    ensures FindMain([p]) == Some(p) && FindStraddle([p]).None?
  {
    assert [p][..0] == [];
  }

  lemma {:induction false} RunConcat(w: World, a: seq<Step>, b: seq<Step>, s: Settings, cfg: Config)
    requires s.spec.min > 0.0
    ensures Protocol.Run(w, a + b, s, cfg) == Protocol.Run(Protocol.Run(w, a, s, cfg), b, s, cfg)
    ensures LegalRun(w, a + b, s, cfg, true) <==> LegalRun(w, a, s, cfg, true) && LegalRun(Protocol.Run(w, a, s, cfg), b, s, cfg, true)
    decreases |b|
  {
    hide Apply, LegalStep;
    if b == [] {
      assert a + b == a;
    } else {
      var front := b[..|b| - 1];
      assert (a + b)[..|a + b| - 1] == a + front && (a + b)[|a + b| - 1] == b[|b| - 1];
      RunConcat(w, a, front, s, cfg);
    }
  }

  /** From the start: a straddle is opened, the main closes at a loss of 10 before the brain has looked again,
      and the brain publishes a basket worth nothing, measured from the balance after the loss. */
  lemma LossFromTheStart()
    ensures var w := Protocol.Run(START, ARMING, SETTINGS, CONFIG);
      var u := CloseTickets(Tick(w, SETTINGS, Calm(ANSWERS, []), CONFIG), {1});
      var steps := ARMING + [AdvisorTick(Calm(ANSWERS, [])), Happens(BrokerClose({1})), Happens(BrainUpdate(Look(u)))];
      var end := Protocol.Run(START, steps, SETTINGS, CONFIG);
      && Fresh(START) && LegalRun(START, steps, SETTINGS, CONFIG, true)
      && end.balance == START.balance - 10.0
      && Get(end.vars, BASKET_PNL, 0.0) == 0.0 && Get(end.vars, MB_BASE_BALANCE, 0.0) == end.balance
  {
    hide Inv, BrainAlive, Sends, Flag, Get, Tick, LegalRun, Protocol.Run, FindMain, FindStraddle, BasketOf, Fresh, Updated;
    StartIsFresh();
    ArmedFromTheStart();
    var w := Protocol.Run(START, ARMING, SETTINGS, CONFIG);
    LoneEntry(MAIN);
    RequestSends(w, MAIN);
    var u := CloseTickets(Tick(w, SETTINGS, Calm(ANSWERS, []), CONFIG), {1});
    LossBeforeTheFirstLook(w, SETTINGS, ANSWERS, Look(u), CONFIG);
    var rest := [AdvisorTick(Calm(ANSWERS, [])), Happens(BrokerClose({1})), Happens(BrainUpdate(Look(u)))];
    RunConcat(START, ARMING, rest, SETTINGS, CONFIG);
    assert Booked(MAIN, AFTER) == -10.0;
    assert SumAbs([0.0]) == 0.0 by { assert [0.0][..0] == []; }
    assert LegValue(FindStraddle(u.positions), AFTER) == 0.0;
  }

  /** From the start: the main closes, the advisor opens another, and sends a straddle against it of the volume
      the brain sized for the first. */
  lemma OutlivedFromTheStart()
    ensures var steps := ARMING
        + [Happens(BrokerClose({1})), AdvisorTick(Calm(ANSWERS, [ENTRY])), AdvisorTick(Calm(ANSWERS, []))];
      var h := Protocol.Run(START, steps, SETTINGS, CONFIG).history;
      && Fresh(START) && LegalRun(START, steps, SETTINGS, CONFIG, true)
      && |h| == 1 && h[0].sizedFor == SizedFor(1, 1, 0.02) && h[0].requested == 0.02 && h[0].main.ticket > 1
  {
    hide Inv, BrainAlive, Sends, Flag, Get, Tick, LegalRun, Protocol.Run, FindMain, FindStraddle, Fresh;
    StartIsFresh();
    ArmedFromTheStart();
    var w := Protocol.Run(START, ARMING, SETTINGS, CONFIG);
    var gone := Happens(BrokerClose({1}));
    ReactKeeps(w, gone.event, SETTINGS, CONFIG, true);
    var u := CloseTickets(w, {1});
    AliveAs(w, u, SETTINGS);
    ArmedFacts(u, SETTINGS, CONFIG);
    EntryTick(u, SETTINGS, ENTRY, ANSWERS, CONFIG);
    var t := Tick(u, SETTINGS, Calm(ANSWERS, [ENTRY]), CONFIG);
    RequestSends(t, FindMain(t.positions).value);
    ArmingOutlivesItsMain(u, SETTINGS, ENTRY, ANSWERS, CONFIG);
    var rest := [AdvisorTick(Calm(ANSWERS, [ENTRY])), AdvisorTick(Calm(ANSWERS, []))];
    OneStep(w, gone, SETTINGS, CONFIG);
    RunConcat(w, [gone], rest, SETTINGS, CONFIG);
    assert [gone] + rest == [gone, rest[0], rest[1]];
    RunConcat(START, ARMING, [gone] + rest, SETTINGS, CONFIG);
  }

  lemma OneStep(w: World, step: Step, s: Settings, cfg: Config)
    requires s.spec.min > 0.0
    ensures Protocol.Run(w, [step], s, cfg) == Apply(w, step, s, cfg)
    ensures LegalRun(w, [step], s, cfg, true) <==> LegalStep(w, step, s, cfg, true)
  {
    hide Apply, LegalStep;
    assert [step][..0] == [];
  }
}
