/** The expert advisor's tick: it reads the brain's commands from the bus and opens or closes
    positions. Every broker answer, gate and signal is an input, and between the tick's stages the
    broker may close positions, the market move, the brain update and others write the bus. */
module Executor {
  import opened Numeric
  import opened Wrappers
  import opened Terminal
  import opened BrainSizing
  import opened MasterBrain

  datatype Settings = Settings(
    useObserverNetwork: bool,
    onePositionOnly: bool,
    hedging: bool,
    brainMaxAge: int,
    closeOnBasketBE: bool,
    profitBufferMoney: real,
    exitToleranceMoney: real,
    allowRecovery: bool,
    recoveryTarget: real,
    spec: VolumeSpec,
    straddleMaxLot: real,
    capPctBalance: real,
    hardCap: real,
    perLotPerUnit: real)
  {
    /** The straddle cap: a share of the balance in lots, or the fixed cap when that cannot be priced. */
    function StraddleCap(balance: real): real {
      if capPctBalance <= 0.0 || balance <= 0.0 || perLotPerUnit <= 0.0 then hardCap
      else balance * capPctBalance / 100.0 / perLotPerUnit
    }
  }

  /** The main a volume was sized for, how many entries had been opened by then, and the volume. */
  datatype SizedFor = Nobody | SizedFor(ticket: nat, entries: nat, lots: real)

  /** What was known when a straddle was opened: the main it faced and all that was open, the request and
      the cap it was validated against, the volumes, the clock and the last heartbeat, and what the brain had
      sized. */
  datatype Opening = Opening(
    main: Position,
    open: seq<Position>,
    side: Side,
    requested: real,
    cap: real,
    validated: real,
    executed: real,
    executionCap: real,
    clock: int,
    heartbeat: real,
    baseline: real,
    sizedFor: SizedFor,
    entries: nat)

  /** The terminal, the bus and the advisor's own globals.  The last five fields are a record kept beside
      them: the broker's last ticket, the entries opened so far, whom the published and the held arming
      were sized for, and the straddles opened so far. */
  datatype World = World(
    vars: Vars,
    positions: seq<Position>,
    balance: real,
    quote: Quote,
    now: int,
    ok: bool,
    arm: bool,
    exit: bool,
    terminate: bool,
    lots: real,
    lastTicket: nat,
    entries: nat,
    published: SizedFor,
    held: SizedFor,
    history: seq<Opening>)

  /** An order the broker fills: how many tickets it skips, its price and the fees. */
  datatype Fill = Fill(skip: nat, price: real, fee: real, exitFee: real)

  /** What happens outside the advisor: the broker closes positions, the brain updates, the market moves
      (and other parties trade), or someone else writes the bus. */
  datatype Outside =
    | BrokerClose(gone: set<nat>)
    | BrainUpdate(view: View)
    | MarketMove(quote: Quote, now: int, balance: real, positions: seq<Position>, lastTicket: nat)
    | BusWrite(vars: Vars)

  /** The outside answers to one pass over the observer commands. */
  datatype Answers = Answers(
    closeStraddle: bool,
    closeMain: bool,
    closeOnExit: bool,
    fundEngine: bool,
    fundLots: real,
    gate: bool,
    filled: Option<Fill>)

  /** One signal of the entry engine: its direction and the outside answers to it. */
  datatype Attempt = Attempt(buy: bool, reachesGate: bool, gate: bool, lots: real, filled: Option<Fill>)

  /** The outside answers to a whole tick, and what happens outside between its stages. */
  datatype TickInput = TickInput(
    between: seq<seq<Outside>>,
    guardStraddle: bool,
    guardMain: bool,
    recovered: set<nat>,
    orphan: bool,
    first: Answers,
    breached: bool,
    closeBreached: bool,
    second: Answers,
    newBar: bool,
    attempts: seq<Attempt>)
  {
    function At(stage: nat): seq<Outside> { if stage < |between| then between[stage] else [] }
  }

  // ---------------------------------------------------------------- the stages of a tick

  function CloseTickets(w: World, gone: set<nat>): World {
    w.(positions := Keep(w.positions, gone), balance := w.balance + SumBooked(w.positions, gone, w.quote))
  }

  /** A position the advisor looked for and the broker agreed to close. */
  function CloseFound(w: World, p: Option<Position>, agreed: bool): World {
    if p.Some? && agreed then CloseTickets(w, {p.value.ticket}) else w
  }

  function ReadNetwork(w: World, s: Settings): World {
    if !s.useObserverNetwork then w.(ok := true)
    else w.(ok := true, lots := Get(w.vars, STRADDLE_LOTS, 0.0), arm := Flag(w.vars, STRADDLE_ARM),
            exit := Flag(w.vars, STRADDLE_EXIT), terminate := Flag(w.vars, BASKET_TERMINATE), held := w.published)
  }

  /** An update that arms has sized its request for the main it saw. */
  function Published(w: World, v: View, cfg: Config): SizedFor {
    match FindMain(v.positions)
    case Some(main) => if Flag(Updated(w.vars, v, cfg), STRADDLE_ARM) then SizedFor(main.ticket, w.entries, SizingOf(main, v, cfg).lots) else w.published
    case None => w.published
  }

  function React(w: World, e: Outside, cfg: Config): World {
    match e
    case BrokerClose(gone) => CloseTickets(w, gone)
    case BrainUpdate(v) => w.(vars := Updated(w.vars, v, cfg), published := Published(w, v, cfg))
    case MarketMove(q, now, balance, ps, last) => w.(quote := q, now := now, balance := balance, positions := ps, lastTicket := last)
    case BusWrite(vars) => w.(vars := vars)
  }

  function Reacts(w: World, events: seq<Outside>, cfg: Config): World
    decreases |events|
  {
    if events == [] then w else Reacts(React(w, events[0], cfg), events[1..], cfg)
  }

  /** Straddle first, then main; the answer says whether everything found was closed. */
  function CloseBoth(w: World, closeStraddle: bool, closeMain: bool): (World, bool) {
    var straddle := FindStraddle(w.positions);
    var w1 := CloseFound(w, straddle, closeStraddle);
    var main := FindMain(w1.positions);
    (CloseFound(w1, main, closeMain), (straddle.None? || closeStraddle) && (main.None? || closeMain))
  }

  function Guard(w: World, closeStraddle: bool, closeMain: bool): (World, bool) {
    if !(Flag(w.vars, BASKET_EMERGENCY) || Flag(w.vars, BASKET_TERMINATE)) then (w, false)
    else
      var (w1, closed) := CloseBoth(w, closeStraddle, closeMain);
      if closed then (w1.(vars := w1.vars[BASKET_EMERGENCY := 0.0][BASKET_TERMINATE := 0.0]), true) else (w1, false)
  }

  /** Combined floating result of our positions. */
  function OurFloating(ps: seq<Position>, q: Quote): real {
    if ps == [] then 0.0
    else (if ps[0].ours then Profit(ps[0], q) + ps[0].swap else 0.0) + OurFloating(ps[1..], q)
  }

  /** The tickets of our positions, at most `room` of them, from the end of the list. */
  function OurTickets(ps: seq<Position>, room: nat): set<nat> {
    if ps == [] || room == 0 then {}
    else if ps[|ps| - 1].ours then {ps[|ps| - 1].ticket} + OurTickets(ps[..|ps| - 1], room - 1)
    else OurTickets(ps[..|ps| - 1], room)
  }

  predicate RecoveryDue(ps: seq<Position>, q: Quote, s: Settings) {
    && s.allowRecovery
    && (exists i :: 0 <= i < |ps| && ps[i].ours && ps[i].tag == OppositeRecovery)
    && |OurTickets(ps, 32)| >= 2
    && OurFloating(ps, q) >= s.recoveryTarget
  }

  function ManageRecovery(w: World, s: Settings, recovered: set<nat>): World {
    if RecoveryDue(w.positions, w.quote, s) then CloseTickets(w, recovered * OurTickets(w.positions, 32)) else w
  }

  predicate OrphanDue(w: World, s: Settings) {
    && FindStraddle(w.positions).Some? && FindMain(w.positions).None?
    && s.closeOnBasketBE
    && Get(w.vars, BASKET_PNL, 0.0) >= Get(w.vars, DESIRED_BASKET_PROFIT, s.profitBufferMoney) - s.exitToleranceMoney
  }

  function ManageOrphan(w: World, s: Settings, agreed: bool): World {
    CloseFound(w, FindStraddle(w.positions), OrphanDue(w, s) && agreed)
  }

  function HeartbeatAge(w: World): int { w.now - Trunc(Get(w.vars, HEARTBEAT, 0.0)) }

  predicate BrainAlive(w: World, s: Settings) {
    Get(w.vars, HEARTBEAT, 0.0) > 0.0 && HeartbeatAge(w) <= s.brainMaxAge
  }

  /** The broker counts its tickets up. */
  function NextTicket(last: nat, f: Fill): nat { last + 1 + f.skip }

  function NewPosition(ticket: nat, f: Fill, side: Side, tag: Tag, lots: real): Position {
    Position(ticket, true, side, tag, lots, f.price, 0.0, [f.fee], f.exitFee)
  }

  function Validated(w: World, s: Settings, main: Position): real {
    ValidateStraddleLots(w.lots, main.volume, s.spec, s.StraddleCap(w.balance))
  }

  function Executable(w: World, s: Settings, main: Position, a: Answers): real
    requires s.spec.min > 0.0
  {
    CalculateExecutableLots(Validated(w, s, main), s.spec, s.straddleMaxLot, a.fundLots, a.fundEngine)
  }

  /** A straddle order sent against a main, and whether the broker filled it. */
  function OpenStraddle(w: World, s: Settings, main: Position, a: Answers): (World, bool)
    requires s.spec.min > 0.0
  {
    if !s.hedging || Executable(w, s, main, a) <= 0.0 then (w, false)
    else
      var r := ReadNetwork(w, s);
      if !a.gate || a.filled.None? then (r, false)
      else
        var p := NewPosition(NextTicket(r.lastTicket, a.filled.value), a.filled.value, main.side.Opposite(), Straddle,
                             Executable(w, s, main, a));
        var record := Opening(main, w.positions, p.side, w.lots, s.StraddleCap(w.balance), Validated(w, s, main), p.volume,
                              ExecutionCap(s.spec, s.straddleMaxLot, a.fundLots, a.fundEngine), w.now, Get(w.vars, HEARTBEAT, 0.0),
                              Get(w.vars, MB_BASE_BALANCE, 0.0), w.held, w.entries);
        (r.(positions := r.positions + [p], balance := r.balance - a.filled.value.fee, lastTicket := p.ticket,
            history := r.history + [record]), true)
  }

  function ArmStraddle(w: World, s: Settings, a: Answers): World
    requires s.spec.min > 0.0
  {
    var main := FindMain(w.positions);
    if FindStraddle(w.positions).Some? || main.None? then w
    else if Validated(w, s, main.value) <= 0.0 then w
    else
      var (w1, done) := OpenStraddle(w, s, main.value, a);
      if done then w1.(arm := false, vars := w1.vars[STRADDLE_ARM := 0.0]) else w1
  }

  function Execute(w: World, s: Settings, a: Answers): World
    requires s.spec.min > 0.0
  {
    if !w.ok then w
    else
      var (w1, closed) := if w.terminate then CloseBoth(w, a.closeStraddle, a.closeMain) else (w, false);
      if closed then w1.(terminate := false, vars := w1.vars[BASKET_TERMINATE := 0.0])
      else
        var straddle := FindStraddle(w1.positions);
        if w1.exit && straddle.Some? && a.closeOnExit then
          CloseTickets(w1, {straddle.value.ticket}).(exit := false, vars := w1.vars[STRADDLE_EXIT := 0.0])
        else if w1.arm && BrainAlive(w1, s) then ArmStraddle(w1, s, a)
        else w1
  }

  predicate HasOurs(ps: seq<Position>) { exists i :: 0 <= i < |ps| && ps[i].ours }

  /** One entry attempt, and whether it opened a position. */
  function ExecuteSignal(w: World, s: Settings, a: Attempt): (World, bool) {
    if (s.onePositionOnly && HasOurs(w.positions)) || !a.reachesGate then (w, false)
    else
      var r := ReadNetwork(w, s);
      if !a.gate || a.filled.None? then (r, false)
      else
        var p := NewPosition(NextTicket(r.lastTicket, a.filled.value), a.filled.value, if a.buy then BUY else SELL, Entry, a.lots);
        (r.(positions := r.positions + [p], balance := r.balance - a.filled.value.fee, lastTicket := p.ticket,
            entries := r.entries + 1), true)
  }

  /** The signals in order, up to the first that opens a position. */
  function EvaluateSignals(w: World, s: Settings, attempts: seq<Attempt>): World
    decreases |attempts|
  {
    if attempts == [] then w
    else
      var (w1, done) := ExecuteSignal(w, s, attempts[0]);
      if done then w1 else EvaluateSignals(w1, s, attempts[1..])
  }

  /** The part of the tick after the first pass over the commands. */
  function Finish(w: World, s: Settings, i: TickInput, cfg: Config): World
    requires s.spec.min > 0.0
  {
    if Breached(w, i) then CloseTickets(w, {FindMain(w.positions).value.ticket})
    else
      var w1 := Reacts(Second(w, s, i), i.At(5), cfg);
      if i.newBar then EvaluateSignals(w1, s, i.attempts) else w1
  }

  predicate Breached(w: World, i: TickInput) { FindMain(w.positions).Some? && i.breached && i.closeBreached }

  /** The second pass over the commands, with a main open. */
  function Second(w: World, s: Settings, i: TickInput): World
    requires s.spec.min > 0.0
  {
    if FindMain(w.positions).Some? then Execute(w, s, i.second) else w
  }

  /** Recovery basket, then orphan straddle. */
  function Manage(w: World, s: Settings, i: TickInput): World {
    ManageOrphan(ManageRecovery(w, s, i.recovered), s, i.orphan)
  }

  function Tick(w: World, s: Settings, i: TickInput, cfg: Config): World
    requires s.spec.min > 0.0
  {
    var w1 := Reacts(ReadNetwork(Reacts(w, i.At(0), cfg), s), i.At(1), cfg);
    var (w2, stop) := Guard(w1, i.guardStraddle, i.guardMain);
    if stop then w2
    else
      var w3 := Reacts(Manage(Reacts(w2, i.At(2), cfg), s, i), i.At(3), cfg);
      Finish(Reacts(Execute(w3, s, i.first), i.At(4), cfg), s, i, cfg)
  }

  // ---------------------------------------------------------------- the advisor

  /** The advisor and the terminal it trades on, updated in place. */
  class ExpertAdvisor {
    const settings: Settings
    const bus: Bus
    var positions: seq<Position>
    var balance: real
    var quote: Quote
    var now: int
    var ok: bool
    var arm: bool
    var exit: bool
    var terminate: bool
    var lots: real
    var lastTicket: nat
    ghost var entries: nat
    ghost var published: SizedFor
    ghost var held: SizedFor
    ghost var history: seq<Opening>

    ghost function View(): World
      reads this, bus
    {
      World(bus.vars, positions, balance, quote, now, ok, arm, exit, terminate, lots, lastTicket, entries, published, held, history)
    }

    ghost predicate Valid() { settings.spec.min > 0.0 }

    constructor (s: Settings, b: Bus, quote0: Quote, balance0: real, now0: int, lastTicket0: nat)
      requires s.spec.min > 0.0
      ensures Valid() && settings == s && bus == b
      ensures View() == World(b.vars, [], balance0, quote0, now0, false, false, false, false, 0.0, lastTicket0, 0, Nobody, Nobody, [])
    {
      settings, bus := s, b;
      positions, balance, quote, now, lastTicket := [], balance0, quote0, now0, lastTicket0;
      ok, arm, exit, terminate, lots := false, false, false, false, 0.0;
      entries, published, held, history := 0, Nobody, Nobody, [];
    }

    /** The broker closes these tickets at the current quote. */
    method ClosePositions(gone: set<nat>)
      modifies this
      ensures View() == CloseTickets(old(View()), gone)
    {
      var kept: seq<Position> := [];
      var booked := 0.0;
      var i := |positions|;
      while i > 0
        invariant 0 <= i <= |positions|
        invariant unchanged(this)
        invariant kept == Keep(positions[i..], gone)
        invariant booked == SumBooked(positions[i..], gone, quote)
      {
        i := i - 1;
        assert positions[i..][1..] == positions[i + 1..];
        if positions[i].ticket in gone {
          booked := booked + Booked(positions[i], quote);
        } else {
          kept := [positions[i]] + kept;
        }
      }
      assert positions[0..] == positions;
      positions := kept;
      balance := balance + booked;
    }

    /** One thing that happens outside; the brain works on the same bus. */
    method Happen(e: Outside, cfg: Config)
      modifies this, bus
      ensures View() == React(old(View()), e, cfg)
    {
      hide Updated, Keep, SumBooked, FindMain, Flag;
      match e {
        case BrokerClose(gone) =>
          ClosePositions(gone);
        case BrainUpdate(v) =>
          published := Published(View(), v, cfg);
          Update(bus, v, cfg);
        case MarketMove(q, time, money, ps, last) =>
          quote, now, balance, positions, lastTicket := q, time, money, ps, last;
        case BusWrite(vars) =>
          bus.vars := vars;
      }
    }

    /** What happens outside, one event after the other. */
    method Outside(events: seq<Outside>, cfg: Config)
      modifies this, bus
      ensures View() == Reacts(old(View()), events, cfg)
    {
      hide React;
      for i := 0 to |events|
        invariant Reacts(View(), events[i..], cfg) == Reacts(old(View()), events, cfg)
      {
        assert events[i..][1..] == events[i + 1..];
        Happen(events[i], cfg);
      }
    }

    method ReadObserverNetwork()
      modifies this
      ensures View() == ReadNetwork(old(View()), settings)
    {
      ok := true;
      if settings.useObserverNetwork {
        lots := Get(bus.vars, STRADDLE_LOTS, 0.0);
        arm := Get(bus.vars, STRADDLE_ARM, 0.0) > 0.5;
        exit := Get(bus.vars, STRADDLE_EXIT, 0.0) > 0.5;
        terminate := Get(bus.vars, BASKET_TERMINATE, 0.0) > 0.5;
        held := published;
      }
    }

    method CloseMainAndStraddle(closeStraddle: bool, closeMain: bool) returns (closed: bool)
      modifies this
      ensures (View(), closed) == CloseBoth(old(View()), closeStraddle, closeMain)
    {
      hide FindMain, FindStraddle, Keep, SumBooked;
      closed := true;
      var straddle := ScanStraddle(positions);
      if straddle.Some? {
        if closeStraddle {
          ClosePositions({straddle.value.ticket});
        }
        closed := closeStraddle && closed;
      }
      var main := ScanMain(positions);
      if main.Some? {
        if closeMain {
          ClosePositions({main.value.ticket});
        }
        closed := closeMain && closed;
      }
    }

    method EnforceBasketGuard(closeStraddle: bool, closeMain: bool) returns (stop: bool)
      modifies this, bus
      ensures (View(), stop) == Guard(old(View()), closeStraddle, closeMain)
    {
      hide CloseBoth;
      stop := false;
      if Flag(bus.vars, BASKET_EMERGENCY) || Flag(bus.vars, BASKET_TERMINATE) {
        var closed := CloseMainAndStraddle(closeStraddle, closeMain);
        if closed {
          bus.Put(BASKET_EMERGENCY, 0.0);
          bus.Put(BASKET_TERMINATE, 0.0);
          stop := true;
        }
      }
    }

    method ManageRecoveryBasket(recovered: set<nat>)
      modifies this
      ensures View() == ManageRecovery(old(View()), settings, recovered)
    {
      if RecoveryDue(positions, quote, settings) {
        ClosePositions(recovered * OurTickets(positions, 32));
      }
    }

    method ManageOrphanStraddle(agreed: bool)
      modifies this
      ensures View() == ManageOrphan(old(View()), settings, agreed)
    {
      hide FindMain, FindStraddle, Keep, SumBooked;
      var straddle := ScanStraddle(positions);
      if straddle.None? {
        return;
      }
      var main := ScanMain(positions);
      if main.Some? || !settings.closeOnBasketBE {
        return;
      }
      var basket := Get(bus.vars, BASKET_PNL, 0.0);
      var target := Get(bus.vars, DESIRED_BASKET_PROFIT, settings.profitBufferMoney);
      if basket >= target - settings.exitToleranceMoney && agreed {
        ClosePositions({straddle.value.ticket});
      }
    }

    method TryOpenStraddle(main: Position, requested: real, a: Answers) returns (done: bool)
      requires Valid() && FindStraddle(positions).None? && requested == Validated(View(), settings, main)
      modifies this
      ensures (View(), done) == OpenStraddle(old(View()), settings, main, a)
    {
      hide FindMain, FindStraddle, ValidateStraddleLots, CalculateExecutableLots;
      done := false;
      if !settings.hedging {
        return;
      }
      var existing := ScanStraddle(positions);
      if existing.Some? {
        return;
      }
      ghost var before := View();
      var exec := CalculateExecutableLots(requested, settings.spec, settings.straddleMaxLot, a.fundLots, a.fundEngine);
      if exec <= 0.0 {
        return;
      }
      ReadObserverNetwork();
      if !a.gate || a.filled.None? {
        return;
      }
      lastTicket := NextTicket(lastTicket, a.filled.value);
      positions := positions + [NewPosition(lastTicket, a.filled.value, main.side.Opposite(), Straddle, exec)];
      balance := balance - a.filled.value.fee;
      history := history + [Opening(main, before.positions, main.side.Opposite(), before.lots,
        settings.StraddleCap(before.balance), requested, exec, ExecutionCap(settings.spec, settings.straddleMaxLot, a.fundLots, a.fundEngine),
        before.now, Get(before.vars, HEARTBEAT, 0.0), Get(before.vars, MB_BASE_BALANCE, 0.0), before.held, before.entries)];
      done := true;
    }

    method ArmFromObserver(a: Answers)
      requires Valid()
      modifies this, bus
      ensures View() == ArmStraddle(old(View()), settings, a)
    {
      hide FindMain, FindStraddle, OpenStraddle, ValidateStraddleLots;
      var straddle := ScanStraddle(positions);
      if straddle.Some? {
        return;
      }
      var main := ScanMain(positions);
      if main.Some? {
        var requested := ValidateStraddleLots(lots, main.value.volume, settings.spec, settings.StraddleCap(balance));
        if requested <= 0.0 {
          return;
        }
        var done := TryOpenStraddle(main.value, requested, a);
        if done {
          arm := false;
          bus.Put(STRADDLE_ARM, 0.0);
        }
      }
    }

    method ExecuteObserverState(a: Answers)
      requires Valid()
      modifies this, bus
      ensures View() == Execute(old(View()), settings, a)
    {
      hide FindMain, FindStraddle, CloseTickets, CloseBoth, ArmStraddle, BrainAlive;
      if !ok {
        return;
      }
      if terminate {
        var closed := CloseMainAndStraddle(a.closeStraddle, a.closeMain);
        if closed {
          terminate := false;
          bus.Put(BASKET_TERMINATE, 0.0);
          return;
        }
      }
      if exit {
        var straddle := ScanStraddle(positions);
        if straddle.Some? && a.closeOnExit {
          ClosePositions({straddle.value.ticket});
          exit := false;
          bus.Put(STRADDLE_EXIT, 0.0);
          return;
        }
      }
      if arm && IsBrainAlive() {
        ArmFromObserver(a);
      }
    }

    predicate IsBrainAlive()
      reads this, bus
      ensures IsBrainAlive() <==> BrainAlive(View(), settings)
    {
      var hb := Get(bus.vars, HEARTBEAT, 0.0);
      hb > 0.0 && now - Trunc(hb) <= settings.brainMaxAge
    }

    method TrySignal(a: Attempt) returns (done: bool)
      modifies this
      ensures (View(), done) == ExecuteSignal(old(View()), settings, a)
    {
      done := false;
      if settings.onePositionOnly && HasOurs(positions) {
        return;
      }
      if !a.reachesGate {
        return;
      }
      ReadObserverNetwork();
      if !a.gate || a.filled.None? {
        return;
      }
      lastTicket := NextTicket(lastTicket, a.filled.value);
      positions := positions + [NewPosition(lastTicket, a.filled.value, if a.buy then BUY else SELL, Entry, a.lots)];
      balance := balance - a.filled.value.fee;
      entries := entries + 1;
      done := true;
    }

    method TrySignals(attempts: seq<Attempt>)
      modifies this
      ensures View() == EvaluateSignals(old(View()), settings, attempts)
    {
      hide ExecuteSignal;
      for i := 0 to |attempts|
        invariant bus.vars == old(bus.vars)
        invariant EvaluateSignals(old(View()), settings, attempts) == EvaluateSignals(View(), settings, attempts[i..])
      {
        assert attempts[i..][1..] == attempts[i + 1..];
        var done := TrySignal(attempts[i]);
        if done {
          return;
        }
      }
    }

    method FinishTick(i: TickInput, cfg: Config)
      requires Valid()
      modifies this, bus
      ensures View() == Finish(old(View()), settings, i, cfg)
    {
      hide FindMain, CloseTickets, Execute, EvaluateSignals, Reacts;
      var main := ScanMain(positions);
      if main.Some? {
        if i.breached {
          if i.closeBreached {
            ClosePositions({main.value.ticket});
            return;
          }
        }
        ExecuteObserverState(i.second);
      }
      Outside(i.At(5), cfg);
      if !i.newBar {
        return;
      }
      TrySignals(i.attempts);
    }

    method OnTick(i: TickInput, cfg: Config)
      requires Valid()
      modifies this, bus
      ensures View() == Tick(old(View()), settings, i, cfg)
    {
      hide Reacts, Execute, Guard, ManageOrphan, ManageRecovery, ReadNetwork, Finish;
      Outside(i.At(0), cfg);
      ReadObserverNetwork();
      Outside(i.At(1), cfg);
      var stop := EnforceBasketGuard(i.guardStraddle, i.guardMain);
      if stop {
        return;
      }
      Outside(i.At(2), cfg);
      ManageRecoveryBasket(i.recovered);
      ManageOrphanStraddle(i.orphan);
      Outside(i.At(3), cfg);
      ExecuteObserverState(i.first);
      Outside(i.At(4), cfg);
      FinishTick(i, cfg);
    }
  }
}
