/** What the advisor's stages do, in prices, balances and commands: what a close books, when each stage acts,
    and exactly when an order is sent. */
module AdvisorRules {
  import opened Numeric
  import opened Wrappers
  import opened Terminal
  import opened BrainSizing
  import opened MasterBrain
  import opened BrainRules
  import opened Executor
  import opened Protocol

  // ---------------------------------------------------------------- closing

  /** Closing a set of tickets: each position stays or goes by its ticket, in place. */
  lemma {:induction false} KeepExactly(a: seq<Position>, p: Position, b: seq<Position>, gone: set<nat>)
    ensures Keep([], gone) == []
    ensures Keep(a + [p] + b, gone) == Keep(a, gone) + (if p.ticket in gone then [] else [p]) + Keep(b, gone)
  {
    hide Keep;
    NothingToKeep(gone);
    if a == [] {
      assert a + [p] + b == [p] + b;
      KeepFirst(p, b, gone);
    } else {
      var first, rest := a[0], a[1..];
      assert a == [first] + rest && a + [p] + b == [first] + (rest + [p] + b);
      KeepExactly(rest, p, b, gone);
      KeepFirst(first, rest, gone);
      KeepFirst(first, rest + [p] + b, gone);
      Regroup(if first.ticket in gone then [] else [first], Keep(rest, gone), if p.ticket in gone then [] else [p], Keep(b, gone));
    }
  }

  lemma NothingToKeep(gone: set<nat>)
    ensures Keep([], gone) == []
  {
  }

  lemma Regroup<T>(x: seq<T>, y: seq<T>, z: seq<T>, w: seq<T>)
    ensures x + (y + z + w) == (x + y) + z + w
  {
  }

  /** A position that goes books what it has made, less the fee for closing it. */
  lemma {:induction false} BookExactly(a: seq<Position>, p: Position, b: seq<Position>, gone: set<nat>, q: Quote)
    ensures SumBooked([], gone, q) == 0.0
    ensures SumBooked(a + [p] + b, gone, q) == SumBooked(a + b, gone, q) + (if p.ticket in gone then Made(p, q) - p.exitFee else 0.0)
  {
    hide Profit, Made;
    if a == [] {
      MadeIsNet(p, q);
      assert a + [p] + b == [p] + b && a + b == b && ([p] + b)[1..] == b;
    } else {
      BookExactly(a[1..], p, b, gone, q);
      assert (a + [p] + b)[1..] == a[1..] + [p] + b && (a + b)[1..] == a[1..] + b;
    }
  }

  // ---------------------------------------------------------------- the orphan and the recovery basket

  /** The advisor lets a lone straddle out exactly when the brain does: after an update that saw one, with the
      same tolerance on both sides, the orphan is due if and only if EXIT is up. */
  lemma OrphanRuleIsTheBrains(w: World, vars: Vars, v: View, s: Settings, cfg: Config)
    requires w.vars == Updated(vars, v, cfg) && w.positions == v.positions && StraddleOpen(v) && FindMain(v.positions).None?
    requires s.closeOnBasketBE && s.exitToleranceMoney == cfg.exitToleranceMoney
    ensures OrphanDue(w, s) <==> Flag(w.vars, STRADDLE_EXIT)
  {
    hide FindMain, FindStraddle, Updated, Worth, Recovers, Hard;
    ExitExactly(vars, v, cfg);
    PublishedBasket(vars, v, cfg);
  }

  /** What an update publishes of a basket. */
  lemma PublishedBasket(vars: Vars, v: View, cfg: Config)
    requires StraddleOpen(v)
    ensures Get(Updated(vars, v, cfg), BASKET_PNL, 0.0) == Worth(vars, v)
    ensures DESIRED_BASKET_PROFIT in Updated(vars, v, cfg) && Updated(vars, v, cfg)[DESIRED_BASKET_PROFIT] == cfg.desiredBasketProfit
    ensures Get(Updated(vars, v, cfg), STRADDLE_ACTIVE_PNL, 0.0) == Made(FindStraddle(v.positions).value, v.quote)
    ensures Get(Updated(vars, v, cfg), HEARTBEAT, 0.0) == v.now as real
  {
    hide FindMain, FindStraddle, StraddleVerdict, EmergencyLoss, SeenPnl, Worth, NetProfit, Made, Baseline;
    SeenIsWorth(vars, v);
    MadeIsNet(FindStraddle(v.positions).value, v.quote);
  }

  /** Without the network's figures the advisor falls back on its own, and a switched-off rule closes nothing. */
  lemma OrphanExactly(w: World, s: Settings)
    ensures var pnl := if BASKET_PNL in w.vars then w.vars[BASKET_PNL] else 0.0;
      var desired := if DESIRED_BASKET_PROFIT in w.vars then w.vars[DESIRED_BASKET_PROFIT] else s.profitBufferMoney;
      OrphanDue(w, s) <==> && (exists p :: p in w.positions && p.ours && p.tag == Straddle)
                           && (forall p :: p in w.positions && p.ours ==> p.tag == Straddle)
                           && s.closeOnBasketBE && pnl + s.exitToleranceMoney >= desired
  {
  }

  /** What the recovery basket has made together. */
  lemma {:induction false} OursExactly(a: seq<Position>, p: Position, b: seq<Position>, q: Quote)
    ensures OurFloating([], q) == 0.0
    ensures OurFloating(a + [p] + b, q) == OurFloating(a + b, q) + (if p.ours then Made(p, q) else 0.0)
  {
    hide Profit, Made;
    MadeIsNet(p, q);
    if a == [] {
      assert a + [p] + b == [p] + b && a + b == b && ([p] + b)[1..] == b;
    } else {
      OursExactly(a[1..], p, b, q);
      assert (a + [p] + b)[1..] == a[1..] + [p] + b && (a + b)[1..] == a[1..] + b;
    }
  }

  /** The tickets taken are ours, all of them when there is room, and never more than the room. */
  lemma {:induction false} TicketsExactly(ps: seq<Position>, room: nat)
    ensures |OurTickets(ps, room)| <= room
    ensures forall t :: t in OurTickets(ps, room) ==> exists p :: p in ps && p.ours && p.ticket == t
    ensures |ps| <= room ==> forall p :: p in ps && p.ours ==> p.ticket in OurTickets(ps, room)
  {
    if ps != [] && room > 0 {
      var last, front := ps[|ps| - 1], ps[..|ps| - 1];
      assert ps == front + [last];
      TicketsExactly(front, room);
      TicketsExactly(front, room - 1);
    }
  }

  /** The recovery basket is due exactly when it is managed at all, holds a recovery and at least two tickets
      of ours, and has made its target together. */
  lemma RecoveryExactly(w: World, s: Settings)
    ensures RecoveryDue(w.positions, w.quote, s)
       <==> && s.allowRecovery && (exists p :: p in w.positions && p.ours && p.tag == OppositeRecovery)
            && |OurTickets(w.positions, 32)| >= 2 && OurFloating(w.positions, w.quote) >= s.recoveryTarget
  {
    hide OurTickets, OurFloating;
    if exists p :: p in w.positions && p.ours && p.tag == OppositeRecovery {
      var p :| p in w.positions && p.ours && p.tag == OppositeRecovery;
      var i :| 0 <= i < |w.positions| && w.positions[i] == p;
      assert w.positions[i].ours && w.positions[i].tag == OppositeRecovery;
    }
  }

  /** A due basket loses exactly the positions whose tickets were taken and whose closes the broker agreed to. */
  lemma RecoveryCloses(w: World, s: Settings, recovered: set<nat>)
    ensures forall p :: p in ManageRecovery(w, s, recovered).positions <==>
      p in w.positions && !(RecoveryDue(w.positions, w.quote, s) && p.ticket in recovered && p.ticket in OurTickets(w.positions, 32))
    ensures !RecoveryDue(w.positions, w.quote, s) ==> ManageRecovery(w, s, recovered) == w
  {
    hide RecoveryDue, OurTickets, SumBooked;
  }

  // ---------------------------------------------------------------- commands

  /** What the advisor holds after reading the network: the bus as it is; without the network, what it held. */
  lemma ReadExactly(w: World, s: Settings)
    ensures var r := ReadNetwork(w, s);
      && r.ok && r.positions == w.positions && r.vars == w.vars && r.balance == w.balance && r.history == w.history
      && (if s.useObserverNetwork
          then (r.arm <==> Get(w.vars, STRADDLE_ARM, 0.0) > 0.5) && (r.exit <==> Get(w.vars, STRADDLE_EXIT, 0.0) > 0.5)
               && (r.terminate <==> Get(w.vars, BASKET_TERMINATE, 0.0) > 0.5) && r.lots == Get(w.vars, STRADDLE_LOTS, 0.0)
          else r == w.(ok := true))
  {
  }

  /** With tickets issued once: the guard reports a full close exactly when EMERGENCY or TERMINATE is up and the
      broker agrees to close what there is of a straddle and of a main; without either command it does nothing. */
  lemma GuardExactly(w: World, a: bool, b: bool)
    requires UniqueTickets(w.positions)
    ensures Guard(w, a, b).1
       <==> && (Flag(w.vars, BASKET_EMERGENCY) || Flag(w.vars, BASKET_TERMINATE))
            && (a || forall p :: p in w.positions && p.ours ==> p.tag != Straddle)
            && (b || forall p :: p in w.positions && p.ours ==> p.tag == Straddle)
    ensures !Flag(w.vars, BASKET_EMERGENCY) && !Flag(w.vars, BASKET_TERMINATE) ==> Guard(w, a, b).0 == w
  {
    hide Keep, SumBooked, FindMain, FindStraddle, Flag;
    var straddle := FindStraddle(w.positions);
    if straddle.Some? {
      OtherTickets(w.positions, straddle.value);
    }
  }

  lemma OtherTickets(ps: seq<Position>, p: Position)
    requires UniqueTickets(ps) && p in ps
    ensures forall x :: x in ps && x != p ==> x.ticket != p.ticket
  {
    forall x | x in ps && x != p
      ensures x.ticket != p.ticket
    {
      var i :| 0 <= i < |ps| && ps[i] == p;
      var j :| 0 <= j < |ps| && ps[j] == x;
    }
  }

  // ---------------------------------------------------------------- the cap of a straddle

  /** The cap is the volume on which a move of one costs the configured percentage of the balance; the fixed cap
      when no percentage is configured, or the account or the instrument cannot be priced. */
  lemma CapIsShareOfBalance(s: Settings, balance: real)
    ensures if s.capPctBalance > 0.0 && balance > 0.0 && s.perLotPerUnit > 0.0
      then s.StraddleCap(balance) * s.perLotPerUnit * 100.0 == balance * s.capPctBalance
      else s.StraddleCap(balance) == s.hardCap
  {
    if s.capPctBalance > 0.0 && balance > 0.0 && s.perLotPerUnit > 0.0 {
      var money := balance * s.capPctBalance / 100.0;
      var lots := money / s.perLotPerUnit;
      assert lots * s.perLotPerUnit == money;
    }
  }

  // ---------------------------------------------------------------- orders

  /** The advisor holds no main, or no straddle. */
  predicate NoneOf(ps: seq<Position>, straddle: bool) {
    forall p :: p in ps && p.ours ==> (p.tag == Straddle) != straddle
  }

  /** What a pass over the commands comes to before it may arm: a held termination that closes both legs ends
      it, and so does a held exit that closes the straddle. */
  function BeforeArming(w: World, a: Answers): (World, bool) {
    if !w.ok then (w, false)
    else
      var (closed, done) := if w.terminate then CloseBoth(w, a.closeStraddle, a.closeMain) else (w, false);
      (closed, !done && !(closed.exit && FindStraddle(closed.positions).Some? && a.closeOnExit))
  }

  /** The request as validated against a main, and as it would be sent. */
  predicate Sendable(w: World, s: Settings, main: Position, a: Answers)
    requires s.spec.min > 0.0
  {
    var v := ValidateStraddleLots(w.lots, main.volume, s.spec, s.StraddleCap(w.balance));
    v > 0.0 && CalculateExecutableLots(v, s.spec, s.straddleMaxLot, a.fundLots, a.fundEngine) > 0.0
  }

  /** A pass opens a straddle exactly when it comes to arming with ARM held, the brain heard within the age
      limit, a hedging account, a main and no straddle, a request that passes, an open gate and a filled order;
      and otherwise it opens nothing. */
  lemma OpensExactly(w: World, s: Settings, a: Answers)
    requires s.spec.min > 0.0
    ensures var (u, arms) := BeforeArming(w, a);
      var heartbeat := Get(u.vars, HEARTBEAT, 0.0);
      var main := FindMain(u.positions);
      var t := Execute(w, s, a);
      if arms && u.arm && 0.0 < heartbeat && u.now as real - heartbeat <= s.brainMaxAge as real && s.hedging
         && NoneOf(u.positions, true) && main.Some? && Sendable(u, s, main.value, a) && a.gate && a.filled.Some?
      then
        && |t.history| == |w.history| + 1
        && t.positions == u.positions + [Position(u.lastTicket + 1 + a.filled.value.skip, true, main.value.side.Opposite(), Straddle,
             CalculateExecutableLots(ValidateStraddleLots(u.lots, main.value.volume, s.spec, s.StraddleCap(u.balance)),
                                     s.spec, s.straddleMaxLot, a.fundLots, a.fundEngine),
             a.filled.value.price, 0.0, [a.filled.value.fee], a.filled.value.exitFee)]
        && t.balance == u.balance - a.filled.value.fee
        && !t.arm && Get(t.vars, STRADDLE_ARM, 0.0) == 0.0
      else t.history == w.history && forall p :: p in t.positions ==> p in w.positions
  {
    hide FindMain, FindStraddle, CloseBoth, BrainAlive, ValidateStraddleLots, CalculateExecutableLots, Keep, SumBooked,
         Settings.StraddleCap;
    var (u, arms) := BeforeArming(w, a);
    BothCloseOnly(w, a);
    AliveExactly(u, s);
    NoStraddleOfOurs(u.positions);
    ArmOpensOnly(u, s, a);
  }

  lemma BothCloseOnly(w: World, a: Answers)
    ensures var u := CloseBoth(w, a.closeStraddle, a.closeMain).0;
      u.history == w.history && u.ok == w.ok && u.exit == w.exit && u.arm == w.arm && forall p :: p in u.positions ==> p in w.positions
  {
    hide FindMain, FindStraddle, SumBooked;
  }

  lemma NoStraddleOfOurs(ps: seq<Position>)
    ensures FindStraddle(ps).None? <==> NoneOf(ps, true)
  {
  }

  /** The arming alone. */
  lemma ArmOpensOnly(u: World, s: Settings, a: Answers)
    requires s.spec.min > 0.0
    ensures var main := FindMain(u.positions);
      var t := ArmStraddle(u, s, a);
      if s.hedging && FindStraddle(u.positions).None? && main.Some? && Sendable(u, s, main.value, a) && a.gate && a.filled.Some?
      then
        && |t.history| == |u.history| + 1
        && t.positions == u.positions + [Position(u.lastTicket + 1 + a.filled.value.skip, true, main.value.side.Opposite(), Straddle,
             CalculateExecutableLots(ValidateStraddleLots(u.lots, main.value.volume, s.spec, s.StraddleCap(u.balance)),
                                     s.spec, s.straddleMaxLot, a.fundLots, a.fundEngine),
             a.filled.value.price, 0.0, [a.filled.value.fee], a.filled.value.exitFee)]
        && t.balance == u.balance - a.filled.value.fee
        && !t.arm && Get(t.vars, STRADDLE_ARM, 0.0) == 0.0
      else t.history == u.history && t.positions == u.positions
  {
    hide FindMain, FindStraddle, ValidateStraddleLots, CalculateExecutableLots, Settings.StraddleCap, ExecutionCap;
  }

  /** An exit that is held, with the straddle there and its close agreed, takes out the straddle and nothing
      else, and is lowered. */
  lemma ExitTakesTheStraddle(w: World, s: Settings, a: Answers)
    requires s.spec.min > 0.0 && w.ok && w.exit && !w.terminate && a.closeOnExit && FindStraddle(w.positions).Some?
    ensures var straddle, t := FindStraddle(w.positions).value, Execute(w, s, a);
      && (forall p :: p in t.positions <==> p in w.positions && p.ticket != straddle.ticket)
      && !t.exit && Get(t.vars, STRADDLE_EXIT, 0.0) == 0.0 && t.history == w.history
      && t.balance == w.balance + SumBooked(w.positions, {straddle.ticket}, w.quote)
  {
    hide FindStraddle, SumBooked;
  }

  /** A signal opens an entry exactly when the mode allows another position, it reaches the gate, the gate is
      open and the order is filled; the entry is on the signal's side, of its volume, at the filled price. */
  lemma SignalExactly(w: World, s: Settings, a: Attempt)
    ensures var (t, done) := ExecuteSignal(w, s, a);
      && (done <==> && (s.onePositionOnly ==> forall p :: p in w.positions ==> !p.ours)
                      && a.reachesGate && a.gate && a.filled.Some?)
      && (done ==>
            && t.positions == w.positions + [Position(w.lastTicket + 1 + a.filled.value.skip, true, if a.buy then BUY else SELL,
                 Entry, a.lots, a.filled.value.price, 0.0, [a.filled.value.fee], a.filled.value.exitFee)]
            && t.balance == w.balance - a.filled.value.fee)
      && (!done ==> t.positions == w.positions && t.balance == w.balance)
      && t.vars == w.vars && t.history == w.history
  {
    if !HasOurs(w.positions) {
      forall p | p in w.positions
        ensures !p.ours
      {
        var i :| 0 <= i < |w.positions| && w.positions[i] == p;
      }
    }
  }

  /** The signals are tried in order up to the first that opens; nothing is tried after it, and without one
      nothing opens. */
  lemma {:induction false} FirstSignalOpens(w: World, s: Settings, attempts: seq<Attempt>)
    ensures var t := EvaluateSignals(w, s, attempts);
      |w.positions| <= |t.positions| <= |w.positions| + 1 && t.positions[..|w.positions|] == w.positions
    ensures |EvaluateSignals(w, s, attempts).positions| > |w.positions|
       <==> exists i :: 0 <= i < |attempts| && Opens(w, s, attempts[i])
    decreases |attempts|
  {
    hide ExecuteSignal;
    if attempts != [] {
      SignalExactly(w, s, attempts[0]);
      var (t, done) := ExecuteSignal(w, s, attempts[0]);
      if !done {
        FirstSignalOpens(t, s, attempts[1..]);
        assert forall i :: 0 <= i < |attempts| - 1 ==> attempts[1..][i] == attempts[i + 1];
        if exists i :: 0 <= i < |attempts| && Opens(w, s, attempts[i]) {
          var i :| 0 <= i < |attempts| && Opens(w, s, attempts[i]);
          assert i > 0 && Opens(t, s, attempts[1..][i - 1]);
        }
        if exists j :: 0 <= j < |attempts[1..]| && Opens(t, s, attempts[1..][j]) {
          var j :| 0 <= j < |attempts[1..]| && Opens(t, s, attempts[1..][j]);
          assert Opens(w, s, attempts[j + 1]);
        }
      }
    }
  }

  /** The signal would open an entry. */
  predicate Opens(w: World, s: Settings, a: Attempt) {
    (s.onePositionOnly ==> forall p :: p in w.positions ==> !p.ours) && a.reachesGate && a.gate && a.filled.Some?
  }

  /** A breach whose close is agreed takes out the main and ends the tick; signals are looked at only on a new
      bar. */
  lemma TickEnds(w: World, s: Settings, i: TickInput, cfg: Config)
    requires s.spec.min > 0.0
    ensures FindMain(w.positions).Some? && i.breached && i.closeBreached ==>
      Finish(w, s, i, cfg) == CloseTickets(w, {FindMain(w.positions).value.ticket})
    ensures FindMain(w.positions).None? && !i.newBar && i.At(5) == [] ==> Finish(w, s, i, cfg) == w
    ensures FindMain(w.positions).Some? && !(i.breached && i.closeBreached) && !i.newBar && i.At(5) == [] ==>
      Finish(w, s, i, cfg) == Execute(w, s, i.second)
  {
    hide FindMain, Execute, EvaluateSignals, Keep, SumBooked;
  }
}
