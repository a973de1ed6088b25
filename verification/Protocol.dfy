/** The brain, the advisor, the broker and the market together: what holds over every interleaving
    of their steps. */
module Protocol {
  import opened Numeric
  import opened Wrappers
  import opened Terminal
  import opened BrainSizing
  import opened MasterBrain
  import opened Executor

  // ---------------------------------------------------------------- the legs we hold

  datatype Leg = Leg(ticket: nat, side: Side, tag: Tag)

  function LegOf(p: Position): Leg { Leg(p.ticket, p.side, p.tag) }

  /** Our positions, in the terminal's order. */
  function Legs(ps: seq<Position>): seq<Leg> {
    if ps == [] then [] else (if ps[0].ours then [LegOf(ps[0])] else []) + Legs(ps[1..])
  }

  /** None, one main, one straddle alone, or one main followed by one straddle the other way. */
  predicate Shape(legs: seq<Leg>) {
    || legs == []
    || (|legs| == 1 && legs[0].tag != OppositeRecovery)
    || (|legs| == 2 && legs[0].tag == Entry && legs[1].side == legs[0].side.Opposite() && legs[1].tag == Straddle)
  }

  lemma {:induction false} LegsAppend(ps: seq<Position>, p: Position)
    requires p.ours
    ensures Legs(ps + [p]) == Legs(ps) + [LegOf(p)]
  {
    if ps != [] {
      assert (ps + [p])[1..] == ps[1..] + [p];
      LegsAppend(ps[1..], p);
    } else {
      assert (ps + [p])[1..] == [];
    }
  }

  lemma {:induction false} LegsMembers(ps: seq<Position>)
    ensures forall p :: p in ps && p.ours ==> LegOf(p) in Legs(ps)
    ensures forall l :: l in Legs(ps) ==> exists p :: p in ps && p.ours && LegOf(p) == l
  {
    if ps != [] {
      LegsMembers(ps[1..]);
      assert forall p :: p in ps <==> p == ps[0] || p in ps[1..];
    }
  }

  /** a arises from b by leaving legs out. */
  predicate Sub(a: seq<Leg>, b: seq<Leg>)
    decreases |b|
  {
    a == [] || (b != [] && ((a[0] == b[0] && Sub(a[1..], b[1..])) || Sub(a, b[1..])))
  }

  lemma {:induction false} SubLonger(a: seq<Leg>, b: seq<Leg>, l: Leg)
    requires Sub(a, b)
    ensures Sub(a, [l] + b) && Sub([l] + a, [l] + b)
  {
    assert ([l] + b)[1..] == b && ([l] + a)[1..] == a;
  }

  lemma LegsFirst(p: Position, rest: seq<Position>)
    ensures Legs([p] + rest) == (if p.ours then [LegOf(p)] else []) + Legs(rest)
  {
    assert ([p] + rest)[1..] == rest;
  }

  lemma KeepFirst(p: Position, rest: seq<Position>, gone: set<nat>)
    ensures Keep([p] + rest, gone) == if p.ticket in gone then Keep(rest, gone) else [p] + Keep(rest, gone)
  {
    assert ([p] + rest)[1..] == rest;
  }

  lemma {:induction false} KeepLegs(ps: seq<Position>, gone: set<nat>)
    ensures Sub(Legs(Keep(ps, gone)), Legs(ps))
  {
    hide Sub, Keep, Legs;
    if ps == [] {
      NothingKept(gone);
    } else {
      var p, rest, kept := ps[0], ps[1..], Keep(ps[1..], gone);
      assert ps == [p] + rest;
      KeepLegs(rest, gone);
      KeepFirst(p, rest, gone);
      LegsFirst(p, rest);
      LegsFirst(p, kept);
      if p.ours {
        SubLonger(Legs(kept), Legs(rest), LegOf(p));
      } else {
        assert [] + Legs(rest) == Legs(rest) && [] + Legs(kept) == Legs(kept);
      }
    }
  }

  lemma NothingKept(gone: set<nat>)
    ensures Sub(Legs(Keep([], gone)), Legs([]))
  {
  }

  lemma ShapeSub(a: seq<Leg>, b: seq<Leg>)
    requires Sub(a, b) && Shape(b)
    ensures Shape(a)
  {
    if |b| == 2 && a != [] {
      if Sub(a, b[1..]) {
        assert |a| <= 1 by { SubSingle(a, b[1..]); }
        assert a[0] == b[1] by { SubSingle(a, b[1..]); }
      } else {
        SubSingle(a[1..], b[1..]);
        assert a == [a[0]] + a[1..];
      }
    } else if |b| == 1 {
      SubSingle(a, b);
    }
  }

  lemma SubSingle(a: seq<Leg>, b: seq<Leg>)
    requires Sub(a, b) && |b| == 1
    ensures a == [] || a == b
  {
    assert b[1..] == [];
    if a != [] {
      assert a == [a[0]] + a[1..] && b == [b[0]] + b[1..];
    }
  }

  /** With the shape intact and no straddle found, a main that is found is all we hold. */
  lemma LoneMain(ps: seq<Position>)
    requires Shape(Legs(ps)) && FindStraddle(ps).None? && FindMain(ps).Some?
    ensures Legs(ps) == [LegOf(FindMain(ps).value)] && FindMain(ps).value.tag == Entry
  {
    LegsMembers(ps);
    var m := LegOf(FindMain(ps).value);
    assert m in Legs(ps);
    assert forall l :: l in Legs(ps) ==> l.tag != Straddle;
  }

  lemma {:induction false} NothingOurs(ps: seq<Position>)
    requires !HasOurs(ps)
    ensures Legs(ps) == []
  {
    if ps != [] {
      assert forall i :: 0 <= i < |ps| - 1 ==> ps[1..][i] == ps[i + 1];
      NothingOurs(ps[1..]);
    }
  }

  // ---------------------------------------------------------------- what every step keeps

  predicate NoStraddle(legs: seq<Leg>) { forall l :: l in legs ==> l.tag != Straddle }

  lemma NoStraddleFound(ps: seq<Position>)
    ensures FindStraddle(ps).None? <==> NoStraddle(Legs(ps))
  {
    LegsMembers(ps);
    if FindStraddle(ps).Some? {
      assert LegOf(FindStraddle(ps).value) in Legs(ps);
    }
  }

  /** Whom an arming was sized for: while no entry has been opened since, a main that is open is that very
      one; afterwards any main is a later one. */
  predicate Traced(z: SizedFor, legs: seq<Leg>, last: nat, entries: nat) {
    z.SizedFor? ==>
      && z.ticket <= last && z.entries <= entries
      && forall l :: l in legs && l.tag != Straddle ==> if z.entries == entries then l.ticket == z.ticket else l.ticket > z.ticket
  }

  /** Tickets are issued by the broker, and both armings are traced. */
  predicate Ledger(legs: seq<Leg>, last: nat, entries: nat, published: SizedFor, held: SizedFor) {
    && (forall l :: l in legs ==> l.ticket <= last)
    && Traced(published, legs, last, entries)
    && Traced(held, legs, last, entries)
  }

  /** The volume sent for a straddle: the validated one when the cap admits it; and above a main of two
      decimals exactly when the cap is half a hundredth above it, for any decimal step. */
  ghost predicate SentOk(r: Opening, spec: VolumeSpec)
    requires spec.min > 0.0
  {
    && (spec.Regular() && r.validated <= r.executionCap ==> r.executed == r.validated)
    && (OnGrid(r.main.volume, 2) && r.main.volume >= 0.0 ==>
          && (r.executed > r.main.volume
              <==> r.executionCap >= spec.min && Carried(r.validated, spec, r.executionCap) >= r.main.volume + 0.005)
          && (spec.Decimal() ==>
                (r.executed > r.main.volume <==> r.executionCap >= spec.min && r.executionCap >= r.main.volume + 0.005)))
  }

  /** A recorded straddle was opened against a main that was all we held, the other way, under a live
      brain, and its request validated above the main's volume.  On a trusted bus no baseline was stored, the
      request is the volume the brain sized, and it sized it for that very main exactly when no entry was
      opened in between. */
  ghost predicate OpeningOk(r: Opening, s: Settings, trusted: bool)
    requires s.spec.min > 0.0
  {
    && r.main in r.open && IsMain(r.main) && Legs(r.open) == [LegOf(r.main)]
    && r.side == r.main.side.Opposite()
    && 0.0 < r.heartbeat && r.clock as real - r.heartbeat <= s.brainMaxAge as real
    && r.validated == ValidateStraddleLots(r.requested, r.main.volume, s.spec, r.cap)
    && r.validated > r.main.volume
    && SentOk(r, s.spec)
    && (trusted ==>
          && r.baseline == 0.0
          && (r.sizedFor.SizedFor? ==>
                && r.requested == r.sizedFor.lots
                && (r.sizedFor.ticket == r.main.ticket <==> r.sizedFor.entries == r.entries)))
  }

  /** Positions, tickets and history. */
  ghost predicate Safe(w: World, s: Settings, trusted: bool)
    requires s.spec.min > 0.0
  {
    && Shape(Legs(w.positions))
    && Ledger(Legs(w.positions), w.lastTicket, w.entries, w.published, w.held)
    && forall i :: 0 <= i < |w.history| ==> OpeningOk(w.history[i], s, trusted)
  }

  /** The bus as brain and advisor keep it when nobody else writes it. */
  predicate BusOk(vars: Vars, cfg: Config) {
    StateInRange(vars, cfg) && CommandsExclusive(vars) && ArmedMeansNoBaseline(vars)
  }

  /** An arming, on the bus or in the advisor's hand, belongs to a basket without a straddle and without a
      baseline. */
  predicate ArmFresh(w: World) {
    Flag(w.vars, STRADDLE_ARM) || w.arm ==> Get(w.vars, MB_BASE_BALANCE, 0.0) == 0.0 && NoStraddle(Legs(w.positions))
  }

  /** The volume that goes with an arming, on the bus and in the advisor's hand, is the one it was sized to. */
  predicate ArmSized(w: World) {
    && (Flag(w.vars, STRADDLE_ARM) && w.published.SizedFor? ==> Get(w.vars, STRADDLE_LOTS, 0.0) == w.published.lots)
    && (w.arm && w.held.SizedFor? ==> w.lots == w.held.lots)
  }

  /** The invariant, before and after every step and between the stages of a tick. */
  ghost predicate Inv(w: World, s: Settings, cfg: Config, trusted: bool)
    requires s.spec.min > 0.0
  {
    Safe(w, s, trusted) && (trusted ==> BusOk(w.vars, cfg) && ArmFresh(w) && ArmSized(w))
  }

  /** An update of the bus that only lowers commands. */
  predicate Lowers(before: Vars, after: Vars) {
    && (forall k :: k !in {STRADDLE_ARM, STRADDLE_EXIT, BASKET_TERMINATE, BASKET_EMERGENCY} ==>
          Get(after, k, 0.0) == Get(before, k, 0.0))
    && (forall k :: Flag(after, k) ==> Flag(before, k))
  }

  lemma LoweringKeepsBus(before: Vars, after: Vars, cfg: Config)
    requires BusOk(before, cfg) && Lowers(before, after)
    ensures BusOk(after, cfg)
  {
    assert Get(after, RISK_STATE, 0.0) == Get(before, RISK_STATE, 0.0);
    assert Get(after, GRACE_BARS_LEFT, 0.0) == Get(before, GRACE_BARS_LEFT, 0.0);
    assert Get(after, MB_BASE_BALANCE, 0.0) == Get(before, MB_BASE_BALANCE, 0.0);
  }

  lemma {:induction false} SubMembers(a: seq<Leg>, b: seq<Leg>)
    requires Sub(a, b)
    ensures forall l :: l in a ==> l in b
    decreases |b|
  {
    if a != [] {
      if Sub(a, b[1..]) {
        SubMembers(a, b[1..]);
      } else {
        SubMembers(a[1..], b[1..]);
        assert a == [a[0]] + a[1..];
      }
    }
  }

  lemma CloseKeeps(w: World, gone: set<nat>, s: Settings, cfg: Config, trusted: bool)
    requires s.spec.min > 0.0 && Inv(w, s, cfg, trusted)
    ensures Inv(CloseTickets(w, gone), s, cfg, trusted)
  {
    hide Keep, SumBooked, Legs, Shape, BusOk, OpeningOk, Sub;
    KeepLegs(w.positions, gone);
    ShapeSub(Legs(Keep(w.positions, gone)), Legs(w.positions));
    SubMembers(Legs(Keep(w.positions, gone)), Legs(w.positions));
  }

  lemma FoundKeeps(w: World, p: Option<Position>, agreed: bool, s: Settings, cfg: Config, trusted: bool)
    requires s.spec.min > 0.0 && Inv(w, s, cfg, trusted)
    ensures Inv(CloseFound(w, p, agreed), s, cfg, trusted)
  {
    hide Inv, CloseTickets;
    if p.Some? {
      CloseKeeps(w, {p.value.ticket}, s, cfg, trusted);
    }
  }

  lemma CloseBothKeeps(w: World, a: bool, b: bool, s: Settings, cfg: Config, trusted: bool)
    requires s.spec.min > 0.0 && Inv(w, s, cfg, trusted)
    ensures Inv(CloseBoth(w, a, b).0, s, cfg, trusted)
  {
    hide Inv, FindMain, FindStraddle, CloseFound;
    var straddle := FindStraddle(w.positions);
    FoundKeeps(w, straddle, a, s, cfg, trusted);
    var w1 := CloseFound(w, straddle, a);
    FoundKeeps(w1, FindMain(w1.positions), b, s, cfg, trusted);
  }

  lemma LowerKeeps(w: World, vars: Vars, s: Settings, cfg: Config, trusted: bool)
    requires s.spec.min > 0.0 && Inv(w, s, cfg, trusted) && Lowers(w.vars, vars)
    ensures Inv(w.(vars := vars), s, cfg, trusted)
  {
    hide BusOk, Shape, Legs, OpeningOk, Ledger, NoStraddle;
    if trusted {
      LoweringKeepsBus(w.vars, vars, cfg);
      assert Get(vars, MB_BASE_BALANCE, 0.0) == Get(w.vars, MB_BASE_BALANCE, 0.0);
    }
  }

  /** Lowering a command the advisor holds, on the bus and in its hand. */
  lemma DropCommand(w: World, k: Key, s: Settings, cfg: Config, trusted: bool)
    requires s.spec.min > 0.0 && Inv(w, s, cfg, trusted) && k in {STRADDLE_EXIT, BASKET_TERMINATE}
    ensures Inv(w.(exit := false, vars := w.vars[k := 0.0]), s, cfg, trusted)
    ensures Inv(w.(terminate := false, vars := w.vars[k := 0.0]), s, cfg, trusted)
  {
    hide BusOk, Shape, Legs, OpeningOk, Ledger, NoStraddle;
    LowerKeeps(w, w.vars[k := 0.0], s, cfg, trusted);
  }

  lemma GuardKeeps(w: World, a: bool, b: bool, s: Settings, cfg: Config, trusted: bool)
    requires s.spec.min > 0.0 && Inv(w, s, cfg, trusted)
    ensures Inv(Guard(w, a, b).0, s, cfg, trusted)
  {
    hide Inv, CloseBoth;
    CloseBothKeeps(w, a, b, s, cfg, trusted);
    var w1 := CloseBoth(w, a, b).0;
    LowerKeeps(w1, w1.vars[BASKET_EMERGENCY := 0.0][BASKET_TERMINATE := 0.0], s, cfg, trusted);
  }

  /** No position we ever open carries the recovery tag, so the recovery basket is never due. */
  lemma RecoveryNeverDue(w: World, s: Settings, trusted: bool)
    requires s.spec.min > 0.0 && Safe(w, s, trusted)
    ensures !RecoveryDue(w.positions, w.quote, s)
  {
    hide OurTickets, OurFloating, OpeningOk, Ledger;
    LegsMembers(w.positions);
    assert forall l :: l in Legs(w.positions) ==> l.tag != OppositeRecovery;
    assert forall i :: 0 <= i < |w.positions| && w.positions[i].ours ==> LegOf(w.positions[i]) in Legs(w.positions);
  }

  lemma ManageKeeps(w: World, s: Settings, i: TickInput, cfg: Config, trusted: bool)
    requires s.spec.min > 0.0 && Inv(w, s, cfg, trusted)
    ensures Inv(Manage(w, s, i), s, cfg, trusted)
  {
    hide Safe, CloseFound, RecoveryDue, FindStraddle, OrphanDue;
    RecoveryNeverDue(w, s, trusted);
    FoundKeeps(w, FindStraddle(w.positions), OrphanDue(w, s) && i.orphan, s, cfg, trusted);
  }

  lemma ReadKeeps(w: World, s: Settings, cfg: Config, trusted: bool)
    requires s.spec.min > 0.0 && Inv(w, s, cfg, trusted)
    ensures Inv(ReadNetwork(w, s), s, cfg, trusted)
  {
    hide Shape, Legs, OpeningOk, BusOk, NoStraddle;
  }

  // ---------------------------------------------------------------- a termination leaves nothing

  lemma KeptLegs(ps: seq<Position>, ticket: nat)
    ensures forall l :: l in Legs(Keep(ps, {ticket})) ==> l in Legs(ps) && l.ticket != ticket
  {
    hide Legs, Sub;
    KeepLegs(ps, {ticket});
    SubMembers(Legs(Keep(ps, {ticket})), Legs(ps));
    LegsMembers(Keep(ps, {ticket}));
  }

  /** Closing the straddle that is found leaves none. */
  lemma StraddleGone(w: World, agreed: bool)
    requires Shape(Legs(w.positions)) && (FindStraddle(w.positions).None? || agreed)
    ensures var t := CloseFound(w, FindStraddle(w.positions), agreed);
      Shape(Legs(t.positions)) && NoStraddle(Legs(t.positions))
  {
    hide Legs, Keep, SumBooked, FindStraddle, Sub;
    NoStraddleFound(w.positions);
    LegsMembers(w.positions);
    if FindStraddle(w.positions).Some? {
      var ticket := FindStraddle(w.positions).value.ticket;
      KeptLegs(w.positions, ticket);
      KeepLegs(w.positions, {ticket});
      ShapeSub(Legs(Keep(w.positions, {ticket})), Legs(w.positions));
      assert LegOf(FindStraddle(w.positions).value) in Legs(w.positions);
    }
  }

  /** Closing the main that is found then leaves nothing. */
  lemma MainGone(w: World, agreed: bool)
    requires Shape(Legs(w.positions)) && NoStraddle(Legs(w.positions)) && (FindMain(w.positions).None? || agreed)
    ensures Legs(CloseFound(w, FindMain(w.positions), agreed).positions) == []
  {
    hide Legs, Keep, SumBooked, FindMain;
    LegsMembers(w.positions);
    HasMember(Legs(CloseFound(w, FindMain(w.positions), agreed).positions));
    if FindMain(w.positions).Some? {
      KeptLegs(w.positions, FindMain(w.positions).value.ticket);
      assert LegOf(FindMain(w.positions).value) in Legs(w.positions);
    }
  }

  lemma HasMember(legs: seq<Leg>)
    ensures legs == [] || exists l :: l in legs
  {
    if legs != [] {
      assert legs[0] in legs;
    }
  }

  lemma BothGone(w: World, a: bool, b: bool)
    requires Shape(Legs(w.positions)) && CloseBoth(w, a, b).1
    ensures Legs(CloseBoth(w, a, b).0.positions) == []
  {
    hide Legs, CloseFound, FindMain, FindStraddle, Shape;
    StraddleGone(w, a);
    MainGone(CloseFound(w, FindStraddle(w.positions), a), b);
  }

  /** Whenever the basket guard or a held termination reports a full close, nothing of ours is left, and the
      command is lowered; as long as something could not be closed, the command stays up. */
  lemma TerminationFlattens(w: World, s: Settings, a: Answers)
    requires s.spec.min > 0.0 && Shape(Legs(w.positions))
    ensures var (t, stop) := Guard(w, a.closeStraddle, a.closeMain);
      if stop then Legs(t.positions) == [] && !Flag(t.vars, BASKET_EMERGENCY) && !Flag(t.vars, BASKET_TERMINATE)
      else t.vars == w.vars
    ensures w.ok && w.terminate ==>
      if CloseBoth(w, a.closeStraddle, a.closeMain).1
      then Legs(Execute(w, s, a).positions) == [] && !Flag(Execute(w, s, a).vars, BASKET_TERMINATE)
      else Flag(w.vars, BASKET_TERMINATE) ==> Flag(Execute(w, s, a).vars, BASKET_TERMINATE)
  {
    hide CloseBoth, Legs, Shape, Execute;
    CloseCarries(w, a.closeStraddle, a.closeMain, s);
    if CloseBoth(w, a.closeStraddle, a.closeMain).1 {
      BothGone(w, a.closeStraddle, a.closeMain);
    }
    if w.ok && w.terminate {
      ExecuteTerminates(w, s, a);
    }
  }

  lemma ExecuteTerminates(w: World, s: Settings, a: Answers)
    requires s.spec.min > 0.0 && w.ok && w.terminate
    ensures var (w1, closed) := CloseBoth(w, a.closeStraddle, a.closeMain);
      if closed then Execute(w, s, a).positions == w1.positions && Get(Execute(w, s, a).vars, BASKET_TERMINATE, 0.0) == 0.0
      else Get(Execute(w, s, a).vars, BASKET_TERMINATE, 0.0) == Get(w.vars, BASKET_TERMINATE, 0.0)
  {
    hide CloseBoth, FindStraddle, Keep, SumBooked, ArmStraddle, BrainAlive;
    CloseCarries(w, a.closeStraddle, a.closeMain, s);
    ArmLeavesTermination(CloseBoth(w, a.closeStraddle, a.closeMain).0, s, a);
  }

  lemma ArmLeavesTermination(w: World, s: Settings, a: Answers)
    requires s.spec.min > 0.0
    ensures Get(ArmStraddle(w, s, a).vars, BASKET_TERMINATE, 0.0) == Get(w.vars, BASKET_TERMINATE, 0.0)
  {
    hide FindMain, FindStraddle, Validated, Executable;
  }

  // ---------------------------------------------------------------- opening a straddle

  /** The brain counts as alive exactly from its first heartbeat on, and as long as the clock has not passed
      the last one by more than the age limit. */
  lemma AliveExactly(w: World, s: Settings)
    ensures BrainAlive(w, s)
       <==> Get(w.vars, HEARTBEAT, 0.0) > 0.0 && w.now as real - Get(w.vars, HEARTBEAT, 0.0) <= s.brainMaxAge as real
  {
    var hb := Get(w.vars, HEARTBEAT, 0.0);
    if hb > 0.0 {
      FloorReaches(hb, w.now - s.brainMaxAge);
    }
  }

  lemma FloorReaches(x: real, n: int)
    ensures x.Floor >= n <==> x >= n as real
  {
  }

  /** While the brain has been silent for longer than the age limit, or was never heard, no pass over the
      commands opens anything. */
  lemma SilentBrainOpensNothing(w: World, s: Settings, a: Answers)
    requires s.spec.min > 0.0
    requires Get(w.vars, HEARTBEAT, 0.0) <= 0.0 || w.now as real - Get(w.vars, HEARTBEAT, 0.0) > s.brainMaxAge as real
    ensures Execute(w, s, a).history == w.history
    ensures forall p :: p in Execute(w, s, a).positions ==> p in w.positions
  {
    hide BrainAlive, ArmStraddle, FindStraddle, FindMain, SumBooked;
    AliveExactly(w, s);
    AliveExactly(CloseBoth(w, a.closeStraddle, a.closeMain).0, s);
  }

  lemma SentVolume(w: World, s: Settings, a: Answers, main: Position, r: Opening)
    requires s.spec.min > 0.0 && Validated(w, s, main) > 0.0
    requires r.main == main && r.validated == Validated(w, s, main) && r.executed == Executable(w, s, main, a)
    requires r.executionCap == ExecutionCap(s.spec, s.straddleMaxLot, a.fundLots, a.fundEngine)
    ensures r.validated > main.volume && SentOk(r, s.spec)
  {
    hide ValidateStraddleLots, CalculateExecutableLots, Carried, OnGrid, ExecutionCap;
    var cap := s.StraddleCap(w.balance);
    ValidatedIsHundredths(w.lots, main.volume, s.spec, cap);
    if s.spec.Regular() && r.validated <= r.executionCap {
      ValidatedExecutes(w.lots, main.volume, s.spec, cap, s.straddleMaxLot, a.fundLots, a.fundEngine);
    }
    if OnGrid(main.volume, 2) && main.volume >= 0.0 {
      RecappedAboveMain(w.lots, main.volume, s.spec, cap, s.straddleMaxLot, a.fundLots, a.fundEngine);
    }
  }

  /** The record made of an opening is in order. */
  lemma OpeningRecorded(w: World, s: Settings, a: Answers, cfg: Config, trusted: bool)
    requires s.spec.min > 0.0 && Inv(w, s, cfg, trusted) && w.arm && BrainAlive(w, s)
    requires FindStraddle(w.positions).None? && FindMain(w.positions).Some? && Validated(w, s, FindMain(w.positions).value) > 0.0
    requires OpenStraddle(w, s, FindMain(w.positions).value, a).1
    ensures var h := OpenStraddle(w, s, FindMain(w.positions).value, a).0.history;
      h != [] && h[..|h| - 1] == w.history && OpeningOk(h[|h| - 1], s, trusted)
  {
    hide ValidateStraddleLots, CalculateExecutableLots, Executable, FindMain, FindStraddle, BusOk, SentOk, ExecutionCap,
         Ledger, ArmFresh, ArmSized, Shape, Legs, Settings.StraddleCap, BrainAlive;
    var main := FindMain(w.positions).value;
    var h := OpenStraddle(w, s, main, a).0.history;
    var r := h[|h| - 1];
    assert h[..|h| - 1] == w.history;
    LoneMain(w.positions);
    SentVolume(w, s, a, main, r);
    AliveExactly(w, s);
    if trusted {
      ArmTraced(w, s, cfg, main);
    }
  }

  /** An arming in hand belongs to a basket without a baseline, with the volume it was sized to, and to the
      only leg exactly when no entry was opened since. */
  lemma ArmTraced(w: World, s: Settings, cfg: Config, main: Position)
    requires s.spec.min > 0.0 && Inv(w, s, cfg, true) && w.arm && Legs(w.positions) == [LegOf(main)] && main.tag == Entry
    ensures Get(w.vars, MB_BASE_BALANCE, 0.0) == 0.0
    ensures w.held.SizedFor? ==> w.lots == w.held.lots && (w.held.ticket == main.ticket <==> w.held.entries == w.entries)
  {
    hide Legs, BusOk, OpeningOk, Shape;
    assert Legs(w.positions)[0] in Legs(w.positions);
  }

  /** Arming keeps everything: it opens one straddle against a lone main, under a live brain. */
  lemma ArmKeeps(w: World, s: Settings, a: Answers, cfg: Config, trusted: bool)
    requires s.spec.min > 0.0 && Inv(w, s, cfg, trusted) && w.arm && BrainAlive(w, s)
    ensures Inv(ArmStraddle(w, s, a), s, cfg, trusted)
  {
    hide Validated, BusOk, OpeningOk, FindMain, FindStraddle, Executable, BrainAlive, ExecutionCap, Inv;
    var main := FindMain(w.positions);
    if FindStraddle(w.positions).None? && main.Some? && Validated(w, s, main.value) > 0.0 {
      ReadKeeps(w, s, cfg, trusted);
      var (w1, done) := OpenStraddle(w, s, main.value, a);
      if done {
        OpeningRecorded(w, s, a, cfg, trusted);
        OpenedKeeps(w, s, a, cfg, trusted);
      }
    }
  }

  lemma LedgerGrows(legs: seq<Leg>, straddle: Leg, last: nat, entries: nat, published: SizedFor, held: SizedFor)
    requires Ledger(legs, last, entries, published, held) && straddle.tag == Straddle && straddle.ticket > last
    ensures Ledger(legs + [straddle], straddle.ticket, entries, published, held)
    ensures Ledger(legs + [straddle], straddle.ticket, entries, published, published)
  {
  }

  /** What an opening changes. */
  lemma OpenedFields(w: World, s: Settings, main: Position, a: Answers)
    requires s.spec.min > 0.0 && OpenStraddle(w, s, main, a).1
    ensures var t := OpenStraddle(w, s, main, a).0;
      && t.positions != [] && t.positions == w.positions + [t.positions[|t.positions| - 1]]
      && LegOf(t.positions[|t.positions| - 1]) == Leg(t.lastTicket, main.side.Opposite(), Straddle)
      && t.positions[|t.positions| - 1].ours && t.lastTicket > w.lastTicket
      && t.vars == w.vars && t.entries == w.entries && t.published == w.published && t.held in {w.held, w.published}
  {
    hide Executable, Validated, ExecutionCap;
  }

  /** The positions, tickets and history after an opening. */
  lemma OpenedSafe(w: World, t: World, s: Settings, main: Position, trusted: bool)
    requires s.spec.min > 0.0 && Safe(w, s, trusted) && Legs(w.positions) == [LegOf(main)] && main.tag == Entry
    requires t.positions != [] && t.positions == w.positions + [t.positions[|t.positions| - 1]]
    requires LegOf(t.positions[|t.positions| - 1]) == Leg(t.lastTicket, main.side.Opposite(), Straddle)
    requires t.positions[|t.positions| - 1].ours && t.lastTicket > w.lastTicket
    requires t.entries == w.entries && t.published == w.published && t.held in {w.held, w.published}
    requires t.history != [] && t.history[..|t.history| - 1] == w.history && OpeningOk(t.history[|t.history| - 1], s, trusted)
    ensures Safe(t, s, trusted)
  {
    hide OpeningOk, Legs, Ledger;
    var p := t.positions[|t.positions| - 1];
    LegsAppend(w.positions, p);
    LedgerGrows(Legs(w.positions), LegOf(p), w.lastTicket, w.entries, w.published, w.held);
    forall i | 0 <= i < |t.history|
      ensures OpeningOk(t.history[i], s, trusted)
    {
      if i < |w.history| {
        assert t.history[..|t.history| - 1][i] == w.history[i];
      }
    }
  }

  /** The invariant after an opening, with the arming lowered. */
  lemma OpenedKeeps(w: World, s: Settings, a: Answers, cfg: Config, trusted: bool)
    requires s.spec.min > 0.0 && Inv(w, s, cfg, trusted) && w.arm
    requires FindStraddle(w.positions).None? && FindMain(w.positions).Some?
    requires OpenStraddle(w, s, FindMain(w.positions).value, a).1
    requires var h := OpenStraddle(w, s, FindMain(w.positions).value, a).0.history;
      h != [] && h[..|h| - 1] == w.history && OpeningOk(h[|h| - 1], s, trusted)
    ensures var w1 := OpenStraddle(w, s, FindMain(w.positions).value, a).0;
      Inv(w1.(arm := false, vars := w1.vars[STRADDLE_ARM := 0.0]), s, cfg, trusted)
  {
    hide BusOk, OpeningOk, FindMain, FindStraddle, OpenStraddle, Legs, Ledger, NoStraddle;
    var main := FindMain(w.positions).value;
    var t := OpenStraddle(w, s, main, a).0;
    assert Shape(Legs(w.positions));
    LoneMain(w.positions);
    OpenedFields(w, s, main, a);
    OpenedSafe(w, t, s, main, trusted);
    if trusted {
      LoweringKeepsBus(t.vars, t.vars[STRADDLE_ARM := 0.0], cfg);
    }
  }

  lemma ExecuteKeeps(w: World, s: Settings, a: Answers, cfg: Config, trusted: bool)
    requires s.spec.min > 0.0 && Inv(w, s, cfg, trusted)
    ensures Inv(Execute(w, s, a), s, cfg, trusted)
  {
    hide Inv, CloseBoth, ArmStraddle, FindStraddle, Keep, SumBooked, BrainAlive;
    CloseBothKeeps(w, a.closeStraddle, a.closeMain, s, cfg, trusted);
    var (w1, closed) := if w.terminate then CloseBoth(w, a.closeStraddle, a.closeMain) else (w, false);
    if closed {
      DropCommand(w1, BASKET_TERMINATE, s, cfg, trusted);
    } else {
      var straddle := FindStraddle(w1.positions);
      if straddle.Some? {
        CloseKeeps(w1, {straddle.value.ticket}, s, cfg, trusted);
        DropCommand(CloseTickets(w1, {straddle.value.ticket}), STRADDLE_EXIT, s, cfg, trusted);
      }
      if w1.arm && BrainAlive(w1, s) {
        ArmKeeps(w1, s, a, cfg, trusted);
      }
    }
  }

  // ---------------------------------------------------------------- opening an entry

  lemma SignalKeeps(w: World, s: Settings, a: Attempt, cfg: Config, trusted: bool)
    requires s.spec.min > 0.0 && Inv(w, s, cfg, trusted) && s.onePositionOnly
    ensures Inv(ExecuteSignal(w, s, a).0, s, cfg, trusted)
  {
    hide BusOk, Legs, OpeningOk, HasOurs;
    ReadKeeps(w, s, cfg, trusted);
    var (w1, done) := ExecuteSignal(w, s, a);
    if done {
      NothingOurs(w.positions);
      LegsAppend(w.positions, w1.positions[|w1.positions| - 1]);
    }
  }

  lemma {:induction false} SignalsKeep(w: World, s: Settings, attempts: seq<Attempt>, cfg: Config, trusted: bool)
    requires s.spec.min > 0.0 && Inv(w, s, cfg, trusted) && s.onePositionOnly
    ensures Inv(EvaluateSignals(w, s, attempts), s, cfg, trusted)
    decreases |attempts|
  {
    hide Inv, ExecuteSignal;
    if attempts != [] {
      SignalKeeps(w, s, attempts[0], cfg, trusted);
      if !ExecuteSignal(w, s, attempts[0]).1 {
        SignalsKeep(ExecuteSignal(w, s, attempts[0]).0, s, attempts[1..], cfg, trusted);
      }
    }
  }

  // ---------------------------------------------------------------- what happens outside

  /** The brain sees the current terminal; the market moves prices, time, the balance, swaps and other
      parties' positions but not our legs; only an untrusted run lets anyone else write the bus. */
  predicate Legal(w: World, e: Outside, trusted: bool) {
    match e
    case BrokerClose(_) => true
    case BrainUpdate(v) => v.positions == w.positions && v.balance == w.balance && v.quote == w.quote && v.now == w.now
    case MarketMove(_, now, _, ps, last) => now >= w.now && last >= w.lastTicket && Legs(ps) == Legs(w.positions)
    case BusWrite(_) => !trusted
  }

  predicate AllLegal(w: World, events: seq<Outside>, cfg: Config, trusted: bool)
    decreases |events|
  {
    events == [] || (Legal(w, events[0], trusted) && AllLegal(React(w, events[0], cfg), events[1..], cfg, trusted))
  }

  lemma PublishedFigures(vars: Vars, v: View, cfg: Config)
    requires FindStraddle(v.positions).None? && FindMain(v.positions).Some? && v.mainLive
    requires WantsStraddle(vars, FindMain(v.positions).value, v, cfg)
    ensures Get(Updated(vars, v, cfg), HEARTBEAT, 0.0) == v.now as real
    ensures Get(Updated(vars, v, cfg), STRADDLE_LOTS, 0.0) == SizingOf(FindMain(v.positions).value, v, cfg).lots
  {
    hide FindMain, FindStraddle, SizingOf, WantsStraddle, MainState, MainLossPct, TargetPrice, AdverseM3Bars;
  }

  /** An update of the brain arms only without a straddle and without a baseline, for the main it saw. */
  lemma BrainKeeps(w: World, v: View, s: Settings, cfg: Config, trusted: bool)
    requires s.spec.min > 0.0 && Inv(w, s, cfg, trusted) && v.positions == w.positions
    ensures Inv(React(w, BrainUpdate(v), cfg), s, cfg, trusted)
  {
    hide Updated, StateInRange, CommandsExclusive, OpeningOk, FindMain, FindStraddle, MainState, AdverseM3Bars, SizingOf,
         NetProfit;
    StateKept(w.vars, v, cfg);
    UpdateKeepsCommands(w.vars, v, cfg);
    ArmFlag(w.vars, v, cfg);
    NoStraddleFound(w.positions);
    if Flag(Updated(w.vars, v, cfg), STRADDLE_ARM) {
      LoneMain(w.positions);
      PublishedFigures(w.vars, v, cfg);
    }
    UpdateBaseline(w.vars, v, cfg);
  }

  lemma StateKept(vars: Vars, v: View, cfg: Config)
    ensures StateInRange(vars, cfg) ==> StateInRange(Updated(vars, v, cfg), cfg)
  {
    hide Updated, StateInRange;
    if StateInRange(vars, cfg) {
      UpdateKeepsState(vars, v, cfg);
    }
  }

  lemma ReactKeeps(w: World, e: Outside, s: Settings, cfg: Config, trusted: bool)
    requires s.spec.min > 0.0 && Inv(w, s, cfg, trusted) && Legal(w, e, trusted)
    ensures Inv(React(w, e, cfg), s, cfg, trusted)
  {
    hide Updated, Shape, OpeningOk, Legs, BusOk, CloseTickets, Published, NoStraddle;
    match e
    case BrokerClose(gone) => CloseKeeps(w, gone, s, cfg, trusted);
    case BrainUpdate(v) => BrainKeeps(w, v, s, cfg, trusted);
    case MarketMove(_, _, _, _, _) =>
    case BusWrite(_) =>
  }

  lemma {:induction false} ReactsKeep(w: World, events: seq<Outside>, s: Settings, cfg: Config, trusted: bool)
    requires s.spec.min > 0.0 && Inv(w, s, cfg, trusted) && AllLegal(w, events, cfg, trusted)
    ensures Inv(Reacts(w, events, cfg), s, cfg, trusted)
    decreases |events|
  {
    hide Inv, Legal, React;
    if events != [] {
      ReactKeeps(w, events[0], s, cfg, trusted);
      ReactsKeep(React(w, events[0], cfg), events[1..], s, cfg, trusted);
    }
  }

  // ---------------------------------------------------------------- a whole tick

  /** What happens between the stages is legal where it happens. */
  predicate LegalFinish(w: World, s: Settings, i: TickInput, cfg: Config, trusted: bool)
    requires s.spec.min > 0.0
  {
    Breached(w, i) || AllLegal(Second(w, s, i), i.At(5), cfg, trusted)
  }

  predicate LegalTick(w: World, s: Settings, i: TickInput, cfg: Config, trusted: bool)
    requires s.spec.min > 0.0
  {
    && AllLegal(w, i.At(0), cfg, trusted)
    && var w0 := ReadNetwork(Reacts(w, i.At(0), cfg), s);
    && AllLegal(w0, i.At(1), cfg, trusted)
    && var (w2, stop) := Guard(Reacts(w0, i.At(1), cfg), i.guardStraddle, i.guardMain);
    stop || LegalAfterGuard(w2, s, i, cfg, trusted)
  }

  predicate LegalAfterGuard(w: World, s: Settings, i: TickInput, cfg: Config, trusted: bool)
    requires s.spec.min > 0.0
  {
    && AllLegal(w, i.At(2), cfg, trusted)
    && var managed := Manage(Reacts(w, i.At(2), cfg), s, i);
    && AllLegal(managed, i.At(3), cfg, trusted)
    && var executed := Execute(Reacts(managed, i.At(3), cfg), s, i.first);
    && AllLegal(executed, i.At(4), cfg, trusted)
    && LegalFinish(Reacts(executed, i.At(4), cfg), s, i, cfg, trusted)
  }

  lemma FinishKeeps(w: World, s: Settings, i: TickInput, cfg: Config, trusted: bool)
    requires s.spec.min > 0.0 && Inv(w, s, cfg, trusted) && s.onePositionOnly && LegalFinish(w, s, i, cfg, trusted)
    ensures Inv(Finish(w, s, i, cfg), s, cfg, trusted)
  {
    hide Inv, CloseTickets, Execute, EvaluateSignals, FindMain, Reacts, AllLegal;
    if Breached(w, i) {
      CloseKeeps(w, {FindMain(w.positions).value.ticket}, s, cfg, trusted);
    } else {
      ExecuteKeeps(w, s, i.second, cfg, trusted);
      ReactsKeep(Second(w, s, i), i.At(5), s, cfg, trusted);
      SignalsKeep(Reacts(Second(w, s, i), i.At(5), cfg), s, i.attempts, cfg, trusted);
    }
  }

  /** A whole tick, whatever the broker, the gates and the signals answer, and whatever happens in between. */
  lemma TickKeeps(w: World, s: Settings, i: TickInput, cfg: Config, trusted: bool)
    requires s.spec.min > 0.0 && Inv(w, s, cfg, trusted) && s.onePositionOnly && LegalTick(w, s, i, cfg, trusted)
    ensures Inv(Tick(w, s, i, cfg), s, cfg, trusted)
  {
    hide Inv, ReadNetwork, Guard, Manage, Execute, Finish, Reacts, AllLegal, LegalFinish;
    ReactsKeep(w, i.At(0), s, cfg, trusted);
    ReadKeeps(Reacts(w, i.At(0), cfg), s, cfg, trusted);
    var w0 := ReadNetwork(Reacts(w, i.At(0), cfg), s);
    ReactsKeep(w0, i.At(1), s, cfg, trusted);
    GuardKeeps(Reacts(w0, i.At(1), cfg), i.guardStraddle, i.guardMain, s, cfg, trusted);
    var (w2, stop) := Guard(Reacts(w0, i.At(1), cfg), i.guardStraddle, i.guardMain);
    if !stop {
      ReactsKeep(w2, i.At(2), s, cfg, trusted);
      ManageKeeps(Reacts(w2, i.At(2), cfg), s, i, cfg, trusted);
      var managed := Manage(Reacts(w2, i.At(2), cfg), s, i);
      ReactsKeep(managed, i.At(3), s, cfg, trusted);
      ExecuteKeeps(Reacts(managed, i.At(3), cfg), s, i.first, cfg, trusted);
      var executed := Execute(Reacts(managed, i.At(3), cfg), s, i.first);
      ReactsKeep(executed, i.At(4), s, cfg, trusted);
      FinishKeeps(Reacts(executed, i.At(4), cfg), s, i, cfg, trusted);
    }
  }

  // ---------------------------------------------------------------- what the advisor never writes

  /** The baseline is untouched, and without the observer network no arming command is picked up. */
  predicate Carries(w: World, x: World, s: Settings) {
    && Get(x.vars, MB_BASE_BALANCE, 0.0) == Get(w.vars, MB_BASE_BALANCE, 0.0)
    && (!s.useObserverNetwork && !w.arm ==> !x.arm)
  }

  lemma CloseCarries(w: World, a: bool, b: bool, s: Settings)
    ensures Carries(w, CloseBoth(w, a, b).0, s)
    ensures CloseBoth(w, a, b).0.vars == w.vars && CloseBoth(w, a, b).0.arm == w.arm
  {
    hide FindMain, FindStraddle, Keep, SumBooked;
  }

  lemma ArmCarries(w: World, s: Settings, a: Answers)
    requires s.spec.min > 0.0
    ensures Carries(w, ArmStraddle(w, s, a), s)
  {
    hide FindMain, FindStraddle, Validated, Executable;
  }

  lemma ExecuteCarries(w: World, s: Settings, a: Answers)
    requires s.spec.min > 0.0
    ensures Carries(w, Execute(w, s, a), s)
  {
    hide FindStraddle, Keep, SumBooked, BrainAlive, ArmStraddle, CloseBoth;
    CloseCarries(w, a.closeStraddle, a.closeMain, s);
    var w1 := if w.terminate then CloseBoth(w, a.closeStraddle, a.closeMain).0 else w;
    ArmCarries(w1, s, a);
  }

  lemma {:induction false} SignalsCarry(w: World, s: Settings, attempts: seq<Attempt>)
    ensures Carries(w, EvaluateSignals(w, s, attempts), s)
    decreases |attempts|
  {
    if attempts != [] && !ExecuteSignal(w, s, attempts[0]).1 {
      SignalsCarry(ExecuteSignal(w, s, attempts[0]).0, s, attempts[1..]);
    }
  }

  lemma GuardCarries(w: World, a: bool, b: bool, s: Settings)
    ensures Carries(w, Guard(w, a, b).0, s)
  {
    hide CloseBoth;
    CloseCarries(w, a, b, s);
  }

  lemma ManageCarries(w: World, s: Settings, i: TickInput)
    ensures Carries(w, Manage(w, s, i), s) && Carries(w, ReadNetwork(w, s), s)
  {
    hide Keep, SumBooked, FindStraddle, RecoveryDue, OrphanDue, OurTickets;
  }

  /** Nobody writes the bus. */
  predicate Quiet(events: seq<Outside>) {
    forall k :: 0 <= k < |events| ==> !events[k].BrainUpdate? && !events[k].BusWrite?
  }

  lemma {:induction false} QuietCarries(w: World, events: seq<Outside>, s: Settings, cfg: Config)
    requires Quiet(events)
    ensures Carries(w, Reacts(w, events, cfg), s)
    decreases |events|
  {
    hide Keep, SumBooked, Updated;
    if events != [] {
      assert !events[0].BrainUpdate? && !events[0].BusWrite?;
      assert forall k :: 0 <= k < |events[1..]| ==> events[1..][k] == events[k + 1];
      QuietCarries(React(w, events[0], cfg), events[1..], s, cfg);
    }
  }

  lemma FinishCarries(w: World, s: Settings, i: TickInput, cfg: Config)
    requires s.spec.min > 0.0 && Quiet(i.At(5))
    ensures Carries(w, Finish(w, s, i, cfg), s)
  {
    hide Keep, SumBooked, FindMain, Execute, EvaluateSignals, Reacts;
    ExecuteCarries(w, s, i.second);
    QuietCarries(Second(w, s, i), i.At(5), s, cfg);
    SignalsCarry(Reacts(Second(w, s, i), i.At(5), cfg), s, i.attempts);
  }

  /** The advisor never writes the baseline, and arms only through the observer network: in a tick during
      which nobody else writes the bus, the baseline stays what it was. */
  lemma TickCarries(w: World, s: Settings, i: TickInput, cfg: Config)
    requires s.spec.min > 0.0 && forall k: nat :: Quiet(i.At(k))
    ensures Carries(w, Tick(w, s, i, cfg), s)
  {
    hide Quiet, Manage, Execute, Guard, ReadNetwork, Finish, Reacts;
    QuietCarries(w, i.At(0), s, cfg);
    ManageCarries(Reacts(w, i.At(0), cfg), s, i);
    var w0 := ReadNetwork(Reacts(w, i.At(0), cfg), s);
    QuietCarries(w0, i.At(1), s, cfg);
    GuardCarries(Reacts(w0, i.At(1), cfg), i.guardStraddle, i.guardMain, s);
    var w2 := Guard(Reacts(w0, i.At(1), cfg), i.guardStraddle, i.guardMain).0;
    QuietCarries(w2, i.At(2), s, cfg);
    ManageCarries(Reacts(w2, i.At(2), cfg), s, i);
    var managed := Manage(Reacts(w2, i.At(2), cfg), s, i);
    QuietCarries(managed, i.At(3), s, cfg);
    ExecuteCarries(Reacts(managed, i.At(3), cfg), s, i.first);
    var executed := Execute(Reacts(managed, i.At(3), cfg), s, i.first);
    QuietCarries(executed, i.At(4), s, cfg);
    FinishCarries(Reacts(executed, i.At(4), cfg), s, i, cfg);
  }

  // ---------------------------------------------------------------- runs

  datatype Step = Happens(event: Outside) | AdvisorTick(input: TickInput)

  function Apply(w: World, step: Step, s: Settings, cfg: Config): World
    requires s.spec.min > 0.0
  {
    match step
    case Happens(e) => React(w, e, cfg)
    case AdvisorTick(i) => Tick(w, s, i, cfg)
  }

  predicate LegalStep(w: World, step: Step, s: Settings, cfg: Config, trusted: bool)
    requires s.spec.min > 0.0
  {
    match step
    case Happens(e) => Legal(w, e, trusted)
    case AdvisorTick(i) => LegalTick(w, s, i, cfg, trusted)
  }

  function Run(w: World, steps: seq<Step>, s: Settings, cfg: Config): World
    requires s.spec.min > 0.0
    decreases |steps|
  {
    if steps == [] then w
    else Apply(Run(w, steps[..|steps| - 1], s, cfg), steps[|steps| - 1], s, cfg)
  }

  predicate LegalRun(w: World, steps: seq<Step>, s: Settings, cfg: Config, trusted: bool)
    requires s.spec.min > 0.0
    decreases |steps|
  {
    steps == [] || (LegalRun(w, steps[..|steps| - 1], s, cfg, trusted)
                    && LegalStep(Run(w, steps[..|steps| - 1], s, cfg), steps[|steps| - 1], s, cfg, trusted))
  }

  /** An advisor just attached: nothing of ours open, nothing read and nothing armed for us yet. */
  predicate Fresh(w: World) {
    && Legs(w.positions) == [] && w.history == [] && w.published == Nobody && w.held == Nobody
    && !w.arm && !w.exit && !w.terminate
  }

  lemma StepKeeps(w: World, step: Step, s: Settings, cfg: Config, trusted: bool)
    requires s.spec.min > 0.0 && Inv(w, s, cfg, trusted) && LegalStep(w, step, s, cfg, trusted) && s.onePositionOnly
    ensures Inv(Apply(w, step, s, cfg), s, cfg, trusted)
  {
    hide Inv, Tick, React, Legal, LegalTick;
    match step
    case Happens(e) => ReactKeeps(w, e, s, cfg, trusted);
    case AdvisorTick(i) => TickKeeps(w, s, i, cfg, trusted);
  }

  lemma {:induction false} RunKeeps(w: World, steps: seq<Step>, s: Settings, cfg: Config, trusted: bool)
    requires s.spec.min > 0.0 && Inv(w, s, cfg, trusted) && s.onePositionOnly
    requires LegalRun(w, steps, s, cfg, trusted)
    ensures Inv(Run(w, steps, s, cfg), s, cfg, trusted)
    decreases |steps|
  {
    hide Inv, LegalStep, Apply;
    if steps != [] {
      RunKeeps(w, steps[..|steps| - 1], s, cfg, trusted);
      StepKeeps(Run(w, steps[..|steps| - 1], s, cfg), steps[|steps| - 1], s, cfg, trusted);
    }
  }

  /** With one position at a time, over every interleaving of ticks, broker closes, price moves and
      arbitrary bus contents, even inside a tick, we hold nothing, one main, one main and one straddle the
      other way, or one straddle; and every straddle ever opened faced a main that was all we held, the
      other way, under a heartbeat within the age limit, validated above the main's volume. */
  lemma PositionsKeepTheirShape(w: World, steps: seq<Step>, s: Settings, cfg: Config)
    requires s.spec.min > 0.0 && Fresh(w) && s.onePositionOnly && LegalRun(w, steps, s, cfg, false)
    ensures Shape(Legs(Run(w, steps, s, cfg).positions))
    ensures forall i :: 0 <= i < |Run(w, steps, s, cfg).history| ==> OpeningOk(Run(w, steps, s, cfg).history[i], s, false)
  {
    hide LegalRun, Run, Legs, OpeningOk;
    RunKeeps(w, steps, s, cfg, false);
  }

  /** When only the brain and the advisor write the bus, the risk state stays in its range and the
      commands exclusive throughout, an arming goes with the volume the brain sized, and every straddle opens
      before any baseline is stored, validated from that volume, which was sized for the very main it faces
      exactly when no entry was opened since the brain armed. */
  lemma TrustedRunsKeepTheBus(w: World, steps: seq<Step>, s: Settings, cfg: Config)
    requires s.spec.min > 0.0 && Fresh(w) && BusOk(w.vars, cfg) && s.onePositionOnly
    requires LegalRun(w, steps, s, cfg, true)
    ensures var r := Run(w, steps, s, cfg);
      && BusOk(r.vars, cfg) && ArmSized(r)
      && forall i :: 0 <= i < |r.history| ==> OpeningOk(r.history[i], s, true)
  {
    hide LegalRun, Run, Legs, OpeningOk, StateInRange;
    RunKeeps(w, steps, s, cfg, true);
  }

  // ---------------------------------------------------------------- the baseline of a basket

  /** Nothing outside changes a stored positive baseline, except an update of the brain that sees a main
      and no straddle; and the advisor never writes it. */
  lemma BaselineStaysFixed(w: World, e: Outside, cfg: Config)
    requires Legal(w, e, true) && Get(w.vars, MB_BASE_BALANCE, 0.0) > 0.0
    ensures var after := Get(React(w, e, cfg).vars, MB_BASE_BALANCE, 0.0);
      after == if e.BrainUpdate? && FindStraddle(w.positions).None? && FindMain(w.positions).Some? then 0.0
               else Get(w.vars, MB_BASE_BALANCE, 0.0)
  {
    hide Keep, Updated;
    match e
    case BrainUpdate(v) => UpdateBaseline(w.vars, v, cfg);
    case BrokerClose(_) =>
    case MarketMove(_, _, _, _, _) =>
    case BusWrite(_) =>
  }

  // ---------------------------------------------------------------- closing the main

  lemma {:induction false} LegsConcat(a: seq<Position>, b: seq<Position>)
    ensures Legs(a + b) == Legs(a) + Legs(b)
  {
    hide Legs;
    if a == [] {
      assert a + b == b;
      LegsOfNone();
    } else {
      LegsConcat(a[1..], b);
      LegsFirst(a[0], a[1..]);
      LegsFirst(a[0], a[1..] + b);
      assert a == [a[0]] + a[1..] && a + b == [a[0]] + (a[1..] + b);
    }
  }

  lemma LegsOfNone()
    ensures Legs([]) == []
  {
  }

  /** The shape admits one main and one straddle, wherever other positions stand between them. */
  lemma {:induction false} ShapeIsUnique(ps: seq<Position>, i: nat, j: nat)
    requires Shape(Legs(ps)) && i < j < |ps| && ps[i].ours && ps[j].ours
    ensures ps[i].tag == Entry && ps[j].tag == Straddle
  {
    var front, back := ps[..j], ps[j..];
    assert ps == front + back;
    LegsConcat(front, back);
    LegsMembers(front);
    assert ps[i] in front && LegOf(ps[i]) in Legs(front);
    assert Legs(back)[0] == LegOf(ps[j]);
    assert Legs(ps)[|Legs(front)|] == LegOf(ps[j]);
    assert |Legs(front)| == 1 && Legs(ps)[0] == Legs(front)[0];
  }

  predicate UniqueTickets(ps: seq<Position>) {
    forall i, j :: 0 <= i < j < |ps| ==> ps[i].ticket != ps[j].ticket
  }

  lemma {:induction false} BookedOnce(ps: seq<Position>, p: Position, q: Quote)
    requires UniqueTickets(ps)
    ensures SumBooked(ps, {p.ticket}, q) == if p in ps then Booked(p, q) else SumBooked(ps, {p.ticket}, q)
    ensures (forall x :: x in ps ==> x.ticket != p.ticket) ==> SumBooked(ps, {p.ticket}, q) == 0.0
  {
    hide Booked;
    if ps != [] {
      BookedOnce(ps[1..], p, q);
      assert forall x :: x in ps[1..] ==> exists k :: 1 <= k < |ps| && ps[k] == x;
    }
  }

  /** Of our positions, whatever is not the main that was found is the straddle that was found. */
  lemma OnlyTheStraddleRemains(ps: seq<Position>, p: Position)
    requires Shape(Legs(ps)) && FindMain(ps).Some? && FindStraddle(ps).Some?
    requires p in ps && p.ours && p != FindMain(ps).value
    ensures p == FindStraddle(ps).value
  {
    hide Shape, Legs;
    var main, straddle := FindMain(ps).value, FindStraddle(ps).value;
    var i :| 0 <= i < |ps| && ps[i] == p;
    var j :| 0 <= j < |ps| && ps[j] == main;
    var k :| 0 <= k < |ps| && ps[k] == straddle;
    if i < j {
      ShapeIsUnique(ps, i, j);
    } else {
      ShapeIsUnique(ps, j, i);
    }
    if i < k {
      ShapeIsUnique(ps, i, k);
    } else if k < i {
      ShapeIsUnique(ps, k, i);
    }
  }

  lemma ClosedMain(ps: seq<Position>)
    requires Shape(Legs(ps)) && UniqueTickets(ps) && FindMain(ps).Some? && FindStraddle(ps).Some?
    ensures var kept := Keep(ps, {FindMain(ps).value.ticket});
      FindMain(kept).None? && FindStraddle(kept) == FindStraddle(ps)
  {
    hide Shape, Legs;
    var main, straddle := FindMain(ps).value, FindStraddle(ps).value;
    var kept := Keep(ps, {main.ticket});
    var j :| 0 <= j < |ps| && ps[j] == main;
    var k :| 0 <= k < |ps| && ps[k] == straddle;
    assert straddle in kept;
    forall p | p in kept && p.ours
      ensures p == straddle
    {
      OnlyTheStraddleRemains(ps, p);
    }
  }

  /** The basket as the brain would publish it. */
  function BasketOf(w: World): real {
    BasketPnl(w.vars, FindMain(w.positions), FindStraddle(w.positions), w.balance, w.quote)
  }

  /** Closing the main at the current quote, in any state of the shape with both legs.  With a baseline
      stored, the basket profit moves by the commission it had subtracted for the main less the fee the
      close books.  Without one it drops all the main contributed.  So it moves by the costs alone exactly
      when a baseline is stored, or the close books nothing. */
  lemma ClosingMainKeepsBasket(w: World)
    requires Shape(Legs(w.positions)) && UniqueTickets(w.positions)
    requires FindMain(w.positions).Some? && FindStraddle(w.positions).Some?
    ensures var main := FindMain(w.positions).value;
      var after := CloseTickets(w, {main.ticket});
      var move := BasketOf(after) - BasketOf(w);
      && FindMain(after.positions).None? && FindStraddle(after.positions) == FindStraddle(w.positions)
      && move == (if Get(w.vars, MB_BASE_BALANCE, 0.0) > 0.0 then SumAbs(main.deals) - main.exitFee else -LegValue(Some(main), w.quote))
      && (move == SumAbs(main.deals) - main.exitFee
          <==> Get(w.vars, MB_BASE_BALANCE, 0.0) > 0.0 || Booked(main, w.quote) == 0.0)
  {
    hide SumAbs, Profit, BasketPnl, Shape, Legs, UniqueTickets, Keep, SumBooked, FindMain, FindStraddle;
    var main := FindMain(w.positions).value;
    BookedOnce(w.positions, main, w.quote);
    ClosedMain(w.positions);
    BasketIsContinuous(w.vars, main, FindStraddle(w.positions), w.balance, w.quote);
  }

  // ---------------------------------------------------------------- the guard of the shape

  /** The one-position mode is what keeps the shape: with it off, an entry attempt that passes its
      gates opens a second leg next to any first, and no shape allows an entry in second place. */
  lemma WithoutTheModeTheShapeBreaks(w: World, s: Settings, a: Attempt)
    requires a.reachesGate && a.gate && a.filled.Some? && Legs(w.positions) != []
    ensures ExecuteSignal(w, s, a).1 <==> !s.onePositionOnly
    ensures !s.onePositionOnly ==> !Shape(Legs(ExecuteSignal(w, s, a).0.positions))
  {
    if s.onePositionOnly {
      if !HasOurs(w.positions) {
        NothingOurs(w.positions);
      }
    } else {
      var after := ExecuteSignal(w, s, a).0.positions;
      LegsAppend(w.positions, after[|after| - 1]);
    }
  }
}
