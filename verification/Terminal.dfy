/** What the trading terminal shows both programs: open positions, the balance, prices, and the
    global variables that form the bus between the brain script and the executor. */
module Terminal {
  import opened Numeric
  import opened Wrappers

  datatype Side = BUY | SELL
  {
    function Sign(): real { if BUY? then 1.0 else -1.0 }

    function Opposite(): Side { if BUY? then SELL else BUY }
  }

  /** What the order comment says a position is for. */
  datatype Tag = Entry | Straddle | OppositeRecovery

  /** `ours` holds when symbol and magic number match; `deals` are the commissions booked so far
      and `exitFee` the one the broker will book on closing. */
  datatype Position = Position(
    ticket: nat,
    ours: bool,
    side: Side,
    tag: Tag,
    volume: real,
    open: real,
    swap: real,
    deals: seq<real>,
    exitFee: real)

  /** Bid, ask and the money one lot gains per unit of price. */
  datatype Quote = Quote(bid: real, ask: real, perUnit: real)
  {
    /** The price a position of this side would be closed at. */
    function Closing(side: Side): real { if side.BUY? then bid else ask }
  }

  /** The linear pricing that stands for the broker's profit calculation. */
  function CalcProfit(side: Side, lots: real, from: real, to: real, perUnit: real): real {
    side.Sign() * lots * perUnit * (to - from)
  }

  /** The floating profit the terminal reports for a position. */
  function Profit(p: Position, q: Quote): real {
    CalcProfit(p.side, p.volume, p.open, q.Closing(p.side), q.perUnit)
  }

  function SumAbs(deals: seq<real>): (s: real)
    ensures s >= 0.0
  {
    if deals == [] then 0.0 else SumAbs(deals[..|deals| - 1]) + Abs(deals[|deals| - 1])
  }

  /** Commission already paid for an open position. */
  method PositionCommission(p: Position) returns (commission: real)
    ensures commission == SumAbs(p.deals)
  {
    commission := 0.0;
    for i := 0 to |p.deals|
      invariant commission == SumAbs(p.deals[..i])
    {
      assert p.deals[..i + 1][..i] == p.deals[..i];
      commission := commission + Abs(p.deals[i]);
    }
    assert p.deals[..|p.deals|] == p.deals;
  }

  // ---------------------------------------------------------------- finding our positions

  predicate IsMain(p: Position) { p.ours && p.tag != Straddle }

  predicate IsStraddle(p: Position) { p.ours && p.tag == Straddle }

  /** The last listed main, which is the first the backward scan meets. */
  function FindMain(ps: seq<Position>): (r: Option<Position>)
    ensures r.Some? ==> r.value in ps && IsMain(r.value)
    ensures r.None? ==> forall p :: p in ps ==> !IsMain(p)
  {
    if ps == [] then None
    else if IsMain(ps[|ps| - 1]) then Some(ps[|ps| - 1])
    else FindMain(ps[..|ps| - 1])
  }

  function FindStraddle(ps: seq<Position>): (r: Option<Position>)
    ensures r.Some? ==> r.value in ps && IsStraddle(r.value)
    ensures r.None? ==> forall p :: p in ps ==> !IsStraddle(p)
  {
    if ps == [] then None
    else if IsStraddle(ps[|ps| - 1]) then Some(ps[|ps| - 1])
    else FindStraddle(ps[..|ps| - 1])
  }

  method ScanMain(ps: seq<Position>) returns (r: Option<Position>)
    ensures r == FindMain(ps)
  {
    var i := |ps| - 1;
    assert ps[..|ps|] == ps;
    while i >= 0
      invariant -1 <= i < |ps|
      invariant FindMain(ps) == FindMain(ps[..i + 1])
    {
      assert ps[..i + 1][..i] == ps[..i];
      if IsMain(ps[i]) {
        return Some(ps[i]);
      }
      i := i - 1;
    }
    return None;
  }

  method ScanStraddle(ps: seq<Position>) returns (r: Option<Position>)
    ensures r == FindStraddle(ps)
  {
    var i := |ps| - 1;
    assert ps[..|ps|] == ps;
    while i >= 0
      invariant -1 <= i < |ps|
      invariant FindStraddle(ps) == FindStraddle(ps[..i + 1])
    {
      assert ps[..i + 1][..i] == ps[..i];
      if IsStraddle(ps[i]) {
        return Some(ps[i]);
      }
      i := i - 1;
    }
    return None;
  }

  // ---------------------------------------------------------------- closing positions

  function Keep(ps: seq<Position>, gone: set<nat>): (r: seq<Position>)
    ensures forall p :: p in r <==> p in ps && p.ticket !in gone
  {
    if ps == [] then []
    else (if ps[0].ticket in gone then [] else [ps[0]]) + Keep(ps[1..], gone)
  }

  /** What closing a position at the quote books into the balance. */
  function Booked(p: Position, q: Quote): real { Profit(p, q) + p.swap - p.exitFee }

  function SumBooked(ps: seq<Position>, gone: set<nat>, q: Quote): real {
    if ps == [] then 0.0
    else (if ps[0].ticket in gone then Booked(ps[0], q) else 0.0) + SumBooked(ps[1..], gone, q)
  }

  // ---------------------------------------------------------------- the bus

  /** One global variable per constructor. MB_BASE_BALANCE and MB_LAST_M3 live under the brain's own
      prefix; the others under the prefix it shares with the executor. */
  datatype Key =
    | HEARTBEAT | DESIRED_BASKET_PROFIT | TP_FACTOR
    | STRADDLE_ARM | STRADDLE_EXIT | BASKET_TERMINATE | BASKET_EMERGENCY
    | RISK_STATE | GRACE_BARS_LEFT | M1_STATE
    | BASKET_PNL | STRADDLE_ACTIVE_PNL | BASKET_BASE_BALANCE | BASKET_EMERGENCY_LOSS
    | POSITION_LOSS_PCT | M3_ADVERSE | DD_PCT
    | STRADDLE_REQUIRED_MONEY | STRADDLE_GAP_PRICE | STRADDLE_GAP_MONEY_PER_LOT
    | STRADDLE_REQUIRED_LOTS | STRADDLE_LOTS | STRADDLE_COVERAGE
    | STRADDLE_START | STRADDLE_MAIN_ENTRY
    | BASKET_BE_PRICE | BASKET_TARGET_PRICE | STRADDLE_BE_DISTANCE | STRADDLE_TARGET_DISTANCE
    | STRADDLE_TP_PRICE
    | MB_BASE_BALANCE | MB_LAST_M3

  type Vars = map<Key, real>

  function Get(vars: Vars, k: Key, fallback: real): real {
    if k in vars then vars[k] else fallback
  }

  /** How the executor reads a command. */
  predicate Flag(vars: Vars, k: Key) { Get(vars, k, 0.0) > 0.5 }

  function Bit(b: bool): real { if b then 1.0 else 0.0 }

  /** The terminal's set of global variables. */
  class Bus {
    var vars: Vars

    constructor (initial: Vars)
      ensures vars == initial
    {
      vars := initial;
    }

    method Put(k: Key, value: real)
      modifies this
      ensures vars == old(vars)[k := value]
    {
      vars := vars[k := value];
    }
  }
}
