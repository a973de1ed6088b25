/** The bucket engine of python/neofl_core/bucket.py: a portfolio of related positions and the
    one price, if any, at which its profit reaches zero. */
module Bucket {
  import opened Numeric
  import opened Wrappers

  /** Below this slope a bucket counts as delta-neutral. */
  const NEUTRAL_SLOPE: real := 0.000000000001

  datatype Role = Main | Straddle | Linked

  datatype Direction = Buy | Sell
  {
    function Sign(): real { if Buy? then 1.0 else -1.0 }
  }

  datatype Position = Position(
    ticket: int,
    role: Role,
    direction: Direction,
    volume: real,
    entryPrice: real,
    moneyPerUnitPerLot: real,
    swap: real,
    commission: real)
  {
    /** Floating profit at a price, costs included. */
    function Floating(price: real): real {
      (price - entryPrice) * direction.Sign() * volume * moneyPerUnitPerLot + swap + commission
    }

    function SignedExposure(): real { volume * direction.Sign() }

    /** Money gained per unit of price. */
    function Slope(): real { SignedExposure() * moneyPerUnitPerLot }
  }

  datatype BucketState = EMPTY | MAIN_ONLY | RECOVERING | BASKET_NEUTRAL | RUNNER | CLOSED

  datatype Bucket = Bucket(positions: seq<Position>, realized: real)
  {
    predicate HasRole(role: Role) { exists i :: 0 <= i < |positions| && positions[i].role == role }

    function Floating(price: real): real { SumFloating(positions, price) }

    function Total(price: real): real { realized + Floating(price) }

    function Slope(): real { SumSlope(positions) }

    function ZeroFloatingPrice(): Option<real> {
      if Abs(Slope()) < NEUTRAL_SLOPE then None
      else Some((SumWeightedEntry(positions) - SumCosts(positions) - realized) / Slope())
    }

    function State(price: real): BucketState {
      if positions == [] then (if realized != 0.0 then CLOSED else EMPTY)
      else if HasRole(Main) && !HasRole(Straddle) then MAIN_ONLY
      else if !HasRole(Main) && HasRole(Straddle) then RUNNER
      else if HasRole(Main) && HasRole(Straddle) then
        (if Total(price) >= 0.0 then BASKET_NEUTRAL else RECOVERING)
      else EMPTY
    }

    predicate ReadyForHandover(price: real) {
      HasRole(Main) && HasRole(Straddle) && Total(price) >= 0.0
    }
  }

  function SumFloating(ps: seq<Position>, price: real): real {
    if ps == [] then 0.0 else ps[0].Floating(price) + SumFloating(ps[1..], price)
  }

  function SumSlope(ps: seq<Position>): real {
    if ps == [] then 0.0 else ps[0].Slope() + SumSlope(ps[1..])
  }

  function SumWeightedEntry(ps: seq<Position>): real {
    if ps == [] then 0.0 else ps[0].Slope() * ps[0].entryPrice + SumWeightedEntry(ps[1..])
  }

  function SumCosts(ps: seq<Position>): real {
    if ps == [] then 0.0 else ps[0].swap + ps[0].commission + SumCosts(ps[1..])
  }

  lemma PairSums(a: Position, b: Position, price: real)
    ensures SumFloating([a, b], price) == a.Floating(price) + b.Floating(price)
    ensures SumSlope([a, b]) == a.Slope() + b.Slope()
  {
    assert [a, b][1..] == [b] && [b][1..] == [];
    assert SumFloating([b], price) == b.Floating(price) + SumFloating([], price);
    assert SumSlope([b]) == b.Slope() + SumSlope([]);
  }

  lemma PositionAffine(p: Position, price: real)
    ensures p.Floating(price) == p.Slope() * price - p.Slope() * p.entryPrice + (p.swap + p.commission)
  {
  }

  lemma Distribute(s: real, p: real, q: real)
    ensures s * (p - q) == s * p - s * q
    ensures (s + p) * q == s * q + p * q
  {
  }

  /** However many positions a bucket holds, its floating profit is one affine function of price. */
  lemma {:induction false} FloatingAffine(ps: seq<Position>, price: real)
    ensures SumFloating(ps, price) == SumSlope(ps) * price - SumWeightedEntry(ps) + SumCosts(ps)
  {
    hide Position.Floating, Position.Slope;
    if ps != [] {
      FloatingAffine(ps[1..], price);
      PositionAffine(ps[0], price);
      Distribute(ps[0].Slope(), SumSlope(ps[1..]), price);
    }
  }

  /** Between any two prices the bucket total moves by the slope times the price move. */
  lemma TotalAffine(b: Bucket, p: real, q: real)
    ensures b.Total(p) - b.Total(q) == b.Slope() * (p - q)
  {
    hide SumFloating, SumSlope, SumWeightedEntry, SumCosts;
    FloatingAffine(b.positions, p);
    FloatingAffine(b.positions, q);
    Distribute(b.Slope(), p, q);
  }

  lemma ZeroPriceIsRoot(b: Bucket)
    requires b.ZeroFloatingPrice().Some?
    ensures b.Total(b.ZeroFloatingPrice().value) == 0.0
  {
    hide SumFloating, SumSlope, SumWeightedEntry, SumCosts;
    FloatingAffine(b.positions, b.ZeroFloatingPrice().value);
    TimesQuotient(b.Slope(), SumWeightedEntry(b.positions) - SumCosts(b.positions) - b.realized);
  }

  lemma TimesQuotient(s: real, a: real)
    requires s != 0.0
    ensures s * (a / s) == a
  {
  }

  lemma ZeroOfProduct(s: real, m: real, sm: real)
    requires sm == s * m
    ensures sm == 0.0 <==> s == 0.0 || m == 0.0
  {
  }

  /** A returned zero price is a root of the total, and the only one. */
  lemma ZeroPriceIsTheOnlyRoot(b: Bucket, price: real)
    requires b.ZeroFloatingPrice().Some?
    ensures b.Total(price) == 0.0 <==> price == b.ZeroFloatingPrice().value
  {
    hide Bucket.Total, Bucket.Slope;
    ZeroPriceIsRoot(b);
    TotalAffine(b, price, b.ZeroFloatingPrice().value);
    ZeroOfProduct(b.Slope(), price - b.ZeroFloatingPrice().value, b.Total(price) - b.Total(b.ZeroFloatingPrice().value));
  }

  /** Without a zero price the total moves by less than 1e-12 per unit of price. */
  lemma NoZeroPriceMeansFrozen(b: Bucket, p: real, q: real)
    requires b.ZeroFloatingPrice().None? && p != q
    ensures Abs(b.Total(p) - b.Total(q)) < NEUTRAL_SLOPE * Abs(p - q)
  {
    hide Bucket.Total, Bucket.Slope;
    TotalAffine(b, p, q);
    ScaledBelow(b.Slope(), NEUTRAL_SLOPE, p - q, b.Total(p) - b.Total(q));
  }

  lemma ScaledBelow(s: real, n: real, d: real, sd: real)
    requires Abs(s) < n && d != 0.0 && sd == s * d
    ensures Abs(sd) < n * Abs(d)
  {
    var e, se := Abs(d), if d > 0.0 then sd else -sd;
    var ne := n * e;
    NegateFactor(s, d, sd);
    NegateFactor(n, e, ne);
    MulLt(s, n, e, se, ne);
    MulLt(-n, s, e, -ne, se);
  }

  lemma NegateFactor(a: real, b: real, ab: real)
    requires ab == a * b
    ensures -ab == (-a) * b && -ab == a * (-b)
  {
  }

  /** Exactly neutral buckets answer the handover question the same way at every price. */
  lemma NeutralReadinessIsConstant(b: Bucket, p: real, q: real)
    requires b.Slope() == 0.0
    ensures b.ReadyForHandover(p) <==> b.ReadyForHandover(q)
  {
    hide Bucket.Total, Bucket.Slope;
    TotalAffine(b, p, q);
    ZeroOfProduct(b.Slope(), p - q, b.Total(p) - b.Total(q));
  }

  /** With a zero price, a two-legged bucket is ready exactly on the favourable side of it; so once
      ready, it stays ready however much further price moves that way. */
  lemma ReadyOnFavourableSide(b: Bucket, price: real)
    requires b.ZeroFloatingPrice().Some? && b.HasRole(Main) && b.HasRole(Straddle)
    ensures b.ReadyForHandover(price)
       <==> if b.Slope() > 0.0 then price >= b.ZeroFloatingPrice().value
            else price <= b.ZeroFloatingPrice().value
  {
    hide Bucket.Total, Bucket.Slope;
    var s, z := b.Slope(), b.ZeroFloatingPrice().value;
    ZeroPriceIsRoot(b);
    TotalAffine(b, price, z);
    SignOfProduct(s, price - z, b.Total(price) - b.Total(z));
  }

  lemma SignOfProduct(s: real, m: real, sm: real)
    requires s != 0.0 && sm == s * m
    ensures sm >= 0.0 <==> if s > 0.0 then m >= 0.0 else m <= 0.0
  {
  }

  /** For any non-zero slope, however small, readiness is upward closed in the favourable direction. */
  lemma ReadinessIsUpwardClosed(b: Bucket, p: real, q: real)
    requires b.ReadyForHandover(p)
    requires if b.Slope() > 0.0 then q >= p else q <= p
    ensures b.ReadyForHandover(q)
  {
    hide Bucket.Total, Bucket.Slope;
    TotalAffine(b, q, p);
    if b.Slope() != 0.0 {
      SignOfProduct(b.Slope(), q - p, b.Total(q) - b.Total(p));
    } else {
      ZeroOfProduct(b.Slope(), q - p, b.Total(q) - b.Total(p));
    }
  }

  /** The state of a bucket at a price: by the legs it holds, and with both by the sign of its total. */
  lemma StateExactly(b: Bucket, price: real)
    ensures var main := exists p :: p in b.positions && p.role == Main;
      var straddle := exists p :: p in b.positions && p.role == Straddle;
      b.State(price) ==
        if main && straddle then (if b.Total(price) >= 0.0 then BASKET_NEUTRAL else RECOVERING)
        else if main then MAIN_ONLY
        else if straddle then RUNNER
        else if b.positions == [] && b.realized != 0.0 then CLOSED
        else EMPTY
  {
    hide Bucket.Total;
    RoleHeld(b, Main);
    RoleHeld(b, Straddle);
  }

  lemma RoleHeld(b: Bucket, role: Role)
    ensures b.HasRole(role) <==> exists p :: p in b.positions && p.role == role
  {
    if exists p :: p in b.positions && p.role == role {
      var p :| p in b.positions && p.role == role;
      var i :| 0 <= i < |b.positions| && b.positions[i] == p;
      assert b.positions[i].role == role;
    }
  }

  /** The state machine reports BASKET_NEUTRAL exactly when the handover is due. */
  lemma NeutralStateIsReadiness(b: Bucket, price: real)
    ensures b.State(price) == BASKET_NEUTRAL <==> b.ReadyForHandover(price)
  {
    assert b.HasRole(Main) ==> b.positions != [];
  }
}
