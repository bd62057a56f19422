/** Legs of a weekly strangle and what they pay when they settle at intrinsic value. */
module StranglePayoff {
  import opened Common
  import opened OptionPricing

  datatype Exit = Exit(price: real, btc: real, time: int)

  datatype Leg = Leg(contract: Contract, sell: bool, lots: int, entry: real, entryBtc: real, exit: Option<Exit>)

  /** Profit of one unit of underlying, before fees. */
  function UnitGross(leg: Leg, price: real): real {
    if leg.sell then leg.entry - price else price - leg.entry
  }

  function Gross(leg: Leg, price: real, lotSize: real): real {
    UnitGross(leg, price) * leg.lots as real * lotSize
  }

  /** `leg_pnl`. */
  function Pnl(leg: Leg, x: Exit, lotSize: real): real {
    Gross(leg, x.price, lotSize)
    - (SideFee(leg.entryBtc, leg.entry, leg.lots, lotSize) + SideFee(x.btc, x.price, leg.lots, lotSize))
  }

  ghost predicate Strangle(ce: Leg, pe: Leg) {
    && ce.sell && pe.sell && ce.contract.kind == Call && pe.contract.kind == Put
    && ce.entry >= 0.0 && pe.entry >= 0.0
  }

  ghost predicate Hedges(hc: Leg, hp: Leg) {
    && !hc.sell && !hp.sell && hc.contract.kind == Call && hp.contract.kind == Put
  }

  function Combined(ce: Leg, pe: Leg): real { ce.entry + pe.entry }

  function Upper(ce: Leg, pe: Leg): real { ce.contract.strike + Combined(ce, pe) }

  function Lower(ce: Leg, pe: Leg): real { pe.contract.strike - Combined(ce, pe) }

  /** What one unit of the legs makes when every leg settles at intrinsic with the underlying at `s`. */
  function Settled(legs: seq<Leg>, s: real): real {
    if legs == [] then 0.0
    else Settled(legs[..|legs| - 1], s) + UnitGross(legs[|legs| - 1], Intrinsic(legs[|legs| - 1].contract, s))
  }

  lemma SettledPair(a: Leg, b: Leg, s: real)
    ensures Settled([a, b], s) == UnitGross(a, Intrinsic(a.contract, s)) + UnitGross(b, Intrinsic(b.contract, s))
  {
    assert [a, b][..1] == [a] && [a][..0] == [];
    assert Settled([a], s) == Settled([], s) + UnitGross(a, Intrinsic(a.contract, s));
  }

  lemma SettledFour(a: Leg, b: Leg, c: Leg, d: Leg, s: real)
    ensures Settled([a, b, c, d], s) == Settled([a, b], s)
                                        + UnitGross(c, Intrinsic(c.contract, s)) + UnitGross(d, Intrinsic(d.contract, s))
  {
    assert [a, b, c, d][..3] == [a, b, c] && [a, b, c][..2] == [a, b];
  }

  // ---- breakevens ----

  /** The sold strangle keeps its premium exactly inside the breakevens, unless the strikes are
      crossed by more than the premium: then it loses everywhere. */
  lemma SoldGainsIffInsideBreakevens(ce: Leg, pe: Leg, s: real)
    requires Strangle(ce, pe)
    ensures Settled([ce, pe], s) >= 0.0
            <==> Lower(ce, pe) <= s <= Upper(ce, pe) && pe.contract.strike - ce.contract.strike <= Combined(ce, pe)
  {
    SettledPair(ce, pe, s);
  }

  /** The breakevens describe the profitable prices exactly when the strikes are crossed by at most
      the premium, or by so much that the interval between the breakevens is empty. */
  lemma BreakevensAreExactIff(ce: Leg, pe: Leg)
    requires Strangle(ce, pe)
    ensures (forall s: real :: (Settled([ce, pe], s) >= 0.0 <==> Lower(ce, pe) <= s <= Upper(ce, pe)))
            <==> (pe.contract.strike - ce.contract.strike <= Combined(ce, pe)
                  || pe.contract.strike - ce.contract.strike > 2.0 * Combined(ce, pe))
  {
    forall s: real ensures Settled([ce, pe], s) >= 0.0
                           <==> Lower(ce, pe) <= s <= Upper(ce, pe)
                                && pe.contract.strike - ce.contract.strike <= Combined(ce, pe)
    {
      SoldGainsIffInsideBreakevens(ce, pe, s);
    }
    var mid := Lower(ce, pe);
    assert Settled([ce, pe], mid) >= 0.0 <==>
           mid <= Upper(ce, pe) && pe.contract.strike - ce.contract.strike <= Combined(ce, pe);
  }

  // ---- hedged floor ----

  /** The most a unit of the fully hedged strangle can lose before fees. */
  function WorstLoss(ce: Leg, pe: Leg, hc: Leg, hp: Leg): real {
    Max(0.0, Max(hc.contract.strike - Upper(ce, pe), Lower(ce, pe) - hp.contract.strike)) + hc.entry + hp.entry
  }

  lemma HedgedLossIsBounded(ce: Leg, pe: Leg, hc: Leg, hp: Leg, s: real)
    requires Strangle(ce, pe) && Hedges(hc, hp) && ce.contract.strike >= pe.contract.strike
    ensures Settled([ce, pe, hc, hp], s) >= -WorstLoss(ce, pe, hc, hp)
  {
    SettledFour(ce, pe, hc, hp, s);
    SettledPair(ce, pe, s);
    var sold := UnitGross(ce, Intrinsic(ce.contract, s)) + UnitGross(pe, Intrinsic(pe.contract, s));
    if s >= ce.contract.strike {
      assert sold == Upper(ce, pe) - s;
    } else if s <= pe.contract.strike {
      assert sold == s - Lower(ce, pe);
    } else {
      assert sold == Combined(ce, pe);
    }
  }

  /** Beyond every strike the hedged position is flat at the distance from hedge strike to
      breakeven, less what the hedges cost. */
  lemma FarOutIsFlat(ce: Leg, pe: Leg, hc: Leg, hp: Leg, s: real)
    requires Strangle(ce, pe) && Hedges(hc, hp) && ce.contract.strike >= pe.contract.strike
    ensures s >= Max(ce.contract.strike, Max(hc.contract.strike, hp.contract.strike))
            ==> Settled([ce, pe, hc, hp], s) == Upper(ce, pe) - hc.contract.strike - hc.entry - hp.entry
    ensures s <= Min(pe.contract.strike, Min(hc.contract.strike, hp.contract.strike))
            ==> Settled([ce, pe, hc, hp], s) == hp.contract.strike - Lower(ce, pe) - hc.entry - hp.entry
  {
    SettledFour(ce, pe, hc, hp, s);
    SettledPair(ce, pe, s);
  }

  /** From the hedges' cost upwards the bound is the best there is: such a loss limit holds at every
      non-negative price exactly when it is at or above the bound. */
  lemma WorstLossIsLeastAboveCost(ce: Leg, pe: Leg, hc: Leg, hp: Leg, limit: real)
    requires Strangle(ce, pe) && Hedges(hc, hp) && ce.contract.strike >= pe.contract.strike >= 0.0
    requires hc.contract.strike >= 0.0 && hp.contract.strike >= 0.0 && limit >= hc.entry + hp.entry
    ensures (forall s: real | s >= 0.0 :: Settled([ce, pe, hc, hp], s) >= -limit) <==> limit >= WorstLoss(ce, pe, hc, hp)
  {
    var high := Max(ce.contract.strike, Max(hc.contract.strike, hp.contract.strike));
    var low := Min(pe.contract.strike, Min(hc.contract.strike, hp.contract.strike));
    FarOutIsFlat(ce, pe, hc, hp, high);
    FarOutIsFlat(ce, pe, hc, hp, low);
    assert high >= 0.0 && low >= 0.0;
    forall s: real ensures Settled([ce, pe, hc, hp], s) >= -WorstLoss(ce, pe, hc, hp) {
      HedgedLossIsBounded(ce, pe, hc, hp, s);
    }
    if forall s: real | s >= 0.0 :: Settled([ce, pe, hc, hp], s) >= -limit {
      assert Settled([ce, pe, hc, hp], high) >= -limit;
      assert Settled([ce, pe, hc, hp], low) >= -limit;
    }
  }

  ghost predicate LossWithin(ce: Leg, pe: Leg, hc: Leg, hp: Leg, limit: real, s: real) {
    Settled([ce, pe, hc, hp], s) >= -limit
  }

  /** The outermost strikes; beyond them the position is flat. */
  function Highest(ce: Leg, pe: Leg, hc: Leg, hp: Leg): real {
    Max(Max(ce.contract.strike, pe.contract.strike), Max(hc.contract.strike, hp.contract.strike))
  }

  function Lowest(ce: Leg, pe: Leg, hc: Leg, hp: Leg): real {
    Min(Min(ce.contract.strike, pe.contract.strike), Min(hc.contract.strike, hp.contract.strike))
  }

  /** For any strikes, crossed ones included, and any limit: a loss limit holds at every non-negative
      price exactly when it holds at four, the outermost strikes and the two hedge strikes. */
  lemma FourPricesDecideLossLimit(ce: Leg, pe: Leg, hc: Leg, hp: Leg, limit: real)
    requires Strangle(ce, pe) && Hedges(hc, hp) && Lowest(ce, pe, hc, hp) >= 0.0
    ensures (forall s: real | s >= 0.0 :: LossWithin(ce, pe, hc, hp, limit, s))
            <==> LossWithin(ce, pe, hc, hp, limit, Lowest(ce, pe, hc, hp))
                 && LossWithin(ce, pe, hc, hp, limit, Highest(ce, pe, hc, hp))
                 && LossWithin(ce, pe, hc, hp, limit, hc.contract.strike)
                 && LossWithin(ce, pe, hc, hp, limit, hp.contract.strike)
  {
    forall s: real
      ensures LossWithin(ce, pe, hc, hp, limit, Lowest(ce, pe, hc, hp))
              && LossWithin(ce, pe, hc, hp, limit, Highest(ce, pe, hc, hp))
              && LossWithin(ce, pe, hc, hp, limit, hc.contract.strike)
              && LossWithin(ce, pe, hc, hp, limit, hp.contract.strike)
              ==> LossWithin(ce, pe, hc, hp, limit, s)
    {
      SettledIs(ce, pe, hc, hp, s);
      SettledIs(ce, pe, hc, hp, Lowest(ce, pe, hc, hp));
      SettledIs(ce, pe, hc, hp, Highest(ce, pe, hc, hp));
      SettledIs(ce, pe, hc, hp, hc.contract.strike);
      SettledIs(ce, pe, hc, hp, hp.contract.strike);
      LeastAtAKink(ce.contract.strike, pe.contract.strike, hc.contract.strike, hp.contract.strike, s);
    }
  }

  /** The position's value apart from the premiums. */
  function Shape(kc: real, kp: real, hc: real, hp: real, s: real): real {
    Max(0.0, s - hc) + Max(0.0, hp - s) - Max(0.0, s - kc) - Max(0.0, kp - s)
  }

  lemma SettledIs(ce: Leg, pe: Leg, hc: Leg, hp: Leg, s: real)
    requires Strangle(ce, pe) && Hedges(hc, hp)
    ensures Settled([ce, pe, hc, hp], s)
            == Combined(ce, pe) - hc.entry - hp.entry
               + Shape(ce.contract.strike, pe.contract.strike, hc.contract.strike, hp.contract.strike, s)
  {
    SettledFour(ce, pe, hc, hp, s);
    SettledPair(ce, pe, s);
  }

  lemma LeastAtAKink(kc: real, kp: real, hc: real, hp: real, s: real)
    ensures var low, high := Min(Min(kc, kp), Min(hc, hp)), Max(Max(kc, kp), Max(hc, hp));
      || Shape(kc, kp, hc, hp, s) >= Shape(kc, kp, hc, hp, low)
      || Shape(kc, kp, hc, hp, s) >= Shape(kc, kp, hc, hp, high)
      || Shape(kc, kp, hc, hp, s) >= Shape(kc, kp, hc, hp, hc)
      || Shape(kc, kp, hc, hp, s) >= Shape(kc, kp, hc, hp, hp)
  {
  }

  /** The exact worst loss of hedges outside the sold strikes. */
  function NestedLoss(ce: Leg, pe: Leg, hc: Leg, hp: Leg): real {
    Max(hc.contract.strike - Upper(ce, pe), Lower(ce, pe) - hp.contract.strike) + hc.entry + hp.entry
  }

  /** With each hedge at or beyond the strike it covers, a limit, of either sign, holds at every
      non-negative price exactly when it is at or above `NestedLoss`: the position may be certain to gain. */
  lemma HedgedLossLimitIff(ce: Leg, pe: Leg, hc: Leg, hp: Leg, limit: real)
    requires Strangle(ce, pe) && Hedges(hc, hp)
    requires hc.contract.strike >= ce.contract.strike >= pe.contract.strike >= hp.contract.strike >= 0.0
    ensures (forall s: real | s >= 0.0 :: LossWithin(ce, pe, hc, hp, limit, s)) <==> limit >= NestedLoss(ce, pe, hc, hp)
  {
    FourPricesDecideLossLimit(ce, pe, hc, hp, limit);
    SettledIs(ce, pe, hc, hp, hc.contract.strike);
    SettledIs(ce, pe, hc, hp, hp.contract.strike);
    assert Highest(ce, pe, hc, hp) == hc.contract.strike && Lowest(ce, pe, hc, hp) == hp.contract.strike;
  }

  // ---- in money ----

  /** Gross of legs that all trade `lots`, each at its own exit price. */
  function TotalGross(legs: seq<Leg>, s: real, lotSize: real): real {
    if legs == [] then 0.0
    else
      var last := legs[|legs| - 1];
      TotalGross(legs[..|legs| - 1], s, lotSize) + Gross(last, Intrinsic(last.contract, s), lotSize)
  }

  lemma {:induction false} GrossScalesUnits(legs: seq<Leg>, s: real, lots: int, lotSize: real)
    requires forall i | 0 <= i < |legs| :: legs[i].lots == lots
    ensures TotalGross(legs, s, lotSize) == Settled(legs, s) * (lots as real * lotSize)
  {
    if legs != [] {
      GrossScalesUnits(legs[..|legs| - 1], s, lots, lotSize);
      var last := legs[|legs| - 1];
      var u := UnitGross(last, Intrinsic(last.contract, s));
      assert Gross(last, Intrinsic(last.contract, s), lotSize) == u * (lots as real * lotSize);
    }
  }

  /** Whatever the final price, a fully hedged strangle loses at most `WorstLoss` on its size. */
  lemma HedgedMoneyLossIsBounded(ce: Leg, pe: Leg, hc: Leg, hp: Leg, s: real, lots: int, lotSize: real)
    requires Strangle(ce, pe) && Hedges(hc, hp) && ce.contract.strike >= pe.contract.strike
    requires ce.lots == lots && pe.lots == lots && hc.lots == lots && hp.lots == lots && lots >= 0 && lotSize >= 0.0
    ensures TotalGross([ce, pe, hc, hp], s, lotSize) >= -WorstLoss(ce, pe, hc, hp) * (lots as real * lotSize)
  {
    HedgedLossIsBounded(ce, pe, hc, hp, s);
    GrossScalesUnits([ce, pe, hc, hp], s, lots, lotSize);
    MulMonotone(0.0, lotSize, lots as real);
    MulMonotone(-WorstLoss(ce, pe, hc, hp), Settled([ce, pe, hc, hp], s), lots as real * lotSize);
  }
}
