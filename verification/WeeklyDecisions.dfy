/** What one candle of the weekly backtest does, read off prices and legs: when a cycle opens, closes, buys a
    hedge and sells one. */
module WeeklyDecisions {
  import opened Common
  import opened OptionPricing
  import opened StranglePayoff
  import opened WeeklyHedge

  function Premiums(cy: Cycle): real
    requires |cy.legs| >= 2
  {
    cy.legs[0].entry + cy.legs[1].entry
  }

  /** The breakevens, on the sold legs themselves. */
  function CallBreakeven(cy: Cycle): real
    requires |cy.legs| >= 2
  {
    cy.legs[0].contract.strike + Premiums(cy)
  }

  function PutBreakeven(cy: Cycle): real
    requires |cy.legs| >= 2
  {
    cy.legs[1].contract.strike - Premiums(cy)
  }

  /** Every hedge of a cycle in order was bought with BTC above the call breakeven if it is a call and below the
      put breakeven if it is a put; and if it was sold again before the end, with BTC back inside by the buffer. */
  lemma HedgesAreBoughtBeyond(cy: Cycle, r: Rules, i: nat)
    requires CycleOk(cy, r) && 2 <= i < |cy.legs|
    ensures !cy.legs[i].sell
    ensures cy.legs[i].contract.kind == Call ==> cy.legs[i].entryBtc > CallBreakeven(cy)
    ensures cy.legs[i].contract.kind == Put ==> cy.legs[i].entryBtc < PutBreakeven(cy)
    ensures cy.legs[i].exit.Some? ==>
      var btc := cy.legs[i].exit.value.btc;
      r.exitInside && if cy.legs[i].contract.kind == Call then btc < CallBreakeven(cy) - Percent(btc, r.buffer)
                      else btc > PutBreakeven(cy) + Percent(btc, r.buffer)
  {
    assert HedgeOk(cy, cy.legs[i], r);
  }

  /** The same of every week a run reports. */
  lemma ReportedHedgesAreBoughtBeyond(bars: seq<Bar>, f: Feed, r: Rules, k: nat, i: nat)
    requires k < |Report(bars, f, r)| && 2 <= i < |Report(bars, f, r)[k].legs|
    ensures var w := Report(bars, f, r)[k];
      && !w.legs[i].sell && w.legs[0].sell && w.legs[1].sell
      && (w.legs[i].contract.kind == Call ==>
            w.legs[i].entryBtc > w.legs[0].contract.strike + w.legs[0].entry + w.legs[1].entry)
      && (w.legs[i].contract.kind == Put ==>
            w.legs[i].entryBtc < w.legs[1].contract.strike - w.legs[0].entry - w.legs[1].entry)
  {
    var w := Report(bars, f, r)[k];
    assert WeekOk(w, r);
    assert Grows(w.cycle.legs, w.legs);
    HedgesAreBoughtBeyond(w.cycle, r, i);
  }

  // ---- prices ----

  /** A leg is worth its latest premium, with the floor no less than its intrinsic value, and without any premium
      exactly that value. */
  lemma PriceIs(leg: Leg, ts: int, btc: real, f: Feed, r: Rules)
    ensures var iv := if leg.contract.kind == Call then btc - leg.contract.strike else leg.contract.strike - btc;
      var least := if iv > 0.0 then iv else 0.0;
      match f.premium(leg.contract, ts)
      case None => PriceOf(leg, ts, btc, f, r) == least
      case Some(p) => PriceOf(leg, ts, btc, f, r) == if r.floor && p < least then least else p
  {
  }

  // ---- closing ----

  lemma StepIs(cy: Cycle, b: Bar, f: Feed, r: Rules)
    requires CycleOk(cy, r)
    ensures var why, step := WhyClose(cy, b, f, r), Step(Some(cy), b, f, r);
      && step.0 == (if why.Some? then Some(Settle(cy, b, why.value, f, r)) else None)
      && (why.None? ==> step.1 == Some(if r.noHedge then cy else Hedge(Hedge(cy, Call, b, f, r), Put, b, f, r)))
  {
    if !r.noHedge { HedgeKeepsOk(cy, Call, b, f, r); }
  }

  /** An open cycle closes on a candle exactly when its time is up or the two sold legs together are worth no more
      than the target or no less than the stop, in that order; the week closes at this candle's time and price. */
  lemma CandleClosesIff(cy: Cycle, b: Bar, f: Feed, r: Rules)
    requires CycleOk(cy, r)
    ensures var sold := PriceOf(cy.legs[0], b.ts, b.btc, f, r) + PriceOf(cy.legs[1], b.ts, b.btc, f, r);
      var due := b.ts >= cy.closeTs;
      var target := r.target > 0.0 && sold <= Times(Premiums(cy), 1.0 - r.target / 100.0);
      var stop := r.stop > 0.0 && sold >= Times(Premiums(cy), 1.0 + r.stop / 100.0);
      var week := Step(Some(cy), b, f, r).0;
      && (week.Some? <==> due || target || stop)
      && (week.Some? ==>
            && week.value.reason == (if due then Expiry else if target then Target else Stop)
            && week.value.exitTs == b.ts && week.value.exitBtc == b.btc && week.value.cycle == cy)
  {
    StepIs(cy, b, f, r);
    assert cy.combined == Premiums(cy);
  }

  /** And each leg still held leaves at its price then. */
  lemma ClosedAtCurrentPrices(cy: Cycle, b: Bar, f: Feed, r: Rules, i: nat)
    requires CycleOk(cy, r) && i < |cy.legs| && Step(Some(cy), b, f, r).0.Some?
    ensures var w := Step(Some(cy), b, f, r).0.value;
      && |w.legs| == |cy.legs|
      && w.legs[i] == if cy.legs[i].exit.Some? then cy.legs[i]
                      else cy.legs[i].(exit := Some(Exit(PriceOf(cy.legs[i], b.ts, b.btc, f, r), b.btc, b.ts)))
  {
    StepIs(cy, b, f, r);
  }

  // ---- opening ----

  /** With nothing open, a cycle opens exactly when the calendar starts one and both contracts resolve: a call and
      a put sold as quoted, nearest to the price moved out by the distance each way. */
  lemma CandleOpensIff(b: Bar, f: Feed, r: Rules)
    ensures var off := Percent(b.btc, r.otm);
      var call, put := f.resolve(Call, b.btc + off, b.ts), f.resolve(Put, b.btc - off, b.ts);
      var step := Step(None, b, f, r);
      && step.0 == None
      && (step.1.Some? <==> b.cycle.Some? && call.Some? && put.Some?)
      && (step.1.Some? ==>
            var cy := step.1.value;
            && cy.legs == [Leg(Contract(Call, call.value.strike), true, r.lots, call.value.entry, b.btc, None),
                           Leg(Contract(Put, put.value.strike), true, r.lots, put.value.entry, b.btc, None)]
            && cy.closeTs == b.cycle.value && cy.entryBtc == b.btc && cy.hedged == map[] && cy.ever == {})
  {
  }

  // ---- hedging ----

  /** BTC has closed beyond the side's breakeven. */
  predicate Passed(cy: Cycle, side: OptionType, btc: real)
    requires |cy.legs| >= 2
  {
    if side == Call then btc > CallBreakeven(cy) else btc < PutBreakeven(cy)
  }

  /** No hedge of the side is held, and none was ever bought unless hedges may be renewed. */
  ghost predicate Unhedged(cy: Cycle, side: OptionType, r: Rules) {
    && (forall i | 0 <= i < |cy.legs| :: !Live(cy.legs[i], side))
    && (r.exitInside || !HasHedge(cy.legs, side))
  }

  /** The contract looked up: at the breakeven, moved out by the offset. */
  function Wanted(cy: Cycle, side: OptionType, b: Bar, f: Feed, r: Rules): Option<Quote>
    requires |cy.legs| >= 2
  {
    var offset := if r.offsetPct > 0.0 then Percent(cy.entryBtc, r.offsetPct) else r.offset;
    f.resolve(side, if side == Call then CallBreakeven(cy) + offset else PutBreakeven(cy) - offset, b.ts)
  }

  lemma UnhedgedIs(cy: Cycle, side: OptionType, r: Rules)
    requires CycleOk(cy, r)
    ensures Unhedged(cy, side, r) <==> side !in cy.hedged && (r.exitInside || side !in cy.ever)
  {
    if side in cy.hedged { assert Live(cy.legs[cy.hedged[side]], side); }
    if i :| 0 <= i < |cy.legs| && Live(cy.legs[i], side) {
      assert !cy.legs[i].sell && cy.legs[i].exit.None?;
    }
    if HasHedge(cy.legs, side) {
      var i :| 0 <= i < |cy.legs| && !cy.legs[i].sell && cy.legs[i].contract.kind == side;
      assert cy.legs[i].contract.kind in cy.ever;
    }
  }

  ghost predicate SideBought(cy: Cycle, side: OptionType, b: Bar, f: Feed, r: Rules)
    requires |cy.legs| >= 2
  {
    Unhedged(cy, side, r) && Passed(cy, side, b.btc) && Wanted(cy, side, b, f, r).Some?
  }

  lemma RulesAgree(cy: Cycle, side: OptionType, b: Bar, f: Feed, r: Rules)
    requires CycleOk(cy, r)
    ensures Passed(cy, side, b.btc) == Beyond(cy, side, b.btc)
    ensures Wanted(cy, side, b, f, r) == f.resolve(side, HedgeStrike(cy, side, r), b.ts)
  {
    assert cy.upper == CallBreakeven(cy) && cy.lower == PutBreakeven(cy);
  }

  /** What one side's branch does. */
  lemma SideOutcome(cy: Cycle, side: OptionType, b: Bar, f: Feed, r: Rules)
    requires CycleOk(cy, r)
    ensures var next := Hedge(cy, side, b, f, r);
      if SideBought(cy, side, b, f, r) then next.legs == cy.legs + [Bought(side, Wanted(cy, side, b, f, r).value, b, r)]
      else |next.legs| == |cy.legs|
    ensures Hedge(cy, side, b, f, r).entryBtc == cy.entryBtc
  {
    UnhedgedIs(cy, side, r);
    RulesAgree(cy, side, b, f, r);
  }

  lemma OtherSideWaits(cy: Cycle, b: Bar, f: Feed, r: Rules)
    requires CycleOk(cy, r)
    ensures Unhedged(Hedge(cy, Call, b, f, r), Put, r) <==> Unhedged(cy, Put, r)
  {
    HedgeKeepsOk(cy, Call, b, f, r);
    UnhedgedIs(cy, Put, r);
    UnhedgedIs(Hedge(cy, Call, b, f, r), Put, r);
  }

  lemma SoldLegsStay(cy: Cycle, side: OptionType, b: Bar, f: Feed, r: Rules)
    requires CycleOk(cy, r)
    ensures var next := Hedge(cy, side, b, f, r);
      |next.legs| >= 2 && next.legs[0] == cy.legs[0] && next.legs[1] == cy.legs[1]
  {
  }

  /** While a cycle stays open and hedging is on, a candle adds a hedge for a side exactly when none is held, none
      was bought before unless hedges may be renewed, BTC has closed beyond that breakeven, and a contract
      resolves; the call comes first, and each is bought at this candle's price as quoted, or at its intrinsic
      value if the floor is higher. */
  lemma CandleHedgesIff(cy: Cycle, b: Bar, f: Feed, r: Rules)
    requires CycleOk(cy, r) && Step(Some(cy), b, f, r).0.None? && !r.noHedge
    ensures Step(Some(cy), b, f, r).1.Some?
    ensures var next, n := Step(Some(cy), b, f, r).1.value, |cy.legs|;
      var call, put := SideBought(cy, Call, b, f, r), SideBought(cy, Put, b, f, r);
      && |next.legs| == n + (if call then 1 else 0) + (if put then 1 else 0)
      && (call ==> next.legs[n] == Bought(Call, Wanted(cy, Call, b, f, r).value, b, r))
      && (put ==> next.legs[|next.legs| - 1] == Bought(Put, Wanted(cy, Put, b, f, r).value, b, r))
  {
    var mid := Hedge(cy, Call, b, f, r);
    StepIs(cy, b, f, r);
    SideOutcome(cy, Call, b, f, r);
    HedgeKeepsOk(cy, Call, b, f, r);
    SideOutcome(mid, Put, b, f, r);
    SoldLegsStay(cy, Call, b, f, r);
    OtherSideWaits(cy, b, f, r);
    SoldLegsDecide(cy, mid, b, f, r);
  }

  lemma SoldLegsDecide(cy: Cycle, mid: Cycle, b: Bar, f: Feed, r: Rules)
    requires |cy.legs| >= 2 && |mid.legs| >= 2 && mid.legs[0] == cy.legs[0] && mid.legs[1] == cy.legs[1]
    requires mid.entryBtc == cy.entryBtc && (Unhedged(mid, Put, r) <==> Unhedged(cy, Put, r))
    ensures SideBought(mid, Put, b, f, r) <==> SideBought(cy, Put, b, f, r)
    ensures Wanted(mid, Put, b, f, r) == Wanted(cy, Put, b, f, r)
  {
  }

  /** A hedge as it is bought: not sold, at its quoted premium or, with the floor, at least what it is worth. */
  function Bought(side: OptionType, q: Quote, b: Bar, r: Rules): Leg {
    var iv := if side == Call then b.btc - q.strike else q.strike - b.btc;
    var least := if iv > 0.0 then iv else 0.0;
    Leg(Contract(side, q.strike), false, r.lots, if r.floor && q.entry < least then least else q.entry, b.btc, None)
  }

  /** Of the legs held before, a candle that leaves the cycle open sells exactly the hedges it may renew whose side
      is back inside by the buffer, at their price then, and touches no other. */
  lemma CandleSellsHedgeIff(cy: Cycle, b: Bar, f: Feed, r: Rules, i: nat)
    requires CycleOk(cy, r) && Step(Some(cy), b, f, r).0.None? && !r.noHedge && i < |cy.legs|
    ensures Step(Some(cy), b, f, r).1.Some? && i < |Step(Some(cy), b, f, r).1.value.legs|
    ensures Step(Some(cy), b, f, r).1.value.legs[i]
            == if !cy.legs[i].sell && cy.legs[i].exit.None? && r.exitInside && Inside(cy, cy.legs[i].contract.kind, b.btc, r)
               then cy.legs[i].(exit := Some(Exit(PriceOf(cy.legs[i], b.ts, b.btc, f, r), b.btc, b.ts)))
               else cy.legs[i]
  {
    var mid := Hedge(cy, Call, b, f, r);
    StepIs(cy, b, f, r);
    SideSells(cy, Call, b, f, r, i);
    HedgeKeepsOk(cy, Call, b, f, r);
    SideSells(mid, Put, b, f, r, i);
    SoldLegsStay(cy, Call, b, f, r);
  }

  predicate Inside(cy: Cycle, side: OptionType, btc: real, r: Rules)
    requires |cy.legs| >= 2
  {
    if side == Call then btc < CallBreakeven(cy) - Percent(btc, r.buffer)
    else btc > PutBreakeven(cy) + Percent(btc, r.buffer)
  }

  lemma SideSells(cy: Cycle, side: OptionType, b: Bar, f: Feed, r: Rules, i: nat)
    requires CycleOk(cy, r) && i < |cy.legs|
    ensures i < |Hedge(cy, side, b, f, r).legs|
    ensures Hedge(cy, side, b, f, r).legs[i]
            == if Live(cy.legs[i], side) && r.exitInside && Inside(cy, side, b.btc, r)
               then cy.legs[i].(exit := Some(Exit(PriceOf(cy.legs[i], b.ts, b.btc, f, r), b.btc, b.ts)))
               else cy.legs[i]
  {
    assert Live(cy.legs[i], side) ==> !cy.legs[i].sell && cy.legs[i].exit.None?;
    assert side in cy.hedged ==> Live(cy.legs[cy.hedged[side]], side);
  }

  /** With hedging off an open cycle is left as it is. */
  lemma NoHedgeLeavesCycle(cy: Cycle, b: Bar, f: Feed, r: Rules)
    requires CycleOk(cy, r) && Step(Some(cy), b, f, r).0.None? && r.noHedge
    ensures Step(Some(cy), b, f, r).1 == Some(cy)
  {
    StepIs(cy, b, f, r);
  }
}
