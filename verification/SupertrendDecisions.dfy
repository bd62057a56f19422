/** What one candle of the Supertrend backtest does to its leg, and what a booked row is worth. */
module SupertrendDecisions {
  import opened Common
  import opened OptionPricing
  import opened SupertrendLedger

  // ---- money ----

  /** Slippages keep the sign of a fill, and something can be traded. */
  predicate MoneyRules(r: Rules) { r.Ok() && r.entrySlip <= 1.0 && r.exitSlip >= -1.0 && r.lotSize > 0.0 }

  function Size(lots: int, r: Rules): real { r.lotSize * lots as real }

  lemma SizePositive(lots: int, r: Rules)
    requires lots > 0 && r.lotSize > 0.0
    ensures Size(lots, r) > 0.0
  {
  }

  lemma NetIsUnits(e: Entry, premium: real, btc: real, lots: int, r: Rules)
    ensures var sold, bought := SoldFill(e, r), BoughtFill(e, premium, btc, r);
      NetOf(e, premium, btc, lots, r) == Times(sold - bought - (UnitFee(e.btc, sold) + UnitFee(btc, bought)), Size(lots, r))
  {
    SizeFactors(SoldFill(e, r) - BoughtFill(e, premium, btc, r), e.btc, SoldFill(e, r), btc, BoughtFill(e, premium, btc, r),
                lots, r.lotSize);
  }

  /** A booked net is what was sold less what was bought back, times the size, less at most a tenth of each. */
  lemma NetBounds(e: Entry, premium: real, btc: real, lots: int, r: Rules)
    requires MoneyRules(r) && lots > 0 && e.premium >= 0.0 && premium >= 0.0 && e.btc >= 0.0 && btc >= 0.0
    ensures var sold := Times(e.premium, 1.0 - r.entrySlip);
      var bought := Times(if r.floor then Max(premium, Intrinsic(e.contract, btc)) else premium, 1.0 + r.exitSlip);
      && sold >= 0.0 && bought >= 0.0
      && Times(0.9 * sold - 1.1 * bought, Size(lots, r)) <= NetOf(e, premium, btc, lots, r) <= Times(sold - bought, Size(lots, r))
  {
    var sold, bought := SoldFill(e, r), BoughtFill(e, premium, btc, r);
    FillIsNonNegative(e.premium, 1.0 - r.entrySlip);
    FillIsNonNegative(if r.floor then Max(premium, Intrinsic(e.contract, btc)) else premium, 1.0 + r.exitSlip);
    NetIsUnits(e, premium, btc, lots, r);
    SizePositive(lots, r);
    UnitBounds(sold, bought, e.btc, btc, Size(lots, r));
  }

  lemma FillIsNonNegative(p: real, factor: real)
    requires p >= 0.0 && factor >= 0.0
    ensures Times(p, factor) >= 0.0
  {
  }

  lemma UnitBounds(sold: real, bought: real, entryBtc: real, exitBtc: real, size: real)
    requires sold >= 0.0 && bought >= 0.0 && entryBtc >= 0.0 && exitBtc >= 0.0 && size > 0.0
    ensures var unit := sold - bought - (UnitFee(entryBtc, sold) + UnitFee(exitBtc, bought));
      Times(0.9 * sold - 1.1 * bought, size) <= Times(unit, size) <= Times(sold - bought, size)
  {
    var unit := sold - bought - (UnitFee(entryBtc, sold) + UnitFee(exitBtc, bought));
    Scales(0.9 * sold - 1.1 * bought, unit, size);
    Scales(unit, sold - bought, size);
  }

  lemma Scales(a: real, b: real, w: real)
    requires a <= b && w >= 0.0
    ensures Times(a, w) <= Times(b, w)
  {
    MulMonotone(a, b, w);
  }

  /** Above the floor, buying back dearer always nets less. */
  lemma NetFallsWithPremium(e: Entry, p: real, q: real, btc: real, lots: int, r: Rules)
    requires MoneyRules(r) && r.exitSlip > -1.0 && lots > 0 && p < q && (r.floor ==> p >= Intrinsic(e.contract, btc))
    ensures NetOf(e, q, btc, lots, r) < NetOf(e, p, btc, lots, r)
  {
    var sold, cheap, dear := SoldFill(e, r), BoughtFill(e, p, btc, r), BoughtFill(e, q, btc, r);
    StrictlyScales(p, q, 1.0 + r.exitSlip);
    assert cheap < dear;
    NetIsUnits(e, p, btc, lots, r);
    NetIsUnits(e, q, btc, lots, r);
    SizePositive(lots, r);
    StrictlyScales(sold - dear - (UnitFee(e.btc, sold) + UnitFee(btc, dear)),
                   sold - cheap - (UnitFee(e.btc, sold) + UnitFee(btc, cheap)), Size(lots, r));
  }

  lemma StrictlyScales(a: real, b: real, w: real)
    requires a < b && w > 0.0
    ensures Times(a, w) < Times(b, w)
  {
    assert (b - a) * w > 0.0;
  }

  // ---- every row of every run ----

  ghost predicate FeedOk(f: Feed) {
    && (forall c, t :: f.premium(c, t).Some? ==> f.premium(c, t).value >= 0.0)
    && (forall k, t, btc :: f.open(k, t, btc).Some? ==> f.open(k, t, btc).value.premium >= 0.0)
  }

  predicate BarOk(b: Bar) { b.close >= 0.0 && (b.exit.Some? ==> b.exit.value >= 0.0) }

  /** A row's money: its entry fill is its leg's, its exit fill is floored, its net is bounded by the two, and it
      gains only by buying back below what was sold. */
  ghost predicate RowMoneyOk(l: Ledger, row: Row, r: Rules) {
    && row.leg < |l.legs| && row.lots >= 0
    && row.optIn == Times(l.legs[row.leg].premium, 1.0 - r.entrySlip)
    && (r.floor ==> row.optOut >= Times(Intrinsic(l.legs[row.leg].contract, row.btc), 1.0 + r.exitSlip))
    && (row.lots == 0 ==> row.net == 0.0)
    && (row.lots > 0 ==>
          Times(0.9 * row.optIn - 1.1 * row.optOut, Size(row.lots, r)) <= row.net <= Times(row.optIn - row.optOut, Size(row.lots, r)))
    && (row.net > 0.0 ==> row.optOut < row.optIn)
  }

  ghost predicate MoneyOk(l: Ledger, r: Rules) {
    && Sound(l) && (l.pos.Some? ==> l.pos.value.remaining >= 0)
    && (forall k | 0 <= k < |l.legs| :: l.legs[k].premium >= 0.0 && l.legs[k].btc >= 0.0)
    && (forall i | 0 <= i < |l.trades| :: RowMoneyOk(l, l.trades[i], r))
  }

  lemma RowForIsOk(l: Ledger, reason: Reason, premium: real, ts: int, btc: real, lots: int, r: Rules)
    requires MoneyRules(r) && l.legs != [] && lots >= 0 && Last(l).premium >= 0.0 && Last(l).btc >= 0.0
    requires premium >= 0.0 && btc >= 0.0
    ensures RowMoneyOk(l, RowFor(l, reason, premium, ts, btc, lots, r), r)
  {
    var e := Last(l);
    if lots > 0 {
      NetBounds(e, premium, btc, lots, r);
      SizePositive(lots, r);
      GainIsPositive(SoldFill(e, r) - BoughtFill(e, premium, btc, r), Size(lots, r));
    } else {
      NetIsUnits(e, premium, btc, 0, r);
    }
    if r.floor { Scales(Intrinsic(e.contract, btc), Max(premium, Intrinsic(e.contract, btc)), 1.0 + r.exitSlip); }
  }

  lemma GainIsPositive(a: real, w: real)
    requires w > 0.0
    ensures Times(a, w) > 0.0 ==> a > 0.0
  {
    if a <= 0.0 { Scales(a, 0.0, w); }
  }

  lemma BookKeepsMoney(l: Ledger, row: Row, next: Option<Position>, r: Rules)
    requires MoneyOk(l, r) && RowMoneyOk(l, row, r) && l.legs != [] && (next.Some? ==> next.value.remaining >= 0)
    ensures MoneyOk(Book(l, row, r).(pos := next), r)
  {
    var l' := Book(l, row, r).(pos := next);
    forall i | 0 <= i < |l'.trades| ensures RowMoneyOk(l', l'.trades[i], r) {
      if i < |l.trades| { assert RowMoneyOk(l, l.trades[i], r); } else { assert l'.trades[i] == row; }
    }
  }

  lemma CloseKeepsMoney(l: Ledger, reason: Reason, premium: real, ts: int, btc: real, r: Rules)
    requires MoneyRules(r) && MoneyOk(l, r) && l.pos.Some? && premium >= 0.0 && btc >= 0.0
    ensures MoneyOk(Close(l, reason, premium, ts, btc, r), r)
  {
    RowForIsOk(l, reason, premium, ts, btc, l.pos.value.remaining, r);
    BookKeepsMoney(l, RowFor(l, reason, premium, ts, btc, l.pos.value.remaining, r), None, r);
  }

  /** Fields that carry no money. */
  lemma ClockKeepsMoney(l: Ledger, l': Ledger, r: Rules)
    requires MoneyOk(l, r) && SameBooks(l, l')
    ensures MoneyOk(l', r)
  {
    forall i | 0 <= i < |l'.trades| ensures RowMoneyOk(l', l'.trades[i], r) { assert RowMoneyOk(l, l.trades[i], r); }
  }

  lemma PremiumNowOk(l: Ledger, ts: int, f: Feed, otherwise: real)
    requires l.legs != [] && FeedOk(f) && otherwise >= 0.0
    ensures PremiumNow(l, ts, f, otherwise) >= 0.0
  {
  }

  lemma DayCloseKeepsMoney(l: Ledger, b: Bar, f: Feed, r: Rules)
    requires MoneyRules(r) && FeedOk(f) && BarOk(b) && MoneyOk(l, r)
    ensures MoneyOk(DayClose(l, b, f, r), r)
  {
    if DayEnds(l, b, r) {
      var flat := l;
      if l.pos.Some? {
        PremiumNowOk(l, Time(b, r), f, Last(l).premium);
        flat := Close(l, Eod, PremiumNow(l, Time(b, r), f, Last(l).premium), Time(b, r), b.close, r);
        CloseKeepsMoney(l, Eod, PremiumNow(l, Time(b, r), f, Last(l).premium), Time(b, r), b.close, r);
      }
      ClockKeepsMoney(flat, DayClose(l, b, f, r), r);
    }
  }

  lemma ExpireKeepsMoney(l: Ledger, b: Bar, r: Rules)
    requires MoneyRules(r) && BarOk(b) && MoneyOk(l, r)
    ensures MoneyOk(Expire(l, b, r), r)
  {
    if l.pos.Some? { CloseKeepsMoney(l, Expired, Intrinsic(Last(l).contract, b.close), Time(b, r), b.close, r); }
  }

  lemma ObeyKeepsMoney(l: Ledger, b: Bar, f: Feed, r: Rules)
    requires MoneyRules(r) && FeedOk(f) && BarOk(b) && MoneyOk(l, r)
    ensures MoneyOk(Obey(l, b, f, r), r)
  {
    if l.pos.Some? && b.exit.Some? {
      PremiumNowOk(l, Time(b, r), f, b.exit.value);
      CloseKeepsMoney(l, Signal, PremiumNow(l, Time(b, r), f, b.exit.value), Time(b, r), b.exit.value, r);
    }
  }

  lemma TakePartKeepsMoney(l: Ledger, b: Bar, f: Feed, r: Rules)
    requires MoneyRules(r) && FeedOk(f) && BarOk(b) && MoneyOk(l, r)
    ensures MoneyOk(TakePart(l, b, f, r), r)
  {
    var l' := TakePart(l, b, f, r);
    if l' != l {
      var lots, p := Part(l.pos.value.remaining, r), PremiumNow(l, Time(b, r), f, 0.0);
      PremiumNowOk(l, Time(b, r), f, 0.0);
      RowForIsOk(l, Partial, p, Time(b, r), b.close, lots, r);
      BookKeepsMoney(l, RowFor(l, Partial, p, Time(b, r), b.close, lots, r), l'.pos, r);
    }
  }

  lemma TakeTargetKeepsMoney(l: Ledger, b: Bar, f: Feed, r: Rules)
    requires MoneyRules(r) && FeedOk(f) && BarOk(b) && MoneyOk(l, r)
    ensures MoneyOk(TakeTarget(l, b, f, r), r)
  {
    if l.pos.Some? {
      var p := PremiumNow(l, Time(b, r), f, 0.0);
      PremiumNowOk(l, Time(b, r), f, 0.0);
      CloseKeepsMoney(l, Target, p, Time(b, r), b.close, r);
      var flat := Close(l, Target, p, Time(b, r), b.close, r);
      ClockKeepsMoney(flat, flat.(blockedUntil := Some(b.nextSession)), r);
    }
  }

  lemma EnterKeepsMoney(l: Ledger, b: Bar, f: Feed, r: Rules)
    requires MoneyRules(r) && FeedOk(f) && BarOk(b) && MoneyOk(l, r)
    ensures MoneyOk(Enter(l, b, f, r), r)
  {
    var l' := Enter(l, b, f, r);
    forall i | 0 <= i < |l'.trades| ensures RowMoneyOk(l', l'.trades[i], r) { assert RowMoneyOk(l, l.trades[i], r); }
  }

  lemma StepKeepsMoney(l: Ledger, b: Bar, f: Feed, r: Rules)
    requires MoneyRules(r) && FeedOk(f) && BarOk(b) && MoneyOk(l, r)
    ensures MoneyOk(Step(l, b, f, r), r)
  {
    DayCloseKeepsMoney(l, b, f, r);
    var l1 := DayClose(l, b, f, r);
    ExpireKeepsMoney(l1, b, r);
    var l2 := Expire(l1, b, r);
    ObeyKeepsMoney(l2, b, f, r);
    var l3 := Obey(l2, b, f, r);
    TakePartKeepsMoney(l3, b, f, r);
    var l4 := TakePart(l3, b, f, r);
    TakeTargetKeepsMoney(l4, b, f, r);
    EnterKeepsMoney(TakeTarget(l4, b, f, r), b, f, r);
  }

  /** Over every stream of candles with non-negative prices: each booked net lies between the two fills' difference
      and that less a tenth of each, and only a leg bought back below its sale gains. */
  lemma {:induction false} RunMoney(bars: seq<Bar>, f: Feed, r: Rules)
    requires MoneyRules(r) && FeedOk(f) && forall i | 0 <= i < |bars| :: BarOk(bars[i])
    ensures MoneyOk(Run(bars, f, r), r) && MoneyOk(Finish(bars, f, r), r)
  {
    if bars != [] {
      var b, l := bars[|bars| - 1], Run(bars, f, r);
      RunMoney(bars[..|bars| - 1], f, r);
      StepKeepsMoney(Run(bars[..|bars| - 1], f, r), b, f, r);
      if l.pos.Some? {
        PremiumNowOk(l, Time(b, r), f, Last(l).premium);
        CloseKeepsMoney(l, OpenAtEnd, PremiumNow(l, Time(b, r), f, Last(l).premium), Time(b, r), b.close, r);
      }
    }
  }

  // ---- when a leg leaves ----

  /** The premium of the open leg on this candle. */
  function LegPremium(l: Ledger, b: Bar, f: Feed, r: Rules): Option<real>
    requires l.legs != []
  {
    f.premium(Last(l).contract, b.start + r.bar)
  }

  predicate DayIsOver(l: Ledger, b: Bar, r: Rules) { r.squareOff && b.late && l.lastDay != Some(b.day) }

  predicate HasExpired(l: Ledger, b: Bar, r: Rules)
    requires l.legs != []
  {
    b.start + r.bar >= Last(l).expiry
  }

  predicate AtOrBelow(l: Ledger, b: Bar, f: Feed, frac: real, r: Rules)
    requires l.legs != []
  {
    LegPremium(l, b, f, r).Some? && LegPremium(l, b, f, r).value <= Times(Last(l).premium, frac)
  }

  predicate AtTarget(l: Ledger, b: Bar, f: Feed, r: Rules)
    requires l.legs != []
  {
    r.targetFrac.Some? && AtOrBelow(l, b, f, r.targetFrac.value, r)
  }

  /** Part of the leg is booked: nothing ends it first, it has not been done, and the premium has fallen enough. */
  predicate BooksPart(l: Ledger, b: Bar, f: Feed, r: Rules)
    requires l.legs != [] && l.pos.Some?
  {
    && !DayIsOver(l, b, r) && !HasExpired(l, b, r) && b.exit.None?
    && r.partialLots > 0 && !l.pos.value.partialTaken && l.pos.value.remaining > 0 && AtOrBelow(l, b, f, r.partialFrac, r)
  }

  /** An open leg leaves on a candle exactly when the day ends, it has expired, the strategy exits, or its premium
      has fallen to the target. */
  lemma LegLeavesIff(l: Ledger, b: Bar, f: Feed, r: Rules)
    requires r.Ok() && Sound(l) && l.pos.Some?
    ensures Exits(l, b, f, r).pos.None?
            <==> DayIsOver(l, b, r) || HasExpired(l, b, r) || b.exit.Some? || AtTarget(l, b, f, r)
    ensures Exits(l, b, f, r).legs == l.legs
    ensures Exits(l, b, f, r).blockedUntil
            == if !DayIsOver(l, b, r) && !HasExpired(l, b, r) && b.exit.None? && AtTarget(l, b, f, r) && r.blockToSession
               then Some(b.nextSession) else l.blockedUntil
  {
  }

  /** The row of a leg that leaves: the first of those reasons, at the price and premium each one uses. */
  function LeavingRow(l: Ledger, b: Bar, f: Feed, lots: int, r: Rules): Row
    requires l.legs != []
  {
    var e, ts, p := Last(l), b.start + r.bar, LegPremium(l, b, f, r);
    if DayIsOver(l, b, r) then RowFor(l, Eod, if p.Some? then p.value else e.premium, ts, b.close, lots, r)
    else if HasExpired(l, b, r) then
      RowFor(l, Expired, if e.contract.kind == Call then Max(0.0, b.close - e.contract.strike) else Max(0.0, e.contract.strike - b.close),
             ts, b.close, lots, r)
    else if b.exit.Some? then RowFor(l, Signal, if p.Some? then p.value else b.exit.value, ts, b.exit.value, lots, r)
    else RowFor(l, Target, if p.Some? then p.value else 0.0, ts, b.close, lots, r)
  }

  /** What a row says of its trade: which leg, when, at which price of BTC, how many lots, sold at the entry premium
      and bought back at the exit premium, or at what the contract is worth if the floor is higher, each with its
      slippage, and what that nets. */
  lemma RowIs(l: Ledger, reason: Reason, premium: real, ts: int, btc: real, lots: int, r: Rules)
    requires l.legs != []
    ensures var e, row := l.legs[|l.legs| - 1], RowFor(l, reason, premium, ts, btc, lots, r);
      var worth := if e.contract.kind == Call then Max(0.0, btc - e.contract.strike) else Max(0.0, e.contract.strike - btc);
      && row.leg == |l.legs| - 1 && row.time == ts && row.btc == btc && row.reason == reason && row.lots == lots
      && row.optIn == Times(e.premium, 1.0 - r.entrySlip)
      && row.optOut == Times(if r.floor then Max(premium, worth) else premium, 1.0 + r.exitSlip)
      && row.net == Times(row.optIn - row.optOut - (UnitFee(e.btc, row.optIn) + UnitFee(btc, row.optOut)), Size(lots, r))
  {
    NetIsUnits(Last(l), premium, btc, lots, r);
  }

  /** The rows a candle books for an open leg: perhaps a part, then the rest if it leaves. */
  lemma LegRows(l: Ledger, b: Bar, f: Feed, r: Rules)
    requires r.Ok() && Sound(l) && l.pos.Some?
    ensures var held, p := l.pos.value.remaining, LegPremium(l, b, f, r);
      var part := if r.partialLots < held then r.partialLots else held;
      var rows := if BooksPart(l, b, f, r) then [RowFor(l, Partial, p.value, b.start + r.bar, b.close, part, r)] else [];
      var left := if BooksPart(l, b, f, r) then held - part else held;
      var exit := Exits(l, b, f, r);
      && exit.trades == l.trades + rows + (if exit.pos.None? then [LeavingRow(l, b, f, left, r)] else [])
      && (exit.pos.Some? ==> exit.pos.value == Position(left, l.pos.value.partialTaken || BooksPart(l, b, f, r)))
  {
    LegLeavesIff(l, b, f, r);
  }

  /** Flat, the exits do nothing but end the day. */
  lemma FlatExitsNothing(l: Ledger, b: Bar, f: Feed, r: Rules)
    requires r.Ok() && Sound(l) && l.pos.None?
    ensures var next := Exits(l, b, f, r);
      next.pos.None? && next.legs == l.legs && next.trades == l.trades && next.blockedUntil == l.blockedUntil
  {
  }

  // ---- when a day closes ----

  /** Capital buys whole lots: as many as fit, and none of negative capital. */
  lemma LotsForIs(r: Rules, capital: real)
    requires r.Ok() && r.Compounding() && r.capitalPerLot > 0.0
    ensures var lots := r.LotsFor(capital);
      && lots >= 0
      && (capital < 0.0 ==> lots == 0)
      && (capital >= 0.0 ==> Times(lots as real, r.capitalPerLot) <= capital < Times(lots as real + 1.0, r.capitalPerLot))
  {
    var q := capital / r.capitalPerLot;
    var lots := q.Floor;
    assert Times(q, r.capitalPerLot) == capital;
    assert lots as real <= q < lots as real + 1.0;
    Scales(lots as real, q, r.capitalPerLot);
    StrictlyScales(q, lots as real + 1.0, r.capitalPerLot);
    if capital >= 0.0 { QuotientIsNonNegative(q, r.capitalPerLot); } else { QuotientIsNegative(q, r.capitalPerLot); }
  }

  lemma QuotientIsNonNegative(q: real, w: real)
    requires w > 0.0 && Times(q, w) >= 0.0
    ensures q >= 0.0
  {
    if q < 0.0 { StrictlyScales(q, 0.0, w); }
  }

  lemma QuotientIsNegative(q: real, w: real)
    requires w > 0.0 && Times(q, w) < 0.0
    ensures q < 0.0
  {
    if q >= 0.0 { Scales(0.0, q, w); }
  }

  /** A candle closes a day exactly once per date, at or after the square-off time; compounding, it records the
      capital with the leg it squares off booked, and the lots that capital buys. */
  lemma DayClosesIff(l: Ledger, b: Bar, f: Feed, r: Rules)
    requires r.Ok() && Sound(l)
    ensures var next := Step(l, b, f, r);
      var booked := if l.pos.Some? then LeavingRow(l, b, f, l.pos.value.remaining, r).net else 0.0;
      var capital := l.capital + booked;
      && next.lastDay == (if DayIsOver(l, b, r) then Some(b.day) else l.lastDay)
      && (r.Compounding() && DayIsOver(l, b, r) ==>
            next.trace == l.trace + [Checkpoint(b.start + r.bar, capital, r.LotsFor(capital))] && next.lots == r.LotsFor(capital))
      && (!(r.Compounding() && DayIsOver(l, b, r)) ==> next.trace == l.trace && next.lots == l.lots)
  {
    var l1 := DayClose(l, b, f, r);
    var l3 := Obey(Expire(l1, b, r), b, f, r);
    EarlyExitsKeepDay(l1, b, f, r);
    LateExitsKeepDay(l3, b, f, r);
    EnterKeepsDay(Exits(l, b, f, r), b, f, r);
  }

  predicate SameDay(l: Ledger, l': Ledger) { l'.lastDay == l.lastDay && l'.trace == l.trace && l'.lots == l.lots }

  lemma EarlyExitsKeepDay(l: Ledger, b: Bar, f: Feed, r: Rules)
    requires Sound(l)
    ensures SameDay(l, Obey(Expire(l, b, r), b, f, r))
  {
  }

  lemma LateExitsKeepDay(l: Ledger, b: Bar, f: Feed, r: Rules)
    requires Sound(l)
    ensures SameDay(l, TakeTarget(TakePart(l, b, f, r), b, f, r))
  {
  }

  lemma EnterKeepsDay(l: Ledger, b: Bar, f: Feed, r: Rules)
    ensures SameDay(l, Enter(l, b, f, r))
  {
  }

  // ---- when a leg enters ----

  /** A candle enters exactly when its exits leave it flat, the strategy sells inside the simulated time, no block
      is on, there is a lot to sell and a contract is found; the leg is that contract at its quoted premium, or
      what it is worth if the floor is higher. */
  lemma LegEntersIff(l: Ledger, b: Bar, f: Feed, r: Rules)
    requires r.Ok() && Sound(l)
    ensures var flat, next := Exits(l, b, f, r), Step(l, b, f, r);
      var ts, lots := b.start + r.bar, if r.startCapital > 0.0 then flat.lots else r.lots;
      var enters := flat.pos.None? && b.sell.Some? && b.start >= r.simStart
                    && (flat.blockedUntil.Some? ==> ts >= flat.blockedUntil.value)
                    && lots > 0 && f.open(b.sell.value, ts, b.close).Some?;
      if enters then
        var o := f.open(b.sell.value, ts, b.close).value;
        var worth := if o.contract.kind == Call then Max(0.0, b.close - o.contract.strike) else Max(0.0, o.contract.strike - b.close);
        var premium := if r.floor then Max(o.premium, worth) else o.premium;
        && next.legs == flat.legs + [Entry(ts, b.close, o.contract, premium, o.expiry, lots)]
        && next.pos == Some(Position(lots, false)) && next.trades == flat.trades
      else next == flat
  {
  }
}
