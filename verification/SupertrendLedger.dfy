/** The ledger of the Supertrend option backtest: partial profit booking, one leg at a time, and lots
    compounded from capital. What the strategy decides is an arbitrary input. */
module SupertrendLedger {
  import opened Common
  import opened OptionPricing

  datatype Rules = Rules(startCapital: real, capitalPerLot: real, lots: int, lotSize: real,
                         entrySlip: real, exitSlip: real, floor: bool, squareOff: bool,
                         partialLots: int, partialFrac: real, targetFrac: Option<real>,
                         blockToSession: bool, simStart: int, bar: int)
  {
    predicate Compounding() { startCapital > 0.0 }

    /** Lots are capital over capital per lot, which the source cannot compute for a zero divisor. */
    predicate Ok() { Compounding() ==> capitalPerLot != 0.0 }

    function LotsFor(capital: real): int
      requires Ok() && Compounding()
    {
      var lots := (capital / capitalPerLot).Floor;
      if lots > 0 then lots else 0
    }
  }

  datatype Reason = Eod | Expired | Signal | Partial | Target | OpenAtEnd

  datatype Entry = Entry(time: int, btc: real, contract: Contract, premium: real, expiry: int, lots: int)

  datatype Position = Position(remaining: int, partialTaken: bool)

  /** A booked trade; `leg` numbers the entry whose columns it repeats, `optIn` and `optOut` are the fills. */
  datatype Row = Row(leg: nat, time: int, btc: real, reason: Reason, lots: int, optIn: real, optOut: real, net: real)

  datatype Checkpoint = Checkpoint(time: int, capital: real, lots: int)

  datatype Opening = Opening(contract: Contract, premium: real, expiry: int)

  /** Premiums by contract and time, and the contract found for a sale; both arbitrary. */
  datatype Feed = Feed(premium: (Contract, int) -> Option<real>, open: (OptionType, int, real) -> Option<Opening>)

  /** A candle with what the strategy and the calendar say about it. */
  datatype Bar = Bar(start: int, close: real, day: int, late: bool, nextSession: int,
                     exit: Option<real>, sell: Option<OptionType>)

  /** `legs` lists every entry made; an open position is the last of them. */
  datatype Ledger = Ledger(pos: Option<Position>, legs: seq<Entry>, capital: real, lots: int, trades: seq<Row>,
                           trace: seq<Checkpoint>, lastDay: Option<int>, blockedUntil: Option<int>)

  function Start(r: Rules): Ledger
    requires r.Ok()
  {
    Ledger(None, [], r.startCapital, if r.Compounding() then r.LotsFor(r.startCapital) else r.lots, [], [], None, None)
  }

  // ---- the pieces of a candle ----

  function SoldFill(e: Entry, r: Rules): real { Times(e.premium, 1.0 - r.entrySlip) }

  function BoughtFill(e: Entry, premium: real, btc: real, r: Rules): real {
    Times(if r.floor then Max(premium, Intrinsic(e.contract, btc)) else premium, 1.0 + r.exitSlip)
  }

  function NetOf(e: Entry, premium: real, btc: real, lots: int, r: Rules): real {
    var sold, bought := SoldFill(e, r), BoughtFill(e, premium, btc, r);
    (sold - bought) * lots as real * r.lotSize
    - (SideFee(e.btc, sold, lots, r.lotSize) + SideFee(btc, bought, lots, r.lotSize))
  }

  /** An open position has an entry and belongs to it. */
  predicate Sound(l: Ledger) { l.pos.Some? ==> l.legs != [] }

  function Last(l: Ledger): Entry
    requires l.legs != []
  {
    l.legs[|l.legs| - 1]
  }

  function Book(l: Ledger, row: Row, r: Rules): Ledger {
    l.(trades := l.trades + [row], capital := if r.Compounding() then l.capital + row.net else l.capital)
  }

  function RowFor(l: Ledger, reason: Reason, premium: real, ts: int, btc: real, lots: int, r: Rules): Row
    requires l.legs != []
  {
    Row(|l.legs| - 1, ts, btc, reason, lots, SoldFill(Last(l), r), BoughtFill(Last(l), premium, btc, r),
        NetOf(Last(l), premium, btc, lots, r))
  }

  function Close(l: Ledger, reason: Reason, premium: real, ts: int, btc: real, r: Rules): Ledger
    requires Sound(l) && l.pos.Some?
  {
    Book(l, RowFor(l, reason, premium, ts, btc, l.pos.value.remaining, r), r).(pos := None)
  }

  function ClosePart(l: Ledger, premium: real, ts: int, btc: real, lots: int, r: Rules): Ledger
    requires Sound(l) && l.pos.Some?
  {
    Book(l, RowFor(l, Partial, premium, ts, btc, lots, r), r)
      .(pos := Some(Position(l.pos.value.remaining - lots, true)))
  }

  function PremiumNow(l: Ledger, ts: int, f: Feed, otherwise: real): real
    requires l.legs != []
  {
    var p := f.premium(Last(l).contract, ts);
    if p.Some? then p.value else otherwise
  }

  function Time(b: Bar, r: Rules): int { b.start + r.bar }

  predicate DayEnds(l: Ledger, b: Bar, r: Rules) { r.squareOff && b.late && l.lastDay != Some(b.day) }

  function DayClose(l: Ledger, b: Bar, f: Feed, r: Rules): Ledger
    requires Sound(l) && r.Ok()
  {
    if !DayEnds(l, b, r) then l
    else
      var ts := Time(b, r);
      var flat := if l.pos.Some? then Close(l, Eod, PremiumNow(l, ts, f, Last(l).premium), ts, b.close, r) else l;
      var next := flat.(lastDay := Some(b.day));
      if r.Compounding() then
        next.(lots := r.LotsFor(next.capital), trace := next.trace + [Checkpoint(ts, next.capital, r.LotsFor(next.capital))])
      else next
  }

  function Expire(l: Ledger, b: Bar, r: Rules): Ledger
    requires Sound(l)
  {
    if l.pos.None? || Time(b, r) < Last(l).expiry then l
    else Close(l, Expired, Intrinsic(Last(l).contract, b.close), Time(b, r), b.close, r)
  }

  function Obey(l: Ledger, b: Bar, f: Feed, r: Rules): Ledger
    requires Sound(l)
  {
    if l.pos.None? || b.exit.None? then l
    else Close(l, Signal, PremiumNow(l, Time(b, r), f, b.exit.value), Time(b, r), b.exit.value, r)
  }

  predicate Reached(l: Ledger, b: Bar, f: Feed, frac: real, r: Rules)
    requires l.legs != []
  {
    var p := f.premium(Last(l).contract, Time(b, r));
    p.Some? && p.value <= Times(Last(l).premium, frac)
  }

  function TakePart(l: Ledger, b: Bar, f: Feed, r: Rules): Ledger
    requires Sound(l)
  {
    if l.pos.None? || r.partialLots <= 0 || l.pos.value.partialTaken || l.pos.value.remaining <= 0
       || !Reached(l, b, f, r.partialFrac, r)
    then l
    else ClosePart(l, PremiumNow(l, Time(b, r), f, 0.0), Time(b, r), b.close, Part(l.pos.value.remaining, r), r)
  }

  function Part(lots: int, r: Rules): int { if r.partialLots < lots then r.partialLots else lots }

  function TakeTarget(l: Ledger, b: Bar, f: Feed, r: Rules): Ledger
    requires Sound(l)
  {
    if l.pos.None? || r.targetFrac.None? || !Reached(l, b, f, r.targetFrac.value, r) then l
    else
      var flat := Close(l, Target, PremiumNow(l, Time(b, r), f, 0.0), Time(b, r), b.close, r);
      if r.blockToSession then flat.(blockedUntil := Some(b.nextSession)) else flat
  }

  function Enter(l: Ledger, b: Bar, f: Feed, r: Rules): Ledger {
    var ts := Time(b, r);
    if l.pos.Some? || b.sell.None? || b.start < r.simStart || (l.blockedUntil.Some? && ts < l.blockedUntil.value) then l
    else
      var lots := if r.Compounding() then l.lots else r.lots;
      var o := if lots > 0 then f.open(b.sell.value, ts, b.close) else None;
      if o.None? then l
      else
        var p := if r.floor then Max(o.value.premium, Intrinsic(o.value.contract, b.close)) else o.value.premium;
        l.(pos := Some(Position(lots, false)),
           legs := l.legs + [Entry(ts, b.close, o.value.contract, p, o.value.expiry, lots)])
  }

  function Exits(l: Ledger, b: Bar, f: Feed, r: Rules): (l': Ledger)
    requires Sound(l) && r.Ok()
    ensures Sound(l')
  {
    TakeTarget(TakePart(Obey(Expire(DayClose(l, b, f, r), b, r), b, f, r), b, f, r), b, f, r)
  }

  /** One candle. */
  function Step(l: Ledger, b: Bar, f: Feed, r: Rules): (l': Ledger)
    requires Sound(l) && r.Ok()
    ensures Sound(l')
  {
    Enter(Exits(l, b, f, r), b, f, r)
  }

  function Run(bars: seq<Bar>, f: Feed, r: Rules): (l: Ledger)
    requires r.Ok()
    ensures Sound(l)
  {
    if bars == [] then Start(r) else Step(Run(bars[..|bars| - 1], f, r), bars[|bars| - 1], f, r)
  }

  function CloseOpen(l: Ledger, b: Bar, f: Feed, r: Rules): Ledger
    requires Sound(l)
  {
    if l.pos.None? then l
    else Close(l, OpenAtEnd, PremiumNow(l, Time(b, r), f, Last(l).premium), Time(b, r), b.close, r)
  }

  /** The whole backtest: whatever is still open is closed on the last candle. */
  function Finish(bars: seq<Bar>, f: Feed, r: Rules): Ledger
    requires r.Ok()
  {
    var l := Run(bars, f, r);
    if bars == [] then l else CloseOpen(l, bars[|bars| - 1], f, r)
  }

  // ---- conservation ----

  function Nets(rows: seq<Row>): real {
    if rows == [] then 0.0 else Nets(rows[..|rows| - 1]) + rows[|rows| - 1].net
  }

  /** Lots booked for a leg. */
  function Booked(rows: seq<Row>, leg: nat): int {
    if rows == [] then 0
    else
      var last := rows[|rows| - 1];
      Booked(rows[..|rows| - 1], leg) + if last.leg == leg then last.lots else 0
  }

  /** Rows of a leg that are partial bookings, or that are full closes. */
  function Count(rows: seq<Row>, leg: nat, part: bool): nat {
    if rows == [] then 0
    else
      var last := rows[|rows| - 1];
      Count(rows[..|rows| - 1], leg, part) + if last.leg == leg && last.reason.Partial? == part then 1 else 0
  }

  predicate IsOpen(l: Ledger, k: nat) { l.pos.Some? && k + 1 == |l.legs| }

  /** What a leg that entered with `lots` still holds. */
  function Left(lots: int, taken: bool, r: Rules): int { if taken then lots - Part(lots, r) else lots }

  /** Of a closed leg, the rows add up to the lots it entered with: one full close and at most one
      partial. Of the open leg, they add up to what is no longer held. */
  ghost predicate LegOk(l: Ledger, k: nat, r: Rules)
    requires k < |l.legs|
  {
    && l.legs[k].lots > 0
    && if IsOpen(l, k) then
         && l.pos.value.remaining == Left(l.legs[k].lots, l.pos.value.partialTaken, r)
         && Booked(l.trades, k) + l.pos.value.remaining == l.legs[k].lots
         && Count(l.trades, k, true) == (if l.pos.value.partialTaken then 1 else 0)
         && Count(l.trades, k, false) == 0
         && (l.pos.value.partialTaken ==> r.partialLots > 0)
       else
         Booked(l.trades, k) == l.legs[k].lots && Count(l.trades, k, false) == 1 && Count(l.trades, k, true) <= 1
  }

  /** Rows fall inside their leg's life, and that ends before the next leg begins. */
  ghost predicate RowOk(l: Ledger, row: Row, now: int) {
    && row.leg < |l.legs|
    && l.legs[row.leg].time <= row.time <= now
    && (row.leg + 1 < |l.legs| ==> row.time <= l.legs[row.leg + 1].time)
    && row.lots >= 0
  }

  ghost predicate Conserved(l: Ledger, r: Rules) {
    l.capital == if r.Compounding() then r.startCapital + Nets(l.trades) else r.startCapital
  }

  /** The lot size in force is the one set at the last day close. */
  ghost predicate LotsFromCheckpoint(l: Ledger, r: Rules)
    requires r.Ok()
  {
    && (r.Compounding() ==> l.lots == if l.trace == [] then r.LotsFor(r.startCapital) else l.trace[|l.trace| - 1].lots)
    && (!r.Compounding() ==> l.lots == r.lots && l.trace == [])
    && (forall i | 0 <= i < |l.trace| :: r.Compounding() && l.trace[i].lots == r.LotsFor(l.trace[i].capital))
  }

  ghost predicate LedgerOk(l: Ledger, now: int, r: Rules)
    requires r.Ok()
  {
    && Sound(l) && Conserved(l, r) && LotsFromCheckpoint(l, r)
    && (forall k: nat | k < |l.legs| :: LegOk(l, k, r) && l.legs[k].time <= now)
    && (forall i | 0 <= i < |l.trades| :: RowOk(l, l.trades[i], now))
    && (forall i, j | 0 <= i < j < |l.legs| :: l.legs[i].time <= l.legs[j].time)
  }

  lemma RowBooks(rows: seq<Row>, row: Row, leg: nat)
    ensures Booked(rows + [row], leg) == Booked(rows, leg) + if row.leg == leg then row.lots else 0
    ensures Nets(rows + [row]) == Nets(rows) + row.net
    ensures forall part :: Count(rows + [row], leg, part)
                           == Count(rows, leg, part) + if row.leg == leg && row.reason.Partial? == part then 1 else 0
  {
    assert (rows + [row])[..|rows|] == rows;
  }

  lemma {:induction false} UnusedLegHasNoRows(rows: seq<Row>, leg: nat)
    requires forall i | 0 <= i < |rows| :: rows[i].leg < leg
    ensures Booked(rows, leg) == 0 && Count(rows, leg, true) == 0 && Count(rows, leg, false) == 0
  {
    if rows != [] { UnusedLegHasNoRows(rows[..|rows| - 1], leg); }
  }

  /** The open leg takes one more row and then holds `next`. */
  ghost predicate Bookable(l: Ledger, row: Row, next: Option<Position>, r: Rules) {
    && l.pos.Some? && row.leg == |l.legs| - 1
    && if next.None? then row.lots == l.pos.value.remaining && row.reason != Partial
       else row.reason == Partial && !l.pos.value.partialTaken && r.partialLots > 0
            && row.lots == Part(l.pos.value.remaining, r)
            && next.value == Position(l.pos.value.remaining - row.lots, true)
  }

  lemma BookingKeepsLeg(l: Ledger, row: Row, next: Option<Position>, k: nat, r: Rules)
    requires k < |l.legs| && LegOk(l, k, r) && Bookable(l, row, next, r)
    ensures LegOk(Book(l, row, r).(pos := next), k, r)
  {
    RowBooks(l.trades, row, k);
  }

  lemma BookingKeepsOk(l: Ledger, row: Row, next: Option<Position>, now: int, r: Rules)
    requires r.Ok() && LedgerOk(l, now, r) && Bookable(l, row, next, r) && row.time == now
    ensures LedgerOk(Book(l, row, r).(pos := next), now, r)
  {
    var l' := Book(l, row, r).(pos := next);
    assert LegOk(l, row.leg, r);
    forall k: nat | k < |l'.legs| ensures LegOk(l', k, r) && l'.legs[k].time <= now {
      BookingKeepsLeg(l, row, next, k, r);
    }
    RowBooks(l.trades, row, 0);
    forall i | 0 <= i < |l'.trades| ensures RowOk(l', l'.trades[i], now) {
      if i < |l.trades| { assert RowOk(l, l.trades[i], now); } else { assert l'.trades[i] == row; }
    }
  }

  lemma CloseKeepsOk(l: Ledger, reason: Reason, premium: real, now: int, btc: real, r: Rules)
    requires r.Ok() && LedgerOk(l, now, r) && l.pos.Some? && reason != Partial
    ensures LedgerOk(Close(l, reason, premium, now, btc, r), now, r)
  {
    BookingKeepsOk(l, RowFor(l, reason, premium, now, btc, l.pos.value.remaining, r), None, now, r);
  }

  lemma LaterKeepsOk(l: Ledger, before: int, now: int, r: Rules)
    requires r.Ok() && LedgerOk(l, before, r) && before <= now
    ensures LedgerOk(l, now, r)
  {
    forall i | 0 <= i < |l.trades| ensures RowOk(l, l.trades[i], now) {
      assert RowOk(l, l.trades[i], before);
    }
  }

  /** Nothing but the clockwork fields differs. */
  ghost predicate SameBooks(l: Ledger, l': Ledger) {
    l'.pos == l.pos && l'.legs == l.legs && l'.trades == l.trades && l'.capital == l.capital
  }

  lemma SameBooksKeepsOk(l: Ledger, l': Ledger, now: int, r: Rules)
    requires r.Ok() && LedgerOk(l, now, r) && SameBooks(l, l') && LotsFromCheckpoint(l', r)
    ensures LedgerOk(l', now, r)
  {
    forall k: nat | k < |l'.legs| ensures LegOk(l', k, r) { assert LegOk(l, k, r); }
    forall i | 0 <= i < |l'.trades| ensures RowOk(l', l'.trades[i], now) { assert RowOk(l, l.trades[i], now); }
  }

  lemma DayCloseKeepsOk(l: Ledger, b: Bar, f: Feed, r: Rules)
    requires r.Ok() && LedgerOk(l, Time(b, r), r)
    ensures LedgerOk(DayClose(l, b, f, r), Time(b, r), r)
  {
    var ts := Time(b, r);
    if l.pos.Some? { CloseKeepsOk(l, Eod, PremiumNow(l, ts, f, Last(l).premium), ts, b.close, r); }
    if DayEnds(l, b, r) {
      var flat := if l.pos.Some? then Close(l, Eod, PremiumNow(l, ts, f, Last(l).premium), ts, b.close, r) else l;
      SameBooksKeepsOk(flat, DayClose(l, b, f, r), ts, r);
    }
  }

  lemma ExitsKeepOk(l: Ledger, b: Bar, f: Feed, r: Rules)
    requires r.Ok() && LedgerOk(l, Time(b, r), r)
    ensures LedgerOk(Exits(l, b, f, r), Time(b, r), r)
  {
    var ts := Time(b, r);
    DayCloseKeepsOk(l, b, f, r);
    var l1 := DayClose(l, b, f, r);
    if l1.pos.Some? { CloseKeepsOk(l1, Expired, Intrinsic(Last(l1).contract, b.close), ts, b.close, r); }
    var l2 := Expire(l1, b, r);
    if l2.pos.Some? && b.exit.Some? {
      CloseKeepsOk(l2, Signal, PremiumNow(l2, ts, f, b.exit.value), ts, b.exit.value, r);
    }
    var l3 := Obey(l2, b, f, r);
    TakePartKeepsOk(l3, b, f, r);
    TakeTargetKeepsOk(TakePart(l3, b, f, r), b, f, r);
  }

  lemma TakePartKeepsOk(l: Ledger, b: Bar, f: Feed, r: Rules)
    requires r.Ok() && LedgerOk(l, Time(b, r), r)
    ensures LedgerOk(TakePart(l, b, f, r), Time(b, r), r)
  {
    var l' := TakePart(l, b, f, r);
    if l' != l {
      var lots := Part(l.pos.value.remaining, r);
      var row := RowFor(l, Partial, PremiumNow(l, Time(b, r), f, 0.0), Time(b, r), b.close, lots, r);
      BookingKeepsOk(l, row, l'.pos, Time(b, r), r);
    }
  }

  lemma TakeTargetKeepsOk(l: Ledger, b: Bar, f: Feed, r: Rules)
    requires r.Ok() && LedgerOk(l, Time(b, r), r)
    ensures LedgerOk(TakeTarget(l, b, f, r), Time(b, r), r)
  {
    if l.pos.Some? {
      var flat := Close(l, Target, PremiumNow(l, Time(b, r), f, 0.0), Time(b, r), b.close, r);
      CloseKeepsOk(l, Target, PremiumNow(l, Time(b, r), f, 0.0), Time(b, r), b.close, r);
      SameBooksKeepsOk(flat, flat.(blockedUntil := Some(b.nextSession)), Time(b, r), r);
    }
  }

  lemma EnterKeepsOk(l: Ledger, b: Bar, f: Feed, r: Rules)
    requires r.Ok() && LedgerOk(l, Time(b, r), r)
    ensures LedgerOk(Enter(l, b, f, r), Time(b, r), r)
  {
    var now, l' := Time(b, r), Enter(l, b, f, r);
    if l' != l {
      forall i | 0 <= i < |l.trades| ensures RowOk(l', l'.trades[i], now) && l.trades[i].leg < |l.legs| {
        assert RowOk(l, l.trades[i], now);
      }
      UnusedLegHasNoRows(l.trades, |l.legs|);
      forall k: nat | k < |l'.legs| ensures LegOk(l', k, r) && l'.legs[k].time <= now {
        if k < |l.legs| { assert LegOk(l, k, r); }
      }
    }
  }

  ghost predicate InOrder(bars: seq<Bar>) { forall i, j | 0 <= i < j < |bars| :: bars[i].start <= bars[j].start }

  /** Over every time-ordered candle stream and whatever the strategy and the feed say: capital is
      the start plus every net booked, each leg's rows add up to its lots with at most one partial,
      legs do not overlap, and the lot size is the one of the last day close. */
  lemma {:induction false} RunKeepsLedger(bars: seq<Bar>, f: Feed, r: Rules)
    requires r.Ok() && InOrder(bars) && bars != []
    ensures LedgerOk(Run(bars, f, r), Time(bars[|bars| - 1], r), r)
  {
    var before, b := bars[..|bars| - 1], bars[|bars| - 1];
    if before == [] {
      assert LedgerOk(Start(r), Time(b, r), r);
    } else {
      RunKeepsLedger(before, f, r);
      LaterKeepsOk(Run(before, f, r), Time(before[|before| - 1], r), Time(b, r), r);
    }
    ExitsKeepOk(Run(before, f, r), b, f, r);
    EnterKeepsOk(Exits(Run(before, f, r), b, f, r), b, f, r);
  }

  /** A finished run has closed every leg and balanced its books. */
  lemma FinishBalances(bars: seq<Bar>, f: Feed, r: Rules)
    requires r.Ok() && InOrder(bars) && bars != []
    ensures Finish(bars, f, r).pos.None? && LedgerOk(Finish(bars, f, r), Time(bars[|bars| - 1], r), r)
  {
    var b, l := bars[|bars| - 1], Run(bars, f, r);
    RunKeepsLedger(bars, f, r);
    if l.pos.Some? {
      CloseKeepsOk(l, OpenAtEnd, PremiumNow(l, Time(b, r), f, Last(l).premium), Time(b, r), b.close, r);
    }
  }

  /** Read off the ledger: the rows of a closed leg add up to its lots, and they all come at or
      before the entry of any later leg. */
  lemma ClosedLegIsWhole(l: Ledger, k: nat, now: int, r: Rules)
    requires r.Ok() && LedgerOk(l, now, r) && k < |l.legs| && !IsOpen(l, k)
    ensures Booked(l.trades, k) == l.legs[k].lots && Count(l.trades, k, true) <= 1 == Count(l.trades, k, false)
    ensures forall i | 0 <= i < |l.trades| && l.trades[i].leg == k :: l.legs[k].time <= l.trades[i].time
    ensures forall i, m | 0 <= i < |l.trades| && l.trades[i].leg == k && k < m < |l.legs| :: l.trades[i].time <= l.legs[m].time
  {
    assert LegOk(l, k, r);
    forall i | 0 <= i < |l.trades| && l.trades[i].leg == k
      ensures l.legs[k].time <= l.trades[i].time && (k + 1 < |l.legs| ==> l.trades[i].time <= l.legs[k + 1].time)
    {
      assert RowOk(l, l.trades[i], now);
    }
    if k + 1 < |l.legs| {
      assert forall m | k + 1 < m < |l.legs| :: l.legs[k + 1].time <= l.legs[m].time;
    }
  }

  /** The lot size moves only on a candle that ends a day, to what the capital booked so far pays
      for, and every leg enters with the lot size in force. */
  lemma LotsMoveOnlyAtDayClose(l: Ledger, b: Bar, f: Feed, r: Rules)
    requires Sound(l) && r.Ok()
    ensures Step(l, b, f, r).lots == if r.Compounding() && DayEnds(l, b, r) then r.LotsFor(DayClose(l, b, f, r).capital) else l.lots
    ensures |l.legs| <= |Step(l, b, f, r).legs| <= |l.legs| + 1
    ensures r.Compounding() && |Step(l, b, f, r).legs| > |l.legs| ==> Last(Step(l, b, f, r)).lots == Step(l, b, f, r).lots > 0
  {
  }

  // ---- the empty leg ----

  /** An open leg holds nothing exactly when its partial booking covered it whole: the source then
      keeps the empty leg open. */
  lemma EmptyLegStaysOpenIff(l: Ledger, now: int, r: Rules)
    requires r.Ok() && LedgerOk(l, now, r) && l.pos.Some?
    ensures l.pos.value.remaining == 0 <==> l.pos.value.partialTaken && r.partialLots >= Last(l).lots
  {
    assert LegOk(l, |l.legs| - 1, r);
  }

  /** It then stops every entry, whatever the strategy says, exactly until a day close, the expiry, a
      strategy exit or the target would have closed a leg that still held lots. */
  lemma EmptyLegBlocksIff(l: Ledger, b: Bar, f: Feed, now: int, r: Rules)
    requires r.Ok() && LedgerOk(l, now, r) && l.pos.Some? && l.pos.value.remaining == 0
    ensures Step(l, b, f, r).pos == l.pos && Step(l, b, f, r).legs == l.legs
            <==> !DayEnds(l, b, r) && Time(b, r) < Last(l).expiry && b.exit.None?
                 && (r.targetFrac.Some? ==> !Reached(l, b, f, r.targetFrac.value, r))
  {
    EmptyLegStaysOpenIff(l, now, r);
    EnteringHoldsLots(Exits(l, b, f, r), b, f, r);
  }

  lemma EnteringHoldsLots(l: Ledger, b: Bar, f: Feed, r: Rules)
    ensures l.pos.None? && Enter(l, b, f, r).pos.Some? ==> Enter(l, b, f, r).pos.value.remaining > 0
  {
  }

  /** And closing it books no lots and no money. */
  lemma EmptyLegBooksNothing(l: Ledger, reason: Reason, premium: real, ts: int, btc: real, r: Rules)
    requires Sound(l) && l.pos.Some? && l.pos.value.remaining == 0
    ensures var l' := Close(l, reason, premium, ts, btc, r);
      l'.capital == l.capital && |l'.trades| == |l.trades| + 1 && l'.trades[|l.trades|].lots == 0 && l'.trades[|l.trades|].net == 0.0
  {
  }

  const FIVE_LOTS := Rules(0.0, 0.0, 5, 0.001, 0.0, 0.0, false, false, 5, 0.5, None, false, 0, 60)

  const HALVING := Feed((c: Contract, t: int) => Some(if t <= 60 then 100.0 else 40.0),
                        (k: OptionType, t: int, btc: real) => Some(Opening(Contract(k, 60000.0), 100.0, 100000)))

  function Minute(k: int): Bar { Bar(60 * k, 60000.0, 0, false, 0, None, Some(Call)) }

  /** Two candles reach it: five lots sold at 100, of which five are booked at 40. */
  lemma EmptyLegIsReachable()
    ensures FIVE_LOTS.Ok() && InOrder([Minute(0), Minute(1)])
    ensures Run([Minute(0), Minute(1)], HALVING, FIVE_LOTS).pos == Some(Position(0, true))
  {
    var bars := [Minute(0), Minute(1)];
    assert bars[..1] == [Minute(0)] && bars[..1][..0] == [];
    var l := Run([], HALVING, FIVE_LOTS);
    assert l == Start(FIVE_LOTS);
    var sold := Step(l, Minute(0), HALVING, FIVE_LOTS);
    assert sold.pos == Some(Position(5, false)) && Last(sold) == Entry(60, 60000.0, Contract(Call, 60000.0), 100.0, 100000, 5);
    assert Run([Minute(0)], HALVING, FIVE_LOTS) == sold;
    assert Reached(sold, Minute(1), HALVING, 0.5, FIVE_LOTS);
  }

  // ---- the backtest itself ----

  class SupertrendBacktest {
    const rules: Rules
    const feed: Feed
    var pos: Option<Position>
    var capital: real
    var currentLots: int
    var trades: seq<Row>
    var legs: seq<Entry>
    var capitalTrace: seq<Checkpoint>
    var lastDay: Option<int>
    var blockedUntil: Option<int>

    function State(): Ledger
      reads this
    {
      Ledger(pos, legs, capital, currentLots, trades, capitalTrace, lastDay, blockedUntil)
    }

    constructor (rules: Rules, feed: Feed)
      requires rules.Ok()
      ensures this.rules == rules && this.feed == feed && State() == Start(rules)
    {
      this.rules, this.feed := rules, feed;
      pos, legs, trades, capitalTrace, lastDay, blockedUntil := None, [], [], [], None, None;
      capital := rules.startCapital;
      currentLots := if rules.Compounding() then rules.LotsFor(rules.startCapital) else rules.lots;
    }

    method RecordTrade(reason: Reason, premium: real, ts: int, btc: real, lots: int)
      requires legs != []
      modifies this`trades, this`capital
      ensures State() == Book(old(State()), RowFor(old(State()), reason, premium, ts, btc, lots, rules), rules)
    {
      var e := legs[|legs| - 1];
      var row := Row(|legs| - 1, ts, btc, reason, lots, SoldFill(e, rules), BoughtFill(e, premium, btc, rules),
                     NetOf(e, premium, btc, lots, rules));
      trades := trades + [row];
      if rules.Compounding() { capital := capital + row.net; }
    }

    method CloseLeg(reason: Reason, premium: real, ts: int, btc: real)
      requires Sound(State()) && pos.Some?
      modifies this`trades, this`capital, this`pos
      ensures State() == Close(old(State()), reason, premium, ts, btc, rules)
    {
      RecordTrade(reason, premium, ts, btc, pos.value.remaining);
      pos := None;
    }

    method ClosePartial(premium: real, ts: int, btc: real, lots: int)
      requires Sound(State()) && pos.Some?
      modifies this`trades, this`capital, this`pos
      ensures State() == ClosePart(old(State()), premium, ts, btc, lots, rules)
    {
      RecordTrade(Partial, premium, ts, btc, lots);
      pos := Some(Position(pos.value.remaining - lots, true));
    }

    method EndDay(b: Bar)
      requires Sound(State()) && rules.Ok()
      modifies this
      ensures State() == DayClose(old(State()), b, feed, rules)
    {
      if !rules.squareOff || !b.late || lastDay == Some(b.day) { return; }
      lastDay := Some(b.day);
      if pos.Some? {
        var p := feed.premium(legs[|legs| - 1].contract, Time(b, rules));
        CloseLeg(Eod, if p.Some? then p.value else legs[|legs| - 1].premium, Time(b, rules), b.close);
      }
      if rules.Compounding() {
        currentLots := rules.LotsFor(capital);
        capitalTrace := capitalTrace + [Checkpoint(Time(b, rules), capital, currentLots)];
      }
    }

    method CloseExpired(b: Bar)
      requires Sound(State())
      modifies this
      ensures State() == Expire(old(State()), b, rules)
    {
      if pos.Some? && Time(b, rules) >= legs[|legs| - 1].expiry {
        CloseLeg(Expired, Intrinsic(legs[|legs| - 1].contract, b.close), Time(b, rules), b.close);
      }
    }

    method CloseOnSignal(b: Bar)
      requires Sound(State())
      modifies this
      ensures State() == Obey(old(State()), b, feed, rules)
    {
      if pos.Some? && b.exit.Some? {
        var p := feed.premium(legs[|legs| - 1].contract, Time(b, rules));
        CloseLeg(Signal, if p.Some? then p.value else b.exit.value, Time(b, rules), b.exit.value);
      }
    }

    method CloseAtPartialTarget(b: Bar)
      requires Sound(State())
      modifies this
      ensures State() == TakePart(old(State()), b, feed, rules)
    {
      if pos.Some? && rules.partialLots > 0 && !pos.value.partialTaken && pos.value.remaining > 0 {
        var p := feed.premium(legs[|legs| - 1].contract, Time(b, rules));
        if p.Some? && p.value <= Times(legs[|legs| - 1].premium, rules.partialFrac) {
          ClosePartial(p.value, Time(b, rules), b.close, Part(pos.value.remaining, rules));
        }
      }
    }

    method CloseAtTarget(b: Bar)
      requires Sound(State())
      modifies this
      ensures State() == TakeTarget(old(State()), b, feed, rules)
    {
      if pos.Some? && rules.targetFrac.Some? {
        var p := feed.premium(legs[|legs| - 1].contract, Time(b, rules));
        if p.Some? && p.value <= Times(legs[|legs| - 1].premium, rules.targetFrac.value) {
          CloseLeg(Target, p.value, Time(b, rules), b.close);
          if rules.blockToSession { blockedUntil := Some(b.nextSession); }
        }
      }
    }

    method OnCandle(b: Bar)
      requires Sound(State()) && rules.Ok()
      modifies this
      ensures State() == Step(old(State()), b, feed, rules)
    {
      EndDay(b);
      CloseExpired(b);
      CloseOnSignal(b);
      CloseAtPartialTarget(b);
      CloseAtTarget(b);
      EnterIfFlat(b);
    }

    method EnterIfFlat(b: Bar)
      requires Sound(State())
      modifies this
      ensures State() == Enter(old(State()), b, feed, rules)
    {
      var ts := Time(b, rules);
      var blocked := blockedUntil.Some? && ts < blockedUntil.value;
      if b.sell.None? || pos.Some? || b.start < rules.simStart || blocked { return; }
      var lots := if rules.Compounding() then currentLots else rules.lots;
      if lots <= 0 { return; }
      var o := feed.open(b.sell.value, ts, b.close);
      if o.Some? {
        var p := if rules.floor then Max(o.value.premium, Intrinsic(o.value.contract, b.close)) else o.value.premium;
        pos := Some(Position(lots, false));
        legs := legs + [Entry(ts, b.close, o.value.contract, p, o.value.expiry, lots)];
      }
    }

    method CloseAtEnd(b: Bar)
      requires Sound(State())
      modifies this
      ensures State() == CloseOpen(old(State()), b, feed, rules)
    {
      if pos.Some? {
        var p := feed.premium(legs[|legs| - 1].contract, Time(b, rules));
        CloseLeg(OpenAtEnd, if p.Some? then p.value else legs[|legs| - 1].premium, Time(b, rules), b.close);
      }
    }

    method RunAll(bars: seq<Bar>)
      requires rules.Ok() && State() == Start(rules)
      modifies this
      ensures State() == Finish(bars, feed, rules)
    {
      for i := 0 to |bars|
        invariant State() == Run(bars[..i], feed, rules)
      {
        RunNext(bars, i, feed, rules);
        OnCandle(bars[i]);
      }
      assert bars[..|bars|] == bars;
      if bars != [] { CloseAtEnd(bars[|bars| - 1]); }
    }
  }

  lemma RunNext(bars: seq<Bar>, i: nat, f: Feed, r: Rules)
    requires r.Ok() && i < |bars|
    ensures Run(bars[..i + 1], f, r) == Step(Run(bars[..i], f, r), bars[i], f, r)
  {
    assert bars[..i + 1][..i] == bars[..i];
  }
}
