/** The weekly strangle backtest: a sold strangle, breakeven hedges while it is open, one close. */
module WeeklyHedge {
  import opened Common
  import opened OptionPricing
  import opened StranglePayoff

  datatype Rules = Rules(target: real, stop: real, floor: bool, noHedge: bool, exitInside: bool,
                         buffer: real, offsetPct: real, offset: real, otm: real, lots: int, lotSize: real)

  datatype Quote = Quote(strike: real, entry: real)

  /** What the data source answers: the latest premium of a contract, and the contract nearest a
      wanted strike (snapping included), each at a time. Both are arbitrary. */
  datatype Feed = Feed(premium: (Contract, int) -> Option<real>, resolve: (OptionType, real, int) -> Option<Quote>)

  /** One candle at its decision time; `cycle` carries the closing time of the cycle the calendar
      lets start here. */
  datatype Bar = Bar(ts: int, btc: real, cycle: Option<int>)

  datatype Reason = Expiry | Target | Stop | OpenAtEnd

  /** An open cycle. `hedged` points into `legs`. */
  datatype Cycle = Cycle(closeTs: int, entryBtc: real, combined: real, upper: real, lower: real,
                         legs: seq<Leg>, hedged: map<OptionType, nat>, ever: set<OptionType>)

  datatype Week = Week(legs: seq<Leg>, reason: Reason, exitTs: int, exitBtc: real,
                       soldNet: real, hedgeNet: real, net: real, cycle: Cycle)

  function PriceOf(leg: Leg, ts: int, btc: real, f: Feed, r: Rules): real {
    var p := f.premium(leg.contract, ts);
    var iv := Intrinsic(leg.contract, btc);
    if p.None? then iv else if r.floor then Max(p.value, iv) else p.value
  }

  function ExitNow(leg: Leg, b: Bar, f: Feed, r: Rules): Leg {
    leg.(exit := Some(Exit(PriceOf(leg, b.ts, b.btc, f, r), b.btc, b.ts)))
  }

  // ---- one cycle ----

  function Beyond(cy: Cycle, side: OptionType, btc: real): bool {
    if side == Call then btc > cy.upper else btc < cy.lower
  }

  function BackInside(cy: Cycle, side: OptionType, btc: real, r: Rules): bool {
    var buffer := Percent(btc, r.buffer);
    if side == Call then btc < cy.upper - buffer else btc > cy.lower + buffer
  }

  function HedgeStrike(cy: Cycle, side: OptionType, r: Rules): real {
    var offset := if r.offsetPct > 0.0 then Percent(cy.entryBtc, r.offsetPct) else r.offset;
    if side == Call then cy.upper + offset else cy.lower - offset
  }

  function HedgeLeg(side: OptionType, q: Quote, b: Bar, r: Rules): Leg {
    var c := Contract(side, q.strike);
    Leg(c, false, r.lots, if r.floor then Max(q.entry, Intrinsic(c, b.btc)) else q.entry, b.btc, None)
  }

  function AddHedge(cy: Cycle, leg: Leg): Cycle {
    var side := leg.contract.kind;
    cy.(legs := cy.legs + [leg], hedged := cy.hedged[side := |cy.legs|], ever := cy.ever + {side})
  }

  function ExitHedge(cy: Cycle, side: OptionType, x: Exit): Cycle
    requires side in cy.hedged && cy.hedged[side] < |cy.legs|
  {
    var i := cy.hedged[side];
    cy.(legs := cy.legs[i := cy.legs[i].(exit := Some(x))], hedged := cy.hedged - {side})
  }

  /** What one candle does to one side of an open cycle. */
  function Hedge(cy: Cycle, side: OptionType, b: Bar, f: Feed, r: Rules): Cycle
    requires side in cy.hedged ==> cy.hedged[side] < |cy.legs|
  {
    if r.exitInside && side in cy.hedged && BackInside(cy, side, b.btc, r) then
      ExitHedge(cy, side, Exit(PriceOf(cy.legs[cy.hedged[side]], b.ts, b.btc, f, r), b.btc, b.ts))
    else if Beyond(cy, side, b.btc) && side !in cy.hedged && (r.exitInside || side !in cy.ever) then
      var q := f.resolve(side, HedgeStrike(cy, side, r), b.ts);
      if q.None? then cy else AddHedge(cy, HedgeLeg(side, q.value, b, r))
    else cy
  }

  function Opened(b: Bar, closeTs: int, f: Feed, r: Rules): Option<Cycle> {
    var off := Percent(b.btc, r.otm);
    var ce, pe := f.resolve(Call, b.btc + off, b.ts), f.resolve(Put, b.btc - off, b.ts);
    if ce.None? || pe.None? then None
    else
      var p := ce.value.entry + pe.value.entry;
      Some(Cycle(closeTs, b.btc, p, ce.value.strike + p, pe.value.strike - p,
                 [Leg(Contract(Call, ce.value.strike), true, r.lots, ce.value.entry, b.btc, None),
                  Leg(Contract(Put, pe.value.strike), true, r.lots, pe.value.entry, b.btc, None)], map[], {}))
  }

  /** The reason, if any, for which a cycle closes on this candle. */
  function WhyClose(cy: Cycle, b: Bar, f: Feed, r: Rules): Option<Reason>
    requires |cy.legs| >= 2
  {
    var sold := PriceOf(cy.legs[0], b.ts, b.btc, f, r) + PriceOf(cy.legs[1], b.ts, b.btc, f, r);
    if b.ts >= cy.closeTs then Some(Expiry)
    else if r.target > 0.0 && sold <= Times(cy.combined, 1.0 - r.target / 100.0) then Some(Target)
    else if r.stop > 0.0 && sold >= Times(cy.combined, 1.0 + r.stop / 100.0) then Some(Stop)
    else None
  }

  // ---- what is kept while a cycle is open ----

  ghost predicate Live(leg: Leg, side: OptionType) { !leg.sell && leg.contract.kind == side && leg.exit.None? }

  /** The legs are the two sold options, never exited, and then the hedges, each bought beyond its
      breakeven and exited only back inside it. */
  ghost predicate LegsOk(cy: Cycle, r: Rules) {
    && |cy.legs| >= 2
    && (forall i | 0 <= i < 2 :: cy.legs[i].sell && cy.legs[i].exit.None?)
    && cy.legs[0].contract.kind == Call && cy.legs[1].contract.kind == Put
    && cy.combined == Combined(cy.legs[0], cy.legs[1])
    && cy.upper == Upper(cy.legs[0], cy.legs[1]) && cy.lower == Lower(cy.legs[0], cy.legs[1])
    && (forall i | 0 <= i < |cy.legs| :: cy.legs[i].lots == r.lots)
    && (forall i | 2 <= i < |cy.legs| :: HedgeOk(cy, cy.legs[i], r))
  }

  ghost predicate HedgeOk(cy: Cycle, leg: Leg, r: Rules) {
    && !leg.sell && Beyond(cy, leg.contract.kind, leg.entryBtc)
    && (leg.exit.Some? ==> r.exitInside && BackInside(cy, leg.contract.kind, leg.exit.value.btc, r))
  }

  /** `hedged[side]` is exactly the one hedge of that side that has not been exited. */
  ghost predicate HedgedIsTheLiveHedge(cy: Cycle) {
    && (forall side <- cy.hedged :: cy.hedged[side] < |cy.legs| && Live(cy.legs[cy.hedged[side]], side))
    && (forall i | 0 <= i < |cy.legs| && !cy.legs[i].sell && cy.legs[i].exit.None? ::
          cy.legs[i].contract.kind in cy.hedged && cy.hedged[cy.legs[i].contract.kind] == i)
  }

  ghost predicate EverIsEverHedged(cy: Cycle) {
    && (forall i | 0 <= i < |cy.legs| && !cy.legs[i].sell :: cy.legs[i].contract.kind in cy.ever)
    && (forall side <- cy.ever :: HasHedge(cy.legs, side))
  }

  ghost predicate HasHedge(legs: seq<Leg>, side: OptionType) {
    exists i | 0 <= i < |legs| :: !legs[i].sell && legs[i].contract.kind == side
  }

  /** Each side is hedged at most once. */
  ghost predicate OneHedgePerSide(legs: seq<Leg>) {
    forall i, j | 0 <= i < j < |legs| && !legs[i].sell && !legs[j].sell :: legs[i].contract.kind != legs[j].contract.kind
  }

  ghost predicate CycleOk(cy: Cycle, r: Rules) {
    && LegsOk(cy, r)
    && HedgedIsTheLiveHedge(cy)
    && EverIsEverHedged(cy)
    && (!r.exitInside ==> OneHedgePerSide(cy.legs) && cy.hedged.Keys == cy.ever)
  }

  /** Legs are only ever added, and a leg only ever goes from open to exited: no exit is rewritten. */
  ghost predicate Grows(before: seq<Leg>, after: seq<Leg>) {
    && |before| <= |after|
    && forall i | 0 <= i < |before| :: after[i] == before[i]
                                       || (before[i].exit.None? && after[i] == before[i].(exit := after[i].exit))
  }

  lemma OpenedIsOk(b: Bar, closeTs: int, f: Feed, r: Rules)
    ensures Opened(b, closeTs, f, r).Some? ==> CycleOk(Opened(b, closeTs, f, r).value, r)
  {
  }

  lemma AddKeepsLegs(cy: Cycle, leg: Leg, r: Rules)
    requires LegsOk(cy, r) && HedgeOk(cy, leg, r) && leg.lots == r.lots
    ensures LegsOk(AddHedge(cy, leg), r) && Grows(cy.legs, AddHedge(cy, leg).legs)
  {
    var next := AddHedge(cy, leg);
    forall i | 2 <= i < |next.legs| ensures HedgeOk(next, next.legs[i], r) {
      assert i < |cy.legs| ==> HedgeOk(cy, cy.legs[i], r);
    }
  }

  lemma AddKeepsIndex(cy: Cycle, leg: Leg)
    requires HedgedIsTheLiveHedge(cy) && Live(leg, leg.contract.kind) && leg.contract.kind !in cy.hedged
    ensures HedgedIsTheLiveHedge(AddHedge(cy, leg))
  {
  }

  lemma AddKeepsEver(cy: Cycle, leg: Leg)
    requires EverIsEverHedged(cy) && !leg.sell
    ensures EverIsEverHedged(AddHedge(cy, leg))
    ensures OneHedgePerSide(cy.legs) && leg.contract.kind !in cy.ever ==> OneHedgePerSide(AddHedge(cy, leg).legs)
  {
    var next := AddHedge(cy, leg);
    forall s <- next.ever ensures HasHedge(next.legs, s) {
      var i :| 0 <= i < |next.legs| && !next.legs[i].sell && next.legs[i].contract.kind == s by {
        if s in cy.ever {
          var k :| 0 <= k < |cy.legs| && !cy.legs[k].sell && cy.legs[k].contract.kind == s;
          assert next.legs[k] == cy.legs[k];
        } else {
          assert next.legs[|cy.legs|] == leg;
        }
      }
    }
  }

  lemma ExitKeepsLegs(cy: Cycle, side: OptionType, x: Exit, r: Rules)
    requires LegsOk(cy, r) && HedgedIsTheLiveHedge(cy) && side in cy.hedged
    requires r.exitInside && BackInside(cy, side, x.btc, r)
    ensures LegsOk(ExitHedge(cy, side, x), r) && Grows(cy.legs, ExitHedge(cy, side, x).legs)
  {
    var next := ExitHedge(cy, side, x);
    forall i | 2 <= i < |next.legs| ensures HedgeOk(next, next.legs[i], r) {
      assert HedgeOk(cy, cy.legs[i], r);
    }
  }

  lemma ExitKeepsIndex(cy: Cycle, side: OptionType, x: Exit)
    requires HedgedIsTheLiveHedge(cy) && EverIsEverHedged(cy) && side in cy.hedged
    ensures HedgedIsTheLiveHedge(ExitHedge(cy, side, x)) && EverIsEverHedged(ExitHedge(cy, side, x))
  {
    var next := ExitHedge(cy, side, x);
    forall s <- next.ever ensures HasHedge(next.legs, s) {
      var i :| 0 <= i < |cy.legs| && !cy.legs[i].sell && cy.legs[i].contract.kind == s;
      assert !next.legs[i].sell && next.legs[i].contract.kind == s;
    }
  }

  lemma AddKeepsOk(cy: Cycle, leg: Leg, r: Rules)
    requires CycleOk(cy, r) && HedgeOk(cy, leg, r) && leg.lots == r.lots && leg.exit.None?
    requires leg.contract.kind !in cy.hedged && (r.exitInside || leg.contract.kind !in cy.ever)
    ensures CycleOk(AddHedge(cy, leg), r) && Grows(cy.legs, AddHedge(cy, leg).legs)
  {
    AddKeepsLegs(cy, leg, r);
    AddKeepsIndex(cy, leg);
    AddKeepsEver(cy, leg);
  }

  lemma ExitKeepsOk(cy: Cycle, side: OptionType, x: Exit, r: Rules)
    requires CycleOk(cy, r) && side in cy.hedged && r.exitInside && BackInside(cy, side, x.btc, r)
    ensures CycleOk(ExitHedge(cy, side, x), r) && Grows(cy.legs, ExitHedge(cy, side, x).legs)
  {
    ExitKeepsLegs(cy, side, x, r);
    ExitKeepsIndex(cy, side, x);
  }

  lemma HedgeKeepsOk(cy: Cycle, side: OptionType, b: Bar, f: Feed, r: Rules)
    requires CycleOk(cy, r)
    ensures CycleOk(Hedge(cy, side, b, f, r), r) && Grows(cy.legs, Hedge(cy, side, b, f, r).legs)
  {
    if r.exitInside && side in cy.hedged && BackInside(cy, side, b.btc, r) {
      ExitKeepsOk(cy, side, Exit(PriceOf(cy.legs[cy.hedged[side]], b.ts, b.btc, f, r), b.btc, b.ts), r);
    } else if Beyond(cy, side, b.btc) && side !in cy.hedged && (r.exitInside || side !in cy.ever) {
      var q := f.resolve(side, HedgeStrike(cy, side, r), b.ts);
      if q.Some? { AddKeepsOk(cy, HedgeLeg(side, q.value, b, r), r); }
    }
  }

  // ---- closing a cycle ----

  function Exited(legs: seq<Leg>, b: Bar, f: Feed, r: Rules): (out: seq<Leg>)
    ensures |out| == |legs| && Grows(legs, out)
    ensures forall i | 0 <= i < |legs| :: out[i] == if legs[i].exit.Some? then legs[i] else ExitNow(legs[i], b, f, r)
  {
    seq(|legs|, i requires 0 <= i < |legs| => if legs[i].exit.Some? then legs[i] else ExitNow(legs[i], b, f, r))
  }

  function ClosedPnl(leg: Leg, lotSize: real): real {
    if leg.exit.Some? then Pnl(leg, leg.exit.value, lotSize) else 0.0
  }

  /** Profit of all legs together, and of the sold or the bought ones alone. */
  function Net(legs: seq<Leg>, lotSize: real): real {
    if legs == [] then 0.0 else Net(legs[..|legs| - 1], lotSize) + ClosedPnl(legs[|legs| - 1], lotSize)
  }

  function NetOf(legs: seq<Leg>, sell: bool, lotSize: real): real {
    if legs == [] then 0.0
    else
      var last := legs[|legs| - 1];
      NetOf(legs[..|legs| - 1], sell, lotSize) + if last.sell == sell then ClosedPnl(last, lotSize) else 0.0
  }

  lemma NetOfNext(legs: seq<Leg>, i: nat, sell: bool, lotSize: real)
    requires i < |legs|
    ensures NetOf(legs[..i + 1], sell, lotSize)
            == NetOf(legs[..i], sell, lotSize) + if legs[i].sell == sell then ClosedPnl(legs[i], lotSize) else 0.0
  {
    assert legs[..i + 1][..i] == legs[..i];
  }

  lemma {:induction false} SoldAndHedgeMakeNet(legs: seq<Leg>, lotSize: real)
    ensures NetOf(legs, true, lotSize) + NetOf(legs, false, lotSize) == Net(legs, lotSize)
  {
    if legs != [] { SoldAndHedgeMakeNet(legs[..|legs| - 1], lotSize); }
  }

  /** A finished week: every leg of the cycle has exactly one exit, exits booked earlier are kept,
      and the net is the sum of the legs' profits. */
  ghost predicate WeekOk(w: Week, r: Rules) {
    && CycleOk(w.cycle, r)
    && |w.legs| == |w.cycle.legs| && Grows(w.cycle.legs, w.legs)
    && (forall i | 0 <= i < |w.legs| :: w.legs[i].exit.Some?)
    && (forall i | 0 <= i < |w.legs| && w.cycle.legs[i].exit.None? ::
          w.legs[i].exit.value.btc == w.exitBtc && w.legs[i].exit.value.time == w.exitTs)
    && (!r.exitInside ==> OneHedgePerSide(w.legs) && |w.legs| <= 4)
    && w.net == Net(w.legs, r.lotSize) && w.net == w.soldNet + w.hedgeNet
    && w.soldNet == NetOf(w.legs, true, r.lotSize)
  }

  /** With one hedge per side there are at most two hedges. */
  lemma AtMostFourLegs(cy: Cycle, r: Rules)
    requires CycleOk(cy, r) && !r.exitInside
    ensures |cy.legs| <= 4
  {
    assert forall i | 2 <= i < |cy.legs| :: HedgeOk(cy, cy.legs[i], r) && !cy.legs[i].sell;
    assert 4 < |cy.legs| ==> cy.legs[2].contract.kind != cy.legs[3].contract.kind;
    assert 4 < |cy.legs| ==> cy.legs[2].contract.kind != cy.legs[4].contract.kind;
  }

  function Settle(cy: Cycle, b: Bar, reason: Reason, f: Feed, r: Rules): Week {
    var legs := Exited(cy.legs, b, f, r);
    var sold, hedge := NetOf(legs, true, r.lotSize), NetOf(legs, false, r.lotSize);
    Week(legs, reason, b.ts, b.btc, sold, hedge, sold + hedge, cy)
  }

  lemma ExitedKeepsHedges(legs: seq<Leg>, b: Bar, f: Feed, r: Rules)
    requires OneHedgePerSide(legs)
    ensures OneHedgePerSide(Exited(legs, b, f, r))
  {
    var out := Exited(legs, b, f, r);
    forall i | 0 <= i < |legs| ensures out[i].sell == legs[i].sell && out[i].contract == legs[i].contract {}
  }

  lemma SettleIsOk(cy: Cycle, b: Bar, reason: Reason, f: Feed, r: Rules)
    requires CycleOk(cy, r)
    ensures WeekOk(Settle(cy, b, reason, f, r), r)
  {
    var w := Settle(cy, b, reason, f, r);
    SoldAndHedgeMakeNet(w.legs, r.lotSize);
    if !r.exitInside {
      AtMostFourLegs(cy, r);
      ExitedKeepsHedges(cy.legs, b, f, r);
    }
  }

  // ---- the candle loop ----

  ghost predicate Sound(pos: Option<Cycle>, r: Rules) { pos.Some? ==> CycleOk(pos.value, r) }

  /** What one candle does to the open cycle: the week it closes, if any, and the cycle left open. */
  function Step(pos: Option<Cycle>, b: Bar, f: Feed, r: Rules): (s: (Option<Week>, Option<Cycle>))
    requires Sound(pos, r)
  {
    var why := if pos.Some? then WhyClose(pos.value, b, f, r) else None;
    var week := if why.Some? then Some(Settle(pos.value, b, why.value, f, r)) else None;
    var kept :=
      if pos.None? || why.Some? then None
      else if r.noHedge then pos
      else Some(Hedge(Hedge(pos.value, Call, b, f, r), Put, b, f, r));
    (week, if kept.None? && b.cycle.Some? then Opened(b, b.cycle.value, f, r) else kept)
  }

  lemma StepKeepsSound(pos: Option<Cycle>, b: Bar, f: Feed, r: Rules)
    requires Sound(pos, r)
    ensures Sound(Step(pos, b, f, r).1, r)
    ensures Step(pos, b, f, r).0.Some? ==> WeekOk(Step(pos, b, f, r).0.value, r) && Step(pos, b, f, r).0.value.cycle == pos.value
  {
    if pos.Some? {
      HedgeKeepsOk(pos.value, Call, b, f, r);
      HedgeKeepsOk(Hedge(pos.value, Call, b, f, r), Put, b, f, r);
      var why := WhyClose(pos.value, b, f, r);
      if why.Some? { SettleIsOk(pos.value, b, why.value, f, r); }
    }
    if b.cycle.Some? { OpenedIsOk(b, b.cycle.value, f, r); }
  }

  /** The weeks closed and the cycle left open by a stream of candles. Whatever the candles, quotes
      and calendar, what is open and what was closed are in order. */
  function After(bars: seq<Bar>, f: Feed, r: Rules): (s: (seq<Week>, Option<Cycle>))
    ensures Sound(s.1, r)
    ensures forall i | 0 <= i < |s.0| :: WeekOk(s.0[i], r)
  {
    if bars == [] then ([], None)
    else
      var before := After(bars[..|bars| - 1], f, r);
      StepKeepsSound(before.1, bars[|bars| - 1], f, r);
      var step := Step(before.1, bars[|bars| - 1], f, r);
      (before.0 + Listed(step.0), step.1)
  }

  lemma AfterNext(bars: seq<Bar>, i: nat, f: Feed, r: Rules)
    requires i < |bars|
    ensures After(bars[..i + 1], f, r).0
            == After(bars[..i], f, r).0 + Listed(Step(After(bars[..i], f, r).1, bars[i], f, r).0)
    ensures After(bars[..i + 1], f, r).1 == Step(After(bars[..i], f, r).1, bars[i], f, r).1
  {
    assert bars[..i + 1][..i] == bars[..i];
  }

  function Listed(w: Option<Week>): seq<Week> {
    if w.Some? then [w.value] else []
  }

  /** The weeks a whole run reports: those closed on a candle and the one still open at the end. */
  function Report(bars: seq<Bar>, f: Feed, r: Rules): (weeks: seq<Week>)
    ensures forall i | 0 <= i < |weeks| :: WeekOk(weeks[i], r)
  {
    var (closed, open) := After(bars, f, r);
    if bars == [] then closed
    else
      EndWeekIsOk(open, bars[|bars| - 1], f, r);
      closed + Listed(EndWeek(open, bars[|bars| - 1], f, r))
  }

  function EndWeek(open: Option<Cycle>, b: Bar, f: Feed, r: Rules): Option<Week> {
    if open.None? then None else Some(Settle(open.value, b, OpenAtEnd, f, r))
  }

  lemma EndWeekIsOk(open: Option<Cycle>, b: Bar, f: Feed, r: Rules)
    requires Sound(open, r)
    ensures EndWeek(open, b, f, r).Some? ==> WeekOk(EndWeek(open, b, f, r).value, r)
  {
    if open.Some? { SettleIsOk(open.value, b, OpenAtEnd, f, r); }
  }

  class WeeklyBacktest {
    const rules: Rules
    const feed: Feed
    var pos: Option<Cycle>
    var weeks: seq<Week>

    constructor (rules: Rules, feed: Feed)
      ensures this.rules == rules && this.feed == feed && pos == None && weeks == []
    {
      this.rules, this.feed, pos, weeks := rules, feed, None, [];
    }

    method Close(b: Bar, reason: Reason)
      requires pos.Some?
      modifies this
      ensures pos == None && weeks == old(weeks) + [Settle(old(pos).value, b, reason, feed, rules)]
    {
      var legs := pos.value.legs;
      var sold, hedge := 0.0, 0.0;
      ghost var out := Exited(legs, b, feed, rules);
      for i := 0 to |legs|
        invariant pos == old(pos) && weeks == old(weeks) && |legs| == |out|
        invariant forall k | 0 <= k < i :: legs[k] == out[k]
        invariant forall k | i <= k < |legs| :: legs[k] == pos.value.legs[k]
        invariant sold == NetOf(out[..i], true, rules.lotSize) && hedge == NetOf(out[..i], false, rules.lotSize)
      {
        if legs[i].exit.None? { legs := legs[i := ExitNow(legs[i], b, feed, rules)]; }
        NetOfNext(out, i, true, rules.lotSize);
        NetOfNext(out, i, false, rules.lotSize);
        var pnl := ClosedPnl(legs[i], rules.lotSize);
        if legs[i].sell { sold := sold + pnl; } else { hedge := hedge + pnl; }
      }
      assert legs == out && out[..|legs|] == out;
      weeks := weeks + [Week(legs, reason, b.ts, b.btc, sold, hedge, sold + hedge, pos.value)];
      pos := None;
    }

    method HedgeSide(side: OptionType, b: Bar)
      requires pos.Some? && CycleOk(pos.value, rules)
      modifies this`pos
      ensures pos == Some(Hedge(old(pos).value, side, b, feed, rules)) && CycleOk(pos.value, rules)
    {
      var cy := pos.value;
      HedgeKeepsOk(cy, side, b, feed, rules);
      if rules.exitInside && side in cy.hedged && BackInside(cy, side, b.btc, rules) {
        var i := cy.hedged[side];
        var closed := ExitNow(cy.legs[i], b, feed, rules);
        pos := Some(cy.(legs := cy.legs[i := closed], hedged := cy.hedged - {side}));
        return;
      }
      if Beyond(cy, side, b.btc) && side !in cy.hedged && (rules.exitInside || side !in cy.ever) {
        var q := feed.resolve(side, HedgeStrike(cy, side, rules), b.ts);
        if q.Some? {
          var leg := HedgeLeg(side, q.value, b, rules);
          pos := Some(cy.(legs := cy.legs + [leg], hedged := cy.hedged[side := |cy.legs|], ever := cy.ever + {side}));
        }
      }
    }

    method OnCandle(b: Bar)
      requires Sound(pos, rules)
      modifies this
      ensures pos == Step(old(pos), b, feed, rules).1 && Sound(pos, rules)
      ensures weeks == old(weeks) + Listed(Step(old(pos), b, feed, rules).0)
    {
      StepKeepsSound(pos, b, feed, rules);
      if pos.Some? {
        var why := WhyClose(pos.value, b, feed, rules);
        if why.Some? {
          Close(b, why.value);
        } else if !rules.noHedge {
          HedgeSide(Call, b);
          HedgeSide(Put, b);
        }
      }
      if pos.None? && b.cycle.Some? { pos := Opened(b, b.cycle.value, feed, rules); }
    }

    method CloseAtEnd(b: Bar)
      modifies this
      ensures pos == None
      ensures weeks == old(weeks) + Listed(EndWeek(old(pos), b, feed, rules))
    {
      if pos.Some? { Close(b, OpenAtEnd); }
    }

    method Run(bars: seq<Bar>)
      requires pos == None
      modifies this
      ensures pos == None && weeks == old(weeks) + Report(bars, feed, rules)
    {
      for i := 0 to |bars|
        invariant pos == After(bars[..i], feed, rules).1
        invariant weeks == old(weeks) + After(bars[..i], feed, rules).0
      {
        AfterNext(bars, i, feed, rules);
        OnCandle(bars[i]);
      }
      assert bars[..|bars|] == bars;
      if bars != [] { CloseAtEnd(bars[|bars| - 1]); }
    }
  }

  // ---- the payoff of a finished week ----

  function Fees(legs: seq<Leg>, lotSize: real): real {
    if legs == [] then 0.0
    else
      var last := legs[|legs| - 1];
      Fees(legs[..|legs| - 1], lotSize)
      + SideFee(last.entryBtc, last.entry, last.lots, lotSize)
      + if last.exit.Some? then SideFee(last.exit.value.btc, last.exit.value.price, last.lots, lotSize) else 0.0
  }

  ghost predicate AtIntrinsic(leg: Leg, s: real) {
    leg.exit.Some? && leg.exit.value.price == Intrinsic(leg.contract, s)
  }

  lemma {:induction false} NetIsGrossLessFees(legs: seq<Leg>, s: real, lotSize: real)
    requires forall i | 0 <= i < |legs| :: AtIntrinsic(legs[i], s)
    ensures Net(legs, lotSize) == TotalGross(legs, s, lotSize) - Fees(legs, lotSize)
  {
    if legs != [] {
      NetIsGrossLessFees(legs[..|legs| - 1], s, lotSize);
      assert AtIntrinsic(legs[|legs| - 1], s);
    }
  }

  /** Hedge legs may have been bought in either order. */
  function CallHedge(w: Week): Leg
    requires |w.legs| == 4
  {
    if w.legs[2].contract.kind == Call then w.legs[2] else w.legs[3]
  }

  function PutHedge(w: Week): Leg
    requires |w.legs| == 4
  {
    if w.legs[2].contract.kind == Call then w.legs[3] else w.legs[2]
  }

  lemma HedgedWeekLegs(w: Week, r: Rules)
    requires WeekOk(w, r) && !r.exitInside && |w.legs| == 4
    requires w.legs[0].entry >= 0.0 && w.legs[1].entry >= 0.0
    ensures Strangle(w.legs[0], w.legs[1]) && Hedges(CallHedge(w), PutHedge(w))
    ensures forall i | 0 <= i < 4 :: w.legs[i].lots == r.lots
  {
    assert HedgeOk(w.cycle, w.cycle.legs[2], r) && HedgeOk(w.cycle, w.cycle.legs[3], r);
    assert w.legs[2].contract.kind != w.legs[3].contract.kind;
  }

  lemma HedgeOrderIsNeutral(w: Week, s: real, lots: int, lotSize: real)
    requires |w.legs| == 4 && forall i | 0 <= i < 4 :: w.legs[i].lots == lots
    ensures TotalGross(w.legs, s, lotSize) == TotalGross([w.legs[0], w.legs[1], CallHedge(w), PutHedge(w)], s, lotSize)
  {
    assert w.legs == [w.legs[0], w.legs[1], w.legs[2], w.legs[3]];
    SettledFour(w.legs[0], w.legs[1], w.legs[2], w.legs[3], s);
    SettledFour(w.legs[0], w.legs[1], CallHedge(w), PutHedge(w), s);
    GrossScalesUnits(w.legs, s, lots, lotSize);
    GrossScalesUnits([w.legs[0], w.legs[1], CallHedge(w), PutHedge(w)], s, lots, lotSize);
  }

  function HedgedFloor(w: Week, lots: int, lotSize: real): real
    requires |w.legs| == 4
  {
    -WorstLoss(w.legs[0], w.legs[1], CallHedge(w), PutHedge(w)) * (lots as real * lotSize)
  }

  lemma HedgedLegsLossIsBounded(w: Week, lots: int, lotSize: real)
    requires |w.legs| == 4 && lots >= 0 && lotSize >= 0.0
    requires Strangle(w.legs[0], w.legs[1]) && Hedges(CallHedge(w), PutHedge(w))
    requires w.legs[0].contract.strike >= w.legs[1].contract.strike
    requires forall i | 0 <= i < 4 :: w.legs[i].lots == lots
    ensures TotalGross(w.legs, w.exitBtc, lotSize) >= HedgedFloor(w, lots, lotSize)
  {
    HedgeOrderIsNeutral(w, w.exitBtc, lots, lotSize);
    HedgedMoneyLossIsBounded(w.legs[0], w.legs[1], CallHedge(w), PutHedge(w), w.exitBtc, lots, lotSize);
  }

  /** A reported week that hedged both sides once and settled at intrinsic cannot have lost more than
      the distance from a breakeven to its hedge strike, the hedges' cost and the fees. */
  lemma HedgedWeekLossIsBounded(w: Week, r: Rules)
    requires WeekOk(w, r) && !r.exitInside && |w.legs| == 4 && r.lots >= 0 && r.lotSize >= 0.0
    requires w.legs[0].entry >= 0.0 && w.legs[1].entry >= 0.0
    requires w.legs[0].contract.strike >= w.legs[1].contract.strike
    requires forall i | 0 <= i < 4 :: AtIntrinsic(w.legs[i], w.exitBtc)
    ensures w.net >= HedgedFloor(w, r.lots, r.lotSize) - Fees(w.legs, r.lotSize)
  {
    HedgedWeekLegs(w, r);
    NetIsGrossLessFees(w.legs, w.exitBtc, r.lotSize);
    HedgedLegsLossIsBounded(w, r.lots, r.lotSize);
  }
}
