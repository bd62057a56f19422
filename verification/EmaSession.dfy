/** Trading sessions of the 9PM EMA-side bot and the "one entry per session" bookkeeping.  Times are
    local (IST) seconds; a session is named by the day it starts on. */
module EmaSession {
  import opened Common

  const DAY := 86400

  /** Entry and exit times of day, and the bar length of the signal chart. */
  datatype Settings = Settings(entry: int, exit: int, bar: int)

  predicate Sane(c: Settings) { 0 <= c.entry < DAY && 0 <= c.exit < DAY && c.bar > 0 }

  /** The day on which the session that `now` could belong to starts. */
  function StartDay(c: Settings, now: int): int {
    if now >= now / DAY * DAY + c.entry then now / DAY else now / DAY - 1
  }

  function SessionStart(c: Settings, day: int): int { day * DAY + c.entry }

  function SessionEnd(c: Settings, day: int): int { (day + 1) * DAY + c.exit }

  predicate InSession(c: Settings, day: int, now: int) { SessionStart(c, day) <= now < SessionEnd(c, day) }

  /** `session_window`: the day of the active session, if any. */
  function SessionWindow(c: Settings, now: int): Option<int> {
    var day := StartDay(c, now);
    if InSession(c, day, now) then Some(day) else None
  }

  lemma StartDayMonotone(c: Settings, now: int, later: int)
    requires Sane(c) && now <= later
    ensures StartDay(c, now) <= StartDay(c, later)
  {
  }

  /** A session is reported exactly when some session contains `now`, and it is the latest of them. */
  lemma WindowIsLatestSession(c: Settings, now: int, day: int)
    requires Sane(c) && InSession(c, day, now)
    ensures SessionWindow(c, now).Some? && day <= SessionWindow(c, now).value
  {
  }

  /** Sessions never overlap exactly when the exit time of day is not after the entry time. */
  lemma SessionsDisjointIff(c: Settings)
    requires Sane(c)
    ensures (forall now, d, e :: InSession(c, d, now) && InSession(c, e, now) ==> d == e) <==> c.exit <= c.entry
  {
    if c.exit > c.entry {
      assert InSession(c, 0, DAY + c.entry) && InSession(c, 1, DAY + c.entry);
    }
  }

  // ---- the entry hunt ----

  /** How an entry attempt ends.  The last two leave an executed order without a session mark. */
  datatype Outcome =
    | Filled
    | MarginError
    | NotPlaced
    | Raised
    | RaisedAfterOrder        // the opener raised although the order executed
    | MarkPriceFailed         // filled without a price, and the mark-price fetch raised

  datatype Session = Session(open: bool, last: Option<int>, file: Option<int>, orders: seq<int>)

  datatype Event =
    | Hunt(now: int, signal: bool, blocked: bool, outcome: Outcome, saveOk: bool)
    | LegGone
    | Restart(stillLive: bool)

  function Mark(s: Session, day: int, saveOk: bool): Session {
    s.(last := Some(day), file := if saveOk then Some(day) else s.file)
  }

  function Enter(s: Session, day: int, outcome: Outcome, saveOk: bool): Session {
    match outcome
    case Filled => Mark(s.(open := true, orders := s.orders + [day]), day, saveOk)
    case MarginError => Mark(s, day, saveOk)
    case NotPlaced => s
    case Raised => s
    case RaisedAfterOrder => s.(orders := s.orders + [day])
    case MarkPriceFailed => s.(open := true, orders := s.orders + [day])
  }

  /** Whether a hunt gets as far as placing an order. */
  predicate Attempts(c: Settings, s: Session, e: Event) {
    e.Hunt? && e.signal && !e.blocked && !s.open
    && SessionWindow(c, e.now).Some? && s.last != SessionWindow(c, e.now)
    && InSession(c, SessionWindow(c, e.now).value, e.now - e.now % (if c.bar > 0 then c.bar else 1))
  }

  function Step(c: Settings, s: Session, e: Event): Session {
    match e
    case Hunt(now, _, _, outcome, saveOk) =>
      if Attempts(c, s, e) then Enter(s, SessionWindow(c, now).value, outcome, saveOk) else s
    case LegGone => s.(open := false)
    case Restart(stillLive) => Session(s.open && stillLive, s.file, s.file, s.orders)
  }

  function Run(c: Settings, es: seq<Event>): Session {
    if es == [] then Session(false, None, None, []) else Step(c, Run(c, es[..|es| - 1]), es[|es| - 1])
  }

  class EmaSide9pmEngine {
    const settings: Settings
    var hasOpenPosition: bool
    var lastTradedSession: Option<int>
    var sessionFile: Option<int>
    var entryInProgress: bool
    ghost var orders: seq<int>          // session of every order the exchange executed

    constructor (settings: Settings)
      ensures View() == Session(false, None, None, []) && !entryInProgress && this.settings == settings
    {
      this.settings := settings;
      hasOpenPosition, lastTradedSession, sessionFile, entryInProgress, orders := false, None, None, false, [];
    }

    ghost function View(): Session reads this { Session(hasOpenPosition, lastTradedSession, sessionFile, orders) }

    method MarkSessionTraded(day: int, saveOk: bool)
      modifies this`lastTradedSession, this`sessionFile
      ensures View() == Mark(old(View()), day, saveOk)
    {
      lastTradedSession := Some(day);
      if saveOk { sessionFile := Some(day); }
    }

    method HuntOnce(now: int, signal: bool, blocked: bool, outcome: Outcome, saveOk: bool)
      requires Sane(settings) && !entryInProgress
      modifies this
      ensures View() == Step(settings, old(View()), Hunt(now, signal, blocked, outcome, saveOk)) && !entryInProgress
    {
      if hasOpenPosition || entryInProgress { return; }
      var window := SessionWindow(settings, now);
      if window.None? { return; }
      var day := window.value;
      if lastTradedSession == Some(day) || blocked { return; }
      var boundary := now / settings.bar * settings.bar;
      assert boundary == now - now % settings.bar;
      if boundary < SessionStart(settings, day) || boundary >= SessionEnd(settings, day) { return; }
      if !signal { return; }
      EnterSession(day, outcome, saveOk);
    }

    method EnterSession(day: int, outcome: Outcome, saveOk: bool)
      modifies this
      ensures View() == Enter(old(View()), day, outcome, saveOk) && !entryInProgress
    {
      entryInProgress := true;
      match outcome {
        case MarginError => MarkSessionTraded(day, saveOk);
        case NotPlaced | Raised =>
        case RaisedAfterOrder => orders := orders + [day];
        case MarkPriceFailed => hasOpenPosition, orders := true, orders + [day];
        case Filled =>
          hasOpenPosition, orders := true, orders + [day];
          MarkSessionTraded(day, saveOk);
      }
      entryInProgress := false;
    }
  }

  // ---- when an order is placed ----

  /** If the hunt gets as far as an order, the exchange executes it. */
  predicate Executes(o: Outcome) { o == Filled || o == RaisedAfterOrder || o == MarkPriceFailed }

  /** `day` is the latest session containing `now`. */
  ghost predicate LatestSession(c: Settings, now: int, day: int) {
    && SessionStart(c, day) <= now < SessionEnd(c, day)
    && forall d :: SessionStart(c, d) <= now < SessionEnd(c, d) ==> d <= day
  }

  lemma WindowIs(c: Settings, now: int, day: int)
    requires Sane(c)
    ensures SessionWindow(c, now) == Some(day) <==> LatestSession(c, now, day)
  {
    if SessionWindow(c, now) == Some(day) {
      forall d | SessionStart(c, d) <= now < SessionEnd(c, d) ensures d <= day { WindowIsLatestSession(c, now, d); }
    }
    if LatestSession(c, now, day) {
      WindowIsLatestSession(c, now, day);
      var found := SessionWindow(c, now).value;
      assert SessionStart(c, found) <= now < SessionEnd(c, found);
    }
  }

  /** What must hold for a hunt to try an entry for `day`: a signal, nothing that blocks entries, no leg open,
      the time and its bar boundary inside the latest session, and that session not marked as traded. */
  ghost predicate TriesFor(c: Settings, s: Session, e: Event, day: int)
    requires c.bar > 0
  {
    && e.Hunt? && e.signal && !e.blocked && !s.open
    && LatestSession(c, e.now, day) && s.last != Some(day)
    && SessionStart(c, day) <= e.now / c.bar * c.bar < SessionEnd(c, day)
  }

  lemma TriesIff(c: Settings, s: Session, e: Event)
    requires Sane(c) && e.Hunt?
    ensures Attempts(c, s, e) ==> TriesFor(c, s, e, SessionWindow(c, e.now).value)
    ensures forall day | TriesFor(c, s, e, day) :: Attempts(c, s, e) && SessionWindow(c, e.now) == Some(day)
  {
    assert e.now / c.bar * c.bar == e.now - e.now % c.bar;
    forall day ensures SessionWindow(c, e.now) == Some(day) <==> LatestSession(c, e.now, day) { WindowIs(c, e.now, day); }
  }

  /** For every run: an event places an order exactly when it tries for some session and the exchange executes
      it, and the order is for that session; otherwise the orders stay as they are. */
  lemma OrderIsPlacedIff(c: Settings, es: seq<Event>, n: nat)
    requires Sane(c) && n < |es|
    ensures var s, after := Run(c, es[..n]), Run(c, es[..n + 1]);
      && (forall day | TriesFor(c, s, es[n], day) && Executes(es[n].outcome) :: after.orders == s.orders + [day])
      && ((forall day :: !(TriesFor(c, s, es[n], day) && Executes(es[n].outcome))) ==> after.orders == s.orders)
  {
    var s, e := Run(c, es[..n]), es[n];
    assert es[..n + 1][..n] == es[..n];
    assert Run(c, es[..n + 1]) == Step(c, s, e);
    if e.Hunt? { TriesIff(c, s, e); }
  }

  /** What else a try leaves: a leg is open exactly after an order the engine knows of, and the session is marked
      exactly after a fill or a margin error, in the file too if it can be written. A hunt that does not try
      changes nothing. */
  lemma TryOutcome(c: Settings, es: seq<Event>, n: nat)
    requires Sane(c) && n < |es| && es[n].Hunt?
    ensures var s, after, e := Run(c, es[..n]), Run(c, es[..n + 1]), es[n];
      && (forall day | TriesFor(c, s, e, day) ::
            var marks := e.outcome == Filled || e.outcome == MarginError;
            && after.open == (e.outcome == Filled || e.outcome == MarkPriceFailed)
            && after.last == (if marks then Some(day) else s.last)
            && after.file == if marks && e.saveOk then Some(day) else s.file)
      && ((forall day :: !TriesFor(c, s, e, day)) ==> after == s)
  {
    var s, e := Run(c, es[..n]), es[n];
    assert es[..n + 1][..n] == es[..n];
    assert Run(c, es[..n + 1]) == Step(c, s, e);
    TriesIff(c, s, e);
  }

  /** The run's `n`th event opens a leg the engine knows of. */
  ghost predicate OpensAt(c: Settings, es: seq<Event>, n: nat)
    requires c.bar > 0 && n < |es|
  {
    && (exists day :: TriesFor(c, Run(c, es[..n]), es[n], day))
    && (es[n].outcome == Filled || es[n].outcome == MarkPriceFailed)
  }

  predicate EndsLeg(e: Event) { e == LegGone || e == Restart(false) }

  ghost predicate OpenedAndKept(c: Settings, es: seq<Event>, n: nat)
    requires c.bar > 0 && n < |es|
  {
    OpensAt(c, es, n) && KeptAfter(es, n)
  }

  predicate KeptAfter(es: seq<Event>, n: nat) { forall k | n < k < |es| :: !EndsLeg(es[k]) }

  lemma OpensInPrefix(c: Settings, es: seq<Event>, m: nat, n: nat)
    requires Sane(c) && n < m <= |es|
    ensures OpensAt(c, es[..m], n) <==> OpensAt(c, es, n)
  {
    assert es[..m][..n] == es[..n];
  }

  /** For every run: a leg is open at its end exactly when some try opened one and neither the leg's going nor a
      restart that did not find it came after. */
  lemma {:induction false} LegIsOpenIff(c: Settings, es: seq<Event>)
    requires Sane(c)
    ensures Run(c, es).open <==> exists n | 0 <= n < |es| :: OpenedAndKept(c, es, n)
  {
    if es != [] {
      var last := |es| - 1;
      var front, e := es[..last], es[last];
      LegIsOpenIff(c, front);
      assert es[..last + 1] == es;
      if e.Hunt? { TryOutcome(c, es, last); }
      forall n | 0 <= n < last ensures OpenedAndKept(c, es, n) <==> OpenedAndKept(c, front, n) && !EndsLeg(e) {
        OpensInPrefix(c, es, last, n);
        KeptInPrefix(es, n);
      }
      OpenedLastOrBefore(c, es);
    }
  }

  lemma KeptInPrefix(es: seq<Event>, n: nat)
    requires n < |es| - 1
    ensures KeptAfter(es, n) <==> KeptAfter(es[..|es| - 1], n) && !EndsLeg(es[|es| - 1])
  {
    var front := es[..|es| - 1];
    forall k | 0 <= k < |front| ensures front[k] == es[k] {}
    if KeptAfter(es, n) {
      forall k | n < k < |front| ensures !EndsLeg(front[k]) { assert !EndsLeg(es[k]); }
    }
    if KeptAfter(front, n) && !EndsLeg(es[|es| - 1]) {
      forall k | n < k < |es| ensures !EndsLeg(es[k]) {
        if k < |front| { assert !EndsLeg(front[k]); }
      }
    }
  }

  lemma OpenedLastOrBefore(c: Settings, es: seq<Event>)
    requires Sane(c) && es != []
    ensures var last := |es| - 1;
      (exists n | 0 <= n < |es| :: OpenedAndKept(c, es, n))
      <==> OpensAt(c, es, last) || exists n | 0 <= n < last :: OpenedAndKept(c, es, n)
  {
    var last := |es| - 1;
    if OpensAt(c, es, last) { assert OpenedAndKept(c, es, last); }
  }

  /** A restart remembers the saved mark and nothing else of the marks; neither it nor a leg's going places or
      marks anything. */
  lemma OtherEvents(c: Settings, es: seq<Event>, n: nat)
    requires n < |es| && !es[n].Hunt?
    ensures var s, after := Run(c, es[..n]), Run(c, es[..n + 1]);
      && after.orders == s.orders && after.file == s.file
      && after.last == if es[n].Restart? then s.file else s.last
  {
    assert es[..n + 1][..n] == es[..n];
  }

  /** No order without a signal, none while entries are blocked, none while a leg is open. */
  lemma NoOrderWithoutSignal(c: Settings, es: seq<Event>, n: nat)
    requires Sane(c) && n < |es|
    requires Run(c, es[..n + 1]).orders != Run(c, es[..n]).orders
    ensures es[n].Hunt? && es[n].signal && !es[n].blocked && !Run(c, es[..n]).open
  {
    OrderIsPlacedIff(c, es, n);
    var day :| TriesFor(c, Run(c, es[..n]), es[n], day);
  }

  // ---- one order per session ----

  /** An executed order leaves its session marked, in memory and in the file. */
  predicate Marked(e: Event) {
    e.Hunt? && Executes(e.outcome) ==> e.outcome == Filled && e.saveOk
  }

  ghost predicate TimeOrdered(es: seq<Event>) {
    forall i, j | 0 <= i < j < |es| && es[i].Hunt? && es[j].Hunt? :: es[i].now <= es[j].now
  }

  /** Sessions of the orders strictly increase: no session has two. */
  ghost predicate Distinct(orders: seq<int>) {
    forall i, j | 0 <= i < j < |orders| :: orders[i] < orders[j]
  }

  predicate AtMost(a: Option<int>, b: Option<int>) { a.Some? ==> b.Some? && a.value <= b.value }

  /** No order is after the saved mark, which is not after the one in memory. */
  ghost predicate Orderly(s: Session) {
    && Distinct(s.orders)
    && AtMost(s.file, s.last)
    && (s.orders != [] ==> AtMost(Some(s.orders[|s.orders| - 1]), s.file))
  }

  lemma StepKeepsOrderly(c: Settings, s: Session, e: Event, now: int)
    requires Sane(c) && Orderly(s) && Marked(e) && (e.Hunt? ==> e.now == now)
    requires AtMost(s.last, Some(StartDay(c, now)))
    ensures Orderly(Step(c, s, e)) && AtMost(Step(c, s, e).last, Some(StartDay(c, now)))
  {
    if Attempts(c, s, e) {
      var day := StartDay(c, now);
      assert SessionWindow(c, now) == Some(day);
      assert s.orders != [] ==> s.orders[|s.orders| - 1] < day;
    }
  }

  lemma {:induction false} MarkedRunIsOrderly(c: Settings, es: seq<Event>, now: int)
    requires Sane(c) && TimeOrdered(es) && (forall e <- es :: Marked(e)) && forall e <- es :: e.Hunt? ==> e.now <= now
    ensures Orderly(Run(c, es)) && AtMost(Run(c, es).last, Some(StartDay(c, now)))
  {
    if es != [] {
      var front, e := es[..|es| - 1], es[|es| - 1];
      if e.Hunt? {
        forall f | f in front && f.Hunt? ensures f.now <= e.now {
          var i :| 0 <= i < |front| && front[i] == f;
          assert es[i] == f;
        }
        MarkedRunIsOrderly(c, front, e.now);
        StepKeepsOrderly(c, Run(c, front), e, e.now);
        StartDayMonotone(c, e.now, now);
      } else {
        MarkedRunIsOrderly(c, front, now);
        StepKeepsOrderly(c, Run(c, front), e, now);
      }
    }
  }

  lemma {:induction false} LatestHunt(es: seq<Event>) returns (now: int)
    ensures forall e <- es :: e.Hunt? ==> e.now <= now
  {
    now := 0;
    if es != [] {
      var last := es[|es| - 1];
      var before := LatestHunt(es[..|es| - 1]);
      now := if last.Hunt? && last.now > before then last.now else before;
      assert forall e <- es :: e == last || e in es[..|es| - 1];
    }
  }

  /** Over any run with non-decreasing time, restarts anywhere between hunts and legs closing at any
      moment, no two orders fall in the same session. */
  lemma OneOrderPerSession(c: Settings, es: seq<Event>)
    requires Sane(c) && TimeOrdered(es) && forall e <- es :: Marked(e)
    ensures Distinct(Run(c, es).orders)
  {
    var now := LatestHunt(es);
    MarkedRunIsOrderly(c, es, now);
  }

  // ---- when the mark is missing ----

  function BarOf(c: Settings, now: int): int
    requires c.bar > 0
  {
    now / c.bar
  }

  /** The hunt loop wakes once per bar, also after a restart: hunts fall in strictly later bars. */
  ghost predicate OncePerBar(c: Settings, es: seq<Event>)
    requires c.bar > 0
  {
    forall i, j | 0 <= i < j < |es| && es[i].Hunt? && es[j].Hunt? :: BarOf(c, es[i].now) < BarOf(c, es[j].now)
  }

  /** The first bar boundary after `now`. */
  function NextBoundary(c: Settings, now: int): int
    requires c.bar > 0
  {
    (BarOf(c, now) + 1) * c.bar
  }

  /** Until when `session_window` reports a session: its end, or the start of the next if that is earlier. */
  function ReportedUntil(c: Settings, day: int): int {
    if SessionStart(c, day + 1) < SessionEnd(c, day) then SessionStart(c, day + 1) else SessionEnd(c, day)
  }

  /** A later hunt can still meet the session: a bar boundary is left in it. */
  predicate BarLeft(c: Settings, now: int, day: int)
    requires c.bar > 0
  {
    NextBoundary(c, now) < ReportedUntil(c, day)
  }

  lemma ScaleMonotone(a: int, b: int, w: int)
    requires a <= b && w > 0
    ensures a * w <= b * w
  {
    assert (b - a) * w >= 0;
  }

  lemma QuotientIs(n: int, w: int, q: int)
    requires w > 0 && q * w <= n < q * w + w
    ensures n / w == q && n % w == n - q * w
  {
    var p := n / w;
    assert n == p * w + n % w;
    if p < q {
      ScaleMonotone(p + 1, q, w);
    } else if q < p {
      ScaleMonotone(q + 1, p, w);
    }
  }

  lemma BoundaryIsMultiple(c: Settings, now: int)
    requires c.bar > 0
    ensures now < NextBoundary(c, now) == now - now % c.bar + c.bar
    ensures BarOf(c, NextBoundary(c, now)) == BarOf(c, now) + 1 && NextBoundary(c, now) % c.bar == 0
  {
    var p := BarOf(c, now);
    assert now == p * c.bar + now % c.bar;
    assert (p + 1) * c.bar == p * c.bar + c.bar;
    QuotientIs((p + 1) * c.bar, c.bar, p + 1);
  }

  lemma LaterBarIsLater(c: Settings, now: int, later: int)
    requires c.bar > 0 && BarOf(c, now) < BarOf(c, later)
    ensures now < NextBoundary(c, now) <= later
  {
    BoundaryIsMultiple(c, now);
    assert later == BarOf(c, later) * c.bar + later % c.bar;
    ScaleMonotone(BarOf(c, now) + 1, BarOf(c, later), c.bar);
  }

  lemma OncePerBarIsOrdered(c: Settings, es: seq<Event>)
    requires c.bar > 0 && OncePerBar(c, es)
    ensures TimeOrdered(es)
  {
    forall i, j | 0 <= i < j < |es| && es[i].Hunt? && es[j].Hunt? ensures es[i].now <= es[j].now {
      LaterBarIsLater(c, es[i].now, es[j].now);
    }
  }

  lemma HuntsBefore(c: Settings, es: seq<Event>, e: Event)
    requires c.bar > 0 && e.Hunt? && OncePerBar(c, es + [e])
    ensures OncePerBar(c, es) && forall f <- es :: f.Hunt? ==> BarOf(c, f.now) < BarOf(c, e.now)
  {
    var all := es + [e];
    forall i | 0 <= i < |es| ensures all[i] == es[i] {}
    assert all[|es|] == e;
    forall f | f in es && f.Hunt? ensures BarOf(c, f.now) < BarOf(c, e.now) {
      var i :| 0 <= i < |es| && es[i] == f;
      assert all[i] == f;
    }
  }

  /** What a marked run leaves before a hunt that gets as far as an order. */
  lemma BeforeAttempt(c: Settings, es: seq<Event>, e: Event)
    requires Sane(c) && OncePerBar(c, es + [e]) && (forall f <- es :: Marked(f)) && Attempts(c, Run(c, es), e)
    ensures var s, day := Run(c, es), StartDay(c, e.now);
      && Orderly(s) && SessionWindow(c, e.now) == Some(day)
      && (s.last.Some? ==> s.last.value < day) && AtMost(s.file, s.last)
      && (s.orders != [] ==> s.orders[|s.orders| - 1] < day)
  {
    HuntsBefore(c, es, e);
    OncePerBarIsOrdered(c, es);
    forall f | f in es && f.Hunt? ensures f.now <= e.now { LaterBarIsLater(c, f.now, e.now); }
    MarkedRunIsOrderly(c, es, e.now);
  }

  /** What can follow an order: the leg goes, the bot restarts, and the signal is hunted again at the next
      bar boundary. */
  function Again(c: Settings, e: Event): seq<Event>
    requires c.bar > 0 && e.Hunt?
  {
    [LegGone, Restart(false), Hunt(NextBoundary(c, e.now), true, false, Filled, true)]
  }

  lemma NextBoundaryAttempts(c: Settings, s: Session, now: int, day: int)
    requires Sane(c) && SessionWindow(c, now) == Some(day) && BarLeft(c, now, day)
    requires !s.open && s.last != Some(day) && InSession(c, day, now - now % c.bar)
    ensures Attempts(c, s, Hunt(NextBoundary(c, now), true, false, Filled, true))
    ensures SessionWindow(c, NextBoundary(c, now)) == Some(day)
  {
    BoundaryIsMultiple(c, now);
    assert StartDay(c, NextBoundary(c, now)) == day;
  }

  /** While a bar is left in its session, an order whose mark was not written can be followed by a second
      one at the next bar. */
  lemma UnmarkedOrderRepeats(c: Settings, es: seq<Event>, e: Event)
    requires Sane(c) && OncePerBar(c, es + [e]) && forall f <- es :: Marked(f)
    requires Attempts(c, Run(c, es), e) && !Marked(e) && BarLeft(c, e.now, StartDay(c, e.now))
    ensures Run(c, es + [e] + Again(c, e)).orders == Run(c, es).orders + [StartDay(c, e.now), StartDay(c, e.now)]
  {
    var s, again, day := Run(c, es), Again(c, e), StartDay(c, e.now);
    BeforeAttempt(c, es, e);
    RunSnoc(c, es, e);
    RunSnoc(c, es + [e], again[0]);
    RunSnoc(c, es + [e] + [again[0]], again[1]);
    RunSnoc(c, es + [e] + [again[0]] + [again[1]], again[2]);
    assert es + [e] + again == es + [e] + [again[0]] + [again[1]] + [again[2]];
    UnmarkedStepRepeats(c, s, e);
  }

  lemma UnmarkedStepRepeats(c: Settings, s: Session, e: Event)
    requires Sane(c) && Attempts(c, s, e) && !Marked(e) && BarLeft(c, e.now, StartDay(c, e.now))
    requires SessionWindow(c, e.now) == Some(StartDay(c, e.now)) && s.file != Some(StartDay(c, e.now))
    ensures var r := Step(c, Step(c, Step(c, Step(c, s, e), LegGone), Restart(false)), Again(c, e)[2]);
      r.orders == s.orders + [StartDay(c, e.now), StartDay(c, e.now)]
  {
    var day := StartDay(c, e.now);
    var idle := Step(c, Step(c, Step(c, s, e), LegGone), Restart(false));
    assert idle == Session(false, s.file, s.file, s.orders + [day]);
    NextBoundaryAttempts(c, idle, e.now, day);
  }

  lemma RunSnoc(c: Settings, es: seq<Event>, e: Event)
    ensures Run(c, es + [e]) == Step(c, Run(c, es), e)
  {
    assert (es + [e])[..|es|] == es;
  }

  /** After an order of `day`, marked or not, once no bar of that session is left. */
  ghost predicate Past(s: Session, day: int) {
    && Distinct(s.orders)
    && AtMost(s.file, s.last)
    && s.orders != []
    && (s.orders[|s.orders| - 1] <= day || AtMost(Some(s.orders[|s.orders| - 1]), s.file))
  }

  lemma LaterBarIsAnotherSession(c: Settings, now: int, later: int)
    requires Sane(c) && SessionWindow(c, now).Some? && BarOf(c, now) < BarOf(c, later)
    requires !BarLeft(c, now, StartDay(c, now)) && SessionWindow(c, later).Some?
    ensures SessionWindow(c, later).value > StartDay(c, now)
  {
    LaterBarIsLater(c, now, later);
    StartDayMonotone(c, now, later);
  }

  lemma StepKeepsPast(c: Settings, s: Session, e: Event, now: int, later: int)
    requires Sane(c) && Past(s, StartDay(c, now)) && Marked(e) && AtMost(s.last, Some(StartDay(c, later)))
    requires SessionWindow(c, now).Some? && !BarLeft(c, now, StartDay(c, now))
    requires e.Hunt? ==> e.now == later && BarOf(c, now) < BarOf(c, later)
    ensures Past(Step(c, s, e), StartDay(c, now)) && AtMost(Step(c, s, e).last, Some(StartDay(c, later)))
  {
    if Attempts(c, s, e) { LaterBarIsAnotherSession(c, now, later); }
  }

  function RunFrom(c: Settings, s: Session, es: seq<Event>): Session {
    if es == [] then s else Step(c, RunFrom(c, s, es[..|es| - 1]), es[|es| - 1])
  }

  lemma {:induction false} RunGoesOn(c: Settings, es: seq<Event>, more: seq<Event>)
    ensures Run(c, es + more) == RunFrom(c, Run(c, es), more)
  {
    if more == [] {
      assert es + more == es;
    } else {
      var k := |more| - 1;
      RunGoesOn(c, es, more[..k]);
      assert es + more == es + more[..k] + [more[k]];
      RunSnoc(c, es + more[..k], more[k]);
    }
  }

  lemma {:induction false} LastBarOrderIsAlone(c: Settings, s: Session, now: int, more: seq<Event>, later: int)
    requires Sane(c) && SessionWindow(c, now).Some? && !BarLeft(c, now, StartDay(c, now))
    requires Past(s, StartDay(c, now)) && AtMost(s.last, Some(StartDay(c, now))) && now <= later
    requires OncePerBar(c, more) && (forall f <- more :: Marked(f))
    requires forall f <- more :: f.Hunt? ==> BarOf(c, now) < BarOf(c, f.now) && f.now <= later
    ensures Past(RunFrom(c, s, more), StartDay(c, now)) && AtMost(RunFrom(c, s, more).last, Some(StartDay(c, later)))
    decreases |more|
  {
    if more == [] {
      StartDayMonotone(c, now, later);
    } else {
      var front, f := more[..|more| - 1], more[|more| - 1];
      assert more == front + [f] && forall g <- front :: g in more;
      if f.Hunt? {
        HuntsBefore(c, front, f);
        LaterBarIsLater(c, now, f.now);
        forall g | g in front && g.Hunt? ensures g.now <= f.now { LaterBarIsLater(c, g.now, f.now); }
        LastBarOrderIsAlone(c, s, now, front, f.now);
        StepKeepsPast(c, RunFrom(c, s, front), f, now, f.now);
        StartDayMonotone(c, f.now, later);
      } else {
        LastBarOrderIsAlone(c, s, now, front, later);
        StepKeepsPast(c, RunFrom(c, s, front), f, now, later);
      }
    }
  }

  /** Splitting a run that hunts once per bar at one of its hunts. */
  lemma HuntsAfter(c: Settings, es: seq<Event>, e: Event, more: seq<Event>)
    requires c.bar > 0 && e.Hunt? && OncePerBar(c, es + [e] + more)
    ensures OncePerBar(c, es + [e]) && OncePerBar(c, more)
    ensures forall f <- more :: f.Hunt? ==> BarOf(c, e.now) < BarOf(c, f.now)
  {
    var all, n := es + [e] + more, |es| + 1;
    forall i | 0 <= i < n ensures all[i] == (es + [e])[i] {}
    forall i | 0 <= i < |more| ensures all[n + i] == more[i] {}
    assert all[|es|] == e;
    forall i, j | 0 <= i < j < |more| && more[i].Hunt? && more[j].Hunt? ensures BarOf(c, more[i].now) < BarOf(c, more[j].now) {
      assert all[n + i] == more[i] && all[n + j] == more[j];
    }
    forall f | f in more && f.Hunt? ensures BarOf(c, e.now) < BarOf(c, f.now) {
      var i :| 0 <= i < |more| && more[i] == f;
      assert all[n + i] == f;
    }
  }

  lemma AgainIsTimely(c: Settings, es: seq<Event>, e: Event)
    requires Sane(c) && e.Hunt? && OncePerBar(c, es + [e])
    ensures OncePerBar(c, es + [e] + Again(c, e)) && forall f <- Again(c, e) :: Marked(f)
  {
    var upto, again := es + [e], Again(c, e);
    var all := upto + again;
    HuntsBefore(c, es, e);
    BoundaryIsMultiple(c, e.now);
    forall i, j | 0 <= i < j < |all| && all[i].Hunt? && all[j].Hunt? ensures BarOf(c, all[i].now) < BarOf(c, all[j].now) {
      if j < |upto| {
        assert upto[i] == all[i] && upto[j] == all[j];
      } else {
        assert all[j] == again[2] && i < |upto|;
        assert all[i] == upto[i];
        assert i < |es| ==> upto[i] in es;
      }
    }
  }

  /** For every executed order a marked run can reach, hunting once per bar: all its marked continuations
      keep to one order a session exactly when that order's mark was written, or no bar is left in its
      session. */
  lemma SessionStaysSingleIff(c: Settings, es: seq<Event>, e: Event)
    requires Sane(c) && OncePerBar(c, es + [e]) && forall f <- es :: Marked(f)
    requires Attempts(c, Run(c, es), e) && Executes(e.outcome)
    ensures (forall more | OncePerBar(c, es + [e] + more) && (forall f <- more :: Marked(f)) ::
               Distinct(Run(c, es + [e] + more).orders))
            <==> (e.outcome == Filled && e.saveOk) || !BarLeft(c, e.now, StartDay(c, e.now))
  {
    if Marked(e) || !BarLeft(c, e.now, StartDay(c, e.now)) {
      forall more | OncePerBar(c, es + [e] + more) && (forall f <- more :: Marked(f))
        ensures Distinct(Run(c, es + [e] + more).orders)
      {
        ContinuationStaysSingle(c, es, e, more);
      }
    } else {
      AgainIsTimely(c, es, e);
      UnmarkedOrderRepeats(c, es, e);
      var orders, n := Run(c, es + [e] + Again(c, e)).orders, |Run(c, es).orders|;
      assert orders[n] == orders[n + 1];
      assert !Distinct(orders);
    }
  }

  lemma ContinuationStaysSingle(c: Settings, es: seq<Event>, e: Event, more: seq<Event>)
    requires Sane(c) && OncePerBar(c, es + [e] + more) && (forall f <- es :: Marked(f)) && forall f <- more :: Marked(f)
    requires Attempts(c, Run(c, es), e) && Executes(e.outcome)
    requires Marked(e) || !BarLeft(c, e.now, StartDay(c, e.now))
    ensures Distinct(Run(c, es + [e] + more).orders)
  {
    if Marked(e) {
      OncePerBarIsOrdered(c, es + [e] + more);
      OneOrderPerSession(c, es + [e] + more);
    } else {
      LastBarStaysSingle(c, es, e, more);
    }
  }

  lemma OrderLeavesPast(c: Settings, es: seq<Event>, e: Event)
    requires Sane(c) && OncePerBar(c, es + [e]) && (forall f <- es :: Marked(f))
    requires Attempts(c, Run(c, es), e) && Executes(e.outcome)
    ensures SessionWindow(c, e.now).Some?
    ensures Past(Run(c, es + [e]), StartDay(c, e.now)) && AtMost(Run(c, es + [e]).last, Some(StartDay(c, e.now)))
  {
    BeforeAttempt(c, es, e);
    RunSnoc(c, es, e);
    EnterLeavesPast(Run(c, es), StartDay(c, e.now), e.outcome, e.saveOk);
  }

  lemma EnterLeavesPast(s: Session, day: int, outcome: Outcome, saveOk: bool)
    requires Orderly(s) && Executes(outcome) && (s.last.Some? ==> s.last.value < day)
    requires s.orders != [] ==> s.orders[|s.orders| - 1] < day
    ensures Past(Enter(s, day, outcome, saveOk), day) && AtMost(Enter(s, day, outcome, saveOk).last, Some(day))
  {
  }

  lemma LastBarStaysSingle(c: Settings, es: seq<Event>, e: Event, more: seq<Event>)
    requires Sane(c) && OncePerBar(c, es + [e] + more) && (forall f <- es :: Marked(f)) && forall f <- more :: Marked(f)
    requires Attempts(c, Run(c, es), e) && Executes(e.outcome) && !BarLeft(c, e.now, StartDay(c, e.now))
    ensures Distinct(Run(c, es + [e] + more).orders)
  {
    HuntsAfter(c, es, e, more);
    OrderLeavesPast(c, es, e);
    RunGoesOn(c, es + [e], more);
    var latest := LatestHunt(more);
    var later := if latest < e.now then e.now else latest;
    LastBarOrderIsAlone(c, Run(c, es + [e]), e.now, more, later);
  }
}
