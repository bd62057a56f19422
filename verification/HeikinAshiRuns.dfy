/** Whole runs of the Heikin-Ashi engine: what crashes, lost replies and blind queries can do. */
module HeikinAshiRuns {
  import opened Common
  import opened Exchange
  import opened HeikinAshiEngine
  import opened HeikinAshiSafety

  /** The run's `n`th event hid a live short, in the state it met. */
  ghost predicate MissesAt(lots: int, es: seq<Event>, n: nat)
    requires n < |es|
  {
    Misses(Run(Init(lots), es[..n]), es[n])
  }

  ghost predicate NothingMissed(lots: int, es: seq<Event>) {
    forall n | 0 <= n < |es| :: !MissesAt(lots, es, n)
  }

  lemma PrefixMisses(lots: int, es: seq<Event>, n: nat, k: nat)
    requires k < n <= |es|
    ensures MissesAt(lots, es[..n], k) <==> MissesAt(lots, es, k)
  {
    assert es[..n][..k] == es[..k];
  }

  lemma PrefixMissesNothing(lots: int, es: seq<Event>, n: nat)
    requires n <= |es| && forall k | 0 <= k < n :: !MissesAt(lots, es, k)
    ensures NothingMissed(lots, es[..n])
  {
    forall k | 0 <= k < n ensures !MissesAt(lots, es[..n], k) { PrefixMisses(lots, es, n, k); }
  }

  /** Safe after every prefix of the run. */
  ghost predicate SafeThroughout(lots: int, es: seq<Event>) {
    forall n | 0 <= n <= |es| :: Safe(Run(Init(lots), es[..n]))
  }

  lemma {:induction false} RunKeepsInv(lots: int, es: seq<Event>)
    requires lots > 0 && NothingMissed(lots, es)
    ensures Inv(Run(Init(lots), es))
  {
    if es != [] {
      var n := |es| - 1;
      PrefixMissesNothing(lots, es, n);
      RunKeepsInv(lots, es[..n]);
      assert !MissesAt(lots, es, n);
      StepKeepsInv(Run(Init(lots), es[..n]), es[n]);
    }
  }

  /** The step that misses a live short leaves it an orphan at once. */
  lemma MissedShortIsOrphaned(s: State, e: Event)
    requires Inv(s) && Misses(s, e)
    ensures !Safe(Step(s, e))
  {
    if e.Restart? { RestartOrphans(s, e.fetches, e.listing); } else { QueryOrphans(s, e); }
  }

  lemma RestartOrphans(s: State, fetches: seq<bool>, listing: seq<int>)
    requires RestartMisses(s.mem, fetches, listing)
    ensures !Safe(Step(s, Restart(fetches, listing)))
  {
    var s' := Step(s, Restart(fetches, listing));
    var p :| p in s.mem.book && !FileNames(s.mem.file, p);
    assert p in s'.mem.book && s'.mem.tracked != Some(p) && !InFlightFor(s', p);
  }

  lemma QueryOrphans(s: State, e: Event)
    requires Inv(s) && Misses(s, e) && e.RecoveryQuery?
    ensures Step(s, e) == s.(tasks := s.tasks[e.task := Announcing]) && !Safe(Step(s, e))
  {
    var s', p := Step(s, e), s.tasks[e.task].product;
    assert PcOk(s.mem, s.tasks[e.task]);
    assert p in s'.mem.book && s'.mem.tracked == None;
    forall t | t in s'.tasks ensures !InFlight(s'.tasks[t]) {
      if t != e.task { assert !Opening(s.tasks[t]); }
    }
  }

  /** From every state the guards can reach, a step is safe exactly when it misses no live short. */
  lemma StepIsSafeIff(s: State, e: Event)
    requires Inv(s)
    ensures Safe(Step(s, e)) <==> !Misses(s, e)
  {
    if Misses(s, e) {
      MissedShortIsOrphaned(s, e);
    } else {
      StepKeepsInv(s, e);
      InvIsSafe(Step(s, e));
    }
  }

  /** Short of a restart, the one step that ends safety is an untruthful position query after a lost
      reply, while the order it asks about is live; the bot then goes on as if nothing were open. */
  lemma OnlyRecoveryMisses(s: State, e: Event)
    requires Inv(s) && !e.Restart?
    ensures !Safe(Step(s, e)) <==>
            e.RecoveryQuery? && !e.truthful && e.task in s.tasks
            && s.tasks[e.task].Recovering? && s.tasks[e.task].product in s.mem.book
    ensures !Safe(Step(s, e)) ==> Step(s, e) == s.(tasks := s.tasks[e.task := Announcing])
  {
    StepIsSafeIff(s, e);
    if Misses(s, e) { QueryOrphans(s, e); }
  }

  /** The central claim, for every interleaving with crashes, lost replies and positions that
      vanish: the bot is safe after every prefix exactly when no position query after a lost reply was
      untruthful about a live order, and no restart went without both a fetch reporting the short and
      a state file naming it. */
  lemma SafeThroughoutIffNoShortMissed(lots: int, es: seq<Event>)
    requires lots > 0
    ensures SafeThroughout(lots, es) <==> NothingMissed(lots, es)
  {
    if NothingMissed(lots, es) {
      forall n | 0 <= n <= |es| ensures Safe(Run(Init(lots), es[..n])) {
        PrefixMissesNothing(lots, es, n);
        RunKeepsInv(lots, es[..n]);
        InvIsSafe(Run(Init(lots), es[..n]));
      }
    } else {
      var n := FirstMiss(lots, es);
      RunKeepsInv(lots, es[..n]);
      MissedShortIsOrphaned(Run(Init(lots), es[..n]), es[n]);
      RunNext(Init(lots), es, n);
      assert !Safe(Run(Init(lots), es[..n + 1]));
    }
  }

  lemma RunNext(s: State, es: seq<Event>, n: nat)
    requires n < |es|
    ensures Run(s, es[..n + 1]) == Step(Run(s, es[..n]), es[n])
  {
    assert es[..n + 1][..n] == es[..n];
  }

  lemma {:induction false} FirstMiss(lots: int, es: seq<Event>) returns (n: nat)
    requires !NothingMissed(lots, es)
    ensures n < |es| && MissesAt(lots, es, n) && NothingMissed(lots, es[..n])
  {
    var last := |es| - 1;
    if NothingMissed(lots, es[..last]) {
      n := last;
      forall k | 0 <= k < last ensures !MissesAt(lots, es, k) { PrefixMisses(lots, es, last, k); }
    } else {
      n := FirstMiss(lots, es[..last]);
      PrefixMisses(lots, es, last, n);
      assert es[..last][..n] == es[..n];
    }
  }

  /** An event that tells the truth: the query reports what is live, the first fetch gets through. */
  predicate Truthful(e: Event) {
    (e.RecoveryQuery? ==> e.truthful) && (e.Restart? ==> |e.fetches| > 0 && e.fetches[0])
  }

  /** On events alone: truthful queries and a first fetch that gets through on every restart make
      every interleaving safe, whatever replies are lost and wherever the bot crashes. */
  lemma TruthfulRunsAreSafe(lots: int, es: seq<Event>)
    requires lots > 0 && forall e <- es :: Truthful(e)
    ensures SafeThroughout(lots, es)
  {
    TruthfulRunsMissNothing(lots, es);
    SafeThroughoutIffNoShortMissed(lots, es);
  }

  lemma {:induction false} TruthfulRunsMissNothing(lots: int, es: seq<Event>)
    requires lots > 0 && forall e <- es :: Truthful(e)
    ensures NothingMissed(lots, es)
  {
    if es != [] {
      var last := |es| - 1;
      TruthfulRunsMissNothing(lots, es[..last]);
      RunKeepsInv(lots, es[..last]);
      TruthfulMissesNothing(Run(Init(lots), es[..last]), es[last]);
      forall k | 0 <= k < |es| ensures !MissesAt(lots, es, k) {
        if k < last { PrefixMisses(lots, es, last, k); }
      }
    }
  }

  lemma TruthfulMissesNothing(s: State, e: Event)
    requires Inv(s) && Truthful(e)
    ensures !Misses(s, e)
  {
    BookIsOneShort(s);
    if e.Restart? && ListsShorts(s.mem.book, e.listing) {
      assert FetchSees(s.mem.file.Some?, e.fetches, 0);
      assert forall p <- s.mem.book :: p in e.listing;
    }
  }

  /** Crash at any point of such a run, then restart: safe again exactly when the book is flat, a
      fetch got through, or the state file names the live short.  Otherwise the bot can only end up
      tracking a leg that is not there, which blocks entries but exposes nothing. */
  lemma RestartRecoversIff(s: State, fetches: seq<bool>, listing: seq<int>)
    requires Inv(s) && ListsShorts(s.mem.book, listing)
    ensures var s' := Step(s, Restart(fetches, listing));
      Safe(s') <==> s.mem.book == map[] || FetchSees(s.mem.file.Some?, fetches, 0)
                    || exists p <- s.mem.book :: FileNames(s.mem.file, p)
    ensures var s' := Step(s, Restart(fetches, listing));
      Safe(s') && s'.mem.tracked.Some? && s'.mem.tracked.value !in s'.mem.book
      ==> s'.mem.book == map[] && FileNames(s.mem.file, s'.mem.tracked.value)
  {
    StepIsSafeIff(s, Restart(fetches, listing));
    BookIsOneShort(s);
    if s.mem.book != map[] {
      var p :| p in s.mem.book;
      assert p in listing;
    }
  }

  // ---- what the guards do not prevent ----

  /** A premium is remembered but no leg is tracked: no entry can start. */
  predicate Stuck(m: Memory) { m.tracked.None? && m.premium.Some? }

  /** The entry price arrives for a leg that has been closed meanwhile. */
  predicate PricesGoneLeg(s: State, e: Event) {
    e.PriceFill? && e.task in s.tasks && s.tasks[e.task].Pricing? && s.mem.tracked.None?
  }

  ghost predicate GoneLegPricedAt(lots: int, es: seq<Event>, n: nat)
    requires n < |es|
  {
    PricesGoneLeg(Run(Init(lots), es[..n]), es[n])
  }

  /** Exactly one kind of step makes the engine stuck. */
  lemma StuckIffGoneLegIsPriced(s: State, e: Event)
    requires !Stuck(s.mem)
    ensures Stuck(Step(s, e).mem) <==> PricesGoneLeg(s, e)
  {
    if ForTask(e) && !e.Spawn? && e.task in s.tasks { ActSticksIff(s.mem, s.tasks[e.task], e); }
  }

  lemma ActSticksIff(m: Memory, pc: Pc, e: Event)
    requires !Stuck(m)
    ensures Stuck(Act(m, pc, e).mem) <==> e.PriceFill? && pc.Pricing? && m.tracked.None?
  {
  }

  ghost predicate StuckAt(lots: int, es: seq<Event>, n: nat)
    requires n <= |es|
  {
    Stuck(Run(Init(lots), es[..n]).mem)
  }

  lemma StuckNext(lots: int, es: seq<Event>, n: nat)
    requires n < |es| && !StuckAt(lots, es, n)
    ensures StuckAt(lots, es, n + 1) <==> GoneLegPricedAt(lots, es, n)
  {
    RunNext(Init(lots), es, n);
    StuckIffGoneLegIsPriced(Run(Init(lots), es[..n]), es[n]);
  }

  /** For every run: the engine is never stuck exactly when no entry price arrives after its leg was
      closed. */
  lemma NeverStuckIffNoGoneLegIsPriced(lots: int, es: seq<Event>)
    ensures (forall n | 0 <= n <= |es| :: !StuckAt(lots, es, n)) <==> (forall n | 0 <= n < |es| :: !GoneLegPricedAt(lots, es, n))
  {
    assert es[..0] == [];
    assert !StuckAt(lots, es, 0);
    var n := 0;
    while n < |es| && !GoneLegPricedAt(lots, es, n)
      invariant n <= |es| && forall k | 0 <= k < n :: !GoneLegPricedAt(lots, es, k)
      invariant forall k | 0 <= k <= n :: !StuckAt(lots, es, k)
    {
      StuckNext(lots, es, n);
      n := n + 1;
    }
    if n < |es| {
      StuckNext(lots, es, n);
      assert StuckAt(lots, es, n + 1);
    }
  }

  /** Stuck, and no task is left that could still track a leg. */
  ghost predicate Wedged(s: State) {
    && Stuck(s.mem) && !s.mem.entering
    && forall t :: t in s.tasks ==> s.tasks[t].Ready? || s.tasks[t].CloseAnnouncing?
  }

  /** A stuck engine has nothing live, and once the task that priced the leg is done it is wedged. */
  lemma StuckBecomesWedged(s: State)
    requires Inv(s) && Stuck(s.mem) && !s.mem.entering
    ensures Wedged(s) && s.mem.book == map[]
  {
    forall t | t in s.tasks ensures s.tasks[t].Ready? || s.tasks[t].CloseAnnouncing? {
      assert PcOk(s.mem, s.tasks[t]);
    }
  }

  /** In that state no later event short of a restart ever tracks a leg or grows the book; a reconnect,
      which is not an event of the model, is looked at below. */
  lemma {:induction false} WedgedUntilRestart(s: State, es: seq<Event>)
    requires Wedged(s) && forall e <- es :: !e.Restart?
    ensures Wedged(Run(s, es)) && Run(s, es).mem.book.Items <= s.mem.book.Items
  {
    if es != [] {
      WedgedUntilRestart(s, es[..|es| - 1]);
      WedgedStays(Run(s, es[..|es| - 1]), es[|es| - 1]);
    }
  }

  /** The reconcile made when the socket reconnects, taken as one step: memory is kept, and is wiped only
      when neither it nor the state file believes in a position. */
  function Reconnected(m: Memory, fetches: seq<bool>, listing: seq<int>): Memory
    requires ListsShorts(m.book, listing)
  {
    var believes := m.file.Some? || m.tracked.Some?;
    if listing != [] && FetchSees(believes, fetches, 0) then
      var named := m.file.Some? && m.file.value.symbol in listing;
      var p := if named then m.file.value.symbol else listing[0];
      assert p in listing;
      m.(tracked := Some(p), size := -m.book[p], premium := if named then Some(m.file.value.premium) else m.premium)
    else if believes then
      if m.tracked.None? && m.file.Some? && m.file.value.product.Some? then
        m.(tracked := m.file.value.product, size := m.file.value.size, premium := Some(m.file.value.premium))
      else m
    else m.(tracked := None, size := 0, premium := None, closing := false)
  }

  /** Of a wedge, a reconnect frees the engine exactly when no state file was written. */
  lemma ReconnectFreesIffNoFile(s: State, fetches: seq<bool>, listing: seq<int>)
    requires Inv(s) && Wedged(s) && ListsShorts(s.mem.book, listing)
    ensures var m := Reconnected(s.mem, fetches, listing); TryOpen(m).next.Some? <==> s.mem.file.None?
  {
    StuckBecomesWedged(s);
    if listing != [] { ListedIsLive(s.mem.book, listing, 0); }
  }

  lemma ListedIsLive(book: Book, listing: seq<int>, k: nat)
    requires ListsShorts(book, listing) && k < |listing|
    ensures listing[k] in book
  {
    var p := listing[k];
    assert p in listing;
    assert book[p] < 0;
  }

  lemma WedgedStays(s: State, e: Event)
    requires Wedged(s) && !e.Restart?
    ensures Wedged(Step(s, e)) && Step(s, e).mem.book.Items <= s.mem.book.Items
  {
    if ForTask(e) && !e.Spawn? && e.task in s.tasks {
      var pc := s.tasks[e.task];
      assert pc.Ready? || pc.CloseAnnouncing?;
    }
  }

  lemma RunSnoc(s: State, es: seq<Event>, e: Event)
    ensures Run(s, es + [e]) == Step(Run(s, es), e)
  {
    assert (es + [e])[..|es|] == es;
  }

  /** No request and no reply is lost or refused, no position vanishes, no file write fails, and the bot
      does not crash. */
  predicate Faultless(e: Event) {
    match e
    case ExchangeOrder(_, executes) => executes
    case OrderReply(_, arrives, _, saveOk) => arrives && saveOk
    case PriceFill(_, _, saveOk) => saveOk
    case ExchangeClose(_, reaches) => reaches
    case CloseReply(_, arrives, clearOk) => arrives && clearOk
    case SelectFails(_, _) | RecoveryQuery(_, _, _, _) | Vanish(_) | Restart(_, _) => false
    case _ => true
  }

  /** The wedge is reached without any fault of the exchange: an order fills without an average
      price, and the leg is closed while the engine asks for its entry price. */
  lemma WedgeIsReachable() returns (es: seq<Event>)
    ensures Wedged(Run(Init(1), es)) && SafeThroughout(1, es) && forall e <- es :: Faultless(e)
  {
    es := FillWithoutPrice();
    es := CloseWhilePricing(es);
    es := Play(es, PriceFill(0, 900.0, true));
    es := Play(es, AnnounceDone(0));
    PriceArrivesTooLate();
    LateAnnouncementEndsWedged();
    TruthfulRunsAreSafe(1, es);
  }

  const PRICED_LATE: State :=
    State(CLOSED.mem.(closing := false, premium := Some(900.0), file := Some(Saved(7, None, 1, 900.0))), map[0 := Announcing])

  lemma PriceArrivesTooLate()
    ensures Step(Step(CLOSED, CloseDone(1, false)), PriceFill(0, 900.0, true)) == PRICED_LATE
  {
    assert Step(CLOSED, CloseDone(1, false)) == State(CLOSED.mem.(closing := false), map[0 := Pricing(7)]);
  }

  lemma LateAnnouncementEndsWedged()
    ensures Wedged(Step(PRICED_LATE, AnnounceDone(0)))
  {
  }

  const UNPRICED: State := State(Memory(1, map[7 := -1], Some(7), 1, true, false, None, None), map[0 := Pricing(7)])

  const ORDERED: State :=
    State(Memory(1, map[7 := -1], None, 0, true, false, None, None), map[0 := OrderHandled(7, true)])

  /** An order for one lot of product 7 that the exchange executes. */
  lemma OrderExecutes() returns (es: seq<Event>)
    ensures Run(Init(1), es) == ORDERED && forall e <- es :: Faultless(e)
  {
    es := [Spawn(0, Forming)];
    assert Run(Init(1), []) == Init(1);
    RunSnoc(Init(1), [], Spawn(0, Forming));
    assert [] + [Spawn(0, Forming)] == es;
    es := Play(es, Body(0, false, true));
    es := Play(es, SendOrder(0, 7));
    es := Play(es, ExchangeOrder(0, true));
  }

  lemma FillWithoutPrice() returns (es: seq<Event>)
    ensures Run(Init(1), es) == UNPRICED && forall e <- es :: Faultless(e)
  {
    es := OrderExecutes();
    es := Play(es, OrderReply(0, true, None, true));
  }

  const CLOSE_SENT: State :=
    State(UNPRICED.mem.(closing := true), map[0 := Pricing(7), 1 := CloseSent(7, 1, false)])

  const CLOSED: State :=
    State(UNPRICED.mem.(book := map[], tracked := None, size := 0, closing := true),
          map[0 := Pricing(7), 1 := CloseAnnouncing(false)])

  lemma CloseIsSent()
    ensures Step(Step(UNPRICED, Spawn(1, Forming)), Body(1, true, false)) == CLOSE_SENT
  {
  }

  lemma CloseGoesThrough()
    ensures Step(Step(CLOSE_SENT, ExchangeClose(1, true)), CloseReply(1, true, true)) == CLOSED
  {
    assert BuyReduceOnly(CLOSE_SENT.mem.book, 7, 1) == map[];
  }

  lemma CloseWhilePricing(es0: seq<Event>) returns (es: seq<Event>)
    requires Run(Init(1), es0) == UNPRICED && forall e <- es0 :: Faultless(e)
    ensures Run(Init(1), es) == Step(CLOSED, CloseDone(1, false)) && forall e <- es :: Faultless(e)
  {
    CloseIsSent();
    CloseGoesThrough();
    es := Play(es0, Spawn(1, Forming));
    es := Play(es, Body(1, true, false));
    es := Play(es, ExchangeClose(1, true));
    es := Play(es, CloseReply(1, true, true));
    es := Play(es, CloseDone(1, false));
  }

  // ---- an orphaned short ----

  const RECOVERING: State := State(Memory(1, map[7 := -1], None, 0, true, false, None, None), map[0 := Recovering(7)])

  /** The short is live, nothing tracks it, and no task is left. */
  const ORPHANED: State := State(Memory(1, map[7 := -1], None, 0, false, false, None, None), map[])

  /** One order whose reply is lost and one query that fails are enough to orphan a short. */
  lemma OrphanIsReachable() returns (es: seq<Event>)
    ensures Run(Init(1), es) == ORPHANED
    ensures forall e <- es :: e.RecoveryQuery? || e.OrderReply? || Faultless(e)
  {
    var ordered := OrderExecutes();
    var lost, blind, done := OrderReply(0, false, None, true), RecoveryQuery(0, false, None, true), AnnounceDone(0);
    RunSnoc(Init(1), ordered, lost);
    RunSnoc(Init(1), ordered + [lost], blind);
    RunSnoc(Init(1), ordered + [lost] + [blind], done);
    es := ordered + [lost] + [blind] + [done];
    LostAndBlindOrphans();
  }

  lemma LostAndBlindOrphans()
    ensures Step(ORDERED, OrderReply(0, false, None, true)) == RECOVERING
    ensures Step(Step(RECOVERING, RecoveryQuery(0, false, None, true)), AnnounceDone(0)) == ORPHANED
  {
  }

  /** The engine is then free to open another. */
  lemma OrphanIsUnsafe()
    ensures !Safe(ORPHANED) && TryOpen(ORPHANED.mem).next.Some?
  {
    assert 7 in ORPHANED.mem.book && !InFlightFor(ORPHANED, 7);
  }

  lemma Play(es: seq<Event>, e: Event) returns (es': seq<Event>)
    requires Faultless(e) && forall f <- es :: Faultless(f)
    ensures es' == es + [e] && (forall f <- es' :: Faultless(f))
    ensures Run(Init(1), es') == Step(Run(Init(1), es), e)
  {
    RunSnoc(Init(1), es, e);
    es' := es + [e];
  }
}
