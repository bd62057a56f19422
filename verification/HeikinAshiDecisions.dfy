/** What the Heikin-Ashi engine does when it is told to act: exits close, entries open, and nothing else does. */
module HeikinAshiDecisions {
  import opened Common
  import opened Exchange
  import opened HeikinAshiEngine
  import opened HeikinAshiSafety

  /** The states met while `es` is played from `s`. */
  function After(s: State, es: seq<Event>, n: nat): State
    requires n <= |es|
  {
    Run(s, es[..n])
  }

  lemma AfterNext(s: State, es: seq<Event>, n: nat)
    requires n < |es|
    ensures After(s, es, n + 1) == Step(After(s, es, n), es[n])
  {
    assert es[..n + 1][..n] == es[..n];
  }

  lemma AfterFirst(s: State, es: seq<Event>)
    requires es != []
    ensures After(s, es, 1) == Run(s, [es[0]])
  {
    assert es[..1] == [es[0]];
  }

  // ---- what a handler starts ----

  /** A handler sends a buy-back exactly when a leg is tracked, no close is under way, and it was told to exit
      or squares off; the request is for the tracked product and size. */
  lemma HandlerClosesIff(s: State, t: nat, kind: Kind, exit: bool, entry: bool)
    requires t in s.tasks && s.tasks[t] == Ready(kind)
    ensures var s' := Run(s, [Body(t, exit, entry)]);
      && (t in s'.tasks && s'.tasks[t].CloseSent?
          <==> s.mem.tracked.Some? && !s.mem.closing && (exit || kind == SquareOff))
      && (t in s'.tasks && s'.tasks[t].CloseSent? ==>
            s'.tasks[t] == CloseSent(s.mem.tracked.value, s.mem.size, kind == ClosedBar)
            && s' == State(s.mem.(closing := true), s.tasks[t := s'.tasks[t]]))
  {
    RunOne(s, Body(t, exit, entry));
  }

  /** A handler starts opening exactly when it was told to enter, is not the square-off, and no leg is tracked,
      no premium remembered and no entry under way. */
  lemma HandlerOpensIff(s: State, t: nat, kind: Kind, exit: bool, entry: bool)
    requires t in s.tasks && s.tasks[t] == Ready(kind)
    ensures var s' := Run(s, [Body(t, exit, entry)]);
      && (t in s'.tasks && s'.tasks[t].Selecting?
          <==> entry && kind != SquareOff && s.mem.tracked.None? && s.mem.premium.None? && !s.mem.entering)
      && (t in s'.tasks && s'.tasks[t].Selecting? ==>
            s' == State(s.mem.(entering := true), s.tasks[t := Selecting]))
  {
    RunOne(s, Body(t, exit, entry));
  }

  /** And otherwise it ends, having changed nothing. */
  lemma HandlerElseEnds(s: State, t: nat, kind: Kind, exit: bool, entry: bool)
    requires t in s.tasks && s.tasks[t] == Ready(kind)
    ensures var s' := Run(s, [Body(t, exit, entry)]);
      t in s'.tasks ==> s'.tasks[t].CloseSent? || s'.tasks[t].Selecting?
    ensures var s' := Run(s, [Body(t, exit, entry)]);
      t !in s'.tasks ==> s' == State(s.mem, s.tasks - {t})
  {
    RunOne(s, Body(t, exit, entry));
  }

  lemma RunOne(s: State, e: Event)
    ensures Run(s, [e]) == Step(s, e)
  {
    assert [e][..0] == [];
    assert Run(s, []) == s;
  }

  // ---- told to exit ----

  /** The exit of task `t`, every request and reply arriving. */
  function ExitEvents(t: nat, exit: bool, entry: bool, again: bool): seq<Event> {
    [Body(t, exit, entry), ExchangeClose(t, true), CloseReply(t, true, true), CloseDone(t, again)]
  }

  lemma CloseReaches(s: State, t: nat, thenEntry: bool)
    requires Inv(s) && t in s.tasks && s.mem.tracked.Some?
    requires s.tasks[t] == CloseSent(s.mem.tracked.value, s.mem.size, thenEntry)
    ensures Step(s, ExchangeClose(t, true))
            == State(s.mem.(book := map[]), s.tasks[t := CloseHandled(s.mem.tracked.value, true, thenEntry)])
  {
    assert OnlyShort(s.mem, s.mem.tracked.value);
    assert BuyReduceOnly(s.mem.book, s.mem.tracked.value, s.mem.size) == map[];
  }

  /** From every state the guards can reach in which a leg is tracked and no close is under way, each of the
      three handlers, told to exit, closes the leg: the buy-back is for exactly the tracked product and size,
      and once it is answered the exchange holds nothing, nothing is tracked, no premium or file remains, and
      another close may start. */
  lemma ToldToExitCloses(s: State, t: nat, kind: Kind, exit: bool, entry: bool, again: bool)
    requires Inv(s) && t in s.tasks && s.tasks[t] == Ready(kind)
    requires s.mem.tracked.Some? && !s.mem.closing && (exit || kind == SquareOff)
    ensures var es := ExitEvents(t, exit, entry, again);
      var sent, done := After(s, es, 1), After(s, es, 4);
      && t in sent.tasks && sent.tasks[t] == CloseSent(s.mem.tracked.value, s.mem.size, kind == ClosedBar)
      && done.mem.book == map[] && done.mem.tracked.None? && done.mem.premium.None? && done.mem.file.None?
      && !done.mem.closing
  {
    var es := ExitEvents(t, exit, entry, again);
    var sent := After(s, es, 1);
    AfterFirst(s, es);
    HandlerClosesIff(s, t, kind, exit, entry);
    BodyKeepsInv(s, t, exit, entry);
    SentCloseEnds(s, es, sent, t, s.mem.tracked.value, sent.tasks[t].thenEntry, again);
  }

  lemma SentCloseEnds(s: State, es: seq<Event>, sent: State, t: nat, p: int, thenEntry: bool, again: bool)
    requires |es| == 4 && sent == After(s, es, 1) && Inv(sent) && t in sent.tasks && sent.mem.tracked == Some(p)
    requires es[1] == ExchangeClose(t, true) && es[2] == CloseReply(t, true, true) && es[3] == CloseDone(t, again)
    requires sent.tasks[t] == CloseSent(p, sent.mem.size, thenEntry)
    ensures var done := After(s, es, 4);
      && done.mem.book == map[] && done.mem.tracked.None? && done.mem.premium.None? && done.mem.file.None?
      && !done.mem.closing
  {
    AfterNext(s, es, 1);
    AfterNext(s, es, 2);
    AfterNext(s, es, 3);
    CloseReaches(sent, t, thenEntry);
    CloseEnds(After(s, es, 2), t, p, thenEntry, again);
  }

  lemma BodyKeepsInv(s: State, t: nat, exit: bool, entry: bool)
    requires Inv(s)
    ensures Inv(Run(s, [Body(t, exit, entry)]))
  {
    RunOne(s, Body(t, exit, entry));
    StepKeepsInv(s, Body(t, exit, entry));
  }

  lemma CloseEnds(s: State, t: nat, p: int, thenEntry: bool, again: bool)
    requires t in s.tasks && s.tasks[t] == CloseHandled(p, true, thenEntry) && s.mem.book == map[]
    ensures var done := Step(Step(s, CloseReply(t, true, true)), CloseDone(t, again));
      && done.mem.book == map[] && done.mem.tracked.None? && done.mem.premium.None? && done.mem.file.None?
      && !done.mem.closing
  {
  }

  /** When a close is over its guard comes down, and the task goes on to open exactly when it was a closed bar's,
      told to enter, and nothing is tracked, remembered or under way. */
  lemma ClosedBarGoesOnIff(s: State, t: nat, thenEntry: bool, entry: bool)
    requires t in s.tasks && s.tasks[t] == CloseAnnouncing(thenEntry)
    ensures var s' := Run(s, [CloseDone(t, entry)]);
      && !s'.mem.closing
      && (t in s'.tasks <==> thenEntry && entry && s.mem.tracked.None? && s.mem.premium.None? && !s.mem.entering)
      && (t in s'.tasks ==> s' == State(s.mem.(closing := false, entering := true), s.tasks[t := Selecting]))
  {
    RunOne(s, CloseDone(t, entry));
  }

  // ---- told to enter ----

  /** The entry of task `t` into `product`, filled at `price` and saved. */
  function EntryEvents(t: nat, exit: bool, product: int, price: real): seq<Event> {
    [Body(t, exit, true), SendOrder(t, product), ExchangeOrder(t, true), OrderReply(t, true, Some(price), true),
     AnnounceDone(t)]
  }

  /** From every state the guards can reach in which nothing is tracked, remembered or under way, a forming or
      closed bar told to enter opens the chosen product: once the order is answered, exactly the configured lots
      of it are short, tracked and remembered at their price, and the state file names them. */
  lemma ToldToEnterOpens(s: State, t: nat, kind: Kind, exit: bool, product: int, price: real)
    requires Inv(s) && t in s.tasks && s.tasks[t] == Ready(kind) && kind != SquareOff
    requires s.mem.tracked.None? && s.mem.premium.None? && !s.mem.entering
    ensures var done := After(s, EntryEvents(t, exit, product, price), 5);
      && done.mem.book == map[product := -s.mem.lots] && done.mem.tracked == Some(product)
      && done.mem.size == s.mem.lots && done.mem.premium == Some(price)
      && done.mem.file == Some(Saved(product, Some(product), s.mem.lots, price))
      && !done.mem.entering
  {
    var es := EntryEvents(t, exit, product, price);
    AfterFirst(s, es);
    HandlerOpensIff(s, t, kind, exit, true);
    assert s.mem.book == map[];
    SelectedOrderFills(s, es, After(s, es, 1), t, product, price);
  }

  lemma SelectedOrderFills(s: State, es: seq<Event>, selecting: State, t: nat, product: int, price: real)
    requires |es| == 5 && selecting == After(s, es, 1) && t in selecting.tasks && selecting.tasks[t] == Selecting
    requires es[1] == SendOrder(t, product) && es[2] == ExchangeOrder(t, true)
    requires es[3] == OrderReply(t, true, Some(price), true) && es[4] == AnnounceDone(t)
    requires selecting.mem.book == map[] && selecting.mem.lots > 0
    ensures After(s, es, 5).mem
            == selecting.mem.(book := map[product := -selecting.mem.lots], tracked := Some(product),
                              size := selecting.mem.lots, premium := Some(price),
                              file := Some(Saved(product, Some(product), selecting.mem.lots, price)), entering := false)
  {
    AfterNext(s, es, 1);
    AfterNext(s, es, 2);
    AfterNext(s, es, 3);
    AfterNext(s, es, 4);
    OrderFills(selecting, t, product, price);
  }

  lemma OrderFills(s: State, t: nat, product: int, price: real)
    requires t in s.tasks && s.tasks[t] == Selecting && s.mem.book == map[] && s.mem.lots > 0
    ensures var s3 := Step(Step(s, SendOrder(t, product)), ExchangeOrder(t, true));
      var done := Step(Step(s3, OrderReply(t, true, Some(price), true)), AnnounceDone(t));
      done.mem == s.mem.(book := map[product := -s.mem.lots], tracked := Some(product), size := s.mem.lots,
                         premium := Some(price), file := Some(Saved(product, Some(product), s.mem.lots, price)),
                         entering := false)
  {
    assert Sell(map[], product, s.mem.lots) == map[product := -s.mem.lots];
    var s3 := Step(Step(s, SendOrder(t, product)), ExchangeOrder(t, true));
    assert s3 == State(s.mem.(book := map[product := -s.mem.lots]), s.tasks[t := OrderHandled(product, true)]);
  }

  // ---- restart ----

  /** A reconcile sees the shorts exactly when one of its first three fetches does, and a bot that believes it
      owns nothing looks only once. */
  lemma FetchSeesIff(believes: bool, fetches: seq<bool>)
    ensures FetchSees(believes, fetches, 0)
            <==> exists i | 0 <= i < 3 && i < |fetches| :: fetches[i] && (i == 0 || believes)
  {
    assert FetchSees(believes, fetches, 3) == false;
    assert FetchSees(believes, fetches, 2) <==> 2 < |fetches| && fetches[2];
    assert FetchSees(believes, fetches, 1) <==> (1 < |fetches| && fetches[1]) || (2 < |fetches| && believes && fetches[2]);
  }

  /** After a restart that sees the one live short, it is tracked at its live size, and its premium is
      remembered exactly when the state file is about it. */
  lemma RestartTracksLiveShort(s: State, fetches: seq<bool>, listing: seq<int>, p: int)
    requires Inv(s) && ListsShorts(s.mem.book, listing) && p in s.mem.book
    requires FetchSees(s.mem.file.Some?, fetches, 0)
    ensures var m := Step(s, Restart(fetches, listing)).mem;
      && m.tracked == Some(p) && m.size == s.mem.lots && m.book == s.mem.book
      && m.premium == if s.mem.file.Some? && s.mem.file.value.symbol == p then Some(s.mem.file.value.premium) else None
  {
    BookIsOneShort(s);
    var q :| OnlyShort(s.mem, q);
    assert s.mem.book == map[p := -s.mem.lots];
    assert p in listing;
    var first := listing[0];
    assert first in listing;
    assert s.mem.book[first] < 0;
  }
}
