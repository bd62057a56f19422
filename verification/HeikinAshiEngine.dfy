/**
 The live Heikin-Ashi engine as a transition system.  Every asyncio task is one program counter;
 a step runs one task from an `await` to the next, or lets the exchange act on a request in
 flight.  All choices of the strategy, the clock, the network and the exchange are carried by the
 event, so a sequence of events is one interleaving.
 */
module HeikinAshiEngine {
  import opened Common
  import opened Exchange

  datatype Kind = Forming | ClosedBar | SquareOff

  /** Where a task is suspended.  `thenEntry` marks a close made by the closed-candle handler,
      which goes on to its entry check once the close is over. */
  datatype Pc =
    | Ready(kind: Kind)
    | Selecting
    | OrderSent(product: int)
    | OrderHandled(product: int, executed: bool)
    | Recovering(product: int)
    | Pricing(product: int)
    | Announcing
    | CloseSent(product: int, size: int, thenEntry: bool)
    | CloseHandled(product: int, reached: bool, thenEntry: bool)
    | CloseAnnouncing(thenEntry: bool)

  /** The persisted state file. The product is absent when it was written after the leg had gone. */
  datatype Saved = Saved(symbol: int, product: Option<int>, size: int, premium: real)

  /** Everything the tasks share, and the exchange. */
  datatype Memory = Memory(
    lots: int,                  // settings.option_contracts
    book: Book,                 // what the exchange holds
    tracked: Option<int>,       // executor._product_id
    size: int,                  // executor._size
    entering: bool,             // _entry_in_progress
    closing: bool,              // _closing
    premium: Option<real>,      // _entry_premium
    file: Option<Saved>)        // the state file

  datatype State = State(mem: Memory, tasks: map<nat, Pc>)

  /** The outcome of running one task to its next await: the task ends when `next` is absent. */
  datatype Move = Move(mem: Memory, next: Option<Pc>)

  datatype Event =
    | Spawn(task: nat, kind: Kind)
    | Body(task: nat, exit: bool, entry: bool)
    | SelectFails(task: nat, announce: bool)
    | SendOrder(task: nat, choice: int)
    | ExchangeOrder(task: nat, executes: bool)
    | OrderReply(task: nat, arrives: bool, fill: Option<real>, saveOk: bool)
    | RecoveryQuery(task: nat, truthful: bool, fill: Option<real>, saveOk: bool)
    | PriceFill(task: nat, price: real, saveOk: bool)
    | AnnounceDone(task: nat)
    | ExchangeClose(task: nat, reaches: bool)
    | CloseReply(task: nat, arrives: bool, clearOk: bool)
    | CloseDone(task: nat, entry: bool)
    | Vanish(gone: int)
    | Restart(fetches: seq<bool>, listing: seq<int>)

  function Init(lots: int): State {
    State(Memory(lots, map[], None, 0, false, false, None, None), map[])
  }

  // ---- the two guarded operations, up to their first await ----

  function TryOpen(m: Memory): Move {
    if m.entering || m.tracked.Some? || m.premium.Some? then Move(m, None)
    else Move(m.(entering := true), Some(Selecting))
  }

  function TryClose(m: Memory, thenEntry: bool): Move {
    if m.closing || m.tracked.None? then Move(m, None)
    else Move(m.(closing := true), Some(CloseSent(m.tracked.value, m.size, thenEntry)))
  }

  /** The synchronous prefix of each handler, for an arbitrary strategy decision. */
  function HandlerBody(m: Memory, kind: Kind, exit: bool, entry: bool): Move {
    match kind
    case Forming =>
      if m.tracked.Some? then (if exit then TryClose(m, false) else Move(m, None))
      else if m.entering || !entry then Move(m, None)
      else TryOpen(m)
    case ClosedBar =>
      if exit && m.tracked.Some? then TryClose(m, true)
      else if entry && m.tracked.None? then TryOpen(m)
      else Move(m, None)
    case SquareOff =>
      TryClose(m, false)
  }

  // ---- the opening order ----

  /** A fill price is known: remember the premium, write the state file, announce. */
  function Entered(m: Memory, product: int, price: real, saveOk: bool): Move {
    Move(m.(premium := Some(price),
            file := if saveOk then Some(Saved(product, m.tracked, m.lots, price)) else m.file),
         Some(Announcing))
  }

  function Filled(m: Memory, product: int, fill: Option<real>, saveOk: bool): Move {
    var m1 := m.(tracked := Some(product), size := m.lots);
    if fill.Some? then Entered(m1, product, fill.value, saveOk) else Move(m1, Some(Pricing(product)))
  }

  /** The reply was lost or was an error: look for the position on the exchange. */
  function Recover(m: Memory, product: int, truthful: bool, fill: Option<real>, saveOk: bool): Move {
    if truthful && Net(m.book, product) != 0 then Filled(m, product, fill, saveOk)
    else Move(m, Some(Announcing))
  }

  /** The next stretch of a task suspended at `pc`; an event for another await changes nothing. */
  function Act(m: Memory, pc: Pc, e: Event): Move {
    match (pc, e)
    case (Ready(kind), Body(_, exit, entry)) => HandlerBody(m, kind, exit, entry)
    case (Selecting, SelectFails(_, announce)) =>
      if announce then Move(m, Some(Announcing)) else Move(m.(entering := false), None)
    case (Selecting, SendOrder(_, choice)) => Move(m, Some(OrderSent(choice)))
    case (OrderSent(p), ExchangeOrder(_, executes)) =>
      Move(if executes then m.(book := Sell(m.book, p, m.lots)) else m, Some(OrderHandled(p, executes)))
    case (OrderHandled(p, executed), OrderReply(_, arrives, fill, saveOk)) =>
      if arrives && executed then Filled(m, p, fill, saveOk) else Move(m, Some(Recovering(p)))
    case (Recovering(p), RecoveryQuery(_, truthful, fill, saveOk)) => Recover(m, p, truthful, fill, saveOk)
    case (Pricing(p), PriceFill(_, price, saveOk)) => Entered(m, p, price, saveOk)
    case (Announcing, AnnounceDone(_)) => Move(m.(entering := false), None)
    case (CloseSent(p, size, thenEntry), ExchangeClose(_, reaches)) =>
      Move(if reaches then m.(book := BuyReduceOnly(m.book, p, size)) else m,
           Some(CloseHandled(p, reaches, thenEntry)))
    case (CloseHandled(p, reached, thenEntry), CloseReply(_, arrives, clearOk)) =>
      Move(if arrives && reached then
             m.(tracked := None, size := 0, premium := None, file := if clearOk then None else m.file)
           else m,
           Some(CloseAnnouncing(thenEntry)))
    case (CloseAnnouncing(thenEntry), CloseDone(_, entry)) =>
      var m1 := m.(closing := false);
      if thenEntry && entry && m.tracked.None? then TryOpen(m1) else Move(m1, None)
    case _ => Move(m, Some(pc))
  }

  // ---- restart: a crash at this point, then the startup reconcile; what was still on its way to the
  // exchange is lost with the process ----

  /** Whether one of the (at most three) fetches reports the open shorts.  A bot that does not
      believe it owns anything stops after the first answer. */
  predicate FetchSees(believes: bool, fetches: seq<bool>, attempt: nat)
    decreases 3 - attempt
  {
    attempt < 3 && attempt < |fetches| &&
    (fetches[attempt] || (believes && FetchSees(believes, fetches, attempt + 1)))
  }

  /** `listing` names the products held short, in the order the exchange reports them. */
  predicate ListsShorts(book: Book, listing: seq<int>) {
    && (forall p <- listing :: p in book && book[p] < 0)
    && (forall p <- book :: book[p] < 0 ==> p in listing)
  }

  predicate FileNames(file: Option<Saved>, product: int) {
    file.Some? && file.value.product == Some(product)
  }

  function Reconciled(m: Memory, fetches: seq<bool>, listing: seq<int>): Memory
    requires ListsShorts(m.book, listing)
  {
    var m0 := m.(tracked := None, size := 0, entering := false, closing := false, premium := None);
    if listing != [] && FetchSees(m.file.Some?, fetches, 0) then
      var named := m.file.Some? && m.file.value.symbol in listing;
      var p := if named then m.file.value.symbol else listing[0];
      assert p in listing;
      m0.(tracked := Some(p), size := -m.book[p], premium := if named then Some(m.file.value.premium) else None)
    else if m.file.Some? && m.file.value.product.Some? then
      m0.(tracked := m.file.value.product, size := m.file.value.size, premium := Some(m.file.value.premium))
    else m0
  }

  predicate ForTask(e: Event) { !e.Vanish? && !e.Restart? }

  /** One step of the whole system.  An event that is not enabled leaves the state unchanged. */
  function Step(s: State, e: Event): State {
    match e
    case Spawn(t, kind) => if t in s.tasks then s else s.(tasks := s.tasks[t := Ready(kind)])
    case Vanish(gone) => s.(mem := s.mem.(book := s.mem.book - {gone}))
    case Restart(fetches, listing) =>
      if ListsShorts(s.mem.book, listing) then State(Reconciled(s.mem, fetches, listing), map[]) else s
    case _ =>
      if e.task !in s.tasks then s
      else
        var move := Act(s.mem, s.tasks[e.task], e);
        State(move.mem, if move.next.Some? then s.tasks[e.task := move.next.value] else s.tasks - {e.task})
  }

  function Run(s: State, es: seq<Event>): State {
    if es == [] then s else Step(Run(s, es[..|es| - 1]), es[|es| - 1])
  }
}
