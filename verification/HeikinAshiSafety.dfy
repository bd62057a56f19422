/** Safety of every interleaving of the Heikin-Ashi engine. */
module HeikinAshiSafety {
  import opened Common
  import opened Exchange
  import opened HeikinAshiEngine

  predicate Opening(pc: Pc) {
    pc.Selecting? || pc.OrderSent? || pc.OrderHandled? || pc.Recovering? || pc.Pricing? || pc.Announcing?
  }

  predicate Closing(pc: Pc) { pc.CloseSent? || pc.CloseHandled? || pc.CloseAnnouncing? }

  /** The order has left the bot and its outcome is not yet recorded. */
  predicate InFlight(pc: Pc) { pc.OrderSent? || pc.OrderHandled? || pc.Recovering? }

  /** At most one short is live, of exactly the configured size, and it is either the tracked leg
      or the product of the only order in flight. */
  ghost predicate Safe(s: State) {
    && |s.mem.book| <= 1
    && (forall p <- s.mem.book :: s.mem.book[p] == -s.mem.lots)
    && (forall p <- s.mem.book :: s.mem.tracked == Some(p) || InFlightFor(s, p))
    && (forall t, u :: t in s.tasks && u in s.tasks && InFlight(s.tasks[t]) && InFlight(s.tasks[u]) ==> t == u)
  }

  ghost predicate InFlightFor(s: State, p: int) {
    exists t :: t in s.tasks && InFlight(s.tasks[t]) && s.tasks[t].product == p
  }

  // ---- missing a live short ----

  /** A position query after a lost reply that does not report the short the order left live. */
  predicate ActMisses(m: Memory, pc: Pc, e: Event) {
    pc.Recovering? && e.RecoveryQuery? && !e.truthful && pc.product in m.book
  }

  /** A startup reconcile whose fetches do not report the open shorts, and whose state file does not
      name one of them. */
  predicate RestartMisses(m: Memory, fetches: seq<bool>, listing: seq<int>) {
    && ListsShorts(m.book, listing) && !(listing != [] && FetchSees(m.file.Some?, fetches, 0))
    && exists p <- m.book :: !FileNames(m.file, p)
  }

  /** The event, in the state it meets, hides a live short from the bot. */
  predicate Misses(s: State, e: Event) {
    match e
    case RecoveryQuery(t, _, _, _) => t in s.tasks && ActMisses(s.mem, s.tasks[t], e)
    case Restart(fetches, listing) => RestartMisses(s.mem, fetches, listing)
    case _ => false
  }

  // ---- the invariant ----

  /** A flag that is up exactly while one task is inside the section it guards. */
  ghost predicate Guards(flag: bool, inside: Pc -> bool, tasks: map<nat, Pc>) {
    && (flag ==> exists t :: t in tasks && inside(tasks[t]))
    && (forall t :: t in tasks && inside(tasks[t]) ==> flag)
    && (forall t, u :: t in tasks && u in tasks && inside(tasks[t]) && inside(tasks[u]) ==> t == u)
  }

  predicate OnlyShort(m: Memory, p: int) {
    m.book == map[] || m.book == map[p := -m.lots]
  }

  /** What a task's program counter says about the shared memory. */
  predicate PcOk(m: Memory, pc: Pc) {
    match pc
    case Selecting => m.tracked.None? && m.book == map[]
    case OrderSent(p) => m.tracked.None? && m.book == map[]
    case OrderHandled(p, executed) => m.tracked.None? && OnlyShort(m, p)
    case Recovering(p) => m.tracked.None? && OnlyShort(m, p)
    case CloseSent(p, size, _) => m.tracked == Some(p) && size == m.size
    case CloseHandled(p, reached, _) => m.tracked == Some(p) && (reached ==> m.book == map[])
    case Pricing(_) => m.tracked.None? ==> m.book == map[]
    case Announcing => m.tracked.None? ==> m.book == map[]
    case _ => true
  }

  predicate MemoryOk(m: Memory) {
    && m.lots > 0
    && (m.tracked.Some? ==> m.size == m.lots && OnlyShort(m, m.tracked.value))
    && (m.tracked.None? && !m.entering ==> m.book == map[])
    && (m.file.Some? && m.file.value.product.Some? ==> m.file.value.size == m.lots)
  }

  ghost predicate Inv(s: State) {
    && Guards(s.mem.entering, Opening, s.tasks)
    && Guards(s.mem.closing, Closing, s.tasks)
    && MemoryOk(s.mem)
    && (forall t :: t in s.tasks ==> PcOk(s.mem, s.tasks[t]))
  }

  // ---- one task's stretch ----

  predicate Now(next: Option<Pc>, inside: Pc -> bool) { next.Some? && inside(next.value) }

  /** Each flag follows the task in and out of its section, which is entered only when it is down. */
  lemma ActMovesFlags(m: Memory, pc: Pc, e: Event)
    requires (Opening(pc) ==> m.entering) && (Closing(pc) ==> m.closing)
    ensures var r := Act(m, pc, e); r.mem.entering == (Now(r.next, Opening) || (m.entering && !Opening(pc)))
    ensures var r := Act(m, pc, e); r.mem.closing == (Now(r.next, Closing) || (m.closing && !Closing(pc)))
    ensures var r := Act(m, pc, e); Now(r.next, Opening) && !Opening(pc) ==> !m.entering
    ensures var r := Act(m, pc, e); Now(r.next, Closing) && !Closing(pc) ==> !m.closing
  {
  }

  ghost predicate MoveOk(r: Move) { MemoryOk(r.mem) && (r.next.Some? ==> PcOk(r.mem, r.next.value)) }

  lemma HandlerKeepsMemory(m: Memory, kind: Kind, exit: bool, entry: bool)
    requires MemoryOk(m)
    ensures MoveOk(HandlerBody(m, kind, exit, entry))
  {
  }

  lemma OpeningKeepsMemory(m: Memory, pc: Pc, e: Event)
    requires MemoryOk(m) && PcOk(m, pc) && Opening(pc) && m.entering && !ActMisses(m, pc, e)
    ensures MoveOk(Act(m, pc, e))
  {
  }

  lemma ClosingKeepsMemory(m: Memory, pc: Pc, e: Event)
    requires MemoryOk(m) && PcOk(m, pc) && Closing(pc)
    ensures MoveOk(Act(m, pc, e))
  {
  }

  /** The stretch re-establishes the shared facts and those of the program counter it reaches. */
  lemma ActKeepsMemory(m: Memory, pc: Pc, e: Event)
    requires MemoryOk(m) && PcOk(m, pc) && (Opening(pc) ==> m.entering) && !ActMisses(m, pc, e)
    ensures MoveOk(Act(m, pc, e))
  {
    if Opening(pc) {
      OpeningKeepsMemory(m, pc, e);
    } else if Closing(pc) {
      ClosingKeepsMemory(m, pc, e);
    } else if e.Body? {
      HandlerKeepsMemory(m, pc.kind, e.exit, e.entry);
    }
  }

  /** The stretch leaves true what any other suspended task relies on. */
  lemma ActKeepsOthers(m: Memory, pc: Pc, e: Event, other: Pc)
    requires MemoryOk(m) && PcOk(m, pc) && PcOk(m, other)
    requires (Opening(pc) || Opening(other) ==> m.entering) && (Closing(pc) || Closing(other) ==> m.closing)
    requires !(Opening(pc) && Opening(other)) && !(Closing(pc) && Closing(other))
    requires !ActMisses(m, pc, e)
    ensures PcOk(Act(m, pc, e).mem, other)
  {
  }

  // ---- the whole system ----

  ghost predicate SameElsewhere(tasks: map<nat, Pc>, tasks': map<nat, Pc>, t: nat) {
    forall u {:trigger u in tasks'} :: u != t ==> (u in tasks <==> u in tasks') && (u in tasks ==> tasks'[u] == tasks[u])
  }

  lemma FlagFollows(flag: bool, flag': bool, inside: Pc -> bool, tasks: map<nat, Pc>, tasks': map<nat, Pc>, t: nat)
    requires Guards(flag, inside, tasks) && SameElsewhere(tasks, tasks', t) && t in tasks
    requires flag' <==> (t in tasks' && inside(tasks'[t])) || (flag && !inside(tasks[t]))
    requires t in tasks' && inside(tasks'[t]) && !inside(tasks[t]) ==> !flag
    ensures Guards(flag', inside, tasks')
  {
    if flag' && !(t in tasks' && inside(tasks'[t])) {
      var w :| w in tasks && inside(tasks[w]);
      assert w in tasks' && inside(tasks'[w]);
    }
  }

  lemma TaskStepKeepsGuards(s: State, e: Event)
    requires Inv(s) && ForTask(e) && !e.Spawn? && e.task in s.tasks
    ensures Guards(Step(s, e).mem.entering, Opening, Step(s, e).tasks)
    ensures Guards(Step(s, e).mem.closing, Closing, Step(s, e).tasks)
  {
    var s', t := Step(s, e), e.task;
    ActMovesFlags(s.mem, s.tasks[t], e);
    FlagFollows(s.mem.entering, s'.mem.entering, Opening, s.tasks, s'.tasks, t);
    FlagFollows(s.mem.closing, s'.mem.closing, Closing, s.tasks, s'.tasks, t);
  }

  lemma TaskStepKeepsInv(s: State, e: Event)
    requires Inv(s) && ForTask(e) && !e.Spawn? && e.task in s.tasks && !Misses(s, e)
    ensures Inv(Step(s, e))
  {
    var s', t, pc := Step(s, e), e.task, s.tasks[e.task];
    TaskStepKeepsGuards(s, e);
    ActKeepsMemory(s.mem, pc, e);
    forall u | u in s'.tasks
      ensures PcOk(s'.mem, s'.tasks[u])
    {
      if u != t { ActKeepsOthers(s.mem, pc, e, s.tasks[u]); }
    }
  }

  lemma SpawnKeepsFlag(flag: bool, inside: Pc -> bool, tasks: map<nat, Pc>, t: nat, kind: Kind)
    requires Guards(flag, inside, tasks) && t !in tasks && !inside(Ready(kind))
    ensures Guards(flag, inside, tasks[t := Ready(kind)])
  {
    if flag {
      var w :| w in tasks && inside(tasks[w]);
      assert w in tasks[t := Ready(kind)] && inside(tasks[t := Ready(kind)][w]);
    }
  }

  lemma SpawnKeepsInv(s: State, t: nat, kind: Kind)
    requires Inv(s) && t !in s.tasks
    ensures Inv(Step(s, Spawn(t, kind)))
  {
    SpawnKeepsFlag(s.mem.entering, Opening, s.tasks, t, kind);
    SpawnKeepsFlag(s.mem.closing, Closing, s.tasks, t, kind);
  }

  lemma ReconciledIsOk(m: Memory, fetches: seq<bool>, listing: seq<int>, q: int)
    requires MemoryOk(m) && OnlyShort(m, q) && ListsShorts(m.book, listing) && !RestartMisses(m, fetches, listing)
    ensures MemoryOk(Reconciled(m, fetches, listing))
  {
    if m.book != map[] { assert q in m.book; }
  }

  /** The startup reconcile meets the invariant again, from whatever point the crash happened. */
  lemma RestartKeepsInv(s: State, fetches: seq<bool>, listing: seq<int>)
    requires Inv(s) && ListsShorts(s.mem.book, listing) && !RestartMisses(s.mem, fetches, listing)
    ensures Inv(Step(s, Restart(fetches, listing)))
  {
    BookIsOneShort(s);
    var q :| OnlyShort(s.mem, q);
    ReconciledIsOk(s.mem, fetches, listing, q);
  }

  /** Whatever the program counters, the book holds nothing or one short of the configured size. */
  lemma BookIsOneShort(s: State)
    requires Inv(s)
    ensures exists p :: OnlyShort(s.mem, p)
  {
    if s.mem.tracked.Some? {
      assert OnlyShort(s.mem, s.mem.tracked.value);
    } else if s.mem.entering {
      var t :| t in s.tasks && Opening(s.tasks[t]);
      assert PcOk(s.mem, s.tasks[t]);
      if s.tasks[t].OrderHandled? || s.tasks[t].Recovering? {
        assert OnlyShort(s.mem, s.tasks[t].product);
      } else {
        assert OnlyShort(s.mem, 0);
      }
    } else {
      assert OnlyShort(s.mem, 0);
    }
  }

  lemma StepKeepsInv(s: State, e: Event)
    requires Inv(s) && !Misses(s, e)
    ensures Inv(Step(s, e))
  {
    match e
    case Spawn(t, kind) => if t !in s.tasks { SpawnKeepsInv(s, t, kind); }
    case Restart(fetches, listing) => if ListsShorts(s.mem.book, listing) { RestartKeepsInv(s, fetches, listing); }
    case Vanish(gone) => VanishKeepsInv(s, gone);
    case _ => if e.task in s.tasks { TaskStepKeepsInv(s, e); }
  }

  /** A position closed by hand, expired or liquidated behind the bot's back does no harm. */
  lemma VanishKeepsInv(s: State, gone: int)
    requires Inv(s)
    ensures Inv(Step(s, Vanish(gone)))
  {
    var m' := Step(s, Vanish(gone)).mem;
    forall p | OnlyShort(s.mem, p)
      ensures OnlyShort(m', p)
    {
      if gone != p { assert s.mem.book - {gone} == s.mem.book; } else { assert s.mem.book - {gone} == map[]; }
    }
    assert s.mem.book == map[] ==> m'.book == map[];
  }

  lemma OneShortIsSmall(m: Memory, q: int)
    requires OnlyShort(m, q)
    ensures |m.book| <= 1 && forall p <- m.book :: m.book[p] == -m.lots
  {
    if m.book == map[] {} else { assert m.book.Keys == {q}; }
    assert |m.book| == |m.book.Keys|;
  }

  lemma LiveShortIsAccounted(s: State, p: int)
    requires Inv(s) && p in s.mem.book
    ensures s.mem.tracked == Some(p) || InFlightFor(s, p)
  {
    if s.mem.tracked.None? {
      assert s.mem.entering;
      var t :| t in s.tasks && Opening(s.tasks[t]);
      assert PcOk(s.mem, s.tasks[t]);
      assert InFlight(s.tasks[t]) && s.tasks[t].product == p;
    }
  }

  lemma InvIsSafe(s: State)
    requires Inv(s)
    ensures Safe(s)
  {
    BookIsOneShort(s);
    var q :| OnlyShort(s.mem, q);
    OneShortIsSmall(s.mem, q);
    forall p | p in s.mem.book ensures s.mem.tracked == Some(p) || InFlightFor(s, p) {
      LiveShortIsAccounted(s, p);
    }
  }
}
