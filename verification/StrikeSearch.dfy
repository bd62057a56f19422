/** The early-stopping strike search against exhaustive selection over its whole window. */
module StrikeSearch {
  import opened Common
  import opened OptionPricing

  const OVERSHOOT := 3
  const OTM_STEPS := 30
  const ITM_STEPS := 20

  /** The premium of every strike that can be priced, the premium looked for, and how far to look. */
  datatype Chain = Chain(quote: int -> Option<real>, target: real, otmSteps: nat, itmSteps: nat, overshoot: nat)

  function Priced(m: Chain, strike: int): Option<real> { (m.quote)(strike) }

  function Miss(m: Chain, strike: int): real
    requires Priced(m, strike).Some?
  {
    Abs(Priced(m, strike).value - m.target)
  }

  // ---- exhaustive selection ----

  function StrikeAt(from: int, stride: int, i: nat): int {
    if i == 0 then from else StrikeAt(from, stride, i - 1) + stride
  }

  function Strikes(from: int, stride: int, n: nat): (ks: seq<int>)
    ensures |ks| == n
  {
    if n == 0 then [] else Strikes(from, stride, n - 1) + [StrikeAt(from, stride, n - 1)]
  }

  lemma {:induction false} StrikesAt(from: int, stride: int, n: nat, i: nat)
    requires i < n
    ensures Strikes(from, stride, n)[i] == StrikeAt(from, stride, i)
  {
    if i < n - 1 { StrikesAt(from, stride, n - 1, i); }
  }

  /** The strikes visited by `n` OTM steps from the money and then the full ITM walk. */
  function Visit(m: Chain, atm: int, otm: int, n: nat): seq<int> {
    Strikes(atm, otm, n) + Strikes(atm - otm, -otm, m.itmSteps)
  }

  /** What the early-stopping search finds. */
  function Found(m: Chain, atm: int, otm: int): Option<int> {
    Scan(m, Visit(m, atm, otm, Visited(m, atm, otm, 0, None)))
  }

  /** All strikes of the search window. */
  function Window(m: Chain, atm: int, otm: int): seq<int> { Visit(m, atm, otm, m.otmSteps) }

  /** `k` is a first argmin of the miss over the strikes that can be priced. */
  ghost predicate FirstClosest(m: Chain, strikes: seq<int>, k: int) {
    exists i :: 0 <= i < |strikes| && strikes[i] == k && Priced(m, k).Some?
      && (forall j | 0 <= j < |strikes| && Priced(m, strikes[j]).Some? :: Miss(m, k) <= Miss(m, strikes[j]))
      && (forall j | 0 <= j < i && Priced(m, strikes[j]).Some? :: Miss(m, k) < Miss(m, strikes[j]))
  }

  ghost predicate NonePriced(m: Chain, strikes: seq<int>) {
    forall j | 0 <= j < |strikes| :: Priced(m, strikes[j]).None?
  }

  // ---- the scan the search performs on the strikes it visits ----

  function Consider(m: Chain, best: Option<int>, strike: int): Option<int>
    requires best.Some? ==> Priced(m, best.value).Some?
    ensures Consider(m, best, strike).Some? ==> Priced(m, Consider(m, best, strike).value).Some?
  {
    if Priced(m, strike).None? then best
    else if best.None? || Miss(m, strike) < Miss(m, best.value) then Some(strike)
    else best
  }

  function Scan(m: Chain, strikes: seq<int>): (best: Option<int>)
    ensures best.Some? ==> Priced(m, best.value).Some?
  {
    if strikes == [] then None else Consider(m, Scan(m, strikes[..|strikes| - 1]), strikes[|strikes| - 1])
  }

  lemma {:induction false} ScanIsFirstClosest(m: Chain, strikes: seq<int>)
    ensures Scan(m, strikes).Some? ==> FirstClosest(m, strikes, Scan(m, strikes).value)
    ensures Scan(m, strikes).None? ==> NonePriced(m, strikes)
  {
    if strikes != [] {
      var front, k := strikes[..|strikes| - 1], strikes[|strikes| - 1];
      ScanIsFirstClosest(m, front);
      assert strikes == front + [k];
      if Scan(m, front).Some? && Scan(m, strikes) == Scan(m, front) {
        ClosestStays(m, front, k, Scan(m, front).value);
      } else if Scan(m, strikes).Some? {
        ClosestMoves(m, front, k);
      }
    }
  }

  lemma ClosestStays(m: Chain, front: seq<int>, k: int, best: int)
    requires FirstClosest(m, front, best) && (Priced(m, k).Some? ==> Miss(m, best) <= Miss(m, k))
    ensures FirstClosest(m, front + [k], best)
  {
    var i :| 0 <= i < |front| && front[i] == best
      && (forall j | 0 <= j < i && Priced(m, front[j]).Some? :: Miss(m, best) < Miss(m, front[j]));
    var all := front + [k];
    assert all[i] == best;
    forall j | 0 <= j < |all| && Priced(m, all[j]).Some? ensures Miss(m, best) <= Miss(m, all[j]) {
      if j < |front| { assert all[j] == front[j]; }
    }
  }

  lemma ClosestMoves(m: Chain, front: seq<int>, k: int)
    requires Priced(m, k).Some? && forall j | 0 <= j < |front| && Priced(m, front[j]).Some? :: Miss(m, k) < Miss(m, front[j])
    ensures FirstClosest(m, front + [k], k)
  {
    var all := front + [k];
    assert all[|front|] == k;
    forall j | 0 <= j < |front| && Priced(m, all[j]).Some? ensures Miss(m, k) < Miss(m, all[j]) {
      assert all[j] == front[j];
    }
  }

  // ---- where the OTM walk stops ----

  /** The number of OTM strikes visited: up to m.overshoot past the first one at or below target. */
  function Visited(m: Chain, atm: int, otm: int, i: nat, crossed: Option<nat>): nat
    requires i <= m.otmSteps
    decreases m.otmSteps - i
  {
    if i == m.otmSteps then m.otmSteps
    else
      var c := Cross(m, StrikeAt(atm, otm, i), i, crossed);
      if c.Some? && i - c.value >= m.overshoot then i + 1 else Visited(m, atm, otm, i + 1, c)
  }

  function Cross(m: Chain, strike: int, i: nat, crossed: Option<nat>): Option<nat> {
    if Priced(m, strike).Some? && Priced(m, strike).value <= m.target && crossed.None? then Some(i) else crossed
  }

  lemma VisitedNext(m: Chain, atm: int, otm: int, i: nat, crossed: Option<nat>)
    requires i < m.otmSteps
    ensures var c := Cross(m, StrikeAt(atm, otm, i), i, crossed);
      Visited(m, atm, otm, i, crossed)
      == if c.Some? && i - c.value >= m.overshoot then i + 1 else Visited(m, atm, otm, i + 1, c)
  {
  }

  /** What is fixed during one search: the histories the API returns and the lookup times. */
  datatype Market = Market(fetch: int -> History, entry: int, exit: int, step: int, target: real) {
    /** A strike can be priced when it has a premium at both times; the entry premium is its quote. */
    function QuoteOf(h: History): Option<real> {
      if h == map[] || Premium(h, entry, step).None? || Premium(h, exit, step).None? then None
      else Premium(h, entry, step)
    }

    function Quotes(): Chain { Chain(k => QuoteOf(fetch(k)), target, OTM_STEPS, ITM_STEPS, OVERSHOOT) }
  }

  class PremiumCache {
    var entries: map<int, History>

    constructor () ensures entries == map[] { entries := map[]; }

    ghost predicate Consistent(m: Market) reads this { forall k <- entries :: entries[k] == m.fetch(k) }

    /** `ev`: price one strike, fetching its history only once. */
    method Evaluate(m: Market, strike: int) returns (r: Option<real>)
      requires Consistent(m)
      modifies this
      ensures Consistent(m) && r == Priced(m.Quotes(), strike)
      ensures entries == old(entries)[strike := m.fetch(strike)]
    {
      if strike !in entries { entries := entries[strike := m.fetch(strike)]; }
      assert entries[strike] == m.fetch(strike);
      r := m.QuoteOf(entries[strike]);
    }

    /** `resolve_by_premium` around `atm`, with `otm` the signed strike interval towards OTM.  The
        cache is only extended and, consistent with the fetch, never changes the answer. */
    method ResolveByPremium(m: Market, atm: int, otm: int) returns (choice: Option<int>)
      requires Consistent(m)
      modifies this
      ensures Consistent(m) && old(entries.Keys) <= entries.Keys
      ensures choice == Found(m.Quotes(), atm, otm)
      ensures NothingHidden(m.Quotes(), atm, otm) || MonotoneOtm(m.Quotes(), atm, otm) ==>
                choice == Scan(m.Quotes(), Window(m.Quotes(), atm, otm))
    {
      choice := Search(m, m.Quotes(), atm, otm, OTM_STEPS, ITM_STEPS, OVERSHOOT);
      FoundInWindow(m.Quotes(), atm, otm);
    }

    method Search(m: Market, ghost q: Chain, atm: int, otm: int, otmSteps: nat, itmSteps: nat, overshoot: nat)
      returns (choice: Option<int>)
      requires Consistent(m) && q == Chain(m.Quotes().quote, m.target, otmSteps, itmSteps, overshoot)
      modifies this
      ensures Consistent(m) && old(entries.Keys) <= entries.Keys
      ensures choice == Found(q, atm, otm)
    {
      var best := WalkOtm(m, q, atm, otm, otmSteps, overshoot);
      best := WalkItm(m, q, best, atm - otm, -otm, itmSteps);
      WalksScan(q, atm, otm, Visited(q, atm, otm, 0, None));
      choice := if best.Some? then Some(best.value.1) else None;
    }

    method WalkOtm(m: Market, ghost q: Chain, atm: int, otm: int, steps: nat, overshoot: nat) returns (best: Option<(real, int)>)
      requires Consistent(m) && q.quote == m.Quotes().quote && q.target == m.target
      requires q.otmSteps == steps && q.overshoot == overshoot
      modifies this
      ensures Consistent(m) && old(entries.Keys) <= entries.Keys
      ensures best == Walk(q, None, atm, otm, Visited(q, atm, otm, 0, None))
    {
      best := None;
      var crossed: Option<nat> := None;
      var strike, i: nat, stopped := atm, 0, false;
      while i < steps && !stopped
        invariant Consistent(m) && old(entries.Keys) <= entries.Keys
        invariant Walking(q, atm, otm, best, strike, i, crossed, stopped)
        decreases steps - i, !stopped
      {
        WalkingOn(q, atm, otm, best, strike, i, crossed);
        best, crossed := Probe(m, q, strike, i, best, crossed);
        stopped := crossed.Some? && i - crossed.value >= overshoot;
        strike, i := strike + otm, i + 1;
      }
    }

    /** One strike of the OTM walk: considered, and noted if it is the first at or below the target. */
    method Probe(m: Market, ghost q: Chain, strike: int, i: nat, best0: Option<(real, int)>, crossed0: Option<nat>)
      returns (best: Option<(real, int)>, crossed: Option<nat>)
      requires Consistent(m) && q.quote == m.Quotes().quote && q.target == m.target
      modifies this
      ensures Consistent(m) && old(entries.Keys) <= entries.Keys
      ensures best == Better(q.target, best0, strike, Priced(q, strike)) && crossed == Cross(q, strike, i, crossed0)
    {
      var r := Evaluate(m, strike);
      best, crossed := Better(m.target, best0, strike, r), crossed0;
      if r.Some? && r.value <= m.target && crossed.None? { crossed := Some(i); }
    }

    method WalkItm(m: Market, ghost q: Chain, best0: Option<(real, int)>, from: int, stride: int, steps: nat)
      returns (best: Option<(real, int)>)
      requires Consistent(m) && q.quote == m.Quotes().quote && q.target == m.target
      modifies this
      ensures Consistent(m) && old(entries.Keys) <= entries.Keys
      ensures best == Walk(q, best0, from, stride, steps)
    {
      best := best0;
      var strike := from;
      for j := 0 to steps
        invariant Consistent(m) && old(entries.Keys) <= entries.Keys
        invariant strike == StrikeAt(from, stride, j)
        invariant best == Walk(q, best0, from, stride, j)
      {
        var r := Evaluate(m, strike);
        best := Better(m.target, best, strike, r);
        strike := strike + stride;
      }
    }
  }

  /** How far the OTM walk has come after `i` strikes. */
  ghost predicate Walking(m: Chain, atm: int, otm: int, best: Option<(real, int)>, strike: int, i: nat,
                          crossed: Option<nat>, stopped: bool)
  {
    && i <= m.otmSteps && strike == StrikeAt(atm, otm, i) && best == Walk(m, None, atm, otm, i)
    && Visited(m, atm, otm, 0, None) == if stopped then i else Visited(m, atm, otm, i, crossed)
  }

  lemma WalkingOn(m: Chain, atm: int, otm: int, best: Option<(real, int)>, strike: int, i: nat, crossed: Option<nat>)
    requires Walking(m, atm, otm, best, strike, i, crossed, false) && i < m.otmSteps
    ensures var c := Cross(m, strike, i, crossed);
      Walking(m, atm, otm, Better(m.target, best, strike, Priced(m, strike)), strike + otm, i + 1, c,
              c.Some? && i - c.value >= m.overshoot)
  {
    VisitedNext(m, atm, otm, i, crossed);
  }

  /** The best pair (miss, strike) after `n` strikes of a walk that starts with `best0`. */
  function Walk(m: Chain, best0: Option<(real, int)>, from: int, stride: int, n: nat): Option<(real, int)> {
    if n == 0 then best0
    else
      var strike := StrikeAt(from, stride, n - 1);
      Better(m.target, Walk(m, best0, from, stride, n - 1), strike, Priced(m, strike))
  }

  lemma {:induction false} WalkHolds(m: Chain, best0: Option<(real, int)>, walked: seq<int>, from: int, stride: int, n: nat)
    requires Holds(m, best0, walked)
    ensures Holds(m, Walk(m, best0, from, stride, n), walked + Strikes(from, stride, n))
  {
    if n == 0 {
      assert walked + Strikes(from, stride, 0) == walked;
    } else {
      var before, strike := walked + Strikes(from, stride, n - 1), StrikeAt(from, stride, n - 1);
      WalkHolds(m, best0, walked, from, stride, n - 1);
      HoldsNext(m, Walk(m, best0, from, stride, n - 1), before, strike);
      assert walked + Strikes(from, stride, n) == before + [strike];
    }
  }

  lemma WalksScan(m: Chain, atm: int, otm: int, n: nat)
    ensures var best := Walk(m, Walk(m, None, atm, otm, n), atm - otm, -otm, m.itmSteps);
      Scan(m, Visit(m, atm, otm, n)) == if best.Some? then Some(best.value.1) else None
  {
    WalkHolds(m, None, [], atm, otm, n);
    assert [] + Strikes(atm, otm, n) == Strikes(atm, otm, n);
    WalkHolds(m, Walk(m, None, atm, otm, n), Strikes(atm, otm, n), atm - otm, -otm, m.itmSteps);
  }

  /** `best` is the pair (miss, strike) for the scan of the strikes visited. */
  ghost predicate Holds(m: Chain, best: Option<(real, int)>, visited: seq<int>) {
    var s := Scan(m, visited);
    if s.None? then best == None else best == Some((Miss(m, s.value), s.value))
  }

  /** `consider`. */
  function Better(target: real, best: Option<(real, int)>, strike: int, r: Option<real>): Option<(real, int)> {
    if r.None? then best
    else
      var diff := Abs(r.value - target);
      if best.None? || diff < best.value.0 then Some((diff, strike)) else best
  }

  lemma HoldsNext(m: Chain, best: Option<(real, int)>, visited: seq<int>, strike: int)
    requires Holds(m, best, visited)
    ensures Holds(m, Better(m.target, best, strike, Priced(m, strike)), visited + [strike])
  {
    ScanSnoc(m, visited, strike);
  }

  lemma ScanSnoc(m: Chain, strikes: seq<int>, k: int)
    ensures Scan(m, strikes + [k]) == Consider(m, Scan(m, strikes), k)
  {
    assert (strikes + [k])[..|strikes|] == strikes;
  }

  // ---- when early stopping loses nothing ----

  function Quote(m: Chain, atm: int, otm: int, i: nat): Option<real> { Priced(m, StrikeAt(atm, otm, i)) }

  /** The first strike at or below the target. */
  ghost predicate FirstCrossing(m: Chain, atm: int, otm: int, c: nat) {
    && c < m.otmSteps && Quote(m, atm, otm, c).Some? && Quote(m, atm, otm, c).value <= m.target
    && forall v: nat | v < c && Quote(m, atm, otm, v).Some? :: Quote(m, atm, otm, v).value > m.target
  }

  ghost predicate NeverCrosses(m: Chain, atm: int, otm: int) {
    forall v: nat | v < m.otmSteps && Quote(m, atm, otm, v).Some? :: Quote(m, atm, otm, v).value > m.target
  }

  lemma {:induction false} VisitedAfterCrossing(m: Chain, atm: int, otm: int, i: nat, c: nat)
    requires i <= m.otmSteps && c < i <= c + m.overshoot
    ensures Visited(m, atm, otm, i, Some(c)) == if c + m.overshoot < m.otmSteps then c + m.overshoot + 1 else m.otmSteps
    decreases m.otmSteps - i
  {
    if i < m.otmSteps && i < c + m.overshoot { VisitedAfterCrossing(m, atm, otm, i + 1, c); }
  }

  /** The walk visits everything, or stops `overshoot` strikes past the first crossing. */
  lemma {:induction false} VisitedIs(m: Chain, atm: int, otm: int, i: nat, c: nat)
    requires i <= c && FirstCrossing(m, atm, otm, c)
    ensures Visited(m, atm, otm, i, None) == if c + m.overshoot < m.otmSteps then c + m.overshoot + 1 else m.otmSteps
    decreases c - i
  {
    if i < c {
      assert Cross(m, StrikeAt(atm, otm, i), i, None) == None by { assert i < c && Quote(m, atm, otm, i) == Priced(m, StrikeAt(atm, otm, i)); }
      VisitedIs(m, atm, otm, i + 1, c);
    } else {
      assert Cross(m, StrikeAt(atm, otm, c), c, None) == Some(c) by { assert Quote(m, atm, otm, c).Some?; }
      if m.overshoot > 0 { VisitedAfterCrossing(m, atm, otm, c + 1, c); }
    }
  }

  lemma {:induction false} VisitedIsAll(m: Chain, atm: int, otm: int, i: nat)
    requires i <= m.otmSteps && NeverCrosses(m, atm, otm)
    ensures Visited(m, atm, otm, i, None) == m.otmSteps
    decreases m.otmSteps - i
  {
    if i < m.otmSteps {
      assert Quote(m, atm, otm, i) == Priced(m, StrikeAt(atm, otm, i));
      VisitedIsAll(m, atm, otm, i + 1);
    }
  }

  lemma CrossingExists(m: Chain, atm: int, otm: int) returns (c: nat)
    requires !NeverCrosses(m, atm, otm)
    ensures FirstCrossing(m, atm, otm, c)
  {
    c := 0;
    while Quote(m, atm, otm, c).None? || Quote(m, atm, otm, c).value > m.target
      invariant c < m.otmSteps
      invariant forall v: nat | v < c && Quote(m, atm, otm, v).Some? :: Quote(m, atm, otm, v).value > m.target
      decreases m.otmSteps - c
    {
      c := c + 1;
    }
  }

  /** Cheaper than every strike before it. */
  ghost predicate NewLow(m: Chain, atm: int, otm: int, c: nat) {
    && c < m.otmSteps && Quote(m, atm, otm, c).Some?
    && forall v: nat | v < c && Quote(m, atm, otm, v).Some? :: Quote(m, atm, otm, v).value > Quote(m, atm, otm, c).value
  }

  /** Out of reach of a walk that crosses at `c`, strike `i` quotes more than `c` but less than everything
      before it, and nothing within reach quotes the same. */
  ghost predicate Hidden(m: Chain, atm: int, otm: int, c: nat, i: nat) {
    && NewLow(m, atm, otm, c) && c + m.overshoot < i < m.otmSteps && Quote(m, atm, otm, i).Some?
    && Quote(m, atm, otm, c).value < Quote(m, atm, otm, i).value
    && (forall v: nat | v < c && Quote(m, atm, otm, v).Some? :: Quote(m, atm, otm, i).value < Quote(m, atm, otm, v).value)
    && (forall v: nat | v <= c + m.overshoot && Quote(m, atm, otm, v).Some? :: Quote(m, atm, otm, v).value != Quote(m, atm, otm, i).value)
  }

  ghost predicate NothingHidden(m: Chain, atm: int, otm: int) {
    forall c: nat, i: nat :: !Hidden(m, atm, otm, c, i)
  }

  /** With nothing hidden, the search returns the exhaustive first closest of its window. */
  lemma NothingHiddenSuffices(m: Chain, atm: int, otm: int)
    requires NothingHidden(m, atm, otm)
    ensures Found(m, atm, otm) == Scan(m, Window(m, atm, otm))
  {
    if NeverCrosses(m, atm, otm) {
      VisitedIsAll(m, atm, otm, 0);
    } else {
      var c := CrossingExists(m, atm, otm);
      var n := Visited(m, atm, otm, 0, None);
      VisitedIs(m, atm, otm, 0, c);
      if n < m.otmSteps {
        forall i: nat | n <= i < m.otmSteps
          ensures Scan(m, Strikes(atm, otm, i + 1)) == Scan(m, Strikes(atm, otm, i))
        {
          var v := VisitedIsNoFurther(m, atm, otm, c, i);
          OneMoreAddsNothing(m, atm, otm, v, i);
        }
        RestAddsNothing(m, atm, otm, n, m.otmSteps);
      }
      ScanSuffix(m, Strikes(atm, otm, n), Strikes(atm, otm, m.otmSteps), Strikes(atm - otm, -otm, m.itmSteps));
    }
  }

  /** Whatever is out of reach, a visited strike is at least as close. */
  lemma VisitedIsNoFurther(m: Chain, atm: int, otm: int, c: nat, i: nat) returns (v: nat)
    requires NothingHidden(m, atm, otm) && FirstCrossing(m, atm, otm, c) && c + m.overshoot < i < m.otmSteps
    ensures v < i && Quote(m, atm, otm, v).Some?
    ensures Quote(m, atm, otm, i).Some? ==> Miss(m, StrikeAt(atm, otm, v)) <= Miss(m, StrikeAt(atm, otm, i))
  {
    v := c;
    if Quote(m, atm, otm, i).Some? && Quote(m, atm, otm, i).value > Quote(m, atm, otm, c).value {
      assert NewLow(m, atm, otm, c) && !Hidden(m, atm, otm, c, i);
      if w: nat :| w < c && Quote(m, atm, otm, w).Some? && Quote(m, atm, otm, w).value <= Quote(m, atm, otm, i).value {
        v := w;
      } else {
        v :| v <= c + m.overshoot && Quote(m, atm, otm, v).Some? && Quote(m, atm, otm, v).value == Quote(m, atm, otm, i).value;
      }
    }
  }

  function At(m: Chain, target: real): Chain { m.(target := target) }

  /** Looking for exactly what a hidden strike quotes, the search returns another strike. */
  lemma HiddenIsMissed(m: Chain, atm: int, otm: int, c: nat, i: nat)
    requires otm != 0 && Hidden(m, atm, otm, c, i)
    ensures var sought := At(m, Quote(m, atm, otm, i).value);
      Found(sought, atm, otm) != Scan(sought, Window(m, atm, otm))
  {
    var sought := At(m, Quote(m, atm, otm, i).value);
    forall v: nat ensures Quote(sought, atm, otm, v) == Quote(m, atm, otm, v) {}
    assert FirstCrossing(sought, atm, otm, c);
    VisitedIs(sought, atm, otm, 0, c);
    WindowHitsOtm(sought, atm, otm, i);
    VisitMissesOtm(sought, atm, otm, c, i);
  }

  /** The window is scanned OTM first, so a strike at the target there is what it returns. */
  lemma WindowHitsOtm(m: Chain, atm: int, otm: int, i: nat)
    requires i < m.otmSteps && Quote(m, atm, otm, i) == Some(m.target)
    ensures var best := Scan(m, Window(m, atm, otm));
      best.Some? && exists v: nat :: v < m.otmSteps && best.value == StrikeAt(atm, otm, v) && Quote(m, atm, otm, v) == Some(m.target)
  {
    var w := Window(m, atm, otm);
    StrikesAt(atm, otm, m.otmSteps, i);
    PricedBoundsScan(m, w, i);
    var best := Scan(m, w).value;
    ScanIsFirstClosest(m, w);
    var k :| 0 <= k < |w| && w[k] == best && forall j | 0 <= j < k && Priced(m, w[j]).Some? :: Miss(m, best) < Miss(m, w[j]);
    assert w[i] == StrikeAt(atm, otm, i) && Miss(m, w[i]) == 0.0;
    assert k <= i;
    StrikesAt(atm, otm, m.otmSteps, k);
    assert Quote(m, atm, otm, k) == Some(m.target);
  }

  lemma VisitMissesOtm(m: Chain, atm: int, otm: int, c: nat, i: nat)
    requires otm != 0 && i < m.otmSteps && c + m.overshoot < m.otmSteps && Quote(m, atm, otm, i) == Some(m.target)
    requires forall v: nat | v <= c + m.overshoot && Quote(m, atm, otm, v).Some? :: Quote(m, atm, otm, v).value != m.target
    ensures var best := Scan(m, Visit(m, atm, otm, c + m.overshoot + 1));
      best.Some? ==> forall v: nat | best.value == StrikeAt(atm, otm, v) :: Quote(m, atm, otm, v) != Some(m.target)
  {
    var n := c + m.overshoot + 1;
    var visited := Visit(m, atm, otm, n);
    var best := Scan(m, visited);
    ScanIsFirstClosest(m, visited);
    if best.Some? {
      var k :| 0 <= k < |visited| && visited[k] == best.value;
      forall v: nat | best.value == StrikeAt(atm, otm, v) ensures Quote(m, atm, otm, v) != Some(m.target) {
        if k < n {
          StrikesAt(atm, otm, n, k);
          assert Quote(m, atm, otm, k) == Priced(m, best.value);
        } else {
          StrikesAt(atm - otm, -otm, m.itmSteps, k - n);
          ItmIsNotOtm(atm, otm, k - n, v);
        }
      }
    }
  }

  lemma ItmIsNotOtm(atm: int, otm: int, k: nat, v: nat)
    requires otm != 0
    ensures StrikeAt(atm - otm, -otm, k) != StrikeAt(atm, otm, v)
  {
    StrikeAtIs(atm - otm, -otm, k);
    StrikeAtIs(atm, otm, v);
    assert v * otm - (k * -otm - otm) == (v + k + 1) * otm;
    if otm > 0 { assert (v + k + 1) * otm > 0; } else { assert (v + k + 1) * otm < 0; }
  }

  /** For every quote function: whatever the target, the search returns the exhaustive first closest of its
      window, exactly when no strike is hidden. */
  lemma EarlyStopIsExhaustiveIff(m: Chain, atm: int, otm: int)
    requires otm != 0
    ensures (forall target: real :: Found(At(m, target), atm, otm) == Scan(At(m, target), Window(m, atm, otm)))
            <==> NothingHidden(m, atm, otm)
  {
    if NothingHidden(m, atm, otm) {
      forall target: real ensures Found(At(m, target), atm, otm) == Scan(At(m, target), Window(m, atm, otm)) {
        HiddenIgnoresTarget(m, atm, otm, target);
        NothingHiddenSuffices(At(m, target), atm, otm);
      }
    } else {
      var c: nat, i: nat :| Hidden(m, atm, otm, c, i);
      HiddenIsMissed(m, atm, otm, c, i);
    }
  }

  lemma HiddenIgnoresTarget(m: Chain, atm: int, otm: int, target: real)
    ensures NothingHidden(m, atm, otm) ==> NothingHidden(At(m, target), atm, otm)
  {
    forall c: nat, i: nat ensures Hidden(At(m, target), atm, otm, c, i) ==> Hidden(m, atm, otm, c, i) {
      forall v: nat ensures Quote(At(m, target), atm, otm, v) == Quote(m, atm, otm, v) {}
    }
  }

  /** Premiums do not rise from strike to strike towards OTM; strikes may be missing anywhere. */
  ghost predicate MonotoneOtm(m: Chain, atm: int, otm: int) {
    forall i: nat, j: nat | i < j < m.otmSteps && Quote(m, atm, otm, i).Some? && Quote(m, atm, otm, j).Some? ::
      Quote(m, atm, otm, j).value <= Quote(m, atm, otm, i).value
  }

  /** On monotone chains nothing is hidden: the search returns the exhaustive first closest of its
      50-strike window. */
  lemma EarlyStopIsExhaustive(m: Chain, atm: int, otm: int)
    requires MonotoneOtm(m, atm, otm)
    ensures Found(m, atm, otm) == Scan(m, Window(m, atm, otm))
  {
    NothingHiddenSuffices(m, atm, otm);
  }

  lemma FoundInWindow(m: Chain, atm: int, otm: int)
    ensures NothingHidden(m, atm, otm) || MonotoneOtm(m, atm, otm) ==> Found(m, atm, otm) == Scan(m, Window(m, atm, otm))
  {
    if MonotoneOtm(m, atm, otm) {
      EarlyStopIsExhaustive(m, atm, otm);
    } else if NothingHidden(m, atm, otm) {
      NothingHiddenSuffices(m, atm, otm);
    }
  }

  lemma {:induction false} RestAddsNothing(m: Chain, atm: int, otm: int, n: nat, upto: nat)
    requires n <= upto
    requires forall i: nat | n <= i < upto :: Scan(m, Strikes(atm, otm, i + 1)) == Scan(m, Strikes(atm, otm, i))
    ensures Scan(m, Strikes(atm, otm, upto)) == Scan(m, Strikes(atm, otm, n))
  {
    var i := n;
    while i < upto
      invariant n <= i <= upto && Scan(m, Strikes(atm, otm, i)) == Scan(m, Strikes(atm, otm, n))
    {
      i := i + 1;
    }
  }

  lemma OneMoreAddsNothing(m: Chain, atm: int, otm: int, c: nat, i: nat)
    requires c < i < m.otmSteps && Quote(m, atm, otm, c).Some?
    requires Quote(m, atm, otm, i).Some? ==> Miss(m, StrikeAt(atm, otm, c)) <= Miss(m, StrikeAt(atm, otm, i))
    ensures Scan(m, Strikes(atm, otm, i + 1)) == Scan(m, Strikes(atm, otm, i))
  {
    var strikes, k := Strikes(atm, otm, i), StrikeAt(atm, otm, i);
    ScanSnoc(m, strikes, k);
    assert Strikes(atm, otm, i + 1) == strikes + [k];
    StrikesAt(atm, otm, i, c);
    PricedBoundsScan(m, strikes, c);
  }

  lemma PricedBoundsScan(m: Chain, strikes: seq<int>, c: nat)
    requires c < |strikes| && Priced(m, strikes[c]).Some?
    ensures Scan(m, strikes).Some? && Miss(m, Scan(m, strikes).value) <= Miss(m, strikes[c])
  {
    ScanIsFirstClosest(m, strikes);
  }

  lemma {:induction false} ScanSuffix(m: Chain, xs: seq<int>, ys: seq<int>, tail: seq<int>)
    requires Scan(m, xs) == Scan(m, ys)
    ensures Scan(m, xs + tail) == Scan(m, ys + tail)
  {
    if tail == [] {
      assert xs + tail == xs && ys + tail == ys;
    } else {
      var n := |tail| - 1;
      ScanSuffix(m, xs, ys, tail[..n]);
      ScanSnoc(m, xs + tail[..n], tail[n]);
      ScanSnoc(m, ys + tail[..n], tail[n]);
      assert xs + tail == xs + tail[..n] + [tail[n]] && ys + tail == ys + tail[..n] + [tail[n]];
    }
  }

  // ---- a chain on which the search misses ----

  lemma {:induction false} StrikeAtIs(from: int, stride: int, i: nat)
    ensures StrikeAt(from, stride, i) == from + i * stride
  {
    if i > 0 {
      StrikeAtIs(from, stride, i - 1);
      assert i * stride == (i - 1) * stride + stride;
    }
  }

  /** The window of a search: fifty strikes of the grid, thirty from the money towards OTM and then twenty from
      one short of it towards ITM. */
  lemma WindowIs(m: Market, atm: int, otm: int)
    ensures var w := Window(m.Quotes(), atm, otm);
      && |w| == 50
      && (forall i | 0 <= i < 30 :: w[i] == atm + i * otm)
      && (forall i | 30 <= i < 50 :: w[i] == atm - (i - 29) * otm)
  {
    WindowOfSteps(m.Quotes(), atm, otm, OTM_STEPS);
  }

  lemma WindowOfSteps(m: Chain, atm: int, otm: int, n: nat)
    requires m.otmSteps == n
    ensures var w := Window(m, atm, otm);
      && |w| == n + m.itmSteps
      && (forall i | 0 <= i < n :: w[i] == atm + i * otm)
      && (forall i | n <= i < n + m.itmSteps :: w[i] == atm - (i - n + 1) * otm)
  {
    var w := Window(m, atm, otm);
    forall i | 0 <= i < n ensures w[i] == atm + i * otm {
      StrikesAt(atm, otm, n, i);
      StrikeAtIs(atm, otm, i);
    }
    forall i | n <= i < n + m.itmSteps ensures w[i] == atm - (i - n + 1) * otm {
      StrikesAt(atm - otm, -otm, m.itmSteps, i - n);
      StrikeAtIs(atm - otm, -otm, i - n);
      assert (i - n) * -otm == -((i - n + 1) * otm) + otm;
    }
  }

  /** What a strike is quoted at: the newest premium at the entry time, if it can be priced at the exit time too. */
  lemma QuoteIsEntryPremium(m: Market, strike: int)
    requires m.step > 0
    ensures Priced(m.Quotes(), strike).Some?
            <==> (exists t :: t in m.fetch(strike) && t <= m.entry) && exists t :: t in m.fetch(strike) && t <= m.exit
    ensures Priced(m.Quotes(), strike).Some? ==> Priced(m.Quotes(), strike) == Premium(m.fetch(strike), m.entry, m.step)
  {
    var h := m.fetch(strike);
    PremiumNeverLooksAhead(h, h, m.entry, m.step);
    PremiumNeverLooksAhead(h, h, m.exit, m.step);
  }

  /** Around a money of 60000 two strikes of the 200-point grid have traded: the money at 90, and 60800
      at exactly the target of 100. */
  function ReboundHistory(strike: int): History {
    if strike == 60000 then map[600 := 90.0] else if strike == 60800 then map[600 := 100.0] else map[]
  }

  const REBOUND := Market(ReboundHistory, 600, 660, 60, 100.0)

  function Rebound(strike: int): Option<real> {
    if strike == 60000 then Some(90.0) else if strike == 60800 then Some(100.0) else None
  }

  /** A strike that traded once, at the entry time, is quoted at that premium. */
  lemma SingleTradeIsQuoted(m: Market, strike: int, premium: real)
    requires m.step > 0 && m.exit == m.entry + m.step && m.fetch(strike) == map[m.entry := premium]
    ensures Priced(m.Quotes(), strike) == Some(premium)
  {
    var h := m.fetch(strike);
    assert m.entry in h && m.exit !in h;
    assert GridBack(h, m.entry, m.step, 0) == Some(m.entry);
    assert Back(m.exit, m.step, 1) == m.entry && Back(m.entry, m.step, 0) == m.entry && Back(m.exit, m.step, 0) == m.exit;
    assert GridBack(h, m.exit, m.step, 1) == Some(m.entry);
  }

  lemma ReboundIsQuoted(strike: int)
    ensures Priced(REBOUND.Quotes(), strike) == Rebound(strike)
  {
    assert REBOUND.fetch(strike) == ReboundHistory(strike);
    if strike == 60000 {
      SingleTradeIsQuoted(REBOUND, strike, 90.0);
    } else if strike == 60800 {
      SingleTradeIsQuoted(REBOUND, strike, 100.0);
    }
  }

  /** Without monotone premiums the search can miss the closest strike of its own window: here it
      returns the money, ten away from the target, and never looks at the strike that hits it. */
  lemma NonMonotoneChainIsMissed()
    ensures Found(REBOUND.Quotes(), 60000, 200) == Some(60000)
    ensures FirstClosest(REBOUND.Quotes(), Window(REBOUND.Quotes(), 60000, 200), 60800)
  {
    forall k ensures Priced(REBOUND.Quotes(), k) == Rebound(k) { ReboundIsQuoted(k); }
    ReboundIsMissed(REBOUND.Quotes());
  }

  lemma ReboundIsMissed(m: Chain)
    requires (forall k :: Priced(m, k) == Rebound(k)) && m.target == 100.0 && m.otmSteps >= 5 && m.overshoot == OVERSHOOT
    ensures Found(m, 60000, 200) == Some(60000)
    ensures FirstClosest(m, Window(m, 60000, 200), 60800)
  {
    forall i: nat ensures StrikeAt(60000, 200, i) == 60000 + i * 200 { StrikeAtIs(60000, 200, i); }
    assert Visited(m, 60000, 200, 3, Some(0)) == 4;
    assert Visited(m, 60000, 200, 1, Some(0)) == 4;
    OnlyMoneyIsPriced(m);
    var w := Window(m, 60000, 200);
    forall i: nat | i < 5 ensures w[i] == 60000 + i * 200 { StrikesAt(60000, 200, m.otmSteps, i); }
    assert w[4] == 60800;
  }

  lemma OnlyMoneyIsPriced(m: Chain)
    requires forall k :: Priced(m, k) == Rebound(k)
    requires m.target == 100.0
    ensures Scan(m, Visit(m, 60000, 200, 4)) == Some(60000)
  {
    var visited := Visit(m, 60000, 200, 4);
    NeverRebounds(m, 0);
    PricedBoundsScan(m, visited, 0);
    ScanIsFirstClosest(m, visited);
    forall j: nat | j < |visited| ensures visited[j] != 60800 { NeverRebounds(m, j); }
  }

  lemma NeverRebounds(m: Chain, j: nat)
    requires j < |Visit(m, 60000, 200, 4)|
    ensures Visit(m, 60000, 200, 4)[j] != 60800 && Visit(m, 60000, 200, 4)[0] == 60000
  {
    StrikesAt(60000, 200, 4, 0);
    ReboundStrike();
    if j < 4 {
      StrikesAt(60000, 200, 4, j);
      StrikeAtIs(60000, 200, j);
    } else {
      StrikesAt(59800, -200, m.itmSteps, j - 4);
      ItmIsNotOtm(60000, 200, j - 4, 4);
    }
  }

  lemma ReboundStrike()
    ensures StrikeAt(60000, 200, 4) == 60800
  {
    StrikeAtIs(60000, 200, 4);
  }
}
