/** Opening the whole ladder, and unwinding it when a leg cannot be opened. */
module LadderEntry {
  import opened Common
  import opened Exchange
  import opened OptionsExecutor

  /** One leg: what its executor tracks and the premium it was sold at. */
  datatype Leg = Leg(product: Option<int>, size: int, premium: Option<real>)

  const FLAT := Leg(None, 0, None)

  /** How `open_option_by_otm_pct` can end. */
  datatype Opening =
    | Filled(product: int, price: real)
    | FilledWithoutPrice(product: int)          // the leg is live and tracked, but None is returned
    | NoContract                                // no order was sent, None is returned
    | MarginError                               // raised before any order
    | Raised(product: int, executed: bool)      // any other exception, the order executed or not

  /** `unwindFailed` collects the legs whose unwind close was tried and failed. */
  datatype Ladder = Ladder(book: Book, legs: seq<Leg>, unwindFailed: set<nat>)

  function FirstFailure(outcomes: seq<Opening>): (n: nat)
    ensures n <= |outcomes| && (forall i | 0 <= i < n :: outcomes[i].Filled?)
    ensures n < |outcomes| ==> !outcomes[n].Filled?
  {
    if outcomes == [] then 0
    else
      var k := |outcomes| - 1;
      var n := FirstFailure(outcomes[..k]);
      if n < k || !outcomes[k].Filled? then n else n + 1
  }

  /** The ladder once the first `n` legs have filled. */
  function Opened(l: Ladder, lots: int, outcomes: seq<Opening>, n: nat): (r: Ladder)
    requires n <= |outcomes| == |l.legs| && forall i | 0 <= i < n :: outcomes[i].Filled?
    ensures |r.legs| == |l.legs|
  {
    if n == 0 then l
    else
      var before, o := Opened(l, lots, outcomes, n - 1), outcomes[n - 1];
      before.(book := Sell(before.book, o.product, lots),
              legs := before.legs[n - 1 := Leg(Some(o.product), lots, Some(o.price))])
  }

  /** One leg of `_unwind`. */
  function UnwoundLeg(l: Ladder, i: nat, fate: Fate): (r: Ladder)
    requires i < |l.legs|
    ensures |r.legs| == |l.legs|
  {
    var leg := l.legs[i];
    if leg.product.None? then l
    else
      var book := if fate.reaches then BuyReduceOnly(l.book, leg.product.value, leg.size) else l.book;
      if fate.reaches && fate.replies then Ladder(book, l.legs[i := FLAT], l.unwindFailed)
      else Ladder(book, l.legs, l.unwindFailed + {i})
  }

  function Unwound(l: Ladder, fates: seq<Fate>, n: nat): (r: Ladder)
    requires n <= |l.legs| == |fates|
    ensures |r.legs| == |l.legs|
  {
    if n == 0 then l else UnwoundLeg(Unwound(l, fates, n - 1), n - 1, fates[n - 1])
  }

  /** The whole entry. */
  function Entered(l: Ladder, lots: int, outcomes: seq<Opening>, fates: seq<Fate>): Ladder
    requires |l.legs| == |outcomes| == |fates|
  {
    var n := FirstFailure(outcomes);
    var filled := Opened(l, lots, outcomes, n);
    if n == |outcomes| then filled
    else match outcomes[n]
      case Raised(p, executed) => if executed then filled.(book := Sell(filled.book, p, lots)) else filled
      case FilledWithoutPrice(p) => Unwound(WithoutPrice(filled, lots, n, p), fates, n)
      case _ => Unwound(filled, fates, n)
  }

  function WithoutPrice(l: Ladder, lots: int, n: nat, p: int): (r: Ladder)
    requires n < |l.legs|
    ensures |r.legs| == |l.legs|
  {
    l.(book := Sell(l.book, p, lots), legs := l.legs[n := Leg(Some(p), lots, None)])
  }

  class LadderEngine {
    var ladder: Ladder
    var entryInProgress: bool
    const lots: int

    constructor (legs: nat, lots: int)
      ensures ladder == Ladder(map[], seq(legs, _ => FLAT), {}) && !entryInProgress && this.lots == lots
    {
      ladder := Ladder(map[], seq(legs, _ => FLAT), {});
      entryInProgress, this.lots := false, lots;
    }

    predicate HasOpenStrangle() reads this { exists i :: 0 <= i < |ladder.legs| && ladder.legs[i].product.Some? }

    /** `_maybe_enter`; `raised` when an exception escapes it. */
    method MaybeEnter(spotKnown: bool, outcomes: seq<Opening>, fates: seq<Fate>) returns (raised: bool)
      requires |outcomes| == |fates| == |ladder.legs|
      modifies this
      ensures entryInProgress == old(entryInProgress)
      ensures old(entryInProgress || HasOpenStrangle()) || !spotKnown ==> ladder == old(ladder) && !raised
      ensures !old(entryInProgress || HasOpenStrangle()) && spotKnown ==>
        && ladder == Entered(old(ladder), lots, outcomes, fates)
        && raised == (FirstFailure(outcomes) < |outcomes| && outcomes[FirstFailure(outcomes)].Raised?)
    {
      if entryInProgress || HasOpenStrangle() || !spotKnown { return false; }
      entryInProgress := true;
      ghost var l, n := ladder, FirstFailure(outcomes);
      for i := 0 to |outcomes|
        invariant i <= n && entryInProgress && ladder == Opened(l, lots, outcomes, i)
      {
        match outcomes[i] {
          case MarginError | NoContract =>
            Unwind(fates, i);
            entryInProgress := false;
            return false;
          case FilledWithoutPrice(p) =>
            ladder := WithoutPrice(ladder, lots, i, p);
            Unwind(fates, i);
            entryInProgress := false;
            return false;
          case Raised(p, executed) =>
            if executed { ladder := ladder.(book := Sell(ladder.book, p, lots)); }
            entryInProgress := false;
            return true;
          case Filled(p, price) =>
            ladder := ladder.(book := Sell(ladder.book, p, lots),
                              legs := ladder.legs[i := Leg(Some(p), lots, Some(price))]);
        }
      }
      entryInProgress := false;
      raised := false;
    }

    /** `_unwind` of the first `n` legs: a failed close does not stop the others. */
    method Unwind(fates: seq<Fate>, n: nat)
      requires n <= |ladder.legs| == |fates|
      modifies this`ladder
      ensures ladder == Unwound(old(ladder), fates, n)
    {
      ghost var l := ladder;
      for i := 0 to n
        invariant ladder == Unwound(l, fates, i)
      {
        var leg := ladder.legs[i];
        if leg.product.Some? {
          var book := if fates[i].reaches then BuyReduceOnly(ladder.book, leg.product.value, leg.size) else ladder.book;
          if fates[i].reaches && fates[i].replies {
            ladder := Ladder(book, ladder.legs[i := FLAT], ladder.unwindFailed);
          } else {
            ladder := Ladder(book, ladder.legs, ladder.unwindFailed + {i});
          }
        }
      }
    }
  }

  // ---- every live lot belongs to a tracked leg ----

  function OnProduct(leg: Leg, p: int): int { if leg.product == Some(p) then leg.size else 0 }

  function TrackedLots(legs: seq<Leg>, p: int): int {
    if legs == [] then 0 else TrackedLots(legs[..|legs| - 1], p) + OnProduct(legs[|legs| - 1], p)
  }

  lemma {:induction false} TrackedLotsUpdate(legs: seq<Leg>, i: nat, leg: Leg, p: int)
    requires i < |legs|
    ensures TrackedLots(legs[i := leg], p) == TrackedLots(legs, p) - OnProduct(legs[i], p) + OnProduct(leg, p)
  {
    var n := |legs| - 1;
    if i < n {
      TrackedLotsUpdate(legs[..n], i, leg, p);
      assert legs[i := leg][..n] == legs[..n][i := leg];
    } else {
      assert legs[i := leg][..n] == legs[..n];
    }
  }

  lemma {:induction false} TrackedLotsNonNegative(legs: seq<Leg>, p: int)
    requires forall i | 0 <= i < |legs| :: legs[i].size >= 0
    ensures TrackedLots(legs, p) >= 0
  {
    if legs != [] { TrackedLotsNonNegative(legs[..|legs| - 1], p); }
  }

  /** No live short is untracked, and nothing was turned long. */
  ghost predicate Covered(l: Ladder) {
    && (forall p :: -TrackedLots(l.legs, p) <= Net(l.book, p) <= 0)
    && forall i | 0 <= i < |l.legs| :: l.legs[i].size >= 0
  }

  /** Either the full ladder stands, every leg live with its premium, or what is left is tracked and
      belongs to legs whose own unwind close was tried and lost, on the way out or on the way back. */
  ghost predicate AllOrNothing(l: Ladder, fates: seq<Fate>)
    requires |fates| == |l.legs|
  {
    || ((forall i | 0 <= i < |l.legs| :: l.legs[i].product.Some? && l.legs[i].premium.Some?)
        && Exact(l))
    || (Covered(l) && forall i | 0 <= i < |l.legs| && l.legs[i].product.Some? :: i in l.unwindFailed && Lost(fates[i]))
  }

  predicate Lost(fate: Fate) { !(fate.reaches && fate.replies) }

  ghost predicate Start(l: Ladder) {
    l.book == map[] && l.unwindFailed == {} && forall i | 0 <= i < |l.legs| :: l.legs[i] == FLAT
  }

  lemma {:induction false} FlatTracksNothing(legs: seq<Leg>, p: int)
    requires forall i | 0 <= i < |legs| :: legs[i] == FLAT
    ensures TrackedLots(legs, p) == 0
  {
    if legs != [] { FlatTracksNothing(legs[..|legs| - 1], p); }
  }

  lemma {:induction false} OpenedLegs(l: Ladder, lots: int, outcomes: seq<Opening>, n: nat)
    requires Start(l) && n <= |outcomes| == |l.legs| && forall i | 0 <= i < n :: outcomes[i].Filled?
    ensures var r := Opened(l, lots, outcomes, n);
      && r.unwindFailed == {}
      && forall i | 0 <= i < |r.legs| ::
           r.legs[i] == if i < n then Leg(Some(outcomes[i].product), lots, Some(outcomes[i].price)) else FLAT
  {
    if n > 0 { OpenedLegs(l, lots, outcomes, n - 1); }
  }

  /** After `n` fills exactly the first `n` legs are tracked, each as it was filled, and the book is theirs. */
  lemma {:induction false} OpenedIsExact(l: Ladder, lots: int, outcomes: seq<Opening>, n: nat)
    requires lots > 0 && Start(l) && n <= |outcomes| == |l.legs| && forall i | 0 <= i < n :: outcomes[i].Filled?
    ensures var r := Opened(l, lots, outcomes, n);
      && r.unwindFailed == {}
      && (forall i | 0 <= i < |r.legs| ::
            r.legs[i] == if i < n then Leg(Some(outcomes[i].product), lots, Some(outcomes[i].price)) else FLAT)
      && Exact(r)
  {
    OpenedLegs(l, lots, outcomes, n);
    if n == 0 {
      forall p ensures Net(l.book, p) == -TrackedLots(l.legs, p) { FlatTracksNothing(l.legs, p); }
    } else {
      var before, o := Opened(l, lots, outcomes, n - 1), outcomes[n - 1];
      OpenedIsExact(l, lots, outcomes, n - 1);
      SellingIsExact(before, n - 1, lots, o.product, Some(o.price));
    }
  }

  /** The book holds exactly the shorts the legs track. */
  ghost predicate Exact(l: Ladder) { forall p :: Net(l.book, p) == -TrackedLots(l.legs, p) }

  lemma SellingIsExact(l: Ladder, i: nat, lots: int, p: int, premium: Option<real>)
    requires i < |l.legs| && l.legs[i] == FLAT && Exact(l)
    ensures Exact(l.(book := Sell(l.book, p, lots), legs := l.legs[i := Leg(Some(p), lots, premium)]))
  {
    var r := l.(book := Sell(l.book, p, lots), legs := l.legs[i := Leg(Some(p), lots, premium)]);
    forall q ensures Net(r.book, q) == -TrackedLots(r.legs, q) {
      TrackedLotsUpdate(l.legs, i, Leg(Some(p), lots, premium), q);
      assert Net(l.book, q) == -TrackedLots(l.legs, q);
    }
  }

  lemma ExactIsCovered(l: Ladder)
    requires Exact(l) && forall i | 0 <= i < |l.legs| :: l.legs[i].size >= 0
    ensures Covered(l)
  {
    forall p ensures -TrackedLots(l.legs, p) <= Net(l.book, p) <= 0 { TrackedLotsNonNegative(l.legs, p); }
  }

  /** What unwinding does to the legs, read off the fates of the requests: of the first `n` legs, one that
      is tracked is flat afterwards exactly when its close reached and was answered, and is otherwise as it
      was; exactly the tracked legs whose close was lost are recorded. */
  lemma {:induction false} UnwoundShape(l: Ladder, fates: seq<Fate>, n: nat)
    requires n <= |l.legs| == |fates|
    ensures var r := Unwound(l, fates, n);
      && (forall i | 0 <= i < |l.legs| ::
            r.legs[i] == if i < n && l.legs[i].product.Some? && fates[i].reaches && fates[i].replies then FLAT else l.legs[i])
      && (forall i: nat :: i in r.unwindFailed
            <==> i in l.unwindFailed || (i < n && l.legs[i].product.Some? && Lost(fates[i])))
  {
    if n > 0 { UnwoundShape(l, fates, n - 1); }
  }

  /** The lots on a product of the first `n` legs whose close request reached the exchange. */
  function ReachedLots(legs: seq<Leg>, fates: seq<Fate>, n: nat, p: int): int
    requires n <= |legs| == |fates|
  {
    if n == 0 then 0
    else ReachedLots(legs, fates, n - 1, p) + if fates[n - 1].reaches then OnProduct(legs[n - 1], p) else 0
  }

  lemma {:induction false} ReachedIsTracked(legs: seq<Leg>, fates: seq<Fate>, n: nat, p: int)
    requires n <= |legs| == |fates| && forall i | 0 <= i < |legs| :: legs[i].size >= 0
    ensures 0 <= ReachedLots(legs, fates, n, p) <= TrackedLots(legs[..n], p)
  {
    if n > 0 {
      ReachedIsTracked(legs, fates, n - 1, p);
      assert legs[..n][..n - 1] == legs[..n - 1];
    }
  }

  lemma {:induction false} PrefixIsTracked(legs: seq<Leg>, n: nat, p: int)
    requires n <= |legs| && forall i | 0 <= i < |legs| :: legs[i].size >= 0
    ensures TrackedLots(legs[..n], p) <= TrackedLots(legs, p)
    decreases |legs| - n
  {
    if n == |legs| {
      assert legs[..n] == legs;
    } else {
      PrefixIsTracked(legs, n + 1, p);
      assert legs[..n + 1][..n] == legs[..n];
    }
  }

  lemma StillOwed(l: Ladder, fates: seq<Fate>, n: nat, p: int)
    requires 0 < n <= |l.legs| == |fates| && forall i | 0 <= i < |l.legs| :: l.legs[i].size >= 0
    requires Net(l.book, p) == -TrackedLots(l.legs, p)
    ensures Net(l.book, p) + ReachedLots(l.legs, fates, n - 1, p) + OnProduct(l.legs[n - 1], p) <= 0
  {
    ReachedIsTracked(l.legs, fates, n - 1, p);
    PrefixIsTracked(l.legs, n, p);
    assert l.legs[..n][..n - 1] == l.legs[..n - 1];
  }

  lemma BuyBackMovesNet(l: Ladder, i: nat, fate: Fate, p: int)
    requires i < |l.legs| && l.legs[i].size >= 0 && Net(l.book, p) + OnProduct(l.legs[i], p) <= 0
    ensures Net(UnwoundLeg(l, i, fate).book, p) == Net(l.book, p) + if fate.reaches then OnProduct(l.legs[i], p) else 0
  {
  }

  lemma LaterLegWaits(l: Ladder, fates: seq<Fate>, n: nat, i: nat)
    requires n <= i < |l.legs| == |fates|
    ensures Unwound(l, fates, n).legs[i] == l.legs[i]
  {
    UnwoundShape(l, fates, n);
  }

  /** And to the book: if it holds exactly the tracked shorts of a product, that product is bought back by exactly
      the lots of the legs on it whose request reached the exchange, whatever came back. */
  lemma {:induction false} UnwoundBuysBack(l: Ladder, fates: seq<Fate>, n: nat, p: int)
    requires n <= |l.legs| == |fates| && forall i | 0 <= i < |l.legs| :: l.legs[i].size >= 0
    requires Net(l.book, p) == -TrackedLots(l.legs, p)
    ensures Net(Unwound(l, fates, n).book, p) == Net(l.book, p) + ReachedLots(l.legs, fates, n, p)
  {
    if n > 0 {
      UnwoundBuysBack(l, fates, n - 1, p);
      LaterLegWaits(l, fates, n - 1, n - 1);
      StillOwed(l, fates, n, p);
      BuyBackMovesNet(Unwound(l, fates, n - 1), n - 1, fates[n - 1], p);
    }
  }

  /** Unwinding keeps every live lot covered. */
  lemma {:induction false} UnwoundKeepsCovered(l: Ladder, fates: seq<Fate>, n: nat)
    requires n <= |l.legs| == |fates| && Covered(l)
    ensures Covered(Unwound(l, fates, n))
  {
    if n > 0 {
      UnwoundKeepsCovered(l, fates, n - 1);
      UnwoundLegKeepsCovered(Unwound(l, fates, n - 1), n - 1, fates[n - 1]);
    }
  }

  lemma UnwoundLegKeepsCovered(l: Ladder, i: nat, fate: Fate)
    requires i < |l.legs| && Covered(l)
    ensures Covered(UnwoundLeg(l, i, fate))
  {
    var r := UnwoundLeg(l, i, fate);
    forall p
      ensures -TrackedLots(r.legs, p) <= Net(r.book, p) <= 0
    {
      TrackedLotsUpdate(l.legs, i, FLAT, p);
      TrackedLotsNonNegative(r.legs, p);
    }
  }

  /** No leg failed, or the first failure is one the engine unwinds completely. */
  predicate Handled(outcomes: seq<Opening>) {
    var n := FirstFailure(outcomes);
    n == |outcomes| || outcomes[n].MarginError? || outcomes[n].NoContract?
      || (n == 0 && outcomes[n].Raised? && !outcomes[n].executed)
  }

  lemma UnwoundIsNothing(l: Ladder, fates: seq<Fate>, n: nat)
    requires n <= |l.legs| == |fates| && Covered(l) && forall i | n <= i < |l.legs| :: l.legs[i] == FLAT
    requires l.unwindFailed == {}
    ensures AllOrNothing(Unwound(l, fates, n), fates)
  {
    UnwoundKeepsCovered(l, fates, n);
    UnwoundShape(l, fates, n);
  }

  /** A leg that filled without a price is left standing alone. */
  lemma UnpricedLegIsLeft(l: Ladder, fates: seq<Fate>, n: nat, lots: int, p: int)
    requires n < |l.legs| == |fates| && lots > 0 && l.unwindFailed == {} && l.legs[n] == FLAT
    requires Covered(WithoutPrice(l, lots, n, p))
    ensures !AllOrNothing(Unwound(WithoutPrice(l, lots, n, p), fates, n), fates)
  {
    UnwoundShape(WithoutPrice(l, lots, n, p), fates, n);
    var r := Unwound(WithoutPrice(l, lots, n, p), fates, n);
    assert r.legs[n] == Leg(Some(p), lots, None) && n !in r.unwindFailed;
  }

  lemma WithoutPriceIsExact(l: Ladder, n: nat, lots: int, p: int)
    requires n < |l.legs| && l.legs[n] == FLAT && lots > 0
    requires Exact(l) && forall i | 0 <= i < |l.legs| :: l.legs[i].size >= 0
    ensures Covered(WithoutPrice(l, lots, n, p))
  {
    SellingIsExact(l, n, lots, p, None);
    ExactIsCovered(WithoutPrice(l, lots, n, p));
  }

  /** An exception other than the margin error skips the unwind. */
  lemma RaisedIsNothingIff(l: Ladder, fates: seq<Fate>, n: nat, lots: int, p: int, executed: bool)
    requires n < |l.legs| == |fates| && lots > 0 && l.unwindFailed == {}
    requires forall i | 0 <= i < |l.legs| :: if i < n then l.legs[i].product.Some? && l.legs[i].size == lots else l.legs[i] == FLAT
    requires Exact(l)
    ensures AllOrNothing(if executed then l.(book := Sell(l.book, p, lots)) else l, fates) <==> n == 0 && !executed
  {
    var r := if executed then l.(book := Sell(l.book, p, lots)) else l;
    assert r.legs[n] == FLAT;
    if n > 0 {
      assert r.legs[0].product.Some? && 0 !in r.unwindFailed;
    } else if executed {
      assert Net(l.book, p) == -TrackedLots(l.legs, p);
      assert Net(r.book, p) == -TrackedLots(r.legs, p) - lots;
    } else {
      ExactIsCovered(l);
    }
  }

  /** For any number of legs, any fills and any unwind replies, entry is all-or-nothing exactly when
      the first failure, if any, is a margin error, a missing contract, or an exception on the very
      first leg whose order did not execute. */
  lemma EntryIsAllOrNothingIff(l: Ladder, lots: int, outcomes: seq<Opening>, fates: seq<Fate>)
    requires lots > 0 && Start(l) && |l.legs| == |outcomes| == |fates|
    ensures AllOrNothing(Entered(l, lots, outcomes, fates), fates) <==> Handled(outcomes)
  {
    var n := FirstFailure(outcomes);
    var filled := Opened(l, lots, outcomes, n);
    OpenedIsExact(l, lots, outcomes, n);
    ExactIsCovered(filled);
    if n < |outcomes| {
      match outcomes[n]
      case Raised(p, executed) => RaisedIsNothingIff(filled, fates, n, lots, p, executed);
      case FilledWithoutPrice(p) =>
        WithoutPriceIsExact(filled, n, lots, p);
        UnpricedLegIsLeft(filled, fates, n, lots, p);
      case NoContract | MarginError => UnwoundIsNothing(filled, fates, n);
      case Filled(_, _) =>
    }
  }

  /** When the failure is a margin error or a missing contract, what an entry leaves: each leg that had
      filled is flat if its close reached and was answered and stands as sold otherwise, no other leg is
      touched, and each product is short exactly the filled lots whose close did not reach. */
  lemma UnwoundEntry(l: Ladder, lots: int, outcomes: seq<Opening>, fates: seq<Fate>)
    requires lots > 0 && Start(l) && |l.legs| == |outcomes| == |fates|
    requires var n := FirstFailure(outcomes); n < |outcomes| && (outcomes[n].MarginError? || outcomes[n].NoContract?)
    ensures var r, n := Entered(l, lots, outcomes, fates), FirstFailure(outcomes);
      && (forall i | 0 <= i < |r.legs| ::
            r.legs[i] == if i < n && Lost(fates[i]) then Leg(Some(outcomes[i].product), lots, Some(outcomes[i].price)) else FLAT)
      && forall p :: Net(r.book, p) == -UnreachedLots(lots, outcomes, fates, n, p)
  {
    var n := FirstFailure(outcomes);
    var filled := Opened(l, lots, outcomes, n);
    OpenedIsExact(l, lots, outcomes, n);
    UnwoundShape(filled, fates, n);
    forall p ensures Net(Unwound(filled, fates, n).book, p) == -UnreachedLots(lots, outcomes, fates, n, p) {
      assert Net(filled.book, p) == -TrackedLots(filled.legs, p);
      UnwoundBuysBack(filled, fates, n, p);
      TrackedSplits(filled.legs, lots, outcomes, fates, n, p);
    }
  }

  /** The lots sold on a product by the first `n` fills whose unwind request did not reach the exchange. */
  function UnreachedLots(lots: int, outcomes: seq<Opening>, fates: seq<Fate>, n: nat, p: int): int
    requires n <= |outcomes| == |fates| && forall i | 0 <= i < n :: outcomes[i].Filled?
  {
    if n == 0 then 0
    else UnreachedLots(lots, outcomes, fates, n - 1, p)
         + if outcomes[n - 1].product == p && !fates[n - 1].reaches then lots else 0
  }

  lemma TrackedSplits(legs: seq<Leg>, lots: int, outcomes: seq<Opening>, fates: seq<Fate>, n: nat, p: int)
    requires n <= |legs| == |outcomes| == |fates| && forall i | 0 <= i < n :: outcomes[i].Filled?
    requires forall i | 0 <= i < |legs| ::
               legs[i] == if i < n then Leg(Some(outcomes[i].product), lots, Some(outcomes[i].price)) else FLAT
    ensures TrackedLots(legs, p) == ReachedLots(legs, fates, n, p) + UnreachedLots(lots, outcomes, fates, n, p)
  {
    TrackedPrefixSplits(legs, lots, outcomes, fates, n, p);
    FlatTailTracksNothing(legs, n, p);
  }

  lemma {:induction false} TrackedPrefixSplits(legs: seq<Leg>, lots: int, outcomes: seq<Opening>, fates: seq<Fate>, n: nat, p: int)
    requires n <= |legs| == |outcomes| == |fates| && forall i | 0 <= i < n :: outcomes[i].Filled?
    requires forall i | 0 <= i < n :: legs[i] == Leg(Some(outcomes[i].product), lots, Some(outcomes[i].price))
    ensures TrackedLots(legs[..n], p) == ReachedLots(legs, fates, n, p) + UnreachedLots(lots, outcomes, fates, n, p)
  {
    if n > 0 {
      TrackedPrefixSplits(legs, lots, outcomes, fates, n - 1, p);
      assert legs[..n][..n - 1] == legs[..n - 1];
    }
  }

  lemma {:induction false} FlatTailTracksNothing(legs: seq<Leg>, n: nat, p: int)
    requires n <= |legs| && forall i | n <= i < |legs| :: legs[i] == FLAT
    ensures TrackedLots(legs, p) == TrackedLots(legs[..n], p)
  {
    if n == |legs| {
      assert legs[..n] == legs;
    } else {
      FlatTailTracksNothing(legs[..|legs| - 1], n, p);
      assert legs[..|legs| - 1][..n] == legs[..n];
    }
  }

  /** A call sold at 100 and then a put whose reply is lost: the put is live and untracked, and the call
      stands alone, tracked and never unwound. */
  lemma PartialLadderIsReachable()
    ensures var l := Ladder(map[], [FLAT, FLAT], {});
      var r := Entered(l, 1, [Filled(1, 100.0), Raised(2, true)], [Fate(true, true), Fate(true, true)]);
      && Start(l) && !AllOrNothing(r, [Fate(true, true), Fate(true, true)])
      && r.book == map[1 := -1, 2 := -1] && r.legs == [Leg(Some(1), 1, Some(100.0)), FLAT] && r.unwindFailed == {}
  {
    var l := Ladder(map[], [FLAT, FLAT], {});
    var outcomes := [Filled(1, 100.0), Raised(2, true)];
    assert outcomes[..1] == [Filled(1, 100.0)] && outcomes[..1][..0] == [];
    assert FirstFailure(outcomes[..1]) == 1;
    assert FirstFailure(outcomes) == 1;
    assert Opened(l, 1, outcomes, 0) == l;
    assert Opened(l, 1, outcomes, 1) == Ladder(map[1 := -1], [Leg(Some(1), 1, Some(100.0)), FLAT], {});
    EntryIsAllOrNothingIff(l, 1, outcomes, [Fate(true, true), Fate(true, true)]);
  }
}
