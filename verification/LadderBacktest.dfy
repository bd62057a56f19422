/** The laddered strangle backtest: any number of sold legs, closed together on combined premium. */
module LadderBacktest {
  import opened Common
  import opened OptionPricing

  datatype Rules = Rules(entrySlip: real, exitSlip: real, target: real, stop: real, floor: bool, lots: int, lotSize: real)
  {
    /** Fills keep the sign of the premium, and something is traded. */
    predicate Ok() { entrySlip <= 1.0 && exitSlip >= -1.0 && lots > 0 && lotSize > 0.0 && target <= 1.0 && stop >= -1.0 }

    /** Underlying traded per leg. */
    function Size(): real { lotSize * lots as real }
  }

  datatype Leg = Leg(contract: Contract, premium: real)

  datatype Ladder = Ladder(legs: seq<Leg>, entryTime: int, entryBtc: real, combined: real)

  datatype Reason = Eod | Target | Stop | OpenAtEnd

  datatype Trade = Trade(entryTime: int, exitTime: int, reason: Reason, combinedEntry: real, combinedExit: real,
                         gross: real, fee: real, net: real)

  function Entries(legs: seq<Leg>): (es: seq<real>)
    ensures |es| == |legs| && forall i | 0 <= i < |legs| :: es[i] == legs[i].premium
  {
    seq(|legs|, i requires 0 <= i < |legs| => legs[i].premium)
  }

  // ---- gross and fees of a close ----

  lemma TimesAdds(a: real, b: real, c: real)
    ensures Times(a + b, c) == Times(a, c) + Times(b, c)
  {
  }

  /** What each leg fills at, given its premium and the slippage factor. */
  function Fills(ps: seq<real>, factor: real): (fills: seq<real>)
    ensures |fills| == |ps|
  {
    if ps == [] then [] else Fills(ps[..|ps| - 1], factor) + [Times(ps[|ps| - 1], factor)]
  }

  /** The sum over the legs of a value of each leg's two fills. */
  function Total(sold: seq<real>, bought: seq<real>, leg: (real, real) -> real): real
    requires |sold| == |bought|
  {
    if sold == [] then 0.0
    else Total(sold[..|sold| - 1], bought[..|bought| - 1], leg) + leg(sold[|sold| - 1], bought[|bought| - 1])
  }

  function LegGross(r: Rules): (real, real) -> real {
    (sold, bought) => (sold - bought) * r.lots as real * r.lotSize
  }

  function LegFee(entryBtc: real, exitBtc: real, r: Rules): (real, real) -> real {
    (sold, bought) => SideFee(entryBtc, sold, r.lots, r.lotSize) + SideFee(exitBtc, bought, r.lots, r.lotSize)
  }

  function Net(es: seq<real>, xs: seq<real>, entryBtc: real, exitBtc: real, r: Rules): real
    requires |es| == |xs|
  {
    var sold, bought := Fills(es, 1.0 - r.entrySlip), Fills(xs, 1.0 + r.exitSlip);
    Total(sold, bought, LegGross(r)) - Total(sold, bought, LegFee(entryBtc, exitBtc, r))
  }

  ghost predicate NonNegative(xs: seq<real>) { forall i | 0 <= i < |xs| :: xs[i] >= 0.0 }

  lemma {:induction false} FillsScale(ps: seq<real>, factor: real)
    ensures Sum(Fills(ps, factor)) == Times(Sum(ps), factor)
    ensures NonNegative(ps) && factor >= 0.0 ==> NonNegative(Fills(ps, factor))
  {
    if ps != [] {
      var n := |ps| - 1;
      FillsScale(ps[..n], factor);
      assert Fills(ps, factor)[..n] == Fills(ps[..n], factor);
      TimesAdds(Sum(ps[..n]), ps[n], factor);
      if NonNegative(ps) && factor >= 0.0 { MulMonotone(0.0, ps[n], factor); }
    }
  }

  // ---- a close per unit of underlying ----

  function LegUnit(entryBtc: real, exitBtc: real): (real, real) -> real {
    (sold, bought) => sold - bought - (UnitFee(entryBtc, sold) + UnitFee(exitBtc, bought))
  }

  function UnitNet(es: seq<real>, xs: seq<real>, entryBtc: real, exitBtc: real, r: Rules): real
    requires |es| == |xs|
  {
    Total(Fills(es, 1.0 - r.entrySlip), Fills(xs, 1.0 + r.exitSlip), LegUnit(entryBtc, exitBtc))
  }

  /** Each leg's gain less its cost is `size` units. */
  ghost predicate Scaled(gain: (real, real) -> real, cost: (real, real) -> real, unit: (real, real) -> real, size: real) {
    forall s, b :: gain(s, b) - cost(s, b) == Times(unit(s, b), size)
  }

  lemma ScaledAt(gain: (real, real) -> real, cost: (real, real) -> real, unit: (real, real) -> real, size: real,
                 s: real, b: real)
    requires Scaled(gain, cost, unit, size)
    ensures gain(s, b) - cost(s, b) == Times(unit(s, b), size)
  {
  }

  lemma {:induction false} TotalsScale(sold: seq<real>, bought: seq<real>, gain: (real, real) -> real,
                                       cost: (real, real) -> real, unit: (real, real) -> real, size: real)
    requires |sold| == |bought| && Scaled(gain, cost, unit, size)
    ensures Total(sold, bought, gain) - Total(sold, bought, cost) == Times(Total(sold, bought, unit), size)
  {
    if sold == [] {
      assert Times(0.0, size) == 0.0;
    } else {
      var n := |sold| - 1;
      TotalsScale(sold[..n], bought[..n], gain, cost, unit, size);
      ScaledAt(gain, cost, unit, size, sold[n], bought[n]);
      TimesAdds(Total(sold[..n], bought[..n], unit), unit(sold[n], bought[n]), size);
    }
  }

  lemma LegScales(entryBtc: real, exitBtc: real, r: Rules)
    ensures Scaled(LegGross(r), LegFee(entryBtc, exitBtc, r), LegUnit(entryBtc, exitBtc), r.Size())
  {
    forall s, b ensures LegGross(r)(s, b) - LegFee(entryBtc, exitBtc, r)(s, b) == Times(LegUnit(entryBtc, exitBtc)(s, b), r.Size()) {
      LegScalesAt(s, b, entryBtc, exitBtc, r);
    }
  }

  lemma LegScalesAt(s: real, b: real, entryBtc: real, exitBtc: real, r: Rules)
    ensures LegGross(r)(s, b) - LegFee(entryBtc, exitBtc, r)(s, b) == Times(LegUnit(entryBtc, exitBtc)(s, b), r.Size())
  {
    SizeFactors(s - b, entryBtc, s, exitBtc, b, r.lots, r.lotSize);
  }

  lemma FillsNetScales(sold: seq<real>, bought: seq<real>, entryBtc: real, exitBtc: real, r: Rules)
    requires |sold| == |bought|
    ensures Total(sold, bought, LegGross(r)) - Total(sold, bought, LegFee(entryBtc, exitBtc, r))
            == Times(Total(sold, bought, LegUnit(entryBtc, exitBtc)), r.Size())
  {
    var gain, cost, unit, size := LegGross(r), LegFee(entryBtc, exitBtc, r), LegUnit(entryBtc, exitBtc), r.Size();
    LegScales(entryBtc, exitBtc, r);
    TotalsScale(sold, bought, gain, cost, unit, size);
  }

  /** The accumulating loop over the legs is the size traded times what one unit makes. */
  lemma NetScales(es: seq<real>, xs: seq<real>, entryBtc: real, exitBtc: real, r: Rules)
    requires |es| == |xs|
    ensures Net(es, xs, entryBtc, exitBtc, r) == Times(UnitNet(es, xs, entryBtc, exitBtc, r), r.Size())
  {
    FillsNetScales(Fills(es, 1.0 - r.entrySlip), Fills(xs, 1.0 + r.exitSlip), entryBtc, exitBtc, r);
  }

  /** Fees take between nothing and a tenth of each side. */
  ghost predicate Capped(unit: (real, real) -> real) {
    forall s, b | s >= 0.0 && b >= 0.0 :: 0.9 * s - 1.1 * b <= unit(s, b) <= s - b
  }

  lemma LegIsCapped(entryBtc: real, exitBtc: real)
    requires entryBtc >= 0.0 && exitBtc >= 0.0
    ensures Capped(LegUnit(entryBtc, exitBtc))
  {
  }

  lemma {:induction false} TotalBounds(sold: seq<real>, bought: seq<real>, unit: (real, real) -> real)
    requires |sold| == |bought| && NonNegative(sold) && NonNegative(bought) && Capped(unit)
    ensures 0.9 * Sum(sold) - 1.1 * Sum(bought) <= Total(sold, bought, unit) <= Sum(sold) - Sum(bought)
  {
    if sold != [] { TotalBounds(sold[..|sold| - 1], bought[..|bought| - 1], unit); }
  }

  /** A close depends on the legs only through the two combined premiums, up to fees that take at
      most a tenth of each side. */
  lemma UnitNetBounds(es: seq<real>, xs: seq<real>, entryBtc: real, exitBtc: real, r: Rules)
    returns (sold: real, bought: real)
    requires r.Ok() && |es| == |xs| && NonNegative(es) && NonNegative(xs) && entryBtc >= 0.0 && exitBtc >= 0.0
    ensures sold == Times(Sum(es), 1.0 - r.entrySlip) && bought == Times(Sum(xs), 1.0 + r.exitSlip)
    ensures 0.9 * sold - 1.1 * bought <= UnitNet(es, xs, entryBtc, exitBtc, r) <= sold - bought
  {
    FillsScale(es, 1.0 - r.entrySlip);
    FillsScale(xs, 1.0 + r.exitSlip);
    LegIsCapped(entryBtc, exitBtc);
    TotalBounds(Fills(es, 1.0 - r.entrySlip), Fills(xs, 1.0 + r.exitSlip), LegUnit(entryBtc, exitBtc));
    sold, bought := Sum(Fills(es, 1.0 - r.entrySlip)), Sum(Fills(xs, 1.0 + r.exitSlip));
  }

  lemma SizePositive(r: Rules)
    requires r.Ok()
    ensures r.Size() > 0.0
  {
    ProductPositive(r.lotSize, r.lots as real);
  }

  /** Size does not change the sign. */
  lemma NetSign(es: seq<real>, xs: seq<real>, entryBtc: real, exitBtc: real, r: Rules)
    requires r.Ok() && |es| == |xs|
    ensures Net(es, xs, entryBtc, exitBtc, r) > 0.0 <==> UnitNet(es, xs, entryBtc, exitBtc, r) > 0.0
    ensures Net(es, xs, entryBtc, exitBtc, r) < 0.0 <==> UnitNet(es, xs, entryBtc, exitBtc, r) < 0.0
  {
    NetScales(es, xs, entryBtc, exitBtc, r);
    SizePositive(r);
    SignOfProduct(UnitNet(es, xs, entryBtc, exitBtc, r), r.Size());
  }

  lemma SignOfProduct(a: real, r: real)
    requires r > 0.0
    ensures (a * r > 0.0 <==> a > 0.0) && (a * r < 0.0 <==> a < 0.0)
  {
  }

  // ---- the two thresholds ----

  ghost predicate Close(es: seq<real>, xs: seq<real>, entryBtc: real, exitBtc: real) {
    |es| == |xs| && NonNegative(es) && NonNegative(xs) && Sum(es) > 0.0 && entryBtc > 0.0 && exitBtc > 0.0
  }

  predicate TargetReached(combined: real, xs: seq<real>, r: Rules) { Sum(xs) <= Times(combined, 1.0 - r.target) }

  predicate StopReached(combined: real, xs: seq<real>, r: Rules) { Sum(xs) >= Times(combined, 1.0 + r.stop) }

  /** What the target must leave after paying a tenth on each side. */
  predicate TargetCoversFees(r: Rules) { 1.1 * Times(1.0 - r.target, 1.0 + r.exitSlip) < 0.9 * (1.0 - r.entrySlip) }

  /** The stop and the target, whichever is higher, buys back at no less than was sold, slippages
      included: a stop exit always lies above the target. Fees take care of equality. */
  predicate StopIsALoss(r: Rules) {
    r.exitSlip > -1.0 && Times(Max(1.0 + r.stop, 1.0 - r.target), 1.0 + r.exitSlip) >= 1.0 - r.entrySlip
  }

  /** A ladder sells a call and a put at every distance. */
  predicate Paired(es: seq<real>) { |es| % 2 == 0 }

  /** The stop is looked at only when the target is not reached. */
  predicate StopExit(combined: real, xs: seq<real>, r: Rules) { StopReached(combined, xs, r) && !TargetReached(combined, xs, r) }

  lemma TargetNetIsPositive(es: seq<real>, xs: seq<real>, entryBtc: real, exitBtc: real, r: Rules)
    requires r.Ok() && TargetCoversFees(r) && Close(es, xs, entryBtc, exitBtc) && TargetReached(Sum(es), xs, r)
    ensures Net(es, xs, entryBtc, exitBtc, r) > 0.0
  {
    var sold, bought := UnitNetBounds(es, xs, entryBtc, exitBtc, r);
    Outweighs(Sum(es), Sum(xs), 1.0 - r.target, 1.0 - r.entrySlip, 1.0 + r.exitSlip);
    NetSign(es, xs, entryBtc, exitBtc, r);
  }

  lemma Outweighs(e: real, x: real, t: real, keep: real, pay: real)
    requires e > 0.0 && x <= Times(e, t) && 1.1 * Times(t, pay) < 0.9 * keep && pay >= 0.0
    ensures 1.1 * Times(x, pay) < 0.9 * Times(e, keep)
  {
    MulMonotone(x, e * t, pay);
    ProductPositive(0.9 * keep - 1.1 * t * pay, e);
  }

  lemma StopNetIsNegative(es: seq<real>, xs: seq<real>, entryBtc: real, exitBtc: real, r: Rules)
    requires r.Ok() && StopIsALoss(r) && Close(es, xs, entryBtc, exitBtc) && StopExit(Sum(es), xs, r)
    ensures Net(es, xs, entryBtc, exitBtc, r) < 0.0
  {
    var stop, target := 1.0 + r.stop, 1.0 - r.target;
    MulMonotone(0.0, target, Sum(es));
    StopCosts(Sum(es), Sum(xs), Max(stop, target), 1.0 - r.entrySlip, 1.0 + r.exitSlip);
    var sold, bought := UnitNetBounds(es, xs, entryBtc, exitBtc, r);
    sold, bought := FeesAreStrict(es, xs, entryBtc, exitBtc, r);
    NetSign(es, xs, entryBtc, exitBtc, r);
  }

  lemma StopCosts(e: real, x: real, t: real, keep: real, pay: real)
    requires e > 0.0 && x >= Times(e, t) && x > 0.0 && Times(t, pay) >= keep && pay > 0.0
    ensures Times(x, pay) >= Times(e, keep) && Times(x, pay) > 0.0
  {
    MulMonotone(e * t, x, pay);
    MulMonotone(keep, t * pay, e);
    assert e * t * pay == t * pay * e;
    ProductPositive(x, pay);
  }

  /** Whatever is sold for something pays a fee. */
  ghost predicate StrictlyCapped(unit: (real, real) -> real) {
    forall s, b | s >= 0.0 && b >= 0.0 :: unit(s, b) <= s - b && (s > 0.0 ==> unit(s, b) < s - b)
  }

  lemma {:induction false} TotalIsStrict(sold: seq<real>, bought: seq<real>, unit: (real, real) -> real)
    requires |sold| == |bought| && NonNegative(sold) && NonNegative(bought) && StrictlyCapped(unit)
    ensures Total(sold, bought, unit) <= Sum(sold) - Sum(bought)
    ensures Sum(sold) > 0.0 ==> Total(sold, bought, unit) < Sum(sold) - Sum(bought)
  {
    if sold != [] { TotalIsStrict(sold[..|sold| - 1], bought[..|bought| - 1], unit); }
  }

  lemma LegIsStrictlyCapped(entryBtc: real, exitBtc: real)
    requires entryBtc > 0.0 && exitBtc > 0.0
    ensures StrictlyCapped(LegUnit(entryBtc, exitBtc))
  {
  }

  lemma FeesAreStrict(es: seq<real>, xs: seq<real>, entryBtc: real, exitBtc: real, r: Rules)
    returns (sold: real, bought: real)
    requires r.Ok() && Close(es, xs, entryBtc, exitBtc)
    ensures sold == Times(Sum(es), 1.0 - r.entrySlip) && bought == Times(Sum(xs), 1.0 + r.exitSlip)
    ensures sold > 0.0 ==> UnitNet(es, xs, entryBtc, exitBtc, r) < sold - bought
  {
    var solds, boughts := Fills(es, 1.0 - r.entrySlip), Fills(xs, 1.0 + r.exitSlip);
    FillsScale(es, 1.0 - r.entrySlip);
    FillsScale(xs, 1.0 + r.exitSlip);
    sold, bought := Sum(solds), Sum(boughts);
    LegIsStrictlyCapped(entryBtc, exitBtc);
    TotalIsStrict(solds, boughts, LegUnit(entryBtc, exitBtc));
  }

  lemma ProductPositive(a: real, r: real)
    requires a > 0.0 && r > 0.0
    ensures a * r > 0.0
  {
  }

  /** Every target exit of every ladder is a gain exactly when the target outweighs both fee caps
      and both slippages: at zero slippage, when 1.1 (1 - target) < 0.9. */
  lemma TargetAlwaysGainsIff(r: Rules)
    requires r.Ok()
    ensures TargetCoversFees(r)
            <==> (forall es, xs, entryBtc, exitBtc
                    | Close(es, xs, entryBtc, exitBtc) && Paired(es) && TargetReached(Sum(es), xs, r) ::
                    Net(es, xs, entryBtc, exitBtc, r) > 0.0)
  {
    if TargetCoversFees(r) {
      forall es, xs, entryBtc, exitBtc | Close(es, xs, entryBtc, exitBtc) && Paired(es) && TargetReached(Sum(es), xs, r)
        ensures Net(es, xs, entryBtc, exitBtc, r) > 0.0
      {
        TargetNetIsPositive(es, xs, entryBtc, exitBtc, r);
      }
    } else {
      var xs, btc := CappedTargetExit(r);
      assert Close([1.0, 1.0], xs, btc, btc) && Paired([1.0, 1.0]) && TargetReached(Sum([1.0, 1.0]), xs, r);
    }
  }

  /** A call and a put sold at 1 and bought back at the target while the fee cap binds on both sides. */
  lemma CappedTargetExit(r: Rules) returns (xs: seq<real>, btc: real)
    requires r.Ok() && !TargetCoversFees(r)
    ensures Close([1.0, 1.0], xs, btc, btc) && TargetReached(Sum([1.0, 1.0]), xs, r)
    ensures Net([1.0, 1.0], xs, btc, btc, r) <= 0.0
  {
    var x := 1.0 - r.target;
    xs := [x, x];
    var sold, bought := 1.0 - r.entrySlip, Times(x, 1.0 + r.exitSlip);
    MulMonotone(0.0, x, 1.0 + r.exitSlip);
    btc := (sold + bought) * 1000.0 + 1.0;
    PairSums(1.0);
    PairSums(x);
    PairUnitNet(x, btc, sold, bought, r);
    NetSign([1.0, 1.0], xs, btc, btc, r);
  }

  lemma PairUnitNet(x: real, btc: real, sold: real, bought: real, r: Rules)
    requires sold == 1.0 - r.entrySlip && bought == Times(x, 1.0 + r.exitSlip)
    ensures UnitNet([1.0, 1.0], [x, x], btc, btc, r) == 2.0 * (sold - bought - (UnitFee(btc, sold) + UnitFee(btc, bought)))
  {
    PairFills(1.0, 1.0 - r.entrySlip);
    PairFills(x, 1.0 + r.exitSlip);
    PairTotal(sold, bought, LegUnit(btc, btc));
  }

  lemma PairFills(p: real, factor: real)
    ensures Fills([p, p], factor) == [Times(p, factor), Times(p, factor)]
  {
    assert [p, p][..1] == [p] && [p][..0] == [];
    assert Fills([], factor) == [] && Fills([p], factor) == [Times(p, factor)];
  }

  lemma PairTotal(s: real, b: real, leg: (real, real) -> real)
    ensures Total([s, s], [b, b], leg) == 2.0 * leg(s, b)
  {
    assert [s, s][..1] == [s] && [b, b][..1] == [b] && [s][..0] == [] && [b][..0] == [];
    assert Total([s], [b], leg) == leg(s, b);
  }

  lemma PairSums(x: real)
    ensures Sum([x, x]) == 2.0 * x
  {
    assert [x, x][..1] == [x] && [x][..0] == [];
    assert Sum([x]) == x;
  }

  /** Every stop exit of every ladder is a loss exactly when the higher of stop and target matches the
      slippages: at zero slippage, whenever the stop is not below the entry. */
  lemma StopAlwaysLosesIff(r: Rules)
    requires r.Ok()
    ensures StopIsALoss(r)
            <==> (forall es, xs, entryBtc, exitBtc
                    | Close(es, xs, entryBtc, exitBtc) && Paired(es) && StopExit(Sum(es), xs, r) ::
                    Net(es, xs, entryBtc, exitBtc, r) < 0.0)
  {
    if StopIsALoss(r) {
      forall es, xs, entryBtc, exitBtc | Close(es, xs, entryBtc, exitBtc) && Paired(es) && StopExit(Sum(es), xs, r)
        ensures Net(es, xs, entryBtc, exitBtc, r) < 0.0
      {
        StopNetIsNegative(es, xs, entryBtc, exitBtc, r);
      }
    } else {
      var x := CheapStop(r);
      var xs, btc := CheapStopExit(r, x);
      assert Close([1.0, 1.0], xs, btc, btc) && Paired([1.0, 1.0]) && StopExit(Sum([1.0, 1.0]), xs, r);
    }
  }

  /** A premium that stops out and, slippages included, costs no more than was sold at 1. */
  ghost predicate StopsCheaply(r: Rules, x: real) {
    && x >= 1.0 + r.stop && x > 1.0 - r.target
    && (Times(x, 1.0 + r.exitSlip) < 1.0 - r.entrySlip || Times(x, 1.0 + r.exitSlip) == 1.0 - r.entrySlip == 0.0)
  }

  lemma CheapStop(r: Rules) returns (x: real)
    requires r.Ok() && !StopIsALoss(r)
    ensures StopsCheaply(r, x)
  {
    var stop, target, pay := 1.0 + r.stop, 1.0 - r.target, 1.0 + r.exitSlip;
    if pay == 0.0 {
      x := Max(stop, target) + 1.0;
      assert Times(x, pay) == 0.0;
    } else if stop > target {
      x := stop;
    } else {
      x := Between(target, pay, 1.0 - r.entrySlip);
    }
  }

  lemma Between(t: real, pay: real, keep: real) returns (x: real)
    requires pay > 0.0 && Times(t, pay) < keep
    ensures x > t && Times(x, pay) < keep
  {
    var half := (keep - t * pay) / 2.0;
    var step := half / pay;
    assert step * pay == half;
    if step <= 0.0 { MulMonotone(step, 0.0, pay); }
    x := t + step;
    assert x * pay == t * pay + step * pay;
  }

  /** A call and a put sold at 1 and bought back at such a premium, at a price of BTC so low that the fees
      do not eat what is left. */
  lemma CheapStopExit(r: Rules, x: real) returns (xs: seq<real>, btc: real)
    requires r.Ok() && StopsCheaply(r, x)
    ensures Close([1.0, 1.0], xs, btc, btc) && StopExit(Sum([1.0, 1.0]), xs, r)
    ensures Net([1.0, 1.0], xs, btc, btc, r) >= 0.0
  {
    xs := [x, x];
    var sold, bought := 1.0 - r.entrySlip, Times(x, 1.0 + r.exitSlip);
    MulMonotone(0.0, x, 1.0 + r.exitSlip);
    btc := if sold > bought then sold - bought else 1.0;
    PairSums(1.0);
    PairSums(x);
    PairUnitNet(x, btc, sold, bought, r);
    NetSign([1.0, 1.0], xs, btc, btc, r);
  }

  // ---- the candle loop ----

  datatype Feed = Feed(premium: (Contract, int) -> Option<real>)

  /** One candle; `quotes` are the legs found when a ladder is due here and every leg has a price. */
  datatype Bar = Bar(ts: int, btc: real, exitDue: bool, quotes: Option<seq<Leg>>)

  function PriceOf(leg: Leg, ladder: Ladder, ts: int, f: Feed, r: Rules): Option<real> {
    var p := f.premium(leg.contract, ts);
    if p.None? || !r.floor then p else Some(Max(p.value, Intrinsic(leg.contract, ladder.entryBtc)))
  }

  /** `combined_prem`: every leg's premium, or nothing when one of them has none. The source floors
      at the intrinsic value of the entry price. */
  function Premiums(legs: seq<Leg>, ladder: Ladder, ts: int, f: Feed, r: Rules): (ps: Option<seq<real>>)
    ensures ps.Some? ==> |ps.value| == |legs|
  {
    if legs == [] then Some([])
    else
      var before := Premiums(legs[..|legs| - 1], ladder, ts, f, r);
      var p := PriceOf(legs[|legs| - 1], ladder, ts, f, r);
      if before.None? || p.None? then None else Some(before.value + [p.value])
  }

  function Settle(l: Ladder, reason: Reason, ts: int, xs: seq<real>, btc: real, r: Rules): Trade
    requires |xs| == |l.legs|
  {
    var sold, bought := Fills(Entries(l.legs), 1.0 - r.entrySlip), Fills(xs, 1.0 + r.exitSlip);
    Trade(l.entryTime, ts, reason, l.combined, Sum(xs), Total(sold, bought, LegGross(r)),
          Total(sold, bought, LegFee(l.entryBtc, btc, r)),
          Net(Entries(l.legs), xs, l.entryBtc, btc, r))
  }

  function WhyClose(l: Ladder, b: Bar, xs: seq<real>, r: Rules): Option<Reason> {
    if b.exitDue then Some(Eod)
    else if TargetReached(l.combined, xs, r) then Some(Target)
    else if StopReached(l.combined, xs, r) then Some(Stop)
    else None
  }

  function Opened(b: Bar, r: Rules): Option<Ladder> {
    if b.quotes.None? then None
    else
      var legs := Floored(b.quotes.value, b.btc, r);
      Some(Ladder(legs, b.ts, b.btc, Sum(Entries(legs))))
  }

  function Floored(quotes: seq<Leg>, btc: real, r: Rules): (legs: seq<Leg>)
    ensures |legs| == |quotes|
    ensures forall i | 0 <= i < |legs| ::
              legs[i] == if r.floor then quotes[i].(premium := Max(quotes[i].premium, Intrinsic(quotes[i].contract, btc)))
                         else quotes[i]
  {
    if !r.floor then quotes
    else seq(|quotes|, i requires 0 <= i < |quotes| =>
               quotes[i].(premium := Max(quotes[i].premium, Intrinsic(quotes[i].contract, btc))))
  }

  function Step(pos: Option<Ladder>, b: Bar, f: Feed, r: Rules): (Option<Trade>, Option<Ladder>) {
    var xs := if pos.Some? then Premiums(pos.value.legs, pos.value, b.ts, f, r) else None;
    var why := if xs.Some? then WhyClose(pos.value, b, xs.value, r) else None;
    var trade := if why.Some? then Some(Settle(pos.value, why.value, b.ts, xs.value, b.btc, r)) else None;
    var kept := if why.Some? then None else pos;
    (trade, if kept.None? then Opened(b, r) else kept)
  }

  function Listed(t: Option<Trade>): seq<Trade> { if t.Some? then [t.value] else [] }

  /** The trades closed and the ladder left open by a stream of candles. */
  function After(bars: seq<Bar>, f: Feed, r: Rules): (seq<Trade>, Option<Ladder>) {
    if bars == [] then ([], None)
    else
      var before := After(bars[..|bars| - 1], f, r);
      var step := Step(before.1, bars[|bars| - 1], f, r);
      (before.0 + Listed(step.0), step.1)
  }

  /** The trades of a whole run; a ladder still open at the end is closed if it can be priced. */
  function Report(bars: seq<Bar>, f: Feed, r: Rules): seq<Trade> {
    var (closed, open) := After(bars, f, r);
    if bars == [] || open.None? then closed
    else
      var b := bars[|bars| - 1];
      var xs := Premiums(open.value.legs, open.value, b.ts, f, r);
      if xs.None? then closed else closed + [Settle(open.value, OpenAtEnd, b.ts, xs.value, b.btc, r)]
  }

  /** The closing loop over the legs. */
  method AddUp(sold: seq<real>, bought: seq<real>, legGross: (real, real) -> real, legFee: (real, real) -> real)
    returns (gross: real, fee: real)
    requires |sold| == |bought|
    ensures gross == Total(sold, bought, legGross) && fee == Total(sold, bought, legFee)
  {
    gross, fee := 0.0, 0.0;
    for i := 0 to |sold|
      invariant gross == Total(sold[..i], bought[..i], legGross) && fee == Total(sold[..i], bought[..i], legFee)
    {
      assert sold[..i + 1][..i] == sold[..i] && bought[..i + 1][..i] == bought[..i];
      gross := gross + legGross(sold[i], bought[i]);
      fee := fee + legFee(sold[i], bought[i]);
    }
    assert sold[..|sold|] == sold && bought[..|sold|] == bought;
  }

  class LadderBacktester {
    const rules: Rules
    const feed: Feed
    var pos: Option<Ladder>
    var trades: seq<Trade>

    constructor (rules: Rules, feed: Feed)
      ensures this.rules == rules && this.feed == feed && pos == None && trades == []
    {
      this.rules, this.feed, pos, trades := rules, feed, None, [];
    }

    method CombinedPremiums(ts: int) returns (ps: Option<seq<real>>)
      requires pos.Some?
      ensures ps == Premiums(pos.value.legs, pos.value, ts, feed, rules)
    {
      var legs, out := pos.value.legs, [];
      for i := 0 to |legs|
        invariant Premiums(legs[..i], pos.value, ts, feed, rules) == Some(out)
      {
        assert legs[..i + 1][..i] == legs[..i];
        var p := PriceOf(legs[i], pos.value, ts, feed, rules);
        if p.None? {
          MissingPriceHidesAll(legs, i + 1, pos.value, ts, feed, rules);
          return None;
        }
        out := out + [p.value];
      }
      assert legs[..|legs|] == legs;
      ps := Some(out);
    }

    method CloseAll(reason: Reason, ts: int, xs: seq<real>, btc: real)
      requires pos.Some? && |xs| == |pos.value.legs|
      modifies this
      ensures pos == None && trades == old(trades) + [Settle(old(pos).value, reason, ts, xs, btc, rules)]
    {
      var l := pos.value;
      var sold, bought := Fills(Entries(l.legs), 1.0 - rules.entrySlip), Fills(xs, 1.0 + rules.exitSlip);
      var gross, fee := AddUp(sold, bought, LegGross(rules), LegFee(l.entryBtc, btc, rules));
      trades := trades + [Trade(l.entryTime, ts, reason, l.combined, Sum(xs), gross, fee, gross - fee)];
      pos := None;
    }

    method OnCandle(b: Bar)
      modifies this
      ensures pos == Step(old(pos), b, feed, rules).1
      ensures trades == old(trades) + Listed(Step(old(pos), b, feed, rules).0)
    {
      if pos.Some? {
        var xs := CombinedPremiums(b.ts);
        if xs.Some? {
          var why := WhyClose(pos.value, b, xs.value, rules);
          if why.Some? { CloseAll(why.value, b.ts, xs.value, b.btc); }
        }
      }
      if pos.None? { pos := Opened(b, rules); }
    }

    method Run(bars: seq<Bar>)
      requires pos == None && trades == []
      modifies this
      ensures trades == Report(bars, feed, rules)
    {
      for i := 0 to |bars|
        invariant trades == After(bars[..i], feed, rules).0 && pos == After(bars[..i], feed, rules).1
      {
        assert bars[..i + 1][..i] == bars[..i];
        OnCandle(bars[i]);
      }
      assert bars[..|bars|] == bars;
      if pos.Some? && bars != [] {
        var b := bars[|bars| - 1];
        var xs := CombinedPremiums(b.ts);
        if xs.Some? { CloseAll(OpenAtEnd, b.ts, xs.value, b.btc); }
      }
    }
  }

  lemma {:induction false} MissingPriceHidesAll(legs: seq<Leg>, i: nat, l: Ladder, ts: int, f: Feed, r: Rules)
    requires i <= |legs| && Premiums(legs[..i], l, ts, f, r) == None
    ensures Premiums(legs, l, ts, f, r) == None
    decreases |legs| - i
  {
    if i < |legs| {
      assert legs[..i + 1][..i] == legs[..i];
      MissingPriceHidesAll(legs, i + 1, l, ts, f, r);
    } else {
      assert legs[..i] == legs;
    }
  }

  // ---- every trade of every run ----

  ghost predicate FeedOk(f: Feed) { forall c, t :: f.premium(c, t).Some? ==> f.premium(c, t).value >= 0.0 }

  ghost predicate BarOk(b: Bar) {
    b.btc > 0.0 && (b.quotes.Some? ==> forall i | 0 <= i < |b.quotes.value| :: b.quotes.value[i].premium >= 0.0)
  }

  ghost predicate LadderOk(l: Ladder) {
    NonNegative(Entries(l.legs)) && l.entryBtc > 0.0 && l.combined == Sum(Entries(l.legs))
  }

  ghost predicate TradeOk(t: Trade, r: Rules) {
    && (t.reason == Target && t.combinedEntry > 0.0 && TargetCoversFees(r) ==> t.net > 0.0)
    && (t.reason == Stop && t.combinedEntry > 0.0 && StopIsALoss(r) ==> t.net < 0.0)
    && (t.net > 0.0 ==> Times(t.combinedExit, 1.0 + r.exitSlip) < Times(t.combinedEntry, 1.0 - r.entrySlip))
  }

  lemma {:induction false} PremiumsNonNegative(legs: seq<Leg>, l: Ladder, ts: int, f: Feed, r: Rules)
    requires FeedOk(f) && Premiums(legs, l, ts, f, r).Some?
    ensures NonNegative(Premiums(legs, l, ts, f, r).value)
  {
    if legs != [] { PremiumsNonNegative(legs[..|legs| - 1], l, ts, f, r); }
  }

  lemma GainBoughtBackBelow(es: seq<real>, xs: seq<real>, entryBtc: real, exitBtc: real, r: Rules)
    requires r.Ok() && |es| == |xs| && NonNegative(es) && NonNegative(xs) && entryBtc >= 0.0 && exitBtc >= 0.0
    ensures Net(es, xs, entryBtc, exitBtc, r) > 0.0 ==> Times(Sum(xs), 1.0 + r.exitSlip) < Times(Sum(es), 1.0 - r.entrySlip)
  {
    var sold, bought := UnitNetBounds(es, xs, entryBtc, exitBtc, r);
    NetSign(es, xs, entryBtc, exitBtc, r);
  }

  lemma SettleIsOk(l: Ladder, reason: Reason, ts: int, xs: seq<real>, btc: real, r: Rules)
    requires r.Ok() && LadderOk(l) && |xs| == |l.legs| && NonNegative(xs) && btc > 0.0
    requires reason == Target ==> TargetReached(l.combined, xs, r)
    requires reason == Stop ==> StopExit(l.combined, xs, r)
    ensures TradeOk(Settle(l, reason, ts, xs, btc, r), r)
  {
    var es := Entries(l.legs);
    GainBoughtBackBelow(es, xs, l.entryBtc, btc, r);
    if l.combined > 0.0 { ThresholdSigns(es, xs, l.entryBtc, btc, r); }
  }

  lemma ThresholdSigns(es: seq<real>, xs: seq<real>, entryBtc: real, exitBtc: real, r: Rules)
    requires r.Ok() && Close(es, xs, entryBtc, exitBtc)
    ensures TargetReached(Sum(es), xs, r) && TargetCoversFees(r) ==> Net(es, xs, entryBtc, exitBtc, r) > 0.0
    ensures StopExit(Sum(es), xs, r) && StopIsALoss(r) ==> Net(es, xs, entryBtc, exitBtc, r) < 0.0
  {
    if TargetReached(Sum(es), xs, r) && TargetCoversFees(r) { TargetNetIsPositive(es, xs, entryBtc, exitBtc, r); }
    if StopExit(Sum(es), xs, r) && StopIsALoss(r) { StopNetIsNegative(es, xs, entryBtc, exitBtc, r); }
  }

  /** On every candle: targets that cover the fees gain, stops lose, and a gain always bought back
      below what was sold, slippage included. */
  lemma StepTradesAreOk(pos: Option<Ladder>, b: Bar, f: Feed, r: Rules)
    requires r.Ok() && FeedOk(f) && BarOk(b) && (pos.Some? ==> LadderOk(pos.value))
    ensures Step(pos, b, f, r).0.Some? ==> TradeOk(Step(pos, b, f, r).0.value, r)
    ensures Step(pos, b, f, r).1.Some? ==> LadderOk(Step(pos, b, f, r).1.value)
  {
    if pos.Some? {
      var l := pos.value;
      var xs := Premiums(l.legs, l, b.ts, f, r);
      if xs.Some? {
        PremiumsNonNegative(l.legs, l, b.ts, f, r);
        var why := WhyClose(l, b, xs.value, r);
        if why.Some? { SettleIsOk(l, why.value, b.ts, xs.value, b.btc, r); }
      }
    }
  }

  lemma {:induction false} AfterIsOk(bars: seq<Bar>, f: Feed, r: Rules)
    requires r.Ok() && FeedOk(f) && forall i | 0 <= i < |bars| :: BarOk(bars[i])
    ensures forall i | 0 <= i < |After(bars, f, r).0| :: TradeOk(After(bars, f, r).0[i], r)
    ensures After(bars, f, r).1.Some? ==> LadderOk(After(bars, f, r).1.value)
  {
    if bars != [] {
      AfterIsOk(bars[..|bars| - 1], f, r);
      StepTradesAreOk(After(bars[..|bars| - 1], f, r).1, bars[|bars| - 1], f, r);
    }
  }

  /** Every trade of every run. */
  lemma ReportedTradesAreOk(bars: seq<Bar>, f: Feed, r: Rules)
    requires r.Ok() && FeedOk(f) && forall i | 0 <= i < |bars| :: BarOk(bars[i])
    ensures forall i | 0 <= i < |Report(bars, f, r)| :: TradeOk(Report(bars, f, r)[i], r)
  {
    AfterIsOk(bars, f, r);
    var open := After(bars, f, r).1;
    if bars != [] && open.Some? { EndTradeIsOk(open.value, bars[|bars| - 1], f, r); }
  }

  lemma EndTradeIsOk(l: Ladder, b: Bar, f: Feed, r: Rules)
    requires r.Ok() && FeedOk(f) && BarOk(b) && LadderOk(l)
    ensures var xs := Premiums(l.legs, l, b.ts, f, r);
      xs.Some? ==> TradeOk(Settle(l, OpenAtEnd, b.ts, xs.value, b.btc, r), r)
  {
    var xs := Premiums(l.legs, l, b.ts, f, r);
    if xs.Some? {
      PremiumsNonNegative(l.legs, l, b.ts, f, r);
      SettleIsOk(l, OpenAtEnd, b.ts, xs.value, b.btc, r);
    }
  }

  // ---- when a ladder opens and closes ----

  /** A leg's worth at the entry price of BTC, where the source floors it. */
  function EntryWorth(c: Contract, entryBtc: real): real {
    if c.kind == Call then Max(0.0, entryBtc - c.strike) else Max(0.0, c.strike - entryBtc)
  }

  function FlooredPremium(p: real, c: Contract, entryBtc: real, r: Rules): real {
    if r.floor then Max(p, EntryWorth(c, entryBtc)) else p
  }

  /** A ladder is priced exactly when every leg is, each at its latest premium or that worth if the floor is higher. */
  lemma {:induction false} PremiumsAre(legs: seq<Leg>, l: Ladder, ts: int, f: Feed, r: Rules)
    ensures Premiums(legs, l, ts, f, r).Some? <==> forall i | 0 <= i < |legs| :: f.premium(legs[i].contract, ts).Some?
    ensures Premiums(legs, l, ts, f, r).Some? ==>
      forall i | 0 <= i < |legs| ::
        (f.premium(legs[i].contract, ts).Some?
         && Premiums(legs, l, ts, f, r).value[i] == FlooredPremium(f.premium(legs[i].contract, ts).value, legs[i].contract, l.entryBtc, r))
  {
    if legs != [] {
      var n := |legs| - 1;
      PremiumsAre(legs[..n], l, ts, f, r);
      forall i | 0 <= i < n ensures legs[..n][i] == legs[i] {}
    }
  }

  /** An open ladder closes on a candle exactly when it is priced and its exit is due or its combined premium is no
      more than the target or no less than the stop, in that order. */
  lemma CandleClosesIff(l: Ladder, b: Bar, f: Feed, r: Rules)
    requires LadderOk(l)
    ensures var xs, trade := Premiums(l.legs, l, b.ts, f, r), Step(Some(l), b, f, r).0;
      if xs.None? then trade.None?
      else
        var combined, sold := Sum(xs.value), Sum(Entries(l.legs));
        var target, stop := combined <= Times(sold, 1.0 - r.target), combined >= Times(sold, 1.0 + r.stop);
        && (trade.Some? <==> b.exitDue || target || stop)
        && (trade.Some? ==>
              && trade.value.reason == (if b.exitDue then Eod else if target then Target else Stop)
              && trade.value.entryTime == l.entryTime && trade.value.exitTime == b.ts
              && trade.value.combinedEntry == sold && trade.value.combinedExit == combined
              && trade.value.net == Net(Entries(l.legs), xs.value, l.entryBtc, b.btc, r)
              && trade.value.net == trade.value.gross - trade.value.fee)
  {
  }

  /** The ladder left open: the one that did not close, or else the one whose quotes came with the candle, each leg
      sold as quoted or at its worth if the floor is higher. */
  lemma CandleOpensIff(pos: Option<Ladder>, b: Bar, f: Feed, r: Rules)
    ensures var trade, next := Step(pos, b, f, r).0, Step(pos, b, f, r).1;
      && (pos.Some? && trade.None? ==> next == pos)
      && (pos.None? ==> trade.None?)
      && (pos.None? || trade.Some? ==>
            && (next.Some? <==> b.quotes.Some?)
            && (next.Some? ==>
                  && next.value.entryTime == b.ts && next.value.entryBtc == b.btc
                  && next.value.combined == Sum(Entries(next.value.legs)) && |next.value.legs| == |b.quotes.value|
                  && forall i | 0 <= i < |b.quotes.value| ::
                       var q := b.quotes.value[i];
                       next.value.legs[i] == q.(premium := if r.floor then Max(q.premium, EntryWorth(q.contract, b.btc)) else q.premium)))
  {
  }
}
