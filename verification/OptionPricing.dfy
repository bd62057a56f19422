/** Option premiums, fees and intrinsic values for repriced backtests. */
module OptionPricing {
  import opened Common

  datatype OptionType = Call | Put

  datatype Contract = Contract(kind: OptionType, strike: real)

  /** An option's history: bar start to closing premium. */
  type History = map<int, real>

  const TAKER_FEE_PCT := 0.00012
  const PREMIUM_FEE_CAP_PCT := 0.10

  function SideFee(underlying: real, premium: real, lots: int, lotSize: real): real {
    Min(TAKER_FEE_PCT * underlying, PREMIUM_FEE_CAP_PCT * premium) * lotSize * lots as real
  }

  /** The fee on one unit of underlying. */
  function UnitFee(underlying: real, premium: real): real { Min(TAKER_FEE_PCT * underlying, PREMIUM_FEE_CAP_PCT * premium) }

  /** A gross profit and two fees, each the traded size times a value per unit. */
  lemma SizeFactors(unit: real, entryBtc: real, sold: real, exitBtc: real, bought: real, lots: int, lotSize: real)
    ensures unit * lots as real * lotSize - (SideFee(entryBtc, sold, lots, lotSize) + SideFee(exitBtc, bought, lots, lotSize))
            == Times(unit - (UnitFee(entryBtc, sold) + UnitFee(exitBtc, bought)), lotSize * lots as real)
  {
    FourTerms(unit, UnitFee(entryBtc, sold), UnitFee(exitBtc, bought), lotSize, lots as real);
  }

  lemma FourTerms(a: real, c: real, d: real, lotSize: real, lots: real)
    ensures a * lots * lotSize - (c * lotSize * lots + d * lotSize * lots) == (a - (c + d)) * (lotSize * lots)
  {
  }

  function Intrinsic(c: Contract, underlying: real): real {
    if c.kind == Call then Max(0.0, underlying - c.strike) else Max(0.0, c.strike - underlying)
  }

  /** The fee is 0.012% of the underlying, or a tenth of the premium where that is less, on the size traded. */
  lemma SideFeeIs(underlying: real, premium: real, lots: int, lotSize: real)
    ensures 0.00012 * underlying <= 0.1 * premium ==> SideFee(underlying, premium, lots, lotSize) == Times(Times(0.00012 * underlying, lotSize), lots as real)
    ensures 0.1 * premium <= 0.00012 * underlying ==> SideFee(underlying, premium, lots, lotSize) == Times(Times(0.1 * premium, lotSize), lots as real)
  {
    var perUnit := UnitFee(underlying, premium);
    assert SideFee(underlying, premium, lots, lotSize) == Times(Times(perUnit, lotSize), lots as real);
  }

  /** Fees are never negative and never more than a tenth of the premium that changes hands. */
  lemma SideFeeBounds(underlying: real, premium: real, lots: int, lotSize: real)
    requires underlying >= 0.0 && premium >= 0.0 && lots >= 0 && lotSize >= 0.0
    ensures 0.0 <= SideFee(underlying, premium, lots, lotSize) <= PREMIUM_FEE_CAP_PCT * premium * lotSize * lots as real
  {
    var perUnit := Min(TAKER_FEE_PCT * underlying, PREMIUM_FEE_CAP_PCT * premium);
    MulMonotone(0.0, perUnit, lotSize);
    MulMonotone(perUnit, PREMIUM_FEE_CAP_PCT * premium, lotSize);
    MulMonotone(0.0, perUnit * lotSize, lots as real);
    MulMonotone(perUnit * lotSize, PREMIUM_FEE_CAP_PCT * premium * lotSize, lots as real);
  }

  lemma MulMonotone(a: real, b: real, w: real)
    requires a <= b && w >= 0.0
    ensures a * w <= b * w
  {
    assert (b - a) * w >= 0.0;
  }

  // ---- premium lookup ----

  /** The newest bar starting at or before `ts`. */
  function Newest(h: History, ts: int): (t: Option<int>)
    ensures t.Some? ==> t.value in h && t.value <= ts && forall u <- h :: u <= ts ==> u <= t.value
    ensures t.None? ==> forall u <- h :: u > ts
  {
    var earlier := set t | t in h && t <= ts;
    if earlier == {} then
      assert forall u <- h :: u <= ts ==> u in earlier;
      None
    else
      LatestExists(earlier);
      var t :| t in earlier && forall u <- earlier :: u <= t;
      assert forall u <- h :: u <= ts ==> u in earlier;
      Some(t)
  }

  lemma LatestExists(xs: set<int>)
    requires exists x :: x in xs
    ensures exists t :: t in xs && forall u <- xs :: u <= t
  {
    var x :| x in xs;
    var rest := xs - {x};
    assert forall u <- xs :: u == x || u in rest;
    if y :| y in rest {
      LatestExists(rest);
      var t :| t in rest && forall u <- rest :: u <= t;
      var latest := if t < x then x else t;
      assert latest in xs && forall u <- xs :: u <= latest;
    }
  }

  /** The grid point `k` steps back from `ts`. */
  function Back(ts: int, step: int, k: nat): int { ts - k * step }

  function GridBack(h: History, ts: int, step: int, k: nat): (t: Option<int>)
    ensures t.Some? ==> t.value in h
    decreases 12 - k
  {
    if k >= 12 then None
    else if Back(ts, step, k) in h then Some(Back(ts, step, k))
    else GridBack(h, ts, step, k + 1)
  }

  /** The bar a premium is read from: the first of twelve grid points back from `ts` that traded,
      else the newest bar not after `ts`. */
  function PremiumTime(h: History, ts: int, step: int): (t: Option<int>)
    ensures t.Some? ==> t.value in h
  {
    var g := GridBack(h, ts, step, 0);
    if g.Some? then g else Newest(h, ts)
  }

  function Premium(h: History, ts: int, step: int): Option<real> {
    var t := PremiumTime(h, ts, step);
    if t.Some? then Some(h[t.value]) else None
  }

  /** `premium_at`. */
  method PremiumAt(h: History, ts: int, step: int) returns (p: Option<real>)
    ensures p == Premium(h, ts, step)
  {
    for k := 0 to 12
      invariant GridBack(h, ts, step, 0) == GridBack(h, ts, step, k)
    {
      if Back(ts, step, k) in h { return Some(h[Back(ts, step, k)]); }
    }
    var t := Newest(h, ts);
    p := if t.Some? then Some(h[t.value]) else None;
  }

  lemma {:induction false} GridBackIsFirst(h: History, ts: int, step: int, k: nat) returns (hit: nat)
    requires step > 0 && GridBack(h, ts, step, k).Some?
    ensures k <= hit < 12 && GridBack(h, ts, step, k).value == Back(ts, step, hit)
    ensures forall j | k <= j < hit :: Back(ts, step, j) !in h
    decreases 12 - k
  {
    if Back(ts, step, k) in h {
      hit := k;
    } else {
      hit := GridBackIsFirst(h, ts, step, k + 1);
      forall j | k <= j < hit ensures Back(ts, step, j) !in h {
        if j > k { assert k + 1 <= j; }
      }
    }
  }

  /** The bar read is the first of the twelve grid points from `ts` back that traded, and without any the newest
      bar not after `ts`. */
  lemma PremiumTimeIs(h: History, ts: int, step: int)
    requires step > 0
    ensures forall k | 0 <= k < 12 && Back(ts, step, k) in h && (forall j | 0 <= j < k :: Back(ts, step, j) !in h) ::
              PremiumTime(h, ts, step) == Some(Back(ts, step, k))
    ensures (forall k | 0 <= k < 12 :: Back(ts, step, k) !in h) ==> PremiumTime(h, ts, step) == Newest(h, ts)
  {
    if GridBack(h, ts, step, 0).Some? {
      var hit := GridBackIsFirst(h, ts, step, 0);
      forall k | 0 <= k < 12 && Back(ts, step, k) in h && (forall j | 0 <= j < k :: Back(ts, step, j) !in h) ensures k == hit {}
    } else {
      forall k | 0 <= k < 12 ensures Back(ts, step, k) !in h { GridBackMisses(h, ts, step, 0, k); }
    }
  }

  lemma {:induction false} GridBackMisses(h: History, ts: int, step: int, from: nat, k: nat)
    requires GridBack(h, ts, step, from).None? && from <= k < 12
    ensures Back(ts, step, k) !in h
    decreases 12 - from
  {
    if from < k { GridBackMisses(h, ts, step, from + 1, k); }
  }

  /** On histories that sit on the same grid as `ts`, the back-search is the plain "latest price at
      or before `ts`". */
  lemma AlignedPremiumIsLatest(h: History, ts: int, step: int)
    requires step > 0 && forall t <- h :: (ts - t) % step == 0
    ensures PremiumTime(h, ts, step) == Newest(h, ts)
  {
    if GridBack(h, ts, step, 0).Some? {
      var hit := GridBackIsFirst(h, ts, step, 0);
      var n := Newest(h, ts).value;
      var j := StepsBack(n, ts, step);
      assert Back(ts, step, j) in h && Back(ts, step, hit) <= n;
      if hit < j { FewerStepsIsLater(hit, j, ts, step); }
    }
  }

  lemma StepsBack(t: int, ts: int, step: int) returns (j: nat)
    requires step > 0 && t <= ts && (ts - t) % step == 0
    ensures t == Back(ts, step, j)
  {
    j := (ts - t) / step;
  }

  lemma FewerStepsIsLater(i: nat, j: nat, ts: int, step: int)
    requires step > 0 && i < j
    ensures Back(ts, step, j) < Back(ts, step, i)
  {
    assert (j - i) * step > 0;
  }

  /** A premium never depends on a bar after `ts`. */
  lemma PremiumNeverLooksAhead(h: History, h': History, ts: int, step: int)
    requires step > 0
    requires forall t | t <= ts :: (t in h <==> t in h') && (t in h ==> h[t] == h'[t])
    ensures Premium(h, ts, step) == Premium(h', ts, step)
    ensures Premium(h, ts, step).None? <==> forall t <- h :: t > ts
  {
    GridBackAgrees(h, h', ts, step, 0);
    var n, n' := Newest(h, ts), Newest(h', ts);
    assert n.Some? ==> n.value in h';
    assert n'.Some? ==> n'.value in h;
    if GridBack(h, ts, step, 0).Some? { var hit := GridBackIsFirst(h, ts, step, 0); }
  }

  lemma {:induction false} GridBackAgrees(h: History, h': History, ts: int, step: int, k: nat)
    requires step > 0
    requires forall t | t <= ts :: t in h <==> t in h'
    ensures GridBack(h, ts, step, k) == GridBack(h', ts, step, k)
    decreases 12 - k
  {
    if k < 12 {
      assert Back(ts, step, k) <= ts;
      GridBackAgrees(h, h', ts, step, k + 1);
    }
  }
}
