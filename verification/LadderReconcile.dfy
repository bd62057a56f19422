/** Startup reconcile of the laddered strangle: matching live shorts to legs in two passes. */
module LadderReconcile {
  import opened Common

  datatype Position = Position(product: int, symbol: string, size: int)

  /** A leg's state file. */
  datatype SavedLeg = SavedLeg(symbol: string, product: int, size: int, premium: Option<real>)

  /** The executor keeps the number of lots whatever the sign the exchange reports. */
  function Lots(size: int): nat { if size < 0 then -size else size }

  class Leg {
    const isCall: bool
    const saved: Option<SavedLeg>
    var product: Option<int>            // the executor's tracked leg
    var size: int
    var symbol: Option<string>
    var entryPremium: Option<real>

    constructor (isCall: bool, saved: Option<SavedLeg>)
      ensures this.isCall == isCall && this.saved == saved && product == None
    {
      this.isCall, this.saved, product, size, symbol, entryPremium := isCall, saved, None, 0, None, None;
    }

    method Adopt(product: int, size: int, symbol: string, premium: Option<real>)
      modifies this
      ensures this.product == Some(product) && this.symbol == Some(symbol) && entryPremium == premium
      ensures this.size == Lots(size)
    {
      this.product, this.symbol, entryPremium := Some(product), Some(symbol), premium;
      this.size := Lots(size);
    }

    method Clear()
      modifies this
      ensures product == None && symbol == None && entryPremium == None && size == 0
    {
      product, size, symbol, entryPremium := None, 0, None, None;
    }
  }

  /** What matching needs to know of a leg. */
  datatype Claim = Claim(isCall: bool, owned: Option<string>)

  /** For each leg, the index of the short it takes. */
  type Picks = seq<Option<nat>>

  predicate Named(isCall: bool, symbol: string) { if isCall then "C-" <= symbol else "P-" <= symbol }

  predicate OfType(isCall: bool, p: Position) { Named(isCall, p.symbol) }

  function Taken(picks: Picks): set<nat> { set i | 0 <= i < |picks| && picks[i].Some? :: picks[i].value }

  /** The first unclaimed short, from `k` on, that `wanted` accepts. */
  function First(shorts: seq<Position>, claimed: set<nat>, wanted: Position -> bool, k: nat): (r: Option<nat>)
    requires k <= |shorts|
    ensures r.Some? ==> k <= r.value < |shorts| && wanted(shorts[r.value]) && r.value !in claimed
    ensures forall j | k <= j < (if r.Some? then r.value else |shorts|) :: !wanted(shorts[j]) || j in claimed
    decreases |shorts| - k
  {
    if k == |shorts| then None
    else if wanted(shorts[k]) && k !in claimed then Some(k)
    else First(shorts, claimed, wanted, k + 1)
  }

  function BySymbol(c: Claim): Position -> bool { (p: Position) => c.owned == Some(p.symbol) && p.symbol != "" }

  function ByType(c: Claim): Position -> bool { (p: Position) => OfType(c.isCall, p) }

  /** Pass 1: each leg looks for the symbol in its own state file. */
  function Pass1(claims: seq<Claim>, shorts: seq<Position>): (picks: Picks)
    ensures |picks| == |claims|
  {
    if claims == [] then []
    else
      var n := |claims| - 1;
      var before := Pass1(claims[..n], shorts);
      before + [First(shorts, Taken(before), BySymbol(claims[n]), 0)]
  }

  /** Pass 2: each leg left over takes the first unclaimed short of its type. */
  function Pass2(claims: seq<Claim>, shorts: seq<Position>, exact: Picks): (picks: Picks)
    requires |claims| <= |exact|
    ensures |picks| == |claims|
  {
    if claims == [] then []
    else
      var n := |claims| - 1;
      var before := Pass2(claims[..n], shorts, exact);
      before + [if exact[n].Some? then exact[n]
                else First(shorts, Taken(exact) + Taken(before), ByType(claims[n]), 0)]
  }

  function Matching(claims: seq<Claim>, shorts: seq<Position>): (picks: Picks)
    ensures |picks| == |claims|
  {
    Pass2(claims, shorts, Pass1(claims, shorts))
  }

  // ---- the imperative reconcile ----

  function ClaimOf(leg: Leg): Claim { Claim(leg.isCall, if leg.saved.Some? then Some(leg.saved.value.symbol) else None) }

  function Claims(legs: seq<Leg>): (cs: seq<Claim>)
    ensures |cs| == |legs| && forall i | 0 <= i < |legs| :: cs[i] == ClaimOf(legs[i])
  {
    seq(|legs|, i requires 0 <= i < |legs| => ClaimOf(legs[i]))
  }

  function Shorts(positions: seq<Position>): seq<Position> {
    if positions == [] then []
    else
      var n := |positions| - 1;
      Shorts(positions[..n]) + if positions[n].size < 0 then [positions[n]] else []
  }

  /** Where the shorts stand among the positions. */
  function Places(positions: seq<Position>): seq<nat> {
    if positions == [] then []
    else
      var n := |positions| - 1;
      Places(positions[..n]) + if positions[n].size < 0 then [n] else []
  }

  lemma {:induction false} PlacesAreShorts(positions: seq<Position>)
    ensures |Places(positions)| == |Shorts(positions)|
    ensures forall k | 0 <= k < |Places(positions)| ::
              Places(positions)[k] < |positions| && positions[Places(positions)[k]] == Shorts(positions)[k]
              && Shorts(positions)[k].size < 0
  {
    if positions != [] { PlacesAreShorts(positions[..|positions| - 1]); }
  }

  lemma {:induction false} PlacesIncrease(positions: seq<Position>)
    ensures forall k, j | 0 <= k < j < |Places(positions)| :: Places(positions)[k] < Places(positions)[j]
  {
    if positions != [] {
      PlacesIncrease(positions[..|positions| - 1]);
      PlacesAreShorts(positions[..|positions| - 1]);
    }
  }

  lemma {:induction false} ShortHasPlace(positions: seq<Position>, i: nat)
    requires i < |positions| && positions[i].size < 0
    ensures i in Places(positions)
  {
    if i < |positions| - 1 { ShortHasPlace(positions[..|positions| - 1], i); }
  }

  /** The shorts are exactly the positions of negative size, and stand in the order the exchange reports them. */
  lemma ShortsAre(positions: seq<Position>) returns (at: seq<nat>)
    ensures |at| == |Shorts(positions)|
    ensures forall k | 0 <= k < |at| ::
              at[k] < |positions| && positions[at[k]] == Shorts(positions)[k] && positions[at[k]].size < 0
    ensures forall k, j | 0 <= k < j < |at| :: at[k] < at[j]
    ensures forall i: nat | i < |positions| && positions[i].size < 0 :: i in at
  {
    at := Places(positions);
    PlacesAreShorts(positions);
    PlacesIncrease(positions);
    forall i: nat | i < |positions| && positions[i].size < 0 ensures i in at { ShortHasPlace(positions, i); }
  }

  /** The leg has taken the short `pick` points at; the saved premium goes with the saved symbol. */
  ghost predicate Holds(leg: Leg, shorts: seq<Position>, pick: Option<nat>)
    reads leg
  {
    if pick.Some? then
      pick.value < |shorts| &&
      var p := shorts[pick.value];
      && leg.product == Some(p.product) && leg.symbol == Some(p.symbol) && leg.size == Lots(p.size)
      && leg.entryPremium == if ClaimOf(leg).owned == Some(p.symbol) then leg.saved.value.premium else None
    else if leg.saved.Some? then
      && leg.product == Some(leg.saved.value.product) && leg.symbol == Some(leg.saved.value.symbol)
      && leg.size == Lots(leg.saved.value.size) && leg.entryPremium == leg.saved.value.premium
    else
      leg.product == None && leg.symbol == None && leg.size == 0 && leg.entryPremium == None
  }

  ghost predicate Fresh(leg: Leg) reads leg { leg.product == None && leg.entryPremium == None }

  ghost predicate Distinct(legs: seq<Leg>) { forall i, j | 0 <= i < j < |legs| :: legs[i] != legs[j] }

  /** `_sync_options_to_exchange` on fresh executors. */
  method SyncToExchange(legs: seq<Leg>, positions: seq<Position>)
    requires Distinct(legs) && forall i | 0 <= i < |legs| :: Fresh(legs[i])
    modifies legs
    ensures forall i | 0 <= i < |legs| ::
      Holds(legs[i], Shorts(positions), Matching(Claims(legs), Shorts(positions))[i])
    // What a leg adopts from the exchange is a short the exchange reported.
    ensures forall i | 0 <= i < |legs| && Matching(Claims(legs), Shorts(positions))[i].Some? ::
      exists p <- positions :: p.size < 0 && legs[i].product == Some(p.product) && legs[i].symbol == Some(p.symbol)
                               && legs[i].size == -p.size
  {
    var shorts := Shorts(positions);
    var claimed := MatchStateFiles(legs, shorts);
    AdoptLeftovers(legs, shorts, claimed);
    var at := ShortsAre(positions);
    forall i | 0 <= i < |legs| && Matching(Claims(legs), shorts)[i].Some?
      ensures exists p <- positions :: p.size < 0 && legs[i].product == Some(p.product) && legs[i].symbol == Some(p.symbol)
                                       && legs[i].size == -p.size
    {
      var k := Matching(Claims(legs), shorts)[i].value;
      assert Holds(legs[i], shorts, Some(k));
      assert positions[at[k]] in positions;
    }
  }

  method MatchStateFiles(legs: seq<Leg>, shorts: seq<Position>) returns (claimed: set<nat>)
    requires Distinct(legs) && forall i | 0 <= i < |legs| :: Fresh(legs[i])
    modifies legs
    ensures claimed == Taken(Pass1(Claims(legs), shorts))
    ensures var exact := Pass1(Claims(legs), shorts);
      forall j | 0 <= j < |legs| :: if exact[j].Some? then Holds(legs[j], shorts, exact[j]) else Fresh(legs[j])
  {
    ghost var claims := Claims(legs);
    ghost var exact := Pass1(claims, shorts);
    claimed := {};
    for i := 0 to |legs|
      invariant claimed == Taken(exact[..i])
      invariant forall j | 0 <= j < i :: if exact[j].Some? then Holds(legs[j], shorts, exact[j]) else Fresh(legs[j])
      invariant forall j | i <= j < |legs| :: Fresh(legs[j])
    {
      Pass1At(claims, shorts, i);
      TakenSnoc(exact[..i], exact[i]);
      assert exact[..i + 1] == exact[..i] + [exact[i]];
      var pick := MatchStateFile(legs[i], shorts, claimed);
      if pick.Some? { claimed := claimed + {pick.value}; }
    }
    assert exact[..|legs|] == exact;
  }

  method MatchStateFile(leg: Leg, shorts: seq<Position>, claimed: set<nat>) returns (pick: Option<nat>)
    requires Fresh(leg)
    modifies leg
    ensures pick == First(shorts, claimed, BySymbol(ClaimOf(leg)), 0)
    ensures if pick.Some? then Holds(leg, shorts, pick) else Fresh(leg)
  {
    pick := First(shorts, claimed, BySymbol(ClaimOf(leg)), 0);
    if pick.Some? {
      var p := shorts[pick.value];
      leg.Adopt(p.product, p.size, p.symbol, leg.saved.value.premium);
    }
  }

  method AdoptLeftovers(legs: seq<Leg>, shorts: seq<Position>, claimed0: set<nat>)
    requires Distinct(legs) && claimed0 == Taken(Pass1(Claims(legs), shorts))
    requires var exact := Pass1(Claims(legs), shorts);
      forall j | 0 <= j < |legs| :: if exact[j].Some? then Holds(legs[j], shorts, exact[j]) else Fresh(legs[j])
    modifies legs
    ensures forall j | 0 <= j < |legs| :: Holds(legs[j], shorts, Matching(Claims(legs), shorts)[j])
  {
    ghost var claims := Claims(legs);
    ghost var exact := Pass1(claims, shorts);
    ghost var picks := Matching(claims, shorts);
    var claimed := claimed0;
    for i := 0 to |legs|
      invariant claimed == Taken(exact) + Taken(picks[..i])
      invariant forall j | 0 <= j < i :: Holds(legs[j], shorts, picks[j])
      invariant forall j | i <= j < |legs| :: if exact[j].Some? then Holds(legs[j], shorts, exact[j]) else Fresh(legs[j])
    {
      LeftoverStep(claims, shorts, i);
      if legs[i].product.None? {
        var pick := AdoptLeftover(legs[i], shorts, claimed);
        if pick.Some? { claimed := claimed + {pick.value}; }
      }
    }
    assert picks[..|legs|] == picks;
  }

  lemma LeftoverStep(claims: seq<Claim>, shorts: seq<Position>, i: nat)
    requires i < |claims|
    ensures var exact, picks := Pass1(claims, shorts), Matching(claims, shorts);
      var claimed := Taken(exact) + Taken(picks[..i]);
      if exact[i].Some? then picks[i] == exact[i] && Taken(exact) + Taken(picks[..i + 1]) == claimed
      else
        && picks[i] == First(shorts, claimed, ByType(claims[i]), 0)
        && Taken(exact) + Taken(picks[..i + 1]) == claimed + if picks[i].Some? then {picks[i].value} else {}
  {
    var exact, picks := Pass1(claims, shorts), Matching(claims, shorts);
    Pass2At(claims, shorts, exact, i);
    TakenSnoc(picks[..i], picks[i]);
    assert picks[..i + 1] == picks[..i] + [picks[i]];
    if exact[i].Some? { assert exact[i].value in Taken(exact); }
  }

  method AdoptLeftover(leg: Leg, shorts: seq<Position>, claimed: set<nat>) returns (pick: Option<nat>)
    requires Fresh(leg)
    modifies leg
    ensures pick == First(shorts, claimed, ByType(ClaimOf(leg)), 0) && Holds(leg, shorts, pick)
  {
    pick := First(shorts, claimed, ByType(ClaimOf(leg)), 0);
    if pick.Some? {
      var p := shorts[pick.value];
      var mine := leg.saved.Some? && p.symbol == leg.saved.value.symbol;
      leg.Adopt(p.product, p.size, p.symbol, if mine then leg.saved.value.premium else None);
    } else if leg.saved.Some? {
      leg.Adopt(leg.saved.value.product, leg.saved.value.size, leg.saved.value.symbol, leg.saved.value.premium);
    } else {
      leg.Clear();
    }
  }

  lemma TakenSnoc(picks: Picks, pick: Option<nat>)
    ensures Taken(picks + [pick]) == Taken(picks) + if pick.Some? then {pick.value} else {}
  {
    var all := picks + [pick];
    forall i | 0 <= i < |picks| && picks[i].Some?
      ensures picks[i].value in Taken(all)
    {
      assert all[i] == picks[i];
    }
    if pick.Some? { assert all[|picks|] == pick; }
  }

  /** What pass 1 decides for leg `i` depends on the earlier legs only. */
  lemma {:induction false} Pass1At(claims: seq<Claim>, shorts: seq<Position>, i: nat)
    requires i < |claims|
    ensures var picks := Pass1(claims, shorts); picks[i] == First(shorts, Taken(picks[..i]), BySymbol(claims[i]), 0)
    decreases |claims|
  {
    var n := |claims| - 1;
    if i < n {
      Pass1At(claims[..n], shorts, i);
      assert Pass1(claims, shorts)[..i] == Pass1(claims[..n], shorts)[..i];
    } else {
      assert Pass1(claims, shorts)[..n] == Pass1(claims[..n], shorts);
    }
  }

  lemma {:induction false} Pass2At(claims: seq<Claim>, shorts: seq<Position>, exact: Picks, i: nat)
    requires i < |claims| <= |exact|
    ensures var picks := Pass2(claims, shorts, exact);
      picks[i] == if exact[i].Some? then exact[i] else First(shorts, Taken(exact) + Taken(picks[..i]), ByType(claims[i]), 0)
    decreases |claims|
  {
    var n := |claims| - 1;
    if i < n {
      Pass2At(claims[..n], shorts, exact, i);
      assert Pass2(claims, shorts, exact)[..i] == Pass2(claims[..n], shorts, exact)[..i];
    } else {
      assert Pass2(claims, shorts, exact)[..n] == Pass2(claims[..n], shorts, exact);
    }
  }
}
