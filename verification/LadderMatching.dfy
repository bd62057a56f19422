/** The two-pass ladder reconcile is an injective, maximum matching that honours the state files. */
module LadderMatching {
  import opened Common
  import opened LadderReconcile

  ghost predicate UniqueSymbols(shorts: seq<Position>) {
    forall i, j | 0 <= i < j < |shorts| :: shorts[i].symbol != shorts[j].symbol
  }

  /** Every state file names a contract of its leg's own type. */
  ghost predicate FilesTyped(claims: seq<Claim>) {
    forall i | 0 <= i < |claims| && claims[i].owned.Some? :: Named(claims[i].isCall, claims[i].owned.value)
  }

  ghost predicate Injective(picks: Picks) {
    forall i, j | 0 <= i < j < |picks| && picks[i].Some? && picks[j].Some? :: picks[i].value != picks[j].value
  }

  lemma TakenHas(picks: Picks, n: nat, i: nat)
    requires i < n <= |picks| && picks[i].Some?
    ensures picks[i].value in Taken(picks[..n])
  {
    assert picks[..n][i] == picks[i];
  }

  /** What each leg takes is unclaimed at that moment and fits the leg. */
  lemma PickIsFresh(claims: seq<Claim>, shorts: seq<Position>, i: nat)
    requires i < |claims|
    ensures var exact, picks := Pass1(claims, shorts), Matching(claims, shorts);
      if exact[i].Some? then
        var k := exact[i].value;
        && picks[i] == exact[i] && k !in Taken(exact[..i])
        && k < |shorts| && BySymbol(claims[i])(shorts[k])
      else picks[i].Some? ==>
        var k := picks[i].value;
        && k !in Taken(exact) && k !in Taken(picks[..i])
        && k < |shorts| && OfType(claims[i].isCall, shorts[k])
  {
    Pass1At(claims, shorts, i);
    Pass2At(claims, shorts, Pass1(claims, shorts), i);
  }

  /** No short is given to two legs. */
  lemma MatchingIsInjective(claims: seq<Claim>, shorts: seq<Position>)
    ensures Injective(Matching(claims, shorts))
  {
    var exact, picks := Pass1(claims, shorts), Matching(claims, shorts);
    forall i, j | 0 <= i < j < |picks| && picks[i].Some? && picks[j].Some?
      ensures picks[i].value != picks[j].value
    {
      PickIsFresh(claims, shorts, i);
      PickIsFresh(claims, shorts, j);
      if exact[i].Some? {
        TakenHas(exact, j, i);
        TakenHas(exact, |exact|, i);
        assert exact[..|exact|] == exact;
      } else {
        TakenHas(picks, j, i);
        if exact[j].Some? {
          TakenHas(exact, |exact|, j);
          assert exact[..|exact|] == exact;
        }
      }
    }
  }

  /** A leg whose saved symbol is live, and saved by no earlier leg, gets exactly that short. */
  lemma SavedSymbolWins(claims: seq<Claim>, shorts: seq<Position>, i: nat, k: nat)
    requires UniqueSymbols(shorts) && i < |claims| && k < |shorts|
    requires shorts[k].symbol != "" && claims[i].owned == Some(shorts[k].symbol)
    requires forall j | 0 <= j < i :: claims[j].owned != claims[i].owned
    ensures Matching(claims, shorts)[i] == Some(k)
  {
    var exact := Pass1(claims, shorts);
    if k in Taken(exact[..i]) {
      var j :| 0 <= j < i && exact[..i][j] == Some(k);
      PickIsFresh(claims, shorts, j);
    }
    Pass1At(claims, shorts, i);
    PickIsFresh(claims, shorts, i);
    assert BySymbol(claims[i])(shorts[k]);
  }

  lemma PickHasType(claims: seq<Claim>, shorts: seq<Position>, i: nat)
    requires FilesTyped(claims) && i < |claims| && Matching(claims, shorts)[i].Some?
    ensures var k := Matching(claims, shorts)[i].value; k < |shorts| && OfType(claims[i].isCall, shorts[k])
  {
    PickIsFresh(claims, shorts, i);
  }

  /** A leg stays without a live short only when every live short of its type is taken. */
  lemma UnpickedMeansExhausted(claims: seq<Claim>, shorts: seq<Position>, i: nat, k: nat)
    requires i < |claims| && Matching(claims, shorts)[i].None?
    requires k < |shorts| && OfType(claims[i].isCall, shorts[k])
    ensures k in Taken(Matching(claims, shorts))
  {
    var exact, picks := Pass1(claims, shorts), Matching(claims, shorts);
    Pass2At(claims, shorts, exact, i);
    assert ByType(claims[i])(shorts[k]);
    if k in Taken(exact) {
      var j :| 0 <= j < |exact| && exact[j] == Some(k);
      PickIsFresh(claims, shorts, j);
      assert picks[j] == Some(k);
    } else {
      assert k in Taken(picks[..i]);
      var j :| 0 <= j < i && picks[..i][j] == Some(k);
      assert picks[j] == Some(k);
    }
  }

  /** Without a saved symbol a leg takes only what its name allows: a call leg a call, a put leg a put. */
  lemma LeftoversMatchByType(claims: seq<Claim>, shorts: seq<Position>, i: nat)
    requires i < |claims| && Matching(claims, shorts)[i].Some? && claims[i].owned.None?
    ensures Matching(claims, shorts)[i].value < |shorts|
    ensures (if claims[i].isCall then "C-" else "P-") <= shorts[Matching(claims, shorts)[i].value].symbol
  {
    PickIsFresh(claims, shorts, i);
  }

  // ---- how many positions of a type are claimed ----

  function LegCount(claims: seq<Claim>, isCall: bool, n: nat): nat
    requires n <= |claims|
  {
    if n == 0 then 0 else LegCount(claims, isCall, n - 1) + if claims[n - 1].isCall == isCall then 1 else 0
  }

  function PickCount(claims: seq<Claim>, picks: Picks, isCall: bool, n: nat): nat
    requires n <= |claims| == |picks|
  {
    if n == 0 then 0
    else PickCount(claims, picks, isCall, n - 1) + if claims[n - 1].isCall == isCall && picks[n - 1].Some? then 1 else 0
  }

  function LiveOfType(shorts: seq<Position>, isCall: bool): set<nat> {
    set k: nat | k < |shorts| && OfType(isCall, shorts[k])
  }

  /** The shorts taken by the first `n` legs of a type. */
  function TakenBy(claims: seq<Claim>, picks: Picks, isCall: bool, n: nat): set<nat>
    requires n <= |claims| == |picks|
  {
    set i | 0 <= i < n && claims[i].isCall == isCall && picks[i].Some? :: picks[i].value
  }

  lemma TakenByNext(claims: seq<Claim>, picks: Picks, isCall: bool, n: nat)
    requires n < |claims| == |picks|
    ensures TakenBy(claims, picks, isCall, n + 1)
            == TakenBy(claims, picks, isCall, n)
               + if claims[n].isCall == isCall && picks[n].Some? then {picks[n].value} else {}
  {
    var next := TakenBy(claims, picks, isCall, n + 1);
    forall k | k in next
      ensures k in TakenBy(claims, picks, isCall, n) || (claims[n].isCall == isCall && picks[n] == Some(k))
    {
      var i :| 0 <= i < n + 1 && claims[i].isCall == isCall && picks[i] == Some(k);
    }
  }

  lemma TakenByGrows(claims: seq<Claim>, picks: Picks, isCall: bool, n: nat)
    requires n < |claims| == |picks| && Injective(picks)
    ensures |TakenBy(claims, picks, isCall, n + 1)|
            == |TakenBy(claims, picks, isCall, n)| + if claims[n].isCall == isCall && picks[n].Some? then 1 else 0
  {
    TakenByNext(claims, picks, isCall, n);
    assert picks[n].Some? ==> picks[n].value !in TakenBy(claims, picks, isCall, n);
  }

  lemma {:induction false} TakenByCount(claims: seq<Claim>, picks: Picks, isCall: bool, n: nat)
    requires n <= |claims| == |picks| && Injective(picks)
    ensures |TakenBy(claims, picks, isCall, n)| == PickCount(claims, picks, isCall, n)
    ensures PickCount(claims, picks, isCall, n) <= LegCount(claims, isCall, n)
  {
    if n > 0 {
      TakenByCount(claims, picks, isCall, n - 1);
      TakenByGrows(claims, picks, isCall, n - 1);
    }
  }

  lemma {:induction false} AllPickedCount(claims: seq<Claim>, picks: Picks, isCall: bool, n: nat)
    requires n <= |claims| == |picks|
    requires forall i | 0 <= i < n && claims[i].isCall == isCall :: picks[i].Some?
    ensures PickCount(claims, picks, isCall, n) == LegCount(claims, isCall, n)
  {
    if n > 0 { AllPickedCount(claims, picks, isCall, n - 1); }
  }

  /** For any number of legs and positions, the shorts of a type that end up claimed number the
      smaller of the legs and the live shorts of that type: the matching is maximum. */
  lemma MatchingIsMaximum(claims: seq<Claim>, shorts: seq<Position>, isCall: bool)
    requires FilesTyped(claims)
    ensures var count := PickCount(claims, Matching(claims, shorts), isCall, |claims|);
      var legs, live := LegCount(claims, isCall, |claims|), |LiveOfType(shorts, isCall)|;
      count == if legs < live then legs else live
  {
    var picks, n := Matching(claims, shorts), |claims|;
    MatchingIsInjective(claims, shorts);
    TakenByCount(claims, picks, isCall, n);
    TakenAreLive(claims, shorts, isCall);
    SubsetSize(TakenBy(claims, picks, isCall, n), LiveOfType(shorts, isCall));
    if i :| 0 <= i < n && claims[i].isCall == isCall && picks[i].None? {
      LiveAreTaken(claims, shorts, isCall, i);
    } else {
      AllPickedCount(claims, picks, isCall, n);
    }
  }

  lemma TakenAreLive(claims: seq<Claim>, shorts: seq<Position>, isCall: bool)
    requires FilesTyped(claims)
    ensures TakenBy(claims, Matching(claims, shorts), isCall, |claims|) <= LiveOfType(shorts, isCall)
  {
    var picks := Matching(claims, shorts);
    forall k | k in TakenBy(claims, picks, isCall, |claims|) ensures k in LiveOfType(shorts, isCall) {
      var i :| 0 <= i < |claims| && claims[i].isCall == isCall && picks[i] == Some(k);
      PickHasType(claims, shorts, i);
    }
  }

  lemma LiveAreTaken(claims: seq<Claim>, shorts: seq<Position>, isCall: bool, i: nat)
    requires FilesTyped(claims) && i < |claims| && claims[i].isCall == isCall && Matching(claims, shorts)[i].None?
    ensures TakenBy(claims, Matching(claims, shorts), isCall, |claims|) == LiveOfType(shorts, isCall)
  {
    var picks := Matching(claims, shorts);
    TakenAreLive(claims, shorts, isCall);
    forall k | k in LiveOfType(shorts, isCall) ensures k in TakenBy(claims, picks, isCall, |claims|) {
      UnpickedMeansExhausted(claims, shorts, i, k);
      var j :| 0 <= j < |claims| && picks[j] == Some(k);
      PickHasType(claims, shorts, j);
      OneType(shorts[k].symbol);
    }
  }

  lemma OneType(symbol: string)
    ensures Named(true, symbol) ==> symbol[0] == 'C'
    ensures Named(false, symbol) ==> symbol[0] == 'P'
  {
    if Named(true, symbol) { assert symbol[0] == "C-"[0]; }
    if Named(false, symbol) { assert symbol[0] == "P-"[0]; }
  }

  lemma SubsetSize(a: set<nat>, b: set<nat>)
    requires a <= b
    ensures |a| <= |b|
  {
    assert b == a + (b - a);
  }
}
