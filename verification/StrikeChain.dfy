/** The strike search against the whole chain, which reaches beyond the search window at both ends. */
module StrikeChain {
  import opened Common
  import opened OptionPricing
  import opened StrikeSearch

  /** The strike `i` intervals towards OTM from the money; ITM for negative `i`. */
  function Offset(atm: int, otm: int, i: int): int {
    if i >= 0 then StrikeAt(atm, otm, i) else StrikeAt(atm - otm, -otm, -i - 1)
  }

  lemma OffsetIs(atm: int, otm: int, i: int)
    ensures Offset(atm, otm, i) == atm + i * otm
  {
    if i >= 0 {
      StrikeAtIs(atm, otm, i);
    } else {
      StrikeAtIs(atm - otm, -otm, -i - 1);
      assert (-i - 1) * -otm == i * otm + otm;
    }
  }

  /** The premium quoted at each position of the strike axis; strikes may be missing anywhere. */
  type Quotes = int -> Option<real>

  function Axis(m: Chain, atm: int, otm: int): Quotes { i => Priced(m, Offset(atm, otm, i)) }

  /** The search window, as positions: from `Lo` up to but not including `Hi`. */
  function Lo(m: Chain): int { -(m.itmSteps as int) }

  function Hi(m: Chain): int { m.otmSteps }

  predicate NotDearer(q: Quotes, i: int, j: int) {
    q(i).Some? && q(j).Some? ==> q(j).value <= q(i).value
  }

  /** Premiums do not rise from ITM to OTM, over the whole axis. */
  ghost predicate Falling(q: Quotes) {
    forall i, j | i < j :: NotDearer(q, i, j)
  }

  function Gap(q: Quotes, target: real, i: int): real
    requires q(i).Some?
  {
    Abs(q(i).value - target)
  }

  // ---- one end of a window ----

  ghost predicate Reaches(q: Quotes, lo: int, hi: int, target: real) {
    exists i | lo <= i < hi :: q(i).Some? && q(i).value <= target
  }

  /** The priced strike of the window nearest its far end. */
  predicate LastPriced(q: Quotes, lo: int, hi: int, p: int) {
    lo <= p < hi && q(p).Some? && forall i | p < i < hi :: q(i).None?
  }

  /** The first strike beyond the window that is cheaper than `p`. */
  predicate NextCheaper(q: Quotes, hi: int, p: int, j: int) {
    && j >= hi && q(p).Some? && q(j).Some? && q(j).value < q(p).value
    && forall i | hi <= i < j && q(i).Some? :: q(i).value >= q(p).value
  }

  /** The window quotes the target or less, or else the first cheaper strike beyond it falls at least
      as far below the target as the window stays above it. */
  ghost predicate EndSuffices(q: Quotes, lo: int, hi: int, target: real) {
    || Reaches(q, lo, hi, target)
    || forall p, j | LastPriced(q, lo, hi, p) && NextCheaper(q, hi, p, j) :: target - q(j).value >= q(p).value - target
  }

  ghost predicate ClosestIn(q: Quotes, lo: int, hi: int, target: real, best: int) {
    && lo <= best < hi && q(best).Some?
    && forall i | lo <= i < hi && q(i).Some? :: Gap(q, target, best) <= Gap(q, target, i)
  }

  ghost predicate NoneCloserBeyond(q: Quotes, hi: int, target: real, best: int)
    requires q(best).Some?
  {
    forall j | j >= hi && q(j).Some? :: Gap(q, target, best) <= Gap(q, target, j)
  }

  ghost predicate NoneCloserBefore(q: Quotes, lo: int, target: real, best: int)
    requires q(best).Some?
  {
    forall i | i < lo && q(i).Some? :: Gap(q, target, best) <= Gap(q, target, i)
  }

  ghost predicate NoneCloserOutside(q: Quotes, lo: int, hi: int, target: real, best: int)
    requires q(best).Some?
  {
    NoneCloserBeyond(q, hi, target, best) && NoneCloserBefore(q, lo, target, best)
  }

  lemma LastPricedExists(q: Quotes, lo: int, hi: int, best: int) returns (p: int)
    requires lo <= best < hi && q(best).Some?
    ensures LastPriced(q, lo, hi, p) && best <= p
  {
    p := hi - 1;
    while q(p).None?
      invariant best <= p < hi && forall i | p < i < hi :: q(i).None?
      decreases p - best
    {
      p := p - 1;
    }
  }

  lemma NextCheaperExists(q: Quotes, hi: int, p: int, j: int) returns (first: int)
    requires j >= hi && q(p).Some? && q(j).Some? && q(j).value < q(p).value
    ensures NextCheaper(q, hi, p, first) && first <= j
  {
    first := hi;
    while q(first).None? || q(first).value >= q(p).value
      invariant hi <= first <= j && forall i | hi <= i < first && q(i).Some? :: q(i).value >= q(p).value
      decreases j - first
    {
      first := first + 1;
    }
  }

  /** The closest strike of the window is closest of everything towards that end too, exactly when the
      end suffices. */
  lemma EndIff(q: Quotes, lo: int, hi: int, target: real, best: int)
    requires Falling(q) && ClosestIn(q, lo, hi, target, best)
    ensures NoneCloserBeyond(q, hi, target, best) <==> EndSuffices(q, lo, hi, target)
  {
    if Reaches(q, lo, hi, target) {
      var c :| lo <= c < hi && q(c).Some? && q(c).value <= target;
      forall j | j >= hi && q(j).Some? ensures Gap(q, target, best) <= Gap(q, target, j) {
        assert NotDearer(q, c, j);
      }
    } else {
      var p := LastPricedExists(q, lo, hi, best);
      assert best < p ==> NotDearer(q, best, p);
      assert Gap(q, target, best) == q(p).value - target;
      if EndSuffices(q, lo, hi, target) {
        forall j | j >= hi && q(j).Some? ensures Gap(q, target, best) <= Gap(q, target, j) {
          assert NotDearer(q, p, j);
          if q(j).value < q(p).value {
            var first := NextCheaperExists(q, hi, p, j);
            assert first < j ==> NotDearer(q, first, j);
          }
        }
      }
    }
  }

  // ---- the whole chain ----

  /** The same axis read from the other end, where premiums rise. */
  function Mirror(q: Quotes): Quotes {
    i => if q(-i).None? then None else Some(-q(-i).value)
  }

  ghost predicate Empty(q: Quotes, lo: int, hi: int) { forall i | lo <= i < hi :: q(i).None? }

  ghost predicate BothEndsSuffice(q: Quotes, lo: int, hi: int, target: real) {
    EndSuffices(q, lo, hi, target) && EndSuffices(Mirror(q), 1 - hi, 1 - lo, -target)
  }

  /** Both ends of the search window suffice; with nothing priced in it, nothing is priced at all. */
  ghost predicate WindowSuffices(m: Chain, atm: int, otm: int) {
    var q, lo, hi := Axis(m, atm, otm), Lo(m), Hi(m);
    if Empty(q, lo, hi) then forall i :: q(i).None?
    else BothEndsSuffice(q, lo, hi, m.target)
  }

  /** No strike of the whole chain is closer to the target; nothing is chosen only from an empty chain. */
  ghost predicate BestOnChain(m: Chain, atm: int, otm: int, choice: Option<int>) {
    if choice.None? then forall i :: Axis(m, atm, otm)(i).None?
    else Priced(m, choice.value).Some?
         && forall i | Axis(m, atm, otm)(i).Some? :: Miss(m, choice.value) <= Miss(m, Offset(atm, otm, i))
  }

  /** On every chain whose premiums fall along the strike axis, the search finds a closest strike of the
      whole chain exactly when its window suffices at both ends. */
  lemma SearchIsGlobalIff(m: Chain, atm: int, otm: int)
    requires Falling(Axis(m, atm, otm))
    ensures BestOnChain(m, atm, otm, Found(m, atm, otm)) <==> WindowSuffices(m, atm, otm)
    ensures Found(m, atm, otm) == Scan(m, Window(m, atm, otm))
  {
    FallingIsMonotone(m, atm, otm);
    EarlyStopIsExhaustive(m, atm, otm);
    if Found(m, atm, otm).None? {
      NothingFound(m, atm, otm);
    } else {
      var best := FoundIsClosest(m, atm, otm);
      BestIffBothEnds(m, atm, otm, best);
    }
  }

  lemma BestIffBothEnds(m: Chain, atm: int, otm: int, best: int)
    requires Falling(Axis(m, atm, otm)) && ClosestIn(Axis(m, atm, otm), Lo(m), Hi(m), m.target, best)
    ensures BestOnChain(m, atm, otm, Some(Offset(atm, otm, best))) <==> WindowSuffices(m, atm, otm)
  {
    var q := Axis(m, atm, otm);
    assert !Empty(q, Lo(m), Hi(m));
    BestIffNoneOutside(m, atm, otm, best);
    BothEndsIff(q, Lo(m), Hi(m), m.target, best);
  }

  lemma BothEndsIff(q: Quotes, lo: int, hi: int, target: real, best: int)
    requires Falling(q) && ClosestIn(q, lo, hi, target, best)
    ensures NoneCloserOutside(q, lo, hi, target, best) <==> BothEndsSuffice(q, lo, hi, target)
  {
    EndIff(q, lo, hi, target, best);
    FarEndIff(q, lo, hi, target, best);
  }

  lemma FarEndIff(q: Quotes, lo: int, hi: int, target: real, best: int)
    requires Falling(q) && ClosestIn(q, lo, hi, target, best)
    ensures NoneCloserBefore(q, lo, target, best) <==> EndSuffices(Mirror(q), 1 - hi, 1 - lo, -target)
  {
    MirrorEndIff(q, lo, hi, target, best);
    MirrorBeyond(q, lo, target, best);
  }

  lemma MirrorEndIff(q: Quotes, lo: int, hi: int, target: real, best: int)
    requires Falling(q) && ClosestIn(q, lo, hi, target, best)
    ensures NoneCloserBeyond(Mirror(q), 1 - lo, -target, -best) <==> EndSuffices(Mirror(q), 1 - hi, 1 - lo, -target)
  {
    var r := Mirror(q);
    MirrorKeeps(q, lo, hi, target, best);
    EndIff(r, 1 - hi, 1 - lo, -target, -best);
  }

  lemma FallingIsMonotone(m: Chain, atm: int, otm: int)
    requires Falling(Axis(m, atm, otm))
    ensures MonotoneOtm(m, atm, otm)
  {
    var q := Axis(m, atm, otm);
    forall i: nat, j: nat | i < j < Hi(m) && Priced(m, StrikeAt(atm, otm, i)).Some? && Priced(m, StrikeAt(atm, otm, j)).Some?
      ensures Priced(m, StrikeAt(atm, otm, j)).value <= Priced(m, StrikeAt(atm, otm, i)).value
    {
      assert NotDearer(q, i, j);
    }
  }

  /** Where a position of the axis stands in the window's visiting order. */
  lemma WindowAt(m: Chain, atm: int, otm: int, i: int) returns (k: nat)
    requires Lo(m) <= i < Hi(m)
    ensures k < |Window(m, atm, otm)| && Window(m, atm, otm)[k] == Offset(atm, otm, i)
  {
    if i >= 0 {
      k := i;
      StrikesAt(atm, otm, m.otmSteps, i);
    } else {
      k := m.otmSteps + (-i - 1);
      StrikesAt(atm - otm, -otm, m.itmSteps, -i - 1);
    }
  }

  lemma WindowPosition(m: Chain, atm: int, otm: int, k: nat) returns (i: int)
    requires k < |Window(m, atm, otm)|
    ensures Lo(m) <= i < Hi(m) && Window(m, atm, otm)[k] == Offset(atm, otm, i)
  {
    if k < m.otmSteps {
      i := k;
      StrikesAt(atm, otm, m.otmSteps, k);
    } else {
      i := -(k - m.otmSteps) - 1;
      StrikesAt(atm - otm, -otm, m.itmSteps, k - m.otmSteps);
    }
  }

  lemma NothingFound(m: Chain, atm: int, otm: int)
    requires Scan(m, Window(m, atm, otm)).None?
    ensures Empty(Axis(m, atm, otm), Lo(m), Hi(m))
  {
    ScanIsFirstClosest(m, Window(m, atm, otm));
    forall i | Lo(m) <= i < Hi(m) ensures Axis(m, atm, otm)(i).None? {
      var k := WindowAt(m, atm, otm, i);
    }
  }

  lemma FoundIsClosest(m: Chain, atm: int, otm: int) returns (best: int)
    requires Scan(m, Window(m, atm, otm)).Some?
    ensures ClosestIn(Axis(m, atm, otm), Lo(m), Hi(m), m.target, best)
    ensures Scan(m, Window(m, atm, otm)) == Some(Offset(atm, otm, best))
  {
    var w := Window(m, atm, otm);
    var found := Scan(m, w).value;
    ScanIsFirstClosest(m, w);
    var k: nat :| k < |w| && w[k] == found;
    best := WindowPosition(m, atm, otm, k);
    var q := Axis(m, atm, otm);
    forall i | Lo(m) <= i < Hi(m) && q(i).Some? ensures Gap(q, m.target, best) <= Gap(q, m.target, i) {
      var j := WindowAt(m, atm, otm, i);
      assert Miss(m, found) <= Miss(m, w[j]);
    }
  }

  lemma MirrorKeeps(q: Quotes, lo: int, hi: int, target: real, best: int)
    requires Falling(q) && ClosestIn(q, lo, hi, target, best)
    ensures Falling(Mirror(q)) && ClosestIn(Mirror(q), 1 - hi, 1 - lo, -target, -best)
  {
    var r := Mirror(q);
    forall i, j | i < j ensures NotDearer(r, i, j) { assert NotDearer(q, -j, -i); }
    forall i | 1 - hi <= i < 1 - lo && r(i).Some? ensures Gap(r, -target, -best) <= Gap(r, -target, i) {
      assert q(-i).Some? && Gap(q, target, best) <= Gap(q, target, -i);
    }
  }

  lemma MirrorBeyond(q: Quotes, lo: int, target: real, best: int)
    requires q(best).Some?
    ensures NoneCloserBeyond(Mirror(q), 1 - lo, -target, -best)
            <==> NoneCloserBefore(q, lo, target, best)
  {
    var r := Mirror(q);
    if NoneCloserBeyond(r, 1 - lo, -target, -best) {
      forall i | i < lo && q(i).Some? ensures Gap(q, target, best) <= Gap(q, target, i) {
        assert r(-i).Some? && Gap(r, -target, -best) <= Gap(r, -target, -i);
      }
    }
    if NoneCloserBefore(q, lo, target, best) {
      forall j | j >= 1 - lo && r(j).Some? ensures Gap(r, -target, -best) <= Gap(r, -target, j) {
        assert q(-j).Some? && Gap(q, target, best) <= Gap(q, target, -j);
      }
    }
  }

  lemma BestIffNoneOutside(m: Chain, atm: int, otm: int, best: int)
    requires ClosestIn(Axis(m, atm, otm), Lo(m), Hi(m), m.target, best)
    ensures BestOnChain(m, atm, otm, Some(Offset(atm, otm, best)))
            <==> NoneCloserOutside(Axis(m, atm, otm), Lo(m), Hi(m), m.target, best)
  {
    var q := Axis(m, atm, otm);
    forall i | q(i).Some? ensures Gap(q, m.target, i) == Miss(m, Offset(atm, otm, i)) {}
    assert Gap(q, m.target, best) == Miss(m, Offset(atm, otm, best));
  }

  /** The usual case: quotes on both sides of the target within the window. */
  lemma BracketedSearchIsGlobal(m: Chain, atm: int, otm: int, below: int, above: int)
    requires Falling(Axis(m, atm, otm))
    requires Lo(m) <= below < Hi(m) && Lo(m) <= above < Hi(m)
    requires Axis(m, atm, otm)(below).Some? && Axis(m, atm, otm)(below).value <= m.target
    requires Axis(m, atm, otm)(above).Some? && Axis(m, atm, otm)(above).value >= m.target
    ensures BestOnChain(m, atm, otm, Found(m, atm, otm))
  {
    var q := Axis(m, atm, otm);
    assert Reaches(q, Lo(m), Hi(m), m.target);
    assert Mirror(q)(-above).Some? && Mirror(q)(-above).value <= -m.target;
    SearchIsGlobalIff(m, atm, otm);
  }

  // ---- a monotone chain on which the search misses ----

  /** Premiums around a money of 60000 that fall by 10 with every strike of the 200-point grid, up to
      the strike 78000. */
  function Slope(strike: int): real { 1000.0 - (strike - 60000) as real / 20.0 }

  function SlopeHistory(strike: int): History {
    if strike <= 78000 then map[600 := Slope(strike)] else map[]
  }

  const SLOPE := Market(SlopeHistory, 600, 660, 60, 400.0)

  function SlopeQuote(strike: int): Option<real> { if strike <= 78000 then Some(Slope(strike)) else None }

  lemma SlopeIsQuoted(strike: int)
    ensures Priced(SLOPE.Quotes(), strike) == SlopeQuote(strike)
  {
    assert SLOPE.fetch(strike) == SlopeHistory(strike);
    if strike <= 78000 { SingleTradeIsQuoted(SLOPE, strike, Slope(strike)); }
  }

  /** Falling premiums are not enough: the strike 72000 hits the target of 400 exactly, and the search
      gives up 29 strikes out, at 65800, which quotes 710. */
  lemma MonotoneChainIsMissed()
    ensures Falling(Axis(SLOPE.Quotes(), 60000, 200)) && Priced(SLOPE.Quotes(), 72000) == Some(SLOPE.target)
    ensures !BestOnChain(SLOPE.Quotes(), 60000, 200, Found(SLOPE.Quotes(), 60000, 200))
  {
    forall k ensures Priced(SLOPE.Quotes(), k) == SlopeQuote(k) { SlopeIsQuoted(k); }
    SlopeIsMissed(SLOPE.Quotes());
  }

  lemma SlopeAt(m: Chain, i: int)
    requires forall k :: Priced(m, k) == SlopeQuote(k)
    ensures Axis(m, 60000, 200)(i) == if i <= 90 then Some(1000.0 - 10.0 * i as real) else None
  {
    OffsetIs(60000, 200, i);
    assert (60000 + i * 200 - 60000) as real / 20.0 == 10.0 * i as real;
  }

  lemma SlopeFalls(m: Chain)
    requires forall k :: Priced(m, k) == SlopeQuote(k)
    ensures Falling(Axis(m, 60000, 200))
  {
    var q := Axis(m, 60000, 200);
    forall i, j | i < j ensures NotDearer(q, i, j) {
      SlopeAt(m, i);
      SlopeAt(m, j);
    }
  }

  /** Every strike of the window quotes more than the target, and the next one beyond it does too. */
  lemma SlopeDoesNotSuffice(q: Quotes, lo: int, hi: int)
    requires lo < hi <= 30 && forall i | i <= hi :: q(i) == Some(1000.0 - 10.0 * i as real)
    ensures !EndSuffices(q, lo, hi, 400.0) && !Empty(q, lo, hi)
  {
    assert LastPriced(q, lo, hi, hi - 1) && NextCheaper(q, hi, hi - 1, hi);
    assert q(hi).value > 400.0;
  }

  lemma SlopeIsMissed(m: Chain)
    requires (forall k :: Priced(m, k) == SlopeQuote(k)) && m.target == 400.0 && 1 <= m.otmSteps <= 30
    ensures Falling(Axis(m, 60000, 200)) && !BestOnChain(m, 60000, 200, Found(m, 60000, 200))
  {
    forall i | i <= Hi(m) ensures Axis(m, 60000, 200)(i) == Some(1000.0 - 10.0 * i as real) { SlopeAt(m, i); }
    SlopeFalls(m);
    SlopeDoesNotSuffice(Axis(m, 60000, 200), Lo(m), Hi(m));
    SearchIsGlobalIff(m, 60000, 200);
  }
}
