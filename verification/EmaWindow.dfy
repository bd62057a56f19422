/** The live engine's signal on the candles it refetches, against the backtest's on the full history. */
module EmaWindow {
  import opened Common
  import opened EmaSignal

  // ---- the live engine's window ----

  /** What the live engine computes at bar `i`: the signal on the window it refetches, which begins at
      bar `from`. */
  function LiveSignal(bars: seq<Candle>, fast: int, slow: int, from: nat, i: nat): Option<Direction>
    requires fast >= 1 && slow >= 1 && from <= i < |bars|
  {
    StackedSignal(Closes(bars)[from..i + 1], fast, slow)
  }

  /** How far the EMA of a window beginning at `from` is from the EMA of the full history: the gap
      between the window's seed and the full EMA at that bar, decayed over the closes since. */
  function Drift(closes: seq<real>, length: int, from: nat, i: nat): real
    requires length >= 1 && from + length <= i + 1 <= |closes|
  {
    Decay(1.0 - Alpha(length), SeedGap(closes, length, from), i - (from + length - 1))
  }

  function SeedGap(closes: seq<real>, length: int, from: nat): real
    requires length >= 1 && from + length <= |closes|
  {
    Mean(closes[from..from + length]) - EmaAt(Alpha(length), closes, length, from + length - 1)
  }

  lemma SliceOfSlice(xs: seq<real>, from: nat, to: nat, i: nat, j: nat)
    requires from <= to <= |xs| && i <= j <= to - from
    ensures xs[from..to][i..j] == xs[from + i..from + j]
  {
    var inner, outer := xs[from..to][i..j], xs[from + i..from + j];
    forall k | 0 <= k < j - i ensures inner[k] == outer[k] {
      assert inner[k] == xs[from..to][i + k] == xs[from + i + k];
    }
    assert inner == outer;
  }

  lemma WindowEmaDrifts(closes: seq<real>, length: int, from: nat, i: nat)
    requires length >= 1 && from + length <= i + 1 <= |closes|
    ensures EmaAt(Alpha(length), closes[from..i + 1], length, i - from)
         == EmaAt(Alpha(length), closes, length, i) + Drift(closes, length, from, i)
  {
    var window, n := closes[from..i + 1], i - (from + length - 1);
    SliceOfSlice(closes, from, i + 1, i - from - n + 1, i - from + 1);
    SliceOfSlice(closes, from, i + 1, 0, length);
    assert window[..length] == window[0..length];
    EmaForgets(Alpha(length), window, closes, length, i - from, i, n);
  }

  /** The drift is at most the price range shrunk by 1 - a at every close since the seed. */
  lemma DriftIsBounded(closes: seq<real>, length: int, from: nat, i: nat, lo: real, hi: real)
    requires length >= 1 && from + length <= i + 1 <= |closes| && forall j | 0 <= j <= i :: lo <= closes[j] <= hi
    ensures Abs(Drift(closes, length, from, i)) <= Pow(1.0 - Alpha(length), i + 1 - from - length) * (hi - lo)
  {
    var seeded := from + length - 1;
    var gap := SeedGap(closes, length, from);
    AlphaBounds(length);
    SeedGapBounded(closes, length, from, lo, hi);
    DecayIsPower(1.0 - Alpha(length), gap, i - seeded);
    PowNonNegative(1.0 - Alpha(length), i - seeded);
    ScaledGapBounded(Pow(1.0 - Alpha(length), i - seeded), gap, hi - lo);
  }

  lemma SeedGapBounded(closes: seq<real>, length: int, from: nat, lo: real, hi: real)
    requires length >= 1 && from + length <= |closes| && forall j | 0 <= j < from + length :: lo <= closes[j] <= hi
    ensures lo - hi <= SeedGap(closes, length, from) <= hi - lo
  {
    AlphaBounds(length);
    MeanBounds(closes[from..from + length], lo, hi);
    EmaBounded(Alpha(length), closes, length, from + length - 1, lo, hi);
  }

  lemma {:induction false} PowNonNegative(x: real, n: nat)
    requires x >= 0.0
    ensures Pow(x, n) >= 0.0
  {
    if n > 0 {
      PowNonNegative(x, n - 1);
      ProductNonNegative(x, Pow(x, n - 1));
    }
  }

  lemma ScaledGapBounded(p: real, gap: real, range: real)
    requires p >= 0.0 && -range <= gap <= range
    ensures Abs(p * gap) <= p * range
  {
    ProductNonNegative(p, range - gap);
    ProductNonNegative(p, range + gap);
  }

  /** Both EMAs exist on the window. */
  predicate Covered(closes: seq<real>, fast: int, slow: int, from: nat, i: nat) {
    fast >= 1 && slow >= 1 && from + fast <= i + 1 <= |closes| && from + slow <= i + 1
  }

  /** Adding the drifts to the EMAs leaves the close and the EMAs in the same strict order, or in none. */
  predicate OrderKept(closes: seq<real>, fast: int, slow: int, from: nat, i: nat)
    requires Covered(closes, fast, slow, from, i)
  {
    var c, f, s := closes[i], EmaAt(Alpha(fast), closes, fast, i), EmaAt(Alpha(slow), closes, slow, i);
    Stacked(c, f + Drift(closes, fast, from, i), s + Drift(closes, slow, from, i)) == Stacked(c, f, s)
  }

  /** At every bar, the live engine decides as the full history does exactly when the drifts keep the
      order. */
  lemma LiveSignalAgreesIff(bars: seq<Candle>, fast: int, slow: int, from: nat, i: nat)
    requires from <= i < |bars| && Covered(Closes(bars), fast, slow, from, i)
    ensures LiveSignal(bars, fast, slow, from, i) == PrefixSignal(bars, fast, slow, i)
            <==> OrderKept(Closes(bars), fast, slow, from, i)
  {
    var closes := Closes(bars);
    WindowEmaDrifts(closes, fast, from, i);
    WindowEmaDrifts(closes, slow, from, i);
    EmaPrefixStable(Alpha(fast), closes, fast, i + 1, i);
    EmaPrefixStable(Alpha(slow), closes, slow, i + 1, i);
  }

  /** At bar `i` the close is further from the fast EMA, and the EMAs further apart, than the window
      can have drifted. */
  predicate Clear(closes: seq<real>, fast: int, slow: int, from: nat, i: nat) {
    && Covered(closes, fast, slow, from, i)
    && var f, s := EmaAt(Alpha(fast), closes, fast, i), EmaAt(Alpha(slow), closes, slow, i);
       var df, ds := Abs(Drift(closes, fast, from, i)), Abs(Drift(closes, slow, from, i));
       Abs(closes[i] - f) > df && Abs(f - s) > df + ds
  }

  /** A window that reaches back to the first bar does not drift: every bar is clear at which the close
      and the two EMAs differ. */
  lemma WholeWindowIsClear(closes: seq<real>, fast: int, slow: int, i: nat)
    requires fast >= 1 && slow >= 1 && fast <= i + 1 <= |closes| && slow <= i + 1
    ensures var f, s := EmaAt(Alpha(fast), closes, fast, i), EmaAt(Alpha(slow), closes, slow, i);
      Clear(closes, fast, slow, 0, i) <==> closes[i] != f && f != s
  {
    WholeWindowHasNoDrift(closes, fast, i);
    WholeWindowHasNoDrift(closes, slow, i);
  }

  lemma WholeWindowHasNoDrift(closes: seq<real>, length: int, i: nat)
    requires 1 <= length <= i + 1 <= |closes|
    ensures Drift(closes, length, 0, i) == 0.0
  {
    assert closes[0..length] == closes[..length];
    assert SeedGap(closes, length, 0) == 0.0;
    NothingDecays(1.0 - Alpha(length), i + 1 - length);
  }

  lemma {:induction false} NothingDecays(b: real, n: nat)
    ensures Decay(b, 0.0, n) == 0.0
  {
    if n > 0 { NothingDecays(b, n - 1); }
  }

  /** A clear bar keeps its order, so the live engine's signal is the backtest's decision. */
  lemma LiveSignalIsBacktestSignal(bars: seq<Candle>, fast: int, slow: int, from: nat, i: nat)
    requires from <= i < |bars| && Clear(Closes(bars), fast, slow, from, i)
    ensures OrderKept(Closes(bars), fast, slow, from, i)
    ensures LiveSignal(bars, fast, slow, from, i) == PrefixSignal(bars, fast, slow, i)
    ensures var closes := Closes(bars);
      var live := LiveSignal(bars, fast, slow, from, i);
      Qualifies(bars[i].close, EmaSeries(closes, fast)[i], EmaSeries(closes, slow)[i], true)
      == if live.None? then None else Some(live == Some(Long))
  {
    LiveSignalAgreesIff(bars, fast, slow, from, i);
    PrefixSignalIsBacktestSignal(bars, fast, slow, i);
  }

  /** Watching bar by bar from `i0`, with the window at bar `j` beginning at `window(j)`: while the drifts
      keep the order, the live engine first fires at exactly the bar, and on the side, that the
      backtest's search accepts first. */
  lemma LiveFirstFiresWhereBacktestDoes(bars: seq<Candle>, fast: int, slow: int, window: nat -> nat, i0: nat, i: nat, d: Direction)
    requires fast >= 1 && slow >= 1 && i0 <= i < |bars|
    requires forall j: nat | i0 <= j <= i ::
               window(j) <= j && Covered(Closes(bars), fast, slow, window(j), j)
               && OrderKept(Closes(bars), fast, slow, window(j), j)
    ensures var closes := Closes(bars);
      var ef, es := EmaSeries(closes, fast), EmaSeries(closes, slow);
      (LiveSignal(bars, fast, slow, window(i), i) == Some(d)
        && forall j: nat | i0 <= j < i :: LiveSignal(bars, fast, slow, window(j), j) == None)
      <==>
      (Qualifies(bars[i].close, ef[i], es[i], true) == Some(d == Long)
        && forall j | i0 <= j < i :: Qualifies(bars[j].close, ef[j], es[j], true) == None)
  {
    LiveSignalAgreesIff(bars, fast, slow, window(i), i);
    forall j: nat | i0 <= j < i
      ensures LiveSignal(bars, fast, slow, window(j), j) == PrefixSignal(bars, fast, slow, j)
    {
      LiveSignalAgreesIff(bars, fast, slow, window(j), j);
    }
    PrefixFirstFiresWhereBacktestDoes(bars, fast, slow, i0, i, d);
  }

  // ---- for which windows the two always agree ----

  predicate Positive(closes: seq<real>) { forall j | 0 <= j < |closes| :: closes[j] > 0.0 }

  /** A price of `p` throughout, except for a first close `h` higher. */
  function Spike(p: real, h: real, n: nat): (closes: seq<real>)
    ensures |closes| == n && forall j | 0 <= j < n :: closes[j] == if j == 0 then p + h else p
  {
    seq(n, j requires 0 <= j < n => if j == 0 then p + h else p)
  }

  /** The spike, closed exactly on its own fast EMA. */
  function Tied(p: real, h: real, n: nat, fast: int): (closes: seq<real>)
    requires 1 <= fast < n
    ensures |closes| == n
  {
    Spike(p, h, n - 1) + [EmaAt(Alpha(fast), Spike(p, h, n - 1), fast, n - 2)]
  }

  lemma SumAbove(xs: seq<real>, p: real)
    requires xs != [] && xs[0] > p && forall j | 0 <= j < |xs| :: xs[j] >= p
    ensures Sum(xs) > |xs| as real * p
  {
    var n := |xs| - 1;
    if n == 0 {
      assert Sum(xs[..0]) == 0.0;
    } else {
      SumAbove(xs[..n], p);
      assert (n as real + 1.0) * p == n as real * p + p;
    }
  }

  lemma MeanAbove(xs: seq<real>, p: real)
    requires xs != [] && xs[0] > p && forall j | 0 <= j < |xs| :: xs[j] >= p
    ensures Mean(xs) > p
  {
    SumAbove(xs, p);
    var n, m := |xs| as real, Mean(xs);
    assert m * n == Sum(xs);
    assert (m - p) * n > 0.0;
  }

  lemma BlendIs(a: real, x: real, p: real)
    ensures Blend(a, x, p) == p + Shrink(a, x - p)
  {
  }

  lemma BlendAbove(a: real, x: real, y: real, p: real)
    requires 0.0 <= a < 1.0 && x >= p && y > p
    ensures Blend(a, x, y) > p
  {
    ProductNonNegative(a, x - p);
    ProductPositive(1.0 - a, y - p);
  }

  lemma ProductPositive(a: real, b: real)
    requires a > 0.0 && b > 0.0
    ensures a * b > 0.0
  {
  }

  /** One higher close lifts every later EMA. */
  lemma {:induction false} EmaAbove(a: real, closes: seq<real>, length: int, i: int, p: real)
    requires 0.0 <= a < 1.0 && 1 <= length <= i + 1 <= |closes|
    requires closes[0] > p && forall j | 0 <= j < |closes| :: closes[j] >= p
    ensures EmaAt(a, closes, length, i) > p
    decreases i
  {
    if i == length - 1 {
      MeanAbove(closes[..length], p);
    } else {
      EmaAbove(a, closes, length, i - 1, p);
      BlendAbove(a, closes[i], EmaAt(a, closes, length, i - 1), p);
    }
  }

  lemma FastAlpha(fast: int, slow: int)
    requires 2 <= fast < slow
    ensures 0.0 < Alpha(slow) < Alpha(fast) < 1.0 && Shrink(Alpha(fast), slow as real) > 1.0
  {
    AlphaIs(fast);
    AlphaIs(slow);
    AlphasDiffer(Alpha(fast), Alpha(slow), fast as real, slow as real);
  }

  lemma AlphaIs(length: int)
    requires length >= 1
    ensures Alpha(length) * (length as real + 1.0) == 2.0
  {
    assert (length + 1) as real == length as real + 1.0;
  }

  lemma AlphasDiffer(a: real, b: real, f: real, s: real)
    requires 2.0 <= f && f + 1.0 <= s && a * (f + 1.0) == 2.0 && b * (s + 1.0) == 2.0
    ensures 0.0 < b < a < 1.0 && Shrink(a, s) > 1.0
  {
    DivisorPositive(a, f + 1.0, 2.0);
    DivisorPositive(b, s + 1.0, 2.0);
    ProductPositive(b, s - f);
    DivisorPositive(a - b, f + 1.0, b * (s - f));
    DivisorPositive(1.0 - a, f + 1.0, f - 1.0);
    ProductNonNegative(a, s - f - 1.0);
    assert a * s == a * (f + 1.0) + a * (s - f - 1.0);
  }

  lemma DivisorPositive(a: real, d: real, r: real)
    requires d > 0.0 && r > 0.0 && a * d == r
    ensures a > 0.0
  {
    if a <= 0.0 { ProductNonNegative(-a, d); }
  }

  /** The last close is the full history's fast EMA. */
  lemma TiedIsNone(p: real, h: real, n: nat, fast: int, slow: int)
    requires p > 0.0 && h > 0.0 && 2 <= fast < slow && slow < n
    ensures StackedSignal(Tied(p, h, n, fast), fast, slow) == None
    ensures Tied(p, h, n, fast)[n - 1] > p
  {
    var spike, closes, a := Spike(p, h, n - 1), Tied(p, h, n, fast), Alpha(fast);
    var x := closes[n - 1];
    FastAlpha(fast, slow);
    EmaAbove(a, spike, fast, n - 2, p);
    assert closes[..n - 1] == spike;
    EmaPrefixStable(a, closes, fast, n - 1, n - 2);
    assert EmaAt(a, closes, fast, n - 1) == Blend(a, x, x);
    BlendIs(a, x, x);
  }

  /** A constant price, left by one last close. */
  predicate FlatThen(closes: seq<real>, p: real, x: real) {
    closes != [] && closes[|closes| - 1] == x && forall j | 0 <= j < |closes| - 1 :: closes[j] == p
  }

  lemma FlatEma(closes: seq<real>, p: real, x: real, length: int)
    requires FlatThen(closes, p, x) && 1 <= length < |closes|
    ensures EmaAt(Alpha(length), closes, length, |closes| - 1) == p + Shrink(Alpha(length), x - p)
  {
    var m := |closes|;
    AlphaBounds(length);
    EmaBounded(Alpha(length), closes, length, m - 2, p, p);
    BlendIs(Alpha(length), x, p);
  }

  lemma FlatMean(closes: seq<real>, p: real, x: real)
    requires FlatThen(closes, p, x)
    ensures Shrink(Mean(closes) - p, |closes| as real) == x - p
  {
    var m := |closes|;
    SumBounds(closes[..m - 1], p, p);
    assert Sum(closes) == (m - 1) as real * p + x;
    assert Mean(closes) * m as real == Sum(closes);
    assert (m - 1) as real * p == m as real * p - p;
  }

  lemma ShrinkOrders(a: real, b: real, d: real)
    requires 0.0 < b < a < 1.0 && d > 0.0
    ensures 0.0 < Shrink(b, d) < Shrink(a, d) < d
  {
    ProductPositive(b, d);
    ProductPositive(a - b, d);
    ProductPositive(1.0 - a, d);
  }

  lemma MeanRisesLess(y: real, m: real, d: real, a: real)
    requires Shrink(y, m) == d > 0.0 && m > 0.0 && Shrink(a, m) > 1.0
    ensures y < Shrink(a, d)
  {
    ProductPositive(d, a * m - 1.0);
    assert (a * d - y) * m == d * (a * m - 1.0);
    DivisorPositive(a * d - y, m, d * (a * m - 1.0));
  }

  lemma SlowRisesLess(closes: seq<real>, p: real, x: real, fast: int, slow: int)
    requires FlatThen(closes, p, x) && x > p && 2 <= fast < slow <= |closes|
    ensures EmaAt(Alpha(slow), closes, slow, |closes| - 1) < p + Shrink(Alpha(fast), x - p)
  {
    FastAlpha(fast, slow);
    if |closes| == slow {
      assert closes[..slow] == closes;
      FlatMean(closes, p, x);
      MeanRisesLess(Mean(closes) - p, slow as real, x - p, Alpha(fast));
    } else {
      FlatEma(closes, p, x, slow);
      ShrinkOrders(Alpha(fast), Alpha(slow), x - p);
    }
  }

  lemma FlatThenRiseIsLong(closes: seq<real>, p: real, x: real, fast: int, slow: int)
    requires FlatThen(closes, p, x) && x > p && 2 <= fast < slow <= |closes|
    ensures StackedSignal(closes, fast, slow) == Some(Long)
  {
    FastAlpha(fast, slow);
    FlatEma(closes, p, x, fast);
    ShrinkOrders(Alpha(fast), Alpha(slow), x - p);
    SlowRisesLess(closes, p, x, fast, slow);
  }

  /** Any window that leaves out the first close can go long where the full history sees nothing. */
  lemma ShortWindowDisagrees(p: real, h: real, n: nat, from: nat, fast: int, slow: int)
    requires p > 0.0 && h > 0.0 && 2 <= fast < slow && 1 <= from && from + slow <= n
    ensures Positive(Tied(p, h, n, fast))
    ensures StackedSignal(Tied(p, h, n, fast)[from..], fast, slow) == Some(Long)
    ensures StackedSignal(Tied(p, h, n, fast), fast, slow) == None
  {
    var closes := Tied(p, h, n, fast);
    TiedIsNone(p, h, n, fast, slow);
    FlatThenRiseIsLong(closes[from..], p, closes[n - 1], fast, slow);
  }

  /** For every history of `n` positive closes the signal on the window from `from` is the full
      history's, exactly when the window is the whole history. */
  lemma WindowAlwaysAgreesIffWhole(n: nat, from: nat, fast: int, slow: int)
    requires 2 <= fast < slow && from + slow <= n
    ensures (forall closes: seq<real> | |closes| == n && Positive(closes) ::
               StackedSignal(closes[from..], fast, slow) == StackedSignal(closes, fast, slow))
            <==> from == 0
  {
    if from == 0 {
      forall closes: seq<real> | |closes| == n ensures closes[from..] == closes {}
    } else {
      ShortWindowDisagrees(60000.0, 60.0, n, from, fast, slow);
      var closes := Tied(60000.0, 60.0, n, fast);
      assert |closes| == n && Positive(closes);
    }
  }

  /** The remaining fast length is silent: with an EMA over one close there is never a signal. */
  lemma OneCloseIsSilent(closes: seq<real>, slow: int)
    requires slow >= 1
    ensures StackedSignal(closes, 1, slow) == None
  {
    if closes != [] { OneCloseEmaIsClose(closes, |closes| - 1); }
  }

  lemma OneCloseEmaIsClose(closes: seq<real>, i: nat)
    requires i < |closes|
    ensures EmaAt(Alpha(1), closes, 1, i) == closes[i]
  {
    if i == 0 {
      assert closes[..1] == [closes[0]] && [closes[0]][..0] == [];
      assert Sum([closes[0]]) == closes[0];
    } else {
      assert Alpha(1) == 1.0;
    }
  }

  /** Four days of five-minute candles. */
  const FOUR_DAYS := 1152

  /** At the default settings, EMAs over 50 and 200 five-minute closes and a window of four days: some
      history around 60000 of any greater length makes the live engine go long where the full history
      sees nothing. */
  lemma FourDayWindowCanDisagree(n: nat) returns (closes: seq<real>)
    requires n > FOUR_DAYS
    ensures |closes| == n && Positive(closes)
    ensures StackedSignal(closes[n - FOUR_DAYS..], 50, 200) == Some(Long) && StackedSignal(closes, 50, 200) == None
  {
    closes := Tied(60000.0, 60.0, n, 50);
    ShortWindowDisagrees(60000.0, 60.0, n, n - FOUR_DAYS, 50, 200);
  }
}
