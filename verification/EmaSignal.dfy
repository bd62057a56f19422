/** The EMA both the live engine and its backtest use, and the entry signal built on it. */
module EmaSignal {
  import opened Common

  function Alpha(length: int): real
    requires length >= 1
  {
    2.0 / (length + 1) as real
  }

  function Mean(xs: seq<real>): real
    requires xs != []
  {
    Sum(xs) / |xs| as real
  }

  function Blend(a: real, x: real, y: real): real { a * x + (1.0 - a) * y }

  /** The EMA with weight `a` at index `i`, seeded with the mean of the first `length` values. */
  function EmaAt(a: real, values: seq<real>, length: int, i: int): real
    requires 1 <= length <= i + 1 <= |values|
    decreases i
  {
    if i == length - 1 then Mean(values[..length])
    else Blend(a, values[i], EmaAt(a, values, length, i - 1))
  }

  function EmaSeries(values: seq<real>, length: int): (out: seq<Option<real>>)
    requires length >= 1
    ensures |out| == |values|
  {
    seq(|values|, i requires 0 <= i < |values| => if i < length - 1 then None else Some(EmaAt(Alpha(length), values, length, i)))
  }

  /** `ema`: the list is allocated empty and filled in place. */
  method Ema(values: seq<real>, length: int) returns (out: array<Option<real>>)
    requires length >= 1
    ensures fresh(out) && out[..] == EmaSeries(values, length)
  {
    out := new Option<real>[|values|](_ => None);
    ghost var series := EmaSeries(values, length);
    if |values| >= length {
      var a := Alpha(length);
      var v := Mean(values[..length]);
      out[length - 1] := Some(v);
      for i := length to |values|
        invariant Some(v) == series[i - 1]
        invariant forall j | 0 <= j < i :: out[j] == series[j]
      {
        v := Blend(a, values[i], v);
        out[i] := Some(v);
      }
    }
  }

  // ---- properties of the recurrence ----

  /** Later values never change an earlier EMA. */
  lemma {:induction false} EmaPrefixStable(a: real, values: seq<real>, length: int, k: int, i: int)
    requires 1 <= length <= i + 1 <= k <= |values|
    ensures EmaAt(a, values[..k], length, i) == EmaAt(a, values, length, i)
    decreases i
  {
    if i == length - 1 {
      assert values[..k][..length] == values[..length];
    } else {
      EmaPrefixStable(a, values, length, k, i - 1);
    }
  }

  lemma AlphaBounds(length: int)
    requires length >= 1
    ensures 0.0 < Alpha(length) <= 1.0
  {
  }

  lemma {:induction false} SumBounds(xs: seq<real>, lo: real, hi: real)
    requires forall i | 0 <= i < |xs| :: lo <= xs[i] <= hi
    ensures |xs| as real * lo <= Sum(xs) <= |xs| as real * hi
  {
    if xs != [] {
      var n := |xs| - 1;
      SumBounds(xs[..n], lo, hi);
      assert |xs| as real == n as real + 1.0;
      assert (n as real + 1.0) * lo == n as real * lo + lo && (n as real + 1.0) * hi == n as real * hi + hi;
    }
  }

  lemma MeanBounds(xs: seq<real>, lo: real, hi: real)
    requires xs != [] && forall i | 0 <= i < |xs| :: lo <= xs[i] <= hi
    ensures lo <= Mean(xs) <= hi
  {
    SumBounds(xs, lo, hi);
    var n, m := |xs| as real, Mean(xs);
    assert m * n == Sum(xs);
    assert (m - lo) * n >= 0.0 && (hi - m) * n >= 0.0;
  }

  lemma ProductNonNegative(a: real, b: real)
    requires a >= 0.0 && b >= 0.0
    ensures a * b >= 0.0
  {
  }

  lemma BlendBounds(a: real, x: real, y: real, lo: real, hi: real)
    requires 0.0 <= a <= 1.0 && lo <= x <= hi && lo <= y <= hi
    ensures lo <= Blend(a, x, y) <= hi
  {
    ProductNonNegative(a, x - lo);
    ProductNonNegative(1.0 - a, y - lo);
    ProductNonNegative(a, hi - x);
    ProductNonNegative(1.0 - a, hi - y);
  }

  /** An EMA stays between the least and the greatest of its inputs. */
  lemma {:induction false} EmaBounded(a: real, values: seq<real>, length: int, i: int, lo: real, hi: real)
    requires 0.0 <= a <= 1.0 && 1 <= length <= i + 1 <= |values| && forall j | 0 <= j <= i :: lo <= values[j] <= hi
    ensures lo <= EmaAt(a, values, length, i) <= hi
    decreases i
  {
    if i == length - 1 {
      MeanBounds(values[..length], lo, hi);
    } else {
      EmaBounded(a, values, length, i - 1, lo, hi);
      BlendBounds(a, values[i], EmaAt(a, values, length, i - 1), lo, hi);
    }
  }

  /** Every entry of the series lies between the least and the greatest input. */
  lemma EmaSeriesBounded(values: seq<real>, length: int, lo: real, hi: real, i: nat)
    requires length >= 1 && i < |values| && forall j | 0 <= j < |values| :: lo <= values[j] <= hi
    ensures EmaSeries(values, length)[i].Some? <==> i >= length - 1
    ensures EmaSeries(values, length)[i].Some? ==> lo <= EmaSeries(values, length)[i].value <= hi
  {
    AlphaBounds(length);
    if i >= length - 1 { EmaBounded(Alpha(length), values, length, i, lo, hi); }
  }

  function Pow(x: real, n: nat): real { if n == 0 then 1.0 else x * Pow(x, n - 1) }

  /** An EMA carried on from the value `start` over further closes. */
  function CarryOn(a: real, start: real, xs: seq<real>): real {
    if xs == [] then start else Blend(a, xs[|xs| - 1], CarryOn(a, start, xs[..|xs| - 1]))
  }

  lemma CarryOnNext(a: real, start: real, xs: seq<real>, x: real)
    ensures CarryOn(a, start, xs + [x]) == Blend(a, x, CarryOn(a, start, xs))
  {
    assert (xs + [x])[..|xs|] == xs;
  }

  lemma {:induction false} EmaCarriesOn(a: real, values: seq<real>, length: int, i: int, n: nat)
    requires 1 <= length <= i - n + 1 && i < |values|
    ensures EmaAt(a, values, length, i) == CarryOn(a, EmaAt(a, values, length, i - n), values[i - n + 1..i + 1])
    decreases n
  {
    if n > 0 {
      var xs := values[i - n + 1..i + 1];
      var before := values[i - n + 1..i];
      EmaCarriesOn(a, values, length, i - 1, n - 1);
      assert xs == before + [values[i]];
      CarryOnNext(a, EmaAt(a, values, length, i - n), before, values[i]);
    }
  }

  /** A gap that shrinks by the factor `b` at every close. */
  function Decay(b: real, gap: real, n: nat): real { if n == 0 then gap else Shrink(b, Decay(b, gap, n - 1)) }

  function Shrink(b: real, gap: real): real { b * gap }

  lemma {:induction false} DecayIsPower(b: real, gap: real, n: nat)
    ensures Decay(b, gap, n) == Pow(b, n) * gap
  {
    if n > 0 {
      DecayIsPower(b, gap, n - 1);
      assert b * (Pow(b, n - 1) * gap) == b * Pow(b, n - 1) * gap;
    }
  }

  lemma {:induction false} GapDecays(a: real, p: real, q: real, xs: seq<real>)
    ensures CarryOn(a, p, xs) - CarryOn(a, q, xs) == Decay(1.0 - a, p - q, |xs|)
  {
    if xs != [] {
      var front := xs[..|xs| - 1];
      GapDecays(a, p, q, front);
      BlendGap(a, xs[|xs| - 1], CarryOn(a, p, front), CarryOn(a, q, front));
    }
  }

  lemma BlendGap(a: real, x: real, y: real, z: real)
    ensures Blend(a, x, y) - Blend(a, x, z) == Shrink(1.0 - a, y - z)
  {
  }

  /** Two histories that share their last `n` closes have EMAs that differ by their earlier gap
      shrunk by 1 - a at each of them, that is, by exactly (1 - a)^n times it. */
  lemma EmaForgets(a: real, u: seq<real>, v: seq<real>, length: int, i: int, j: int, n: nat)
    requires 1 <= length <= i - n + 1 && i < |u| && length <= j - n + 1 && j < |v|
    requires u[i - n + 1..i + 1] == v[j - n + 1..j + 1]
    ensures EmaAt(a, u, length, i) - EmaAt(a, v, length, j)
         == Decay(1.0 - a, EmaAt(a, u, length, i - n) - EmaAt(a, v, length, j - n), n)
  {
    EmaCarriesOn(a, u, length, i, n);
    EmaCarriesOn(a, v, length, j, n);
    GapDecays(a, EmaAt(a, u, length, i - n), EmaAt(a, v, length, j - n), u[i - n + 1..i + 1]);
  }

  // ---- the entry signal ----

  datatype Direction = Long | Short

  /** `stacked_signal`: the signal on the last close, if there is enough history. */
  function StackedSignal(closes: seq<real>, fast: int, slow: int): Option<Direction>
    requires fast >= 1 && slow >= 1
  {
    var n := |closes|;
    var ef, es := EmaSeries(closes, fast), EmaSeries(closes, slow);
    if n == 0 || ef[n - 1].None? || es[n - 1].None? then None
    else Stacked(closes[n - 1], ef[n - 1].value, es[n - 1].value)
  }

  /** A close and the two EMAs in strict order, upwards or downwards. */
  function Stacked(c: real, f: real, s: real): Option<Direction> {
    if c > f > s then Some(Long) else if c < f < s then Some(Short) else None
  }

  /** The signal at bar `i` on all closes so far. */
  function PrefixSignal(bars: seq<Candle>, fast: int, slow: int, i: nat): Option<Direction>
    requires fast >= 1 && slow >= 1 && i < |bars|
  {
    StackedSignal(Closes(bars)[..i + 1], fast, slow)
  }

  /** What the backtest's search accepts at a bar: `true` for up, `false` for down. */
  function Qualifies(close: real, ef: Option<real>, es: Option<real>, stacked: bool): Option<bool> {
    if ef.None? || es.None? then None
    else if stacked then
      if close > ef.value > es.value then Some(true) else if close < ef.value < es.value then Some(false) else None
    else
      if close > ef.value && close > es.value then Some(true)
      else if close < ef.value && close < es.value then Some(false)
      else None
  }

  /** Stacked, a bar qualifies on the side the close and the EMAs are in order; otherwise on the side of both EMAs
      the close is on. */
  lemma QualifiesIff(close: real, f: real, s: real)
    ensures Qualifies(close, Some(f), Some(s), true) == Some(true) <==> close > f && f > s
    ensures Qualifies(close, Some(f), Some(s), true) == Some(false) <==> close < f && f < s
    ensures Qualifies(close, Some(f), Some(s), false) == Some(true) <==> close > Max(f, s)
    ensures Qualifies(close, Some(f), Some(s), false) == Some(false) <==> close < Min(f, s)
  {
  }

  /** `find_signal`: the first qualifying bar from `i0` on, given up at the first bar that closes
      past the deadline. */
  method FindSignal(bars: seq<Candle>, ef: seq<Option<real>>, es: seq<Option<real>>, i0: nat,
                    bar: int, deadline: int, stacked: bool)
    returns (r: Option<(nat, bool)>)
    requires |bars| == |ef| == |es|
    ensures r.Some? ==>
      var (i, up) := r.value;
      && i0 <= i < |bars|
      && Qualifies(bars[i].close, ef[i], es[i], stacked) == Some(up)
      && (forall j | i0 <= j < i :: Qualifies(bars[j].close, ef[j], es[j], stacked) == None)
      && (forall j | i0 <= j <= i :: bars[j].start + bar <= deadline)
    ensures r.None? ==>
      forall j | i0 <= j < |bars| && (forall k | i0 <= k <= j :: bars[k].start + bar <= deadline) ::
        Qualifies(bars[j].close, ef[j], es[j], stacked) == None
  {
    if i0 > |bars| { return None; }
    for i := i0 to |bars|
      invariant forall j | i0 <= j < i ::
        Qualifies(bars[j].close, ef[j], es[j], stacked) == None && bars[j].start + bar <= deadline
    {
      var b := bars[i];
      if b.start + bar > deadline { return None; }
      if ef[i].Some? && es[i].Some? {
        if stacked {
          if b.close > ef[i].value > es[i].value { return Some((i, true)); }
          if b.close < ef[i].value < es[i].value { return Some((i, false)); }
        } else {
          if b.close > ef[i].value && b.close > es[i].value { return Some((i, true)); }
          if b.close < ef[i].value && b.close < es[i].value { return Some((i, false)); }
        }
      }
    }
    r := None;
  }

  function Closes(bars: seq<Candle>): (cs: seq<real>)
    ensures |cs| == |bars| && forall i | 0 <= i < |bars| :: cs[i] == bars[i].close
  {
    seq(|bars|, i requires 0 <= i < |bars| => bars[i].close)
  }

  /** At every bar, the signal on the closes so far is the backtest's decision, which is computed once
      from the full history. */
  lemma PrefixSignalIsBacktestSignal(bars: seq<Candle>, fast: int, slow: int, i: nat)
    requires fast >= 1 && slow >= 1 && i < |bars|
    ensures var closes := Closes(bars);
      var signal := PrefixSignal(bars, fast, slow, i);
      Qualifies(bars[i].close, EmaSeries(closes, fast)[i], EmaSeries(closes, slow)[i], true)
      == if signal.None? then None else Some(signal == Some(Long))
  {
    var closes := Closes(bars);
    if i >= fast - 1 { EmaPrefixStable(Alpha(fast), closes, fast, i + 1, i); }
    if i >= slow - 1 { EmaPrefixStable(Alpha(slow), closes, slow, i + 1, i); }
  }

  /** Watching bar by bar from `i0`, the signal on growing prefixes first fires at exactly the bar, and
      on the side, that the backtest's search accepts first. */
  lemma PrefixFirstFiresWhereBacktestDoes(bars: seq<Candle>, fast: int, slow: int, i0: nat, i: nat, d: Direction)
    requires fast >= 1 && slow >= 1 && i0 <= i < |bars|
    ensures var closes := Closes(bars);
      var ef, es := EmaSeries(closes, fast), EmaSeries(closes, slow);
      (PrefixSignal(bars, fast, slow, i) == Some(d)
        && forall j: nat | i0 <= j < i :: PrefixSignal(bars, fast, slow, j) == None)
      <==>
      (Qualifies(bars[i].close, ef[i], es[i], true) == Some(d == Long)
        && forall j | i0 <= j < i :: Qualifies(bars[j].close, ef[j], es[j], true) == None)
  {
    var closes := Closes(bars);
    var ef, es := EmaSeries(closes, fast), EmaSeries(closes, slow);
    PrefixSignalIsBacktestSignal(bars, fast, slow, i);
    forall j: nat | i0 <= j < i
      ensures PrefixSignal(bars, fast, slow, j) == None <==> Qualifies(bars[j].close, ef[j], es[j], true) == None
    {
      PrefixSignalIsBacktestSignal(bars, fast, slow, j);
    }
  }
}
