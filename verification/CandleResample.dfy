/** Batch and streaming candle resampling. */
module CandleResample {
  import opened Common

  /** The start of the bucket a time belongs to. */
  type Bucketing = int -> int

  /** Buckets of `width` seconds aligned to multiples of `width` from the epoch. */
  function By(width: int): Bucketing
    requires width > 0
  {
    time => time - time % width
  }

  /** The candle that starts a bucket. */
  function Opened(c: Candle, key: Bucketing): Candle {
    c.(start := key(c.start))
  }

  /** A bucket extended by a later candle. */
  function Merge(b: Candle, c: Candle): Candle {
    Candle(b.start, b.open, Max(b.high, c.high), Min(b.low, c.low), c.close, b.volume + c.volume)
  }

  // ---- batch: one bucket per key, wherever its candles lie in the input ----

  ghost predicate DistinctStarts(out: seq<Candle>) {
    forall i, j | 0 <= i < j < |out| :: out[i].start != out[j].start
  }

  /** Where the bucket for `key` is, or |out|. */
  function Find(out: seq<Candle>, key: int): (i: nat)
    ensures i <= |out|
    ensures i < |out| ==> out[i].start == key
    ensures forall j | 0 <= j < i :: out[j].start != key
  {
    if out == [] then 0
    else
      var i := Find(out[..|out| - 1], key);
      if i < |out| - 1 || out[i].start == key then i else |out|
  }

  function Place(out: seq<Candle>, c: Candle, key: Bucketing): seq<Candle> {
    var i := Find(out, key(c.start));
    if i < |out| then out[i := Merge(out[i], c)] else out + [Opened(c, key)]
  }

  function Batch(cs: seq<Candle>, key: Bucketing): seq<Candle> {
    if cs == [] then [] else Place(Batch(cs[..|cs| - 1], key), cs[|cs| - 1], key)
  }

  lemma {:induction false} BatchStartsDistinct(cs: seq<Candle>, key: Bucketing)
    ensures DistinctStarts(Batch(cs, key))
  {
    if cs != [] { BatchStartsDistinct(cs[..|cs| - 1], key); }
  }

  /** `_resample_candles`: a dictionary of buckets and the order in which they appeared. */
  method ResampleCandles(cs: seq<Candle>, width: int) returns (out: seq<Candle>)
    requires width > 0
    ensures out == Batch(cs, By(width))
  {
    var buckets: map<int, Candle> := map[];
    var order: seq<int> := [];
    for i := 0 to |cs|
      invariant Represents(buckets, order, Batch(cs[..i], By(width)))
    {
      assert cs[..i + 1][..i] == cs[..i];
      var c := cs[i];
      var key := c.start - c.start % width;
      BatchStartsDistinct(cs[..i], By(width));
      PlaceRepresents(buckets, order, Batch(cs[..i], By(width)), c, By(width));
      if key !in buckets {
        buckets, order := buckets[key := c.(start := key)], order + [key];
      } else {
        buckets := buckets[key := Merge(buckets[key], c)];
      }
    }
    assert cs[..|cs|] == cs;
    out := seq(|order|, i requires 0 <= i < |order| && order[i] in buckets => buckets[order[i]]);
  }

  lemma PlaceRepresents(buckets: map<int, Candle>, order: seq<int>, out: seq<Candle>, c: Candle, key: Bucketing)
    requires Represents(buckets, order, out) && DistinctStarts(out)
    ensures var k := key(c.start);
      if k in buckets then Represents(buckets[k := Merge(buckets[k], c)], order, Place(out, c, key))
      else Represents(buckets[k := Opened(c, key)], order + [k], Place(out, c, key))
  {
  }

  ghost predicate Represents(buckets: map<int, Candle>, order: seq<int>, out: seq<Candle>) {
    && |order| == |out|
    && (forall i | 0 <= i < |out| :: order[i] == out[i].start && order[i] in buckets && buckets[order[i]] == out[i])
    && (forall k <- buckets :: k in order)
  }

  // ---- streaming: one open bucket, rolled when a candle of another bucket arrives ----

  function Push(out: seq<Candle>, c: Candle, key: Bucketing): seq<Candle> {
    var n := |out|;
    if n > 0 && out[n - 1].start == key(c.start) then out[..n - 1] + [Merge(out[n - 1], c)]
    else out + [Opened(c, key)]
  }

  function Roll(cs: seq<Candle>, key: Bucketing): seq<Candle> {
    if cs == [] then [] else Push(Roll(cs[..|cs| - 1], key), cs[|cs| - 1], key)
  }

  /** The bucket roll inside the backtest's candle loop: `emitted` goes to the strategy, `bucket`
      is still forming. */
  method StreamBuckets(cs: seq<Candle>, width: int) returns (emitted: seq<Candle>, bucket: Option<Candle>)
    requires width > 0
    ensures bucket.None? <==> cs == []
    ensures Roll(cs, By(width)) == emitted + if bucket.Some? then [bucket.value] else []
  {
    emitted, bucket := [], None;
    for i := 0 to |cs|
      invariant bucket.None? <==> i == 0
      invariant Roll(cs[..i], By(width)) == emitted + if bucket.Some? then [bucket.value] else []
    {
      assert cs[..i + 1][..i] == cs[..i];
      var c, start := cs[i], cs[i].start / width * width;
      assert start == By(width)(c.start);
      if bucket.None? {
        bucket := Some(c.(start := start));
      } else if start != bucket.value.start {
        emitted := emitted + [bucket.value];
        bucket := Some(c.(start := start));
      } else {
        bucket := Some(Merge(bucket.value, c));
      }
    }
    assert cs[..|cs|] == cs;
  }

  ghost predicate TimeOrdered(cs: seq<Candle>) {
    forall i, j | 0 <= i < j < |cs| :: cs[i].start <= cs[j].start
  }

  lemma {:induction false} RollIsBatchIffDistinct(cs: seq<Candle>, key: Bucketing)
    ensures Roll(cs, key) == Batch(cs, key) <==> DistinctStarts(Roll(cs, key))
  {
    BatchStartsDistinct(cs, key);
    if cs != [] && DistinctStarts(Roll(cs, key)) {
      var front, c := cs[..|cs| - 1], cs[|cs| - 1];
      var r, r' := Roll(front, key), Roll(cs, key);
      forall i | 0 <= i < |r| ensures r'[i].start == r[i].start {}
      forall i, j | 0 <= i < j < |r| ensures r[i].start != r[j].start {
        assert r'[i].start != r'[j].start;
      }
      RollIsBatchIffDistinct(front, key);
      PushIsPlace(r, c, key);
    }
  }

  lemma PushIsPlace(out: seq<Candle>, c: Candle, key: Bucketing)
    requires DistinctStarts(out) && DistinctStarts(Push(out, c, key))
    ensures Push(out, c, key) == Place(out, c, key)
  {
    var at, n := Find(out, key(c.start)), |out|;
    if n > 0 && out[n - 1].start == key(c.start) {
      assert at == n - 1;
    } else {
      var r := Push(out, c, key);
      assert r[n].start == key(c.start);
      assert forall j | 0 <= j < n :: r[j].start == out[j].start;
    }
  }

  // ---- when no bucket is left and entered again ----

  function KeyAt(cs: seq<Candle>, key: Bucketing, i: nat): int
    requires i < |cs|
  {
    key(cs[i].start)
  }

  /** The input never comes back to a bucket it has left. */
  ghost predicate NoBucketReturns(cs: seq<Candle>, key: Bucketing) {
    forall i, j, k | 0 <= i < j < k < |cs| && KeyAt(cs, key, i) == KeyAt(cs, key, k) :: KeyAt(cs, key, j) == KeyAt(cs, key, i)
  }

  ghost predicate Occurs(cs: seq<Candle>, key: Bucketing, start: int) {
    exists i | 0 <= i < |cs| :: KeyAt(cs, key, i) == start
  }

  ghost predicate Rolled(out: seq<Candle>, start: int) { exists j | 0 <= j < |out| :: out[j].start == start }

  lemma OccursNext(cs: seq<Candle>, key: Bucketing, start: int)
    requires cs != []
    ensures var n := |cs| - 1;
      Occurs(cs, key, start) <==> Occurs(cs[..n], key, start) || KeyAt(cs, key, n) == start
  {
    var n := |cs| - 1;
    if Occurs(cs[..n], key, start) {
      var i :| 0 <= i < n && KeyAt(cs[..n], key, i) == start;
      assert KeyAt(cs, key, i) == start;
    }
    if i :| 0 <= i < |cs| && KeyAt(cs, key, i) == start {
      if i < n { assert KeyAt(cs[..n], key, i) == start; }
    }
  }

  lemma RolledNext(out: seq<Candle>, c: Candle, key: Bucketing, start: int)
    ensures Rolled(Push(out, c, key), start) <==> Rolled(out, start) || key(c.start) == start
  {
    var r := Push(out, c, key);
    forall j | 0 <= j < |out| ensures r[j].start == out[j].start {}
    assert r[|r| - 1].start == key(c.start);
  }

  /** The roll has a bucket for exactly the keys that occur, and its last is the last candle's. */
  lemma {:induction false} RollHasOccurring(cs: seq<Candle>, key: Bucketing, start: int)
    ensures Rolled(Roll(cs, key), start) <==> Occurs(cs, key, start)
    ensures cs != [] ==> Roll(cs, key) != [] && Roll(cs, key)[|Roll(cs, key)| - 1].start == KeyAt(cs, key, |cs| - 1)
  {
    if cs != [] {
      var n := |cs| - 1;
      RollHasOccurring(cs[..n], key, start);
      OccursNext(cs, key, start);
      RolledNext(Roll(cs[..n], key), cs[n], key, start);
    }
  }

  lemma ReturnsNext(cs: seq<Candle>, key: Bucketing)
    requires |cs| >= 2
    ensures var n := |cs| - 1;
      NoBucketReturns(cs, key)
      <==> NoBucketReturns(cs[..n], key)
           && (KeyAt(cs, key, n - 1) == KeyAt(cs, key, n) || !Occurs(cs[..n], key, KeyAt(cs, key, n)))
  {
    var n := |cs| - 1;
    forall i | 0 <= i < n ensures KeyAt(cs[..n], key, i) == KeyAt(cs, key, i) {}
    if NoBucketReturns(cs, key) && Occurs(cs[..n], key, KeyAt(cs, key, n)) {
      var i :| 0 <= i < n && KeyAt(cs[..n], key, i) == KeyAt(cs, key, n);
      assert i < n - 1 ==> KeyAt(cs, key, n - 1) == KeyAt(cs, key, i);
    }
  }

  lemma PushKeepsDistinctIff(out: seq<Candle>, c: Candle, key: Bucketing)
    requires out != []
    ensures DistinctStarts(Push(out, c, key))
            <==> DistinctStarts(out) && (out[|out| - 1].start == key(c.start) || !Rolled(out, key(c.start)))
  {
    var r, n := Push(out, c, key), |out|;
    forall j | 0 <= j < n ensures r[j].start == out[j].start {}
    if DistinctStarts(r) {
      forall i, j | 0 <= i < j < n ensures out[i].start != out[j].start { assert r[i].start != r[j].start; }
      if out[n - 1].start != key(c.start) {
        forall j | 0 <= j < n ensures out[j].start != key(c.start) { assert r[j].start != r[n].start; }
      }
    }
  }

  lemma {:induction false} RollDistinctIff(cs: seq<Candle>, key: Bucketing)
    ensures DistinctStarts(Roll(cs, key)) <==> NoBucketReturns(cs, key)
  {
    if |cs| >= 2 {
      var n := |cs| - 1;
      RollDistinctIff(cs[..n], key);
      ReturnsNext(cs, key);
      RollHasOccurring(cs[..n], key, KeyAt(cs, key, n));
      PushKeepsDistinctIff(Roll(cs[..n], key), cs[n], key);
    } else if |cs| == 1 {
      assert Roll(cs[..0], key) == [];
    }
  }

  /** For every input: rolling and batching agree exactly when the input never comes back to a bucket it
      has left. */
  lemma RollIsBatchIffNoBucketReturns(cs: seq<Candle>, key: Bucketing)
    ensures Roll(cs, key) == Batch(cs, key) <==> NoBucketReturns(cs, key)
  {
    RollIsBatchIffDistinct(cs, key);
    RollDistinctIff(cs, key);
  }

  ghost predicate Monotone(key: Bucketing) { forall s, t | s <= t :: key(s) <= key(t) }

  lemma {:induction false} RollIncreases(cs: seq<Candle>, key: Bucketing)
    requires Monotone(key) && TimeOrdered(cs)
    ensures var r := Roll(cs, key);
      && (forall i, j | 0 <= i < j < |r| :: r[i].start < r[j].start)
      && (cs != [] ==> r != [] && r[|r| - 1].start == key(cs[|cs| - 1].start))
  {
    if cs != [] { RollIncreases(cs[..|cs| - 1], key); }
  }

  /** Every time-ordered stream: what the roll emits is the batch resample without its last candle. */
  lemma StreamEmitsBatch(cs: seq<Candle>, width: int)
    requires width > 0 && TimeOrdered(cs)
    ensures Roll(cs, By(width)) == Batch(cs, By(width))
  {
    ByIsMonotone(width);
    RollIncreases(cs, By(width));
    RollIsBatchIffDistinct(cs, By(width));
  }

  // ---- resampling in two stages ----

  /** Rolling finely and then coarsely is rolling coarsely, for every stream, when the coarse
      buckets are unions of fine ones. */
  lemma {:induction false} RollComposes(cs: seq<Candle>, fine: Bucketing, coarse: Bucketing)
    requires forall s :: coarse(fine(s)) == coarse(s)
    ensures Roll(Roll(cs, fine), coarse) == Roll(cs, coarse)
  {
    if cs != [] {
      RollComposes(cs[..|cs| - 1], fine, coarse);
      PushComposes(Roll(cs[..|cs| - 1], fine), cs[|cs| - 1], fine, coarse);
    }
  }

  lemma PushComposes(x: seq<Candle>, c: Candle, fine: Bucketing, coarse: Bucketing)
    requires coarse(fine(c.start)) == coarse(c.start)
    ensures Roll(Push(x, c, fine), coarse) == Push(Roll(x, coarse), c, coarse)
  {
    var n := |x|;
    if n > 0 && x[n - 1].start == fine(c.start) {
      RollNext(x[..n - 1], Merge(x[n - 1], c), coarse);
      RollNext(x[..n - 1], x[n - 1], coarse);
      assert x[..n - 1] + [x[n - 1]] == x;
      MergeInTurn(Roll(x[..n - 1], coarse), x[n - 1], c, coarse);
    } else {
      RollNext(x, Opened(c, fine), coarse);
      PushOpened(Roll(x, coarse), c, fine, coarse);
    }
  }

  lemma RollNext(x: seq<Candle>, c: Candle, key: Bucketing)
    ensures Roll(x + [c], key) == Push(Roll(x, key), c, key)
  {
    assert (x + [c])[..|x|] == x;
  }

  /** Only the bucket a candle falls into matters to the roll. */
  lemma PushOpened(out: seq<Candle>, c: Candle, fine: Bucketing, coarse: Bucketing)
    requires coarse(fine(c.start)) == coarse(c.start)
    ensures Push(out, Opened(c, fine), coarse) == Push(out, c, coarse)
  {
  }

  lemma MergeInTurn(out: seq<Candle>, y: Candle, c: Candle, key: Bucketing)
    requires key(y.start) == key(c.start)
    ensures Push(out, Merge(y, c), key) == Push(Push(out, y, key), c, key)
  {
  }

  /** `_resample_candles` on time-ordered candles: resampling to `b` and then to a multiple `t` of
      it is resampling straight to `t`. */
  lemma BatchComposes(cs: seq<Candle>, b: int, t: int)
    requires b > 0 && t > 0 && t % b == 0 && TimeOrdered(cs)
    ensures Batch(Batch(cs, By(b)), By(t)) == Batch(cs, By(t))
  {
    StreamEmitsBatch(cs, b);
    StreamEmitsBatch(cs, t);
    ByIsMonotone(b);
    RollIncreases(cs, By(b));
    StreamEmitsBatch(Roll(cs, By(b)), t);
    forall s ensures By(t)(By(b)(s)) == By(t)(s) { ByOfBy(s, b, t); }
    RollComposes(cs, By(b), By(t));
  }

  // ---- the arithmetic of aligned buckets ----

  lemma MulMonotone(a: int, b: int, w: int)
    requires a <= b && w > 0
    ensures a * w <= b * w
  {
    assert (b - a) * w >= 0;
  }

  /** The bucket of `s` is the one multiple of the width within a width below `s`. */
  lemma ByIs(s: int, w: int, q: int)
    requires w > 0 && q * w <= s < q * w + w
    ensures By(w)(s) == q * w
  {
    var p := s / w;
    assert s == p * w + s % w;
    if p < q {
      MulMonotone(p + 1, q, w);
    } else if q < p {
      MulMonotone(q + 1, p, w);
    }
  }

  lemma ByIsQuotient(s: int, w: int)
    requires w > 0
    ensures By(w)(s) == s / w * w
  {
    assert s == s / w * w + s % w;
  }

  lemma QuotientMonotone(s: int, t: int, w: int)
    requires w > 0 && s <= t
    ensures s / w <= t / w
  {
    var p, q := s / w, t / w;
    assert p * w <= s && t < q * w + w by {
      assert s == p * w + s % w && t == q * w + t % w;
    }
    if q < p { MulMonotone(q + 1, p, w); }
  }

  lemma ByIsMonotone(w: int)
    requires w > 0
    ensures Monotone(By(w))
  {
    forall s: int, t: int | s <= t
      ensures By(w)(s) <= By(w)(t)
    {
      ByIsQuotient(s, w);
      ByIsQuotient(t, w);
      QuotientMonotone(s, t, w);
      MulMonotone(s / w, t / w, w);
    }
  }

  lemma ByOfBy(s: int, b: int, t: int)
    requires b > 0 && t > 0 && t % b == 0
    ensures By(t)(By(b)(s)) == By(t)(s)
  {
    var n, k, u := t / b, s / t, s / b;
    assert t == n * b && s == k * t + s % t && s == u * b + s % b;
    assert k * t == k * n * b;
    ByIs(s, t, k);
    if u < k * n {
      MulMonotone(u + 1, k * n, b);
    } else if u >= k * n + n {
      MulMonotone(k * n + n, u, b);
    }
    assert By(b)(s) == u * b;
    MulMonotone(k * n, u, b);
    ByIs(u * b, t, k);
  }

  // ---- what a bucket holds ----

  function InBucket(cs: seq<Candle>, start: int, key: Bucketing): seq<Candle> {
    if cs == [] then []
    else
      var rest := InBucket(cs[..|cs| - 1], start, key);
      if key(cs[|cs| - 1].start) == start then rest + [cs[|cs| - 1]] else rest
  }

  function Volume(cs: seq<Candle>): real {
    if cs == [] then 0.0 else Volume(cs[..|cs| - 1]) + cs[|cs| - 1].volume
  }

  /** `b` is the OHLCV summary of `cs`. */
  ghost predicate Aggregates(b: Candle, cs: seq<Candle>) {
    && cs != []
    && b.open == cs[0].open && b.close == cs[|cs| - 1].close
    && (forall i | 0 <= i < |cs| :: b.low <= cs[i].low && cs[i].high <= b.high)
    && (exists i :: 0 <= i < |cs| && cs[i].high == b.high)
    && (exists i :: 0 <= i < |cs| && cs[i].low == b.low)
    && b.volume == Volume(cs)
  }

  lemma AggregatesExtend(b: Candle, cs: seq<Candle>, c: Candle)
    requires Aggregates(b, cs)
    ensures Aggregates(Merge(b, c), cs + [c])
  {
    var m, all := Merge(b, c), cs + [c];
    assert all[..|cs|] == cs;
    var h :| 0 <= h < |cs| && cs[h].high == b.high;
    var l :| 0 <= l < |cs| && cs[l].low == b.low;
    assert all[h].high == m.high || all[|cs|].high == m.high;
    assert all[l].low == m.low || all[|cs|].low == m.low;
  }

  ghost predicate Covered(cs: seq<Candle>, key: Bucketing, out: seq<Candle>) {
    forall i | 0 <= i < |cs| :: exists j :: 0 <= j < |out| && out[j].start == key(cs[i].start)
  }

  ghost predicate Summarizes(cs: seq<Candle>, key: Bucketing, out: seq<Candle>) {
    && Covered(cs, key, out)
    && forall j | 0 <= j < |out| :: Aggregates(out[j], InBucket(cs, out[j].start, key))
  }

  /** On any input, ordered or not: one output candle per bucket that occurs, each the summary of
      exactly the candles of its bucket. */
  lemma {:induction false} BatchSummarizes(cs: seq<Candle>, key: Bucketing)
    ensures Summarizes(cs, key, Batch(cs, key))
  {
    if cs != [] {
      var front, c := cs[..|cs| - 1], cs[|cs| - 1];
      BatchSummarizes(front, key);
      BatchStartsDistinct(front, key);
      PlaceSummarizes(front, c, key, Batch(front, key));
      assert cs == front + [c];
    }
  }

  lemma PlaceSummarizes(front: seq<Candle>, c: Candle, key: Bucketing, out: seq<Candle>)
    requires Summarizes(front, key, out) && DistinctStarts(out)
    ensures Summarizes(front + [c], key, Place(out, c, key))
  {
    PlaceCovers(front, c, key, out);
    forall j | 0 <= j < |Place(out, c, key)|
      ensures Aggregates(Place(out, c, key)[j], InBucket(front + [c], Place(out, c, key)[j].start, key))
    {
      PlacedAggregates(front, c, key, out, j);
    }
  }

  lemma PlacedAggregates(front: seq<Candle>, c: Candle, key: Bucketing, out: seq<Candle>, j: nat)
    requires j < |Place(out, c, key)| && Covered(front, key, out) && DistinctStarts(out)
    requires j < |out| ==> Aggregates(out[j], InBucket(front, out[j].start, key))
    ensures Aggregates(Place(out, c, key)[j], InBucket(front + [c], Place(out, c, key)[j].start, key))
  {
    var at := Find(out, key(c.start));
    assert (front + [c])[..|front|] == front;
    if j == |out| {
      NothingInBucket(front, key(c.start), key, out);
      AggregatesOne(c, key);
    } else if j == at {
      AggregatesExtend(out[at], InBucket(front, out[at].start, key), c);
    } else {
      assert at < |out| ==> out[j].start != out[at].start;
    }
  }

  lemma AggregatesOne(c: Candle, key: Bucketing)
    ensures Aggregates(Opened(c, key), [c])
  {
    assert [c][..0] == [] && [c][0] == c;
  }

  lemma PlaceCovers(front: seq<Candle>, c: Candle, key: Bucketing, out: seq<Candle>)
    requires Covered(front, key, out)
    ensures Covered(front + [c], key, Place(out, c, key))
  {
    var out' := Place(out, c, key);
    var at := Find(out, key(c.start));
    assert out'[at].start == key(c.start);
    forall i | 0 <= i < |front| + 1
      ensures exists j :: 0 <= j < |out'| && out'[j].start == key((front + [c])[i].start)
    {
      if i < |front| {
        var j :| 0 <= j < |out| && out[j].start == key(front[i].start);
        assert out'[j].start == out[j].start;
      }
    }
  }

  lemma {:induction false} NothingInBucket(cs: seq<Candle>, start: int, key: Bucketing, out: seq<Candle>)
    requires Covered(cs, key, out) && forall j | 0 <= j < |out| :: out[j].start != start
    ensures InBucket(cs, start, key) == []
  {
    if cs != [] {
      assert exists j :: 0 <= j < |out| && out[j].start == key(cs[|cs| - 1].start);
      NothingInBucket(cs[..|cs| - 1], start, key, out);
    }
  }

  predicate BarOk(c: Candle) { c.low <= c.open <= c.high && c.low <= c.close <= c.high }

  /** Resampled bars are well formed when the input bars are. */
  lemma {:induction false} BatchKeepsBarsOk(cs: seq<Candle>, key: Bucketing)
    requires forall i | 0 <= i < |cs| :: BarOk(cs[i])
    ensures forall j | 0 <= j < |Batch(cs, key)| :: BarOk(Batch(cs, key)[j])
  {
    if cs != [] { BatchKeepsBarsOk(cs[..|cs| - 1], key); }
  }
}
