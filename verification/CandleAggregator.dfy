/** Closed-candle detection from a stream of snapshots of the forming candle. */
module CandleAggregator {
  import opened Common

  class CandleAggregator {
    var current: Option<Candle>
    var lastEmittedStart: Option<int>
    var emitted: seq<Candle>            // what on_closed has received
    var forming: seq<Candle>            // what on_forming has received
    ghost var received: seq<Candle>     // every message so far

    constructor ()
      ensures Valid() && received == []
    {
      current, lastEmittedStart, emitted, forming, received := None, None, [], [], [];
    }

    /** The object is exactly what the message history says it should be. */
    ghost predicate Valid()
      reads this
    {
      && current == Latest(received)
      && emitted == Closed(received)
      && lastEmittedStart == (if emitted == [] then None else Some(emitted[|emitted| - 1].start))
    }

    /** `_ingest_candle`.  The dedupe guard in `_emit` never fires: every roll-over is emitted. */
    method Ingest(candle: Candle)
      requires Valid()
      modifies this
      ensures Valid() && received == old(received) + [candle]
      ensures emitted == old(emitted) + if Supersedes(candle, old(current)) then [old(current).value] else []
      ensures forming == old(forming) + if Stale(candle, old(current)) then [] else [candle]
    {
      ClosedStartsIncrease(received);
      assert (received + [candle])[..|received|] == received;
      received := received + [candle];
      if current.None? {
        current, forming := Some(candle), forming + [candle];
        return;
      }
      if candle.start == current.value.start {
        current, forming := Some(candle), forming + [candle];
        return;
      }
      if candle.start > current.value.start {
        var closed := current.value;
        current := Some(candle);
        Emit(closed);
        forming := forming + [candle];
      }
    }

    method Emit(candle: Candle)
      modifies this`lastEmittedStart, this`emitted
      ensures lastEmittedStart == Some(candle.start)
      ensures emitted == old(emitted) + if old(lastEmittedStart) == Some(candle.start) then [] else [candle]
    {
      if lastEmittedStart == Some(candle.start) { return; }
      lastEmittedStart, emitted := Some(candle.start), emitted + [candle];
    }
  }

  predicate Supersedes(c: Candle, current: Option<Candle>) {
    current.Some? && c.start > current.value.start
  }

  predicate Stale(c: Candle, current: Option<Candle>) {
    current.Some? && c.start < current.value.start
  }

  // ---- what the stream means, without any state ----

  /** The last snapshot of the newest bar seen. */
  function Latest(ms: seq<Candle>): Option<Candle> {
    if ms == [] then None
    else
      var before, c := Latest(ms[..|ms| - 1]), ms[|ms| - 1];
      if Stale(c, before) then before else Some(c)
  }

  /** The bars closed by a newer one, each in its last snapshot at that moment. */
  function Closed(ms: seq<Candle>): seq<Candle> {
    if ms == [] then []
    else
      var front, c := ms[..|ms| - 1], ms[|ms| - 1];
      Closed(front) + if Supersedes(c, Latest(front)) then [Latest(front).value] else []
  }

  /** `ms[i]` is the last snapshot of its bar before message `k`, the first of a newer bar. */
  ghost predicate FinalSnapshot(ms: seq<Candle>, i: nat, k: nat)
    requires i < k < |ms|
  {
    && (forall j | 0 <= j < i :: ms[j].start <= ms[i].start)
    && (forall j | i < j < k :: ms[j].start < ms[i].start)
    && ms[k].start > ms[i].start
  }

  lemma {:induction false} LatestIsNewest(ms: seq<Candle>) returns (i: nat)
    requires ms != []
    ensures i < |ms| && Latest(ms) == Some(ms[i])
    ensures (forall j | 0 <= j < i :: ms[j].start <= ms[i].start) && (forall j | i < j < |ms| :: ms[j].start < ms[i].start)
  {
    i := |ms| - 1;
    if i > 0 {
      var front := ms[..i];
      var b := LatestIsNewest(front);
      if Stale(ms[i], Latest(front)) {
        i := b;
      } else {
        assert forall j | 0 <= j < i :: ms[j] == front[j];
      }
    }
  }

  /** Emitted bars have strictly increasing starts, all below the bar still forming. */
  lemma {:induction false} ClosedStartsIncrease(ms: seq<Candle>)
    ensures forall i, j | 0 <= i < j < |Closed(ms)| :: Closed(ms)[i].start < Closed(ms)[j].start
    ensures Closed(ms) != [] ==> Latest(ms).Some?
    ensures forall i | 0 <= i < |Closed(ms)| :: Closed(ms)[i].start < Latest(ms).value.start
  {
    if ms != [] {
      var front, c := ms[..|ms| - 1], ms[|ms| - 1];
      ClosedStartsIncrease(front);
      if Supersedes(c, Latest(front)) {
        assert Latest(ms) == Some(c);
      } else {
        assert Closed(ms) == Closed(front);
        if |front| > 0 { var _ := LatestIsNewest(front); }
      }
    }
  }

  /** Every emitted bar is a final snapshot. */
  lemma {:induction false} EmittedIsFinal(ms: seq<Candle>, c: Candle) returns (i: nat, k: nat)
    requires c in Closed(ms)
    ensures i < k < |ms| && ms[i] == c && FinalSnapshot(ms, i, k)
  {
    var n := |ms| - 1;
    var front := ms[..n];
    if c in Closed(front) {
      i, k := EmittedIsFinal(front, c);
    } else {
      i := LatestIsNewest(front);
      k := n;
    }
  }

  /** Every final snapshot is emitted. */
  lemma {:induction false} FinalIsEmitted(ms: seq<Candle>, i: nat, k: nat)
    requires i < k < |ms| && FinalSnapshot(ms, i, k)
    ensures ms[i] in Closed(ms)
  {
    var n := |ms| - 1;
    var front := ms[..n];
    if k < n {
      FinalIsEmitted(front, i, k);
    } else {
      var h := LatestIsNewest(front);
      assert front[i] == ms[i] && front[h] == ms[h];
      assert h == i;
    }
  }

  /** For every message stream: a snapshot is emitted exactly when it is the last one of its bar
      before the first newer bar. */
  lemma ClosedAreFinalSnapshots(ms: seq<Candle>, c: Candle)
    ensures c in Closed(ms) <==> exists i, k :: 0 <= i < k < |ms| && ms[i] == c && FinalSnapshot(ms, i, k)
  {
    if c in Closed(ms) {
      var i, k := EmittedIsFinal(ms, c);
    }
    if i, k :| 0 <= i < k < |ms| && ms[i] == c && FinalSnapshot(ms, i, k) {
      FinalIsEmitted(ms, i, k);
    }
  }
}
