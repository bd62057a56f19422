/** Shared value types: optional results, candles and real-number helpers. */
module Common {

  datatype Option<+T> = None | Some(value: T)

  /** An OHLCV bar; `start` is the epoch second at which the bar opens. */
  datatype Candle = Candle(start: int, open: real, high: real, low: real, close: real, volume: real)

  function Max(a: real, b: real): real { if a < b then b else a }

  function Min(a: real, b: real): real { if b < a then b else a }

  function Abs(a: real): real { if a < 0.0 then -a else a }

  /** A product under a name, so that equal factors are seen to give equal products. */
  function Times(a: real, b: real): real { a * b }

  function Percent(x: real, pct: real): real { Times(x, pct) / 100.0 }

  function Sum(xs: seq<real>): real {
    if xs == [] then 0.0 else Sum(xs[..|xs| - 1]) + xs[|xs| - 1]
  }
}
