/** Records shared by the charting engine (wasm/src/lib.rs), with every `f64`
    modelled as a `real`. */
module ChartTypes {

  /** A generic (timestamp, value) sample, the input and output of downsampling. */
  datatype DataPoint = DataPoint(ts: real, value: real)

  /** One OHLCV bar. */
  datatype PricePoint = PricePoint(ts: real, open: real, high: real, low: real, close: real, volume: real)

  /** One indicator output sample, aligned to the timestamp of the bar that produced it. */
  datatype IndicatorPoint = IndicatorPoint(ts: real, value: real)

  /** A searchable instrument: ticker symbol and company name. */
  datatype SymbolEntry = SymbolEntry(symbol: string, name: string)

  function Min(a: int, b: int): int { if a < b then a else b }

  function Max(a: int, b: int): int { if a < b then b else a }

  function Abs(x: real): real { if x < 0.0 then -x else x }
}
