/** Closed candles, position sides and entry signals. */
module Market {

  datatype Side = Long | Short

  datatype Candle = Candle(
    openTime: int,
    closeTime: int,
    open: real,
    high: real,
    low: real,
    close: real,
    volume: real)

  /** The record invariant enforced when a candle is built. */
  predicate WellFormed(c: Candle) {
    && 0.0 < c.low
    && c.low <= c.open <= c.high
    && c.low <= c.close <= c.high
    && 0.0 <= c.volume
    && c.openTime < c.closeTime
  }

  type Kline = c: Candle | WellFormed(c) witness Candle(0, 1, 1.0, 1.0, 1.0, 1.0, 0.0)

  /** An entry intent raised on the closed bar `barIndex`. */
  datatype Signal = Signal(
    barIndex: nat,
    side: Side,
    referencePrice: real,
    stopPrice: real,
    targetPrice: real)

  /** Stop and target straddle the reference price on the protective and the profitable side. */
  predicate LevelsOrdered(s: Signal) {
    && 0.0 < s.stopPrice
    && 0.0 < s.targetPrice
    && match s.side
       case Long => s.stopPrice < s.referencePrice < s.targetPrice
       case Short => s.targetPrice < s.referencePrice < s.stopPrice
  }
}
