/** The cost model and the record of one completed round trip. */
module Trades {
  import opened Common
  import opened Market

  datatype CostModel = CostModel(feeRate: real, slippageRate: real)

  function FeeOn(c: CostModel, notional: real): real {
    Times(notional, c.feeRate)
  }

  /** Slippage goes against the trader: buying fills higher and selling lower, opening or closing. */
  function FillPrice(c: CostModel, quoted: real, side: Side, entering: bool): real {
    var buying := (side == Long) == entering;
    Times(quoted, if buying then 1.0 + c.slippageRate else 1.0 - c.slippageRate)
  }

  function RoundTripRate(c: CostModel): real {
    (c.feeRate + c.slippageRate) * 2.0
  }

  datatype ExitReason = StopHit | TargetHit | TimeUp | EndOfData

  datatype Trade = Trade(
    entryIndex: nat,
    exitIndex: nat,
    entryTime: int,
    exitTime: int,
    side: Side,
    quantity: real,
    entryPrice: real,
    exitPrice: real,
    stopPrice: real,
    targetPrice: real,
    grossPnl: real,
    fees: real,
    netPnl: real,
    exitReason: ExitReason,
    wasCapped: bool)

  /** Signed profit per unit, before fees. */
  function Gain(side: Side, entryPrice: real, exitPrice: real): real {
    if side == Long then exitPrice - entryPrice else entryPrice - exitPrice
  }

  function SumNet(trades: seq<Trade>): real {
    if trades == [] then 0.0
    else SumNet(trades[..|trades| - 1]) + trades[|trades| - 1].netPnl
  }

  lemma SumNetAppend(trades: seq<Trade>, t: Trade)
    ensures SumNet(trades + [t]) == SumNet(trades) + t.netPnl
  {
    assert (trades + [t])[..|trades|] == trades;
  }
}
