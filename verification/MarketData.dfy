/** The normalized market-data records. An open time is a whole minute, counted
    from the epoch; every other time is in milliseconds. */
module MarketData {

  const BYBIT_PUBLIC_WS_SOURCE := "BYBIT_PUBLIC_WS"
  const REST_BACKFILL_SOURCE := "REST_BACKFILL"
  const MS_PER_MINUTE := 60_000

  datatype Option<+T> = None | Some(value: T)

  datatype ConnectionEpoch = ConnectionEpoch(shardId: nat, generation: nat)

  datatype Prices = Prices(open: real, high: real, low: real, close: real, volume: real, turnover: real)

  datatype MarketCandle = MarketCandle(
    symbol: string,
    openTime: int,
    closeTime: int,
    interval: string,
    prices: Prices,
    confirmed: bool,
    exchangeTimestamp: Option<int>,
    receivedAt: int,
    connectionEpoch: Option<ConnectionEpoch>,
    source: string)

  datatype MarketSnapshot = MarketSnapshot(
    symbol: string,
    lastPrice: real,
    price24hPct: real,
    turnover24h: real,
    volume24h: real,
    markPrice: Option<real>,
    openInterest: Option<real>,
    timestamp: Option<int>)
}
