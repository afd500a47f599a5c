/** lib/kalshi.ts: the Kalshi market record and its mid-price helper. Quotes are in cents,
    on a 0-100 scale per side. */
module Kalshi {

  /** The `KalshiMarket` record as the venue's market listing delivers it. */
  datatype KalshiMarket = KalshiMarket(
    ticker: string,
    eventTicker: string,
    marketType: string,
    title: string,
    subtitle: string,
    yesBid: real,
    yesAsk: real,
    noBid: real,
    noAsk: real,
    closeTime: string,
    expirationTime: string)

  /** The side of a binary contract: 'YES' or 'NO'. */
  datatype Side = Yes | No

  /** `getKalshiMidPrice(market, side)`: the midpoint of the chosen side's bid and ask. */
  function GetKalshiMidPrice(market: KalshiMarket, side: Side): (mid: real)
    ensures side == Yes ==> mid - market.yesBid == market.yesAsk - mid
    ensures side == No ==> mid - market.noBid == market.noAsk - mid
    ensures side == Yes && market.yesBid <= market.yesAsk ==> market.yesBid <= mid <= market.yesAsk
    ensures side == No && market.noBid <= market.noAsk ==> market.noBid <= mid <= market.noAsk
  {
    if side == Yes then (market.yesBid + market.yesAsk) / 2.0
    else (market.noBid + market.noAsk) / 2.0
  }

  /** The YES mid price reads only the YES quotes, and the NO mid price only the NO quotes. */
  lemma MidPriceReadsOnlyItsSide(m1: KalshiMarket, m2: KalshiMarket)
    ensures m1.yesBid == m2.yesBid && m1.yesAsk == m2.yesAsk ==>
      GetKalshiMidPrice(m1, Yes) == GetKalshiMidPrice(m2, Yes)
    ensures m1.noBid == m2.noBid && m1.noAsk == m2.noAsk ==>
      GetKalshiMidPrice(m1, No) == GetKalshiMidPrice(m2, No)
  {
  }
}
