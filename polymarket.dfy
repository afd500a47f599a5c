/** lib/polymarket.ts: the shapes of the Polymarket records the normaliser reads. The fetch
    wrappers of that file are not part of this model. */
module Polymarket {
  import opened Common

  /** One outcome token of a market: its id, its outcome label and its price on the 0-1 scale. */
  datatype PolymarketToken = PolymarketToken(tokenId: string, outcome: string, price: real)

  /** A market as listed by the venue. The token list may be missing from a record (`None`). */
  datatype PolymarketMarket = PolymarketMarket(
    conditionId: string,
    question: string,
    description: string,
    endDateIso: string,
    tokens: Option<seq<PolymarketToken>>)
}
