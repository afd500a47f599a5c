/** lib/services/market-fetcher.ts: turning each venue's raw records into `NormalizedMarket`s
    with prices on the 0-1 scale. The network fetch itself is an input here: either the
    venue's records or a failure. */
module MarketFetcher {
  import opened Common
  import opened Text
  import opened Polymarket
  import Kalshi

  /** The venue a normalised market comes from. */
  datatype Platform = PolymarketPlatform | KalshiPlatform

  /** The venue-specific payload kept for traceability (`rawData`). */
  datatype RawData =
    | PolymarketRaw(tokens: seq<PolymarketToken>, yesTokenId: string, noTokenId: string)
    | KalshiRaw(market: Kalshi.KalshiMarket)

  /** A market of either venue on a common footing. */
  datatype NormalizedMarket = NormalizedMarket(
    platform: Platform,
    id: string,
    question: string,
    description: string,
    yesPrice: real,
    noPrice: real,
    closeTime: string,
    rawData: RawData)

  /** What a venue fetch produced: its records, or a failure. A failure stands for any
      exception inside the fetcher's `try` block: the request or its decoding failing, and
      equally a record whose normalisation throws (a token without an `outcome`, say), which
      empties the whole list just the same. */
  datatype FetchOutcome<T> = Fetched(records: seq<T>) | FetchFailed

  /** Some token carries the outcome label `wanted`, compared after lower-casing. */
  predicate HasOutcome(tokens: seq<PolymarketToken>, wanted: string)
  {
    exists i :: 0 <= i < |tokens| && Lower(tokens[i].outcome) == wanted
  }

  /** Position `i` holds the first token whose lower-cased outcome is `wanted`. */
  predicate IsFirstOutcome(tokens: seq<PolymarketToken>, wanted: string, i: int)
  {
    && 0 <= i < |tokens|
    && Lower(tokens[i].outcome) == wanted
    && forall j :: 0 <= j < i ==> Lower(tokens[j].outcome) != wanted
  }

  /** `tokens.find(t => t.outcome.toLowerCase() === wanted)`, searching from position `from`,
      as an index. */
  function FindOutcome(tokens: seq<PolymarketToken>, wanted: string, from: nat): (r: Option<nat>)
    requires from <= |tokens|
    ensures r.Some? ==> from <= r.value < |tokens| && Lower(tokens[r.value].outcome) == wanted
    ensures r.Some? ==> forall j :: from <= j < r.value ==> Lower(tokens[j].outcome) != wanted
    ensures r.None? ==> forall j :: from <= j < |tokens| ==> Lower(tokens[j].outcome) != wanted
    decreases |tokens| - from
  {
    if from == |tokens| then None
    else if Lower(tokens[from].outcome) == wanted then Some(from)
    else FindOutcome(tokens, wanted, from + 1)
  }

  /** The body of the `flatMap` in `fetchPolymarketMarkets` for one record: a record is kept
      exactly when it has at least two tokens, one labelled "yes" and one labelled "no"
      (in any case). */
  function NormalizePolymarketMarket(market: PolymarketMarket): (r: Option<NormalizedMarket>)
    ensures r.None? <==>
      || market.tokens.None?
      || |market.tokens.value| < 2
      || !HasOutcome(market.tokens.value, "yes")
      || !HasOutcome(market.tokens.value, "no")
  {
    if market.tokens.None? || |market.tokens.value| < 2 then None
    else
      var tokens := market.tokens.value;
      match (FindOutcome(tokens, "yes", 0), FindOutcome(tokens, "no", 0))
      case (Some(y), Some(n)) =>
        Some(NormalizedMarket(PolymarketPlatform, market.conditionId, market.question,
                              market.description, tokens[y].price, tokens[n].price,
                              market.endDateIso,
                              PolymarketRaw(tokens, tokens[y].tokenId, tokens[n].tokenId)))
      case _ => None
  }

  /** A kept record takes its identity, question, description and close time from the venue
      record, and its prices and token ids from the first "yes" and the first "no" token. */
  lemma NormalizePolymarketMarketFields(market: PolymarketMarket)
    requires NormalizePolymarketMarket(market).Some?
    ensures var r := NormalizePolymarketMarket(market);
      market.tokens.Some? && exists y, n ::
      && IsFirstOutcome(market.tokens.value, "yes", y)
      && IsFirstOutcome(market.tokens.value, "no", n)
      && r.value.platform == PolymarketPlatform
      && r.value.id == market.conditionId
      && r.value.question == market.question
      && r.value.description == market.description
      && r.value.closeTime == market.endDateIso
      && r.value.yesPrice == market.tokens.value[y].price
      && r.value.noPrice == market.tokens.value[n].price
      && r.value.rawData == PolymarketRaw(market.tokens.value,
                                          market.tokens.value[y].tokenId,
                                          market.tokens.value[n].tokenId)
  {
    var tokens := market.tokens.value;
    var y, n := FindOutcome(tokens, "yes", 0).value, FindOutcome(tokens, "no", 0).value;
    assert IsFirstOutcome(tokens, "yes", y) && IsFirstOutcome(tokens, "no", n);
  }

  /** The `flatMap` of `fetchPolymarketMarkets`: the kept records, normalised, in input order. */
  function NormalizePolymarket(markets: seq<PolymarketMarket>): (r: seq<NormalizedMarket>)
    ensures |r| <= |markets|
    ensures forall k :: 0 <= k < |r| ==> r[k].platform == PolymarketPlatform
  {
    if markets == [] then []
    else
      match NormalizePolymarketMarket(markets[0])
      case None => NormalizePolymarket(markets[1..])
      case Some(m) => [m] + NormalizePolymarket(markets[1..])
  }

  /** Normalisation works record by record and keeps the input order: normalising two
      batches one after the other gives the two results one after the other. */
  lemma {:induction false} NormalizePolymarketAppend(a: seq<PolymarketMarket>, b: seq<PolymarketMarket>)
    ensures NormalizePolymarket(a + b) == NormalizePolymarket(a) + NormalizePolymarket(b)
  {
    if a == [] {
      assert a + b == b;
    } else {
      assert (a + b)[0] == a[0];
      assert (a + b)[1..] == a[1..] + b;
      NormalizePolymarketAppend(a[1..], b);
    }
  }

  /** A single record yields itself normalised when it is well formed, and nothing otherwise. */
  lemma NormalizePolymarketSingle(market: PolymarketMarket)
    ensures NormalizePolymarket([market]) ==
      match NormalizePolymarketMarket(market)
      case None => []
      case Some(m) => [m]
  {
    assert [market][1..] == [];
  }

  /** Every output market is the normalisation of some input record. */
  lemma {:induction false} NormalizePolymarketSources(markets: seq<PolymarketMarket>, k: int)
    requires 0 <= k < |NormalizePolymarket(markets)|
    ensures exists i :: 0 <= i < |markets| && NormalizePolymarketMarket(markets[i]) == Some(NormalizePolymarket(markets)[k])
  {
    var rest := NormalizePolymarket(markets[1..]);
    match NormalizePolymarketMarket(markets[0])
    case None =>
      NormalizePolymarketSources(markets[1..], k);
      var i :| 0 <= i < |markets[1..]| && NormalizePolymarketMarket(markets[1..][i]) == Some(rest[k]);
      assert markets[i + 1] == markets[1..][i];
    case Some(m) =>
      if k > 0 {
        NormalizePolymarketSources(markets[1..], k - 1);
        var i :| 0 <= i < |markets[1..]| && NormalizePolymarketMarket(markets[1..][i]) == Some(rest[k - 1]);
        assert markets[i + 1] == markets[1..][i];
      }
  }

  /** `fetchPolymarketMarkets`: a failed fetch gives no markets at all, never a partial list. */
  function FetchPolymarketMarkets(fetch: FetchOutcome<PolymarketMarket>): (r: seq<NormalizedMarket>)
    ensures fetch.FetchFailed? ==> r == []
    ensures fetch.Fetched? ==> |r| <= |fetch.records|
    ensures fetch.Fetched? ==> r == NormalizePolymarket(fetch.records)
  {
    match fetch
    case FetchFailed => []
    case Fetched(markets) => NormalizePolymarket(markets)
  }

  /** The body of the `map` in `fetchKalshiMarkets`: the ticker is the id and each side's price
      is its bid/ask midpoint moved from cents to the 0-1 scale. */
  function NormalizeKalshiMarket(market: Kalshi.KalshiMarket): (r: NormalizedMarket)
    ensures r.platform == KalshiPlatform && r.id == market.ticker
    ensures r.question == market.title && r.description == market.subtitle
    ensures r.closeTime == market.closeTime && r.rawData == KalshiRaw(market)
    ensures 200.0 * r.yesPrice == market.yesBid + market.yesAsk
    ensures 200.0 * r.noPrice == market.noBid + market.noAsk
    ensures 0.0 <= market.yesBid <= 100.0 && 0.0 <= market.yesAsk <= 100.0 ==> 0.0 <= r.yesPrice <= 1.0
    ensures 0.0 <= market.noBid <= 100.0 && 0.0 <= market.noAsk <= 100.0 ==> 0.0 <= r.noPrice <= 1.0
  {
    var yesMid := (market.yesBid + market.yesAsk) / 200.0;
    var noMid := (market.noBid + market.noAsk) / 200.0;
    NormalizedMarket(KalshiPlatform, market.ticker, market.title, market.subtitle,
                     yesMid, noMid, market.closeTime, KalshiRaw(market))
  }

  /** The normaliser's Kalshi prices are `getKalshiMidPrice` of each side, moved from cents
      to the 0-1 scale. */
  lemma KalshiPricesAreMidPrices(market: Kalshi.KalshiMarket)
    ensures NormalizeKalshiMarket(market).yesPrice == Kalshi.GetKalshiMidPrice(market, Kalshi.Yes) / 100.0
    ensures NormalizeKalshiMarket(market).noPrice == Kalshi.GetKalshiMidPrice(market, Kalshi.No) / 100.0
  {
  }

  /** The `map` of `fetchKalshiMarkets`: exactly one market per record, in the same order. */
  function NormalizeKalshi(markets: seq<Kalshi.KalshiMarket>): (r: seq<NormalizedMarket>)
    ensures |r| == |markets|
    ensures forall i :: 0 <= i < |markets| ==> r[i] == NormalizeKalshiMarket(markets[i])
  {
    seq(|markets|, i requires 0 <= i < |markets| => NormalizeKalshiMarket(markets[i]))
  }

  /** `fetchKalshiMarkets`: a failed fetch gives no markets at all, never a partial list. */
  function FetchKalshiMarkets(fetch: FetchOutcome<Kalshi.KalshiMarket>): (r: seq<NormalizedMarket>)
    ensures fetch.FetchFailed? ==> r == []
    ensures fetch.Fetched? ==> |r| == |fetch.records|
    ensures fetch.Fetched? ==> r == NormalizeKalshi(fetch.records)
    ensures forall k :: 0 <= k < |r| ==> r[k].platform == KalshiPlatform
  {
    match fetch
    case FetchFailed => []
    case Fetched(markets) => NormalizeKalshi(markets)
  }
}
