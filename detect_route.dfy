/** app/api/arbitrage/detect/route.ts: the `POST` handler's decisions, as a function of what
    each stage produced. The fetched market lists, the oracle's answer, the database insert
    outcome and the clock are inputs; JSON marshalling and logging are not modelled. */
module DetectRoute {
  import opened Common
  import opened Text
  import opened MarketFetcher
  import opened AiMatcher
  import opened ArbitrageDetector
  import Arbitrage

  /** How many records each stage produced. */
  datatype RunStats = RunStats(polymarketMarkets: nat, kalshiMarkets: nat, matches: nat, opportunities: nat)

  /** The handler's answer. */
  datatype DetectResponse =
    | InsufficientMarkets(polymarket: nat, kalshi: nat)
    | NoMatches(stats: RunStats)
    | Completed(stats: RunStats, preview: seq<DetectedArbitrage>)
    | Failed(error: string)

  /** The opportunities returned in the response body for preview. */
  const PreviewLimit: nat := 10

  /** One run of the handler: its answer, and the rows handed to the database insert when the
      insert was attempted. */
  datatype DetectRun = DetectRun(response: DetectResponse, inserted: Option<seq<OpportunityRecord>>)

  /** The HTTP status of a response. */
  function Status(r: DetectResponse): (code: int)
    ensures code == 200 <==> r.NoMatches? || r.Completed?
    ensures code == 400 <==> r.InsufficientMarkets?
    ensures code == 500 <==> r.Failed?
  {
    match r
    case InsufficientMarkets(_, _) => 400
    case NoMatches(_) => 200
    case Completed(_, _) => 200
    case Failed(_) => 500
  }

  /** The `success` flag of a response: true exactly on the answers sent with status 200. */
  function Success(r: DetectResponse): (ok: bool)
    ensures ok <==> Status(r) == 200
  {
    r.NoMatches? || r.Completed?
  }

  /** The `message` (or, for a failure, the `error`) of a response. A completed run's message
      reports the number of opportunities as its canonical decimal digits; a failure's is its
      error text. */
  function Message(r: DetectResponse): (m: string)
    ensures r.Completed? ==> exists digits ::
      && m == "Detection complete! Found " + digits + " arbitrage opportunities"
      && IsDecimal(digits, r.stats.opportunities)
    ensures r.Failed? ==> m == r.error
    ensures !r.Failed? ==> m != []
  {
    match r
    case InsufficientMarkets(_, _) => "No markets found on one or both platforms"
    case NoMatches(_) => "No matching markets found"
    case Completed(stats, _) =>
      "Detection complete! Found " + NatToString(stats.opportunities) + " arbitrage opportunities"
    case Failed(error) => error
  }

  /** `body.minProfitThreshold || 2`: a missing or zero threshold becomes 2. */
  function ThresholdFromBody(bodyThreshold: Option<real>): (t: real)
    ensures bodyThreshold.None? ==> t == Arbitrage.DefaultMinProfitThreshold
    ensures bodyThreshold.Some? && bodyThreshold.value == 0.0 ==> t == Arbitrage.DefaultMinProfitThreshold
    ensures bodyThreshold.Some? && bodyThreshold.value != 0.0 ==> t == bodyThreshold.value
  {
    match bodyThreshold
    case None => Arbitrage.DefaultMinProfitThreshold
    case Some(t) => if t == 0.0 then Arbitrage.DefaultMinProfitThreshold else t
  }

  /** `error.message || 'Internal server error'`. */
  function ErrorText(message: string): (e: string)
    ensures e != []
    ensures message != [] ==> e == message
  {
    if message == [] then "Internal server error" else message
  }

  /** Every market of a list has a positive YES price. */
  predicate PositiveYesPrices(markets: seq<NormalizedMarket>)
  {
    forall m :: m in markets ==> m.yesPrice > 0.0
  }

  /** Whatever the matcher returns refers to markets among the first twenty of each list, so
      positive YES prices there are enough for scoring; markets further down, or never
      matched, may have any price. */
  lemma MatchesHavePositivePrices(polymarket: seq<NormalizedMarket>, kalshi: seq<NormalizedMarket>, oracle: OracleOutcome)
    requires PositiveYesPrices(Take(polymarket, MarketLimit)) && PositiveYesPrices(Take(kalshi, MarketLimit))
    ensures PositivePrices(FindMarketMatches(polymarket, kalshi, oracle))
  {
    var matches := FindMarketMatches(polymarket, kalshi, oracle);
    forall k | 0 <= k < |matches|
      ensures matches[k].polymarketMarket.yesPrice > 0.0 && matches[k].kalshiMarket.yesPrice > 0.0
    {
      assert matches[k].polymarketMarket in Take(polymarket, MarketLimit);
      assert matches[k].kalshiMarket in Take(kalshi, MarketLimit);
    }
  }

  /** `POST /api/arbitrage/detect`: fetch, match, score, store, answer. The only error the
      model lets reach the handler's `catch` is a failed insert; the other ways the source can
      throw there are not modelled. The matched markets must have positive YES prices, since
      scoring divides by the smaller one. */
  function Post(bodyThreshold: Option<real>, polymarket: seq<NormalizedMarket>, kalshi: seq<NormalizedMarket>,
                oracle: OracleOutcome, insert: InsertOutcome, detectedAt: string): (run: DetectRun)
    requires PositivePrices(FindMarketMatches(polymarket, kalshi, oracle))
    ensures run.response.InsufficientMarkets? <==> polymarket == [] || kalshi == []
    ensures run.response.NoMatches? <==> polymarket != [] && kalshi != [] && FindMarketMatches(polymarket, kalshi, oracle) == []
    ensures run.response.Failed? <==> run.inserted.Some? && insert.InsertError?
    ensures run.inserted.Some? ==> run.response.Failed? || run.response.Completed?
  {
    if |polymarket| == 0 || |kalshi| == 0 then
      DetectRun(InsufficientMarkets(|polymarket|, |kalshi|), None)
    else
      var matches := FindMarketMatches(polymarket, kalshi, oracle);
      if |matches| == 0 then
        DetectRun(NoMatches(RunStats(|polymarket|, |kalshi|, 0, 0)), None)
      else
        var opportunities := Opportunities(matches, ThresholdFromBody(bodyThreshold), detectedAt);
        var stats := RunStats(|polymarket|, |kalshi|, |matches|, |opportunities|);
        match StoreArbitrageOpportunities(opportunities, insert)
        case NothingToStore => DetectRun(Completed(stats, Take(opportunities, PreviewLimit)), None)
        case Stored(records) => DetectRun(Completed(stats, Take(opportunities, PreviewLimit)), Some(records))
        case StoreFailed(records, message) => DetectRun(Failed(ErrorText(message)), Some(records))
  }

  /** With either venue empty the answer is a 400 carrying both counts, nothing is stored,
      and the matcher is never consulted: the oracle's answer and the insert outcome cannot
      matter. */
  lemma PostShortCircuitsOnEmptyMarkets(bodyThreshold: Option<real>, polymarket: seq<NormalizedMarket>, kalshi: seq<NormalizedMarket>,
                                        o1: OracleOutcome, o2: OracleOutcome, i1: InsertOutcome, i2: InsertOutcome, detectedAt: string)
    requires polymarket == [] || kalshi == []
    ensures var run := Post(bodyThreshold, polymarket, kalshi, o1, i1, detectedAt);
      && run == Post(bodyThreshold, polymarket, kalshi, o2, i2, detectedAt)
      && run.response == InsufficientMarkets(|polymarket|, |kalshi|)
      && Status(run.response) == 400 && !Success(run.response)
      && Message(run.response) == "No markets found on one or both platforms"
      && run.inserted.None?
  {
  }

  /** With no matches the answer is a success with zero matches and zero opportunities, and
      neither scoring nor storing happens: the threshold and the insert outcome cannot matter. */
  lemma PostNoMatches(t1: Option<real>, t2: Option<real>, polymarket: seq<NormalizedMarket>, kalshi: seq<NormalizedMarket>,
                      oracle: OracleOutcome, i1: InsertOutcome, i2: InsertOutcome, detectedAt: string)
    requires polymarket != [] && kalshi != []
    requires FindMarketMatches(polymarket, kalshi, oracle) == []
    ensures var run := Post(t1, polymarket, kalshi, oracle, i1, detectedAt);
      && run == Post(t2, polymarket, kalshi, oracle, i2, detectedAt)
      && run.response == NoMatches(RunStats(|polymarket|, |kalshi|, 0, 0))
      && Status(run.response) == 200 && Success(run.response)
      && Message(run.response) == "No matching markets found"
      && run.inserted.None?
  {
  }

  /** The insert is attempted exactly when scoring found at least one opportunity, and it
      receives one row per opportunity, in order. */
  lemma PostStoresIffOpportunities(bodyThreshold: Option<real>, polymarket: seq<NormalizedMarket>, kalshi: seq<NormalizedMarket>,
                                   oracle: OracleOutcome, insert: InsertOutcome, detectedAt: string)
    requires PositivePrices(FindMarketMatches(polymarket, kalshi, oracle))
    requires polymarket != [] && kalshi != []
    requires FindMarketMatches(polymarket, kalshi, oracle) != []
    ensures var opportunities := Opportunities(FindMarketMatches(polymarket, kalshi, oracle), ThresholdFromBody(bodyThreshold), detectedAt);
      var run := Post(bodyThreshold, polymarket, kalshi, oracle, insert, detectedAt);
      && (run.inserted.Some? <==> opportunities != [])
      && (run.inserted.Some? ==> run.inserted.value == ToRecords(opportunities))
  {
  }

  /** A completed run reports the sizes of the two market lists, the matches and the
      opportunities, and previews the first ten opportunities (or all, if fewer) in order;
      every previewed opportunity reaches the threshold. */
  lemma PostCompletedStats(bodyThreshold: Option<real>, polymarket: seq<NormalizedMarket>, kalshi: seq<NormalizedMarket>,
                           oracle: OracleOutcome, insert: InsertOutcome, detectedAt: string)
    requires PositivePrices(FindMarketMatches(polymarket, kalshi, oracle))
    requires Post(bodyThreshold, polymarket, kalshi, oracle, insert, detectedAt).response.Completed?
    ensures var matches := FindMarketMatches(polymarket, kalshi, oracle);
      var opportunities := Opportunities(FindMarketMatches(polymarket, kalshi, oracle), ThresholdFromBody(bodyThreshold), detectedAt);
      var r := Post(bodyThreshold, polymarket, kalshi, oracle, insert, detectedAt).response;
      && r.stats == RunStats(|polymarket|, |kalshi|, |matches|, |opportunities|)
      && |matches| > 0
      && r.preview <= opportunities
      && |r.preview| == (if |opportunities| < PreviewLimit then |opportunities| else PreviewLimit)
      && (forall k :: 0 <= k < |r.preview| ==> r.preview[k].profitPercentage >= ThresholdFromBody(bodyThreshold))
      && Status(r) == 200 && Success(r)
      && Message(r) == "Detection complete! Found " + NatToString(|opportunities|) + " arbitrage opportunities"
  {
  }

  /** An attempted insert that fails turns the whole run into a 500 carrying the insert's
      message, or 'Internal server error' when that message is empty; this is the only way
      to fail. */
  lemma PostFailsOnlyOnStoreFailure(bodyThreshold: Option<real>, polymarket: seq<NormalizedMarket>, kalshi: seq<NormalizedMarket>,
                                    oracle: OracleOutcome, insert: InsertOutcome, detectedAt: string)
    requires PositivePrices(FindMarketMatches(polymarket, kalshi, oracle))
    ensures var run := Post(bodyThreshold, polymarket, kalshi, oracle, insert, detectedAt);
      && (run.response.Failed? ==> insert.InsertError? && Message(run.response) == ErrorText(insert.message)
                                   && Status(run.response) == 500 && !Success(run.response))
      && (insert.InsertOk? ==> !run.response.Failed?)
      && (run.inserted.Some? && insert.InsertError? ==> run.response.Failed?)
  {
  }
}
