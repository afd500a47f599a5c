/** lib/services/arbitrage-detector.ts: scoring matched market pairs and shaping the rows the
    database receives. The clock is an input (`detectedAt`) and the database insert is an
    input outcome. */
module ArbitrageDetector {
  import opened Common
  import opened MarketFetcher
  import opened AiMatcher
  import opened Arbitrage

  /** An arbitrage opportunity found in one matched pair. */
  datatype DetectedArbitrage = DetectedArbitrage(
    id: string,
    marketName: string,
    polymarketPrice: real,
    kalshiPrice: real,
    spread: real,
    profitPercentage: real,
    polymarketTokenId: Option<string>,
    kalshiTicker: string,
    detectedAt: string,
    confidenceScore: real,
    reasoning: string)

  /** Both YES prices of every match are positive: the arithmetic divides by the smaller one. */
  predicate PositivePrices(matches: seq<MarketMatch>)
  {
    forall k :: 0 <= k < |matches| ==>
      matches[k].polymarketMarket.yesPrice > 0.0 && matches[k].kalshiMarket.yesPrice > 0.0
  }

  /** `rawData?.yesTokenId`: only a Polymarket payload carries a YES token id. */
  function YesTokenId(raw: RawData): (r: Option<string>)
    ensures r.Some? <==> raw.PolymarketRaw?
    ensures raw.PolymarketRaw? ==> r.value == raw.yesTokenId
  {
    match raw
    case PolymarketRaw(_, yesTokenId, _) => Some(yesTokenId)
    case KalshiRaw(_) => None
  }

  /** The better of the two trade directions for one match: buying YES on Polymarket
      (`arb1`) when its profit is strictly greater, buying YES on Kalshi (`arb2`) otherwise. */
  function BestArbitrage(m: MarketMatch): (best: ArbitrageResult)
    requires m.polymarketMarket.yesPrice > 0.0 && m.kalshiMarket.yesPrice > 0.0
    ensures var arb1 := CalculateArbitrage(m.polymarketMarket.yesPrice, m.kalshiMarket.yesPrice, Some(false));
      var arb2 := CalculateArbitrage(m.kalshiMarket.yesPrice, m.polymarketMarket.yesPrice, Some(false));
      && (best == arb1 || best == arb2)
      && best.profitPercentage >= arb1.profitPercentage
      && best.profitPercentage >= arb2.profitPercentage
  {
    var arb1 := CalculateArbitrage(m.polymarketMarket.yesPrice, m.kalshiMarket.yesPrice, Some(false));
    var arb2 := CalculateArbitrage(m.kalshiMarket.yesPrice, m.polymarketMarket.yesPrice, Some(false));
    if arb1.profitPercentage > arb2.profitPercentage then arb1 else arb2
  }

  /** The choice of direction never matters: both directions give the same spread and profit,
      namely |poly - kalshi| and that spread as a percentage of the cheaper YES price. */
  lemma BestArbitrageIsEitherDirection(m: MarketMatch)
    requires m.polymarketMarket.yesPrice > 0.0 && m.kalshiMarket.yesPrice > 0.0
    ensures var p, k := m.polymarketMarket.yesPrice, m.kalshiMarket.yesPrice;
      && BestArbitrage(m) == CalculateArbitrage(p, k, Some(false))
      && BestArbitrage(m) == CalculateArbitrage(k, p, Some(false))
      && BestArbitrage(m).spread == Abs(p - k)
      && BestArbitrage(m).profitPercentage == Abs(p - k) / Min(p, k) * 100.0
  {
    var p, k := m.polymarketMarket.yesPrice, m.kalshiMarket.yesPrice;
    CalculateArbitrageSymmetric(p, k, Some(false));
    ProfitIsSpreadOverCheaperLeg(p, k);
  }

  /** The body of the loop of `detectArbitrageOpportunities` for one match: an opportunity
      exactly when the better direction's profit reaches the threshold. */
  function Evaluate(m: MarketMatch, threshold: real, detectedAt: string): (r: Option<DetectedArbitrage>)
    requires m.polymarketMarket.yesPrice > 0.0 && m.kalshiMarket.yesPrice > 0.0
    ensures var arb := CalculateArbitrage(m.polymarketMarket.yesPrice, m.kalshiMarket.yesPrice, Some(false));
      && (r.Some? <==> arb.profitPercentage >= threshold)
      && (r.Some? ==> r.value.spread == arb.spread && r.value.profitPercentage == arb.profitPercentage)
    ensures r.Some? ==>
      && r.value.id == m.polymarketMarket.id + "-" + m.kalshiMarket.id
      && r.value.marketName == m.polymarketMarket.question
      && r.value.polymarketPrice == m.polymarketMarket.yesPrice
      && r.value.kalshiPrice == m.kalshiMarket.yesPrice
      && r.value.polymarketTokenId == YesTokenId(m.polymarketMarket.rawData)
      && r.value.kalshiTicker == m.kalshiMarket.id
      && r.value.detectedAt == detectedAt
      && r.value.confidenceScore == m.confidenceScore
      && r.value.reasoning == m.reasoning
  {
    BestArbitrageIsEitherDirection(m);
    var best := BestArbitrage(m);
    if IsSignificantArbitrage(best.profitPercentage, Some(threshold)) then
      Some(DetectedArbitrage(
        m.polymarketMarket.id + "-" + m.kalshiMarket.id,
        m.polymarketMarket.question,
        m.polymarketMarket.yesPrice,
        m.kalshiMarket.yesPrice,
        best.spread,
        best.profitPercentage,
        YesTokenId(m.polymarketMarket.rawData),
        m.kalshiMarket.id,
        detectedAt,
        m.confidenceScore,
        m.reasoning))
    else None
  }

  /** The opportunities the loop collects from `matches`, in match order. */
  function Opportunities(matches: seq<MarketMatch>, threshold: real, detectedAt: string): (r: seq<DetectedArbitrage>)
    requires PositivePrices(matches)
    ensures |r| <= |matches|
    ensures forall k :: 0 <= k < |r| ==> r[k].profitPercentage >= threshold
  {
    if matches == [] then []
    else
      var rest := Opportunities(matches[1..], threshold, detectedAt);
      match Evaluate(matches[0], threshold, detectedAt)
      case None => rest
      case Some(o) => [o] + rest
  }

  /** One match yields its opportunity when it is significant, and nothing otherwise. */
  lemma OpportunitiesSingle(m: MarketMatch, threshold: real, detectedAt: string)
    requires m.polymarketMarket.yesPrice > 0.0 && m.kalshiMarket.yesPrice > 0.0
    ensures Opportunities([m], threshold, detectedAt) ==
      match Evaluate(m, threshold, detectedAt)
      case None => []
      case Some(o) => [o]
  {
    assert [m][1..] == [];
  }

  /** Matches are scored one by one and the survivors keep their order: scoring two batches
      one after the other gives the two results one after the other. */
  lemma {:induction false} OpportunitiesAppend(a: seq<MarketMatch>, b: seq<MarketMatch>, threshold: real, detectedAt: string)
    requires PositivePrices(a) && PositivePrices(b)
    ensures PositivePrices(a + b)
    ensures Opportunities(a + b, threshold, detectedAt) ==
            Opportunities(a, threshold, detectedAt) + Opportunities(b, threshold, detectedAt)
  {
    if a == [] {
      assert a + b == b;
    } else {
      assert (a + b)[0] == a[0];
      assert (a + b)[1..] == a[1..] + b;
      OpportunitiesAppend(a[1..], b, threshold, detectedAt);
    }
  }

  /** Every opportunity is the evaluation of one of the matches. */
  lemma {:induction false} OpportunitiesSources(matches: seq<MarketMatch>, threshold: real, detectedAt: string, k: int)
    requires PositivePrices(matches)
    requires 0 <= k < |Opportunities(matches, threshold, detectedAt)|
    ensures exists i :: 0 <= i < |matches| && Evaluate(matches[i], threshold, detectedAt) == Some(Opportunities(matches, threshold, detectedAt)[k])
  {
    var rest := Opportunities(matches[1..], threshold, detectedAt);
    match Evaluate(matches[0], threshold, detectedAt)
    case None =>
      OpportunitiesSources(matches[1..], threshold, detectedAt, k);
      var i :| 0 <= i < |matches[1..]| && Evaluate(matches[1..][i], threshold, detectedAt) == Some(rest[k]);
      assert matches[i + 1] == matches[1..][i];
    case Some(o) =>
      if k > 0 {
        OpportunitiesSources(matches[1..], threshold, detectedAt, k - 1);
        var i :| 0 <= i < |matches[1..]| && Evaluate(matches[1..][i], threshold, detectedAt) == Some(rest[k - 1]);
        assert matches[i + 1] == matches[1..][i];
      }
  }

  lemma OpportunitiesStep(matches: seq<MarketMatch>, i: nat, threshold: real, detectedAt: string)
    requires PositivePrices(matches) && i < |matches|
    ensures PositivePrices(matches[..i]) && PositivePrices(matches[..i + 1])
    ensures Opportunities(matches[..i + 1], threshold, detectedAt) ==
      Opportunities(matches[..i], threshold, detectedAt) +
      match Evaluate(matches[i], threshold, detectedAt)
      case None => []
      case Some(o) => [o]
  {
    assert matches[..i + 1] == matches[..i] + [matches[i]];
    OpportunitiesSingle(matches[i], threshold, detectedAt);
    OpportunitiesAppend(matches[..i], [matches[i]], threshold, detectedAt);
  }

  /** `detectArbitrageOpportunities(matches, minProfitThreshold = 2)`: the loop over the
      matches, pushing the opportunity of every significant one. */
  method DetectArbitrageOpportunities(matches: seq<MarketMatch>, minProfitThreshold: Option<real>, detectedAt: string)
    returns (opportunities: seq<DetectedArbitrage>)
    requires PositivePrices(matches)
    ensures opportunities == Opportunities(matches, ArgOr(minProfitThreshold, DefaultMinProfitThreshold), detectedAt)
  {
    var threshold := ArgOr(minProfitThreshold, DefaultMinProfitThreshold);
    opportunities := [];
    for i := 0 to |matches|
      invariant PositivePrices(matches[..i])
      invariant opportunities == Opportunities(matches[..i], threshold, detectedAt)
    {
      var m := matches[i];
      var arb1 := CalculateArbitrage(m.polymarketMarket.yesPrice, m.kalshiMarket.yesPrice, Some(false));
      var arb2 := CalculateArbitrage(m.kalshiMarket.yesPrice, m.polymarketMarket.yesPrice, Some(false));
      var best := if arb1.profitPercentage > arb2.profitPercentage then arb1 else arb2;
      if IsSignificantArbitrage(best.profitPercentage, Some(threshold)) {
        var opportunity := DetectedArbitrage(
          m.polymarketMarket.id + "-" + m.kalshiMarket.id,
          m.polymarketMarket.question,
          m.polymarketMarket.yesPrice,
          m.kalshiMarket.yesPrice,
          best.spread,
          best.profitPercentage,
          YesTokenId(m.polymarketMarket.rawData),
          m.kalshiMarket.id,
          detectedAt,
          m.confidenceScore,
          m.reasoning);
        opportunities := opportunities + [opportunity];
      }
      OpportunitiesStep(matches, i, threshold, detectedAt);
    }
    assert matches[..|matches|] == matches;
  }

  // ---------------------------------------------------------------------------------------
  // storeArbitrageOpportunities
  // ---------------------------------------------------------------------------------------

  /** A row of the `arbitrage_opportunities` table as the store builds it. */
  datatype OpportunityRecord = OpportunityRecord(
    marketName: string,
    polymarketPrice: real,
    kalshiPrice: real,
    spread: real,
    profitPercentage: real,
    polymarketTokenId: Option<string>,
    kalshiTicker: string,
    detectedAt: string)

  /** The body of the `map` in `storeArbitrageOpportunities`: each column copies the
      opportunity's field of the same name. */
  function ToRecord(o: DetectedArbitrage): (r: OpportunityRecord)
    ensures r.marketName == o.marketName && r.kalshiTicker == o.kalshiTicker && r.detectedAt == o.detectedAt
    ensures r.polymarketPrice == o.polymarketPrice && r.kalshiPrice == o.kalshiPrice
    ensures r.spread == o.spread && r.profitPercentage == o.profitPercentage
    ensures r.polymarketTokenId == o.polymarketTokenId
  {
    OpportunityRecord(o.marketName, o.polymarketPrice, o.kalshiPrice, o.spread, o.profitPercentage,
                      o.polymarketTokenId, o.kalshiTicker, o.detectedAt)
  }

  /** Two opportunities give the same row exactly when they agree on everything except
      `id`, `confidenceScore` and `reasoning`, which the row leaves out. */
  lemma ToRecordForgetsIdentity(o1: DetectedArbitrage, o2: DetectedArbitrage)
    ensures ToRecord(o1) == ToRecord(o2) <==>
      o1.(id := "", confidenceScore := 0.0, reasoning := "") == o2.(id := "", confidenceScore := 0.0, reasoning := "")
  {
  }

  /** `opportunities.map(...)`: one row per opportunity, in the same order. */
  function ToRecords(opportunities: seq<DetectedArbitrage>): (r: seq<OpportunityRecord>)
    ensures |r| == |opportunities|
    ensures forall i :: 0 <= i < |r| ==> r[i] == ToRecord(opportunities[i])
  {
    seq(|opportunities|, i requires 0 <= i < |opportunities| => ToRecord(opportunities[i]))
  }

  /** What the database insert reported. */
  datatype InsertOutcome = InsertOk | InsertError(message: string)

  /** What `storeArbitrageOpportunities` did: nothing (empty input), an insert of the rows
      that succeeded, or an insert of the rows that failed, which the source re-throws. */
  datatype StoreResult =
    | NothingToStore
    | Stored(records: seq<OpportunityRecord>)
    | StoreFailed(records: seq<OpportunityRecord>, message: string)

  /** `storeArbitrageOpportunities(opportunities)` given the outcome the insert would report. */
  function StoreArbitrageOpportunities(opportunities: seq<DetectedArbitrage>, insert: InsertOutcome): (r: StoreResult)
    ensures r.NothingToStore? <==> opportunities == []
    ensures r.StoreFailed? <==> opportunities != [] && insert.InsertError?
    ensures r.StoreFailed? ==> r.message == insert.message
    ensures !r.NothingToStore? ==> r.records == ToRecords(opportunities)
  {
    if |opportunities| == 0 then NothingToStore
    else
      var records := ToRecords(opportunities);
      match insert
      case InsertOk => Stored(records)
      case InsertError(message) => StoreFailed(records, message)
  }

  /** With nothing to store the insert is never attempted: its outcome cannot matter. */
  lemma StoreSkipsEmptyInput(i1: InsertOutcome, i2: InsertOutcome)
    ensures StoreArbitrageOpportunities([], i1) == StoreArbitrageOpportunities([], i2) == NothingToStore
  {
  }
}
