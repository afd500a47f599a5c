# Prediction-market arbitrage finder, in Dafny

This project models the decision logic of a two-venue arbitrage finder. The two venues are
Polymarket and Kalshi. The model covers five stages:

- normalising each venue's market records onto a common 0-1 price scale;
- pairing markets that ask about the same event, either through a language-model oracle or
  through a deterministic word-overlap fallback;
- scoring each pair in both trade directions and keeping the significant ones;
- shaping the database rows;
- the `POST /api/arbitrage/detect` handler that sequences these stages.

Everything the system does with the outside world is a parameter of the model:

- the two fetched record lists (or a fetch failure);
- the oracle's parsed answer (or its failure, or empty content);
- the outcome of the database insert;
- the timestamp.

Prices are exact `real`s.

Modules, one per source file:

| module | file | flavour |
|---|---|---|
| `Common` | — | `Option`, JavaScript default parameters (`ArgOr`), `slice(0, n)` (`Take`) |
| `Text` | — | `\s` (the full JavaScript whitespace set), ASCII `\w` and `toLowerCase`, `trim`, `split(/\s+/)`, decimal rendering |
| `Arbitrage` | lib/arbitrage.ts | pure functions and lemmas |
| `Kalshi` | lib/kalshi.ts | record shape, pure mid-price |
| `Polymarket` | lib/polymarket.ts | record shapes only |
| `MarketFetcher` | lib/services/market-fetcher.ts | pure normalisation over record sequences |
| `AiMatcher` | lib/services/ai-matcher.ts | pure oracle post-processing; `simpleStringMatch` as methods with loops |
| `ArbitrageDetector` | lib/services/arbitrage-detector.ts | the scoring loop as a method proved against `Opportunities`; pure row mapping |
| `DetectRoute` | app/api/arbitrage/detect/route.ts | the handler as a pure function of the stage results |

`simpleStringMatch` is a pair of nested `for` loops in the source. In the model the outer loop
is `SimpleStringMatch`, the inner loop is `PushPairsFor`, and the inner loop's body is
`MatchPair`. Each is proved against the specification functions `CandidatePairs`, `PairsFor`
and `PairRecord`.

`calculateArbitrage` divides the spread by `Math.min(p1, p2)` without a guard
(lib/arbitrage.ts:36). A zero price therefore gives `Infinity` (or `NaN` when both prices are
zero), and `Infinity` passes the significance threshold. Exact reals have neither value, so
every operation that reaches this division requires positive prices, and the detect handler
requires them of the matched markets only; see "Left out".

## Model

| member | source | states |
|---|---|---|
| Common.ArgOr | lib/arbitrage.ts:26 | An omitted argument takes its declared default; a given one is used as is |
| Common.Take | lib/services/ai-matcher.ts:32-33 | `slice(0, n)` keeps min(n, length) elements, is a prefix of the list, and holds only its elements |
| Text.Lower | lib/arbitrage.ts:62 | Lower-casing keeps the length and maps every character through ASCII lower-casing |
| Text.LowerHasNoUpper | lib/arbitrage.ts:62 | No upper-case ASCII letter survives lower-casing |
| Text.LowerAppend | lib/arbitrage.ts:62 | Lower-casing works character by character: it distributes over concatenation |
| Text.LowerIdempotent | lib/arbitrage.ts:62 | Lower-casing twice is lower-casing once |
| Text.Trim | lib/arbitrage.ts:62 | The trimmed string is a slice of the input with only whitespace before and after it, and it neither starts nor ends with whitespace |
| Text.TrimStart | lib/arbitrage.ts:62 | Drops exactly the leading whitespace run and keeps the rest as a suffix |
| Text.TrimEnd | lib/arbitrage.ts:62 | Drops exactly the trailing whitespace run and keeps the rest as a prefix |
| Text.SplitOnWhitespace | lib/services/ai-matcher.ts:108-109 | `split(/\s+/)` yields at least one piece; no piece contains whitespace; the pieces glued together are the input without its whitespace; every piece strictly between the first and the last is non-empty, and so is the first when the input starts with a non-space |
| Text.SplitOnWhitespaceJoins | lib/services/ai-matcher.ts:108-109 | Putting the input's whitespace runs, each non-empty and all whitespace, back between the pieces (`words[0] + seps[0] + words[1] + …`) gives the input again; with the piece properties above this fixes where `split(/\s+/)` breaks |
| Text.NatToString | lib/services/ai-matcher.ts:120 | The decimal rendering of a count is its canonical digits: non-empty, only '0'-'9', no leading zero unless it is the single digit, denoting the count |
| Arbitrage.Rescale | lib/arbitrage.ts:29-30 | With normalising on, a price above 1 is divided by 100 (a 0-100 price lands in (0,1]); a price of at most 1, or normalising off, leaves it unchanged |
| Arbitrage.CalculateArbitrage | lib/arbitrage.ts:23-39 | The spread is the absolute difference of the rescaled prices; profit × min(prices) = spread × 100; both are non-negative |
| Arbitrage.CalculateArbitrageSymmetric | lib/arbitrage.ts:32-36 | Swapping the two prices changes neither spread nor profit |
| Arbitrage.ArbitrageZeroIffEqualPrices | lib/arbitrage.ts:32-36 | The spread is 0 exactly when the rescaled prices are equal, and the profit is 0 exactly when the spread is |
| Arbitrage.ProfitIsSpreadOverCheaperLeg | lib/arbitrage.ts:36 | Without normalising, profit = \|p1 − p2\| / min(p1, p2) × 100 |
| Arbitrage.SignificantIffAtLeastThreshold | lib/arbitrage.ts:46-51 | A profit is significant exactly when it reaches the threshold (the boundary included); the default threshold is 2 |
| Arbitrage.IsSignificantArbitrage | lib/arbitrage.ts:46-51 | Without a threshold a profit is significant exactly when it is at least 2; with one, exactly when it reaches it |
| Arbitrage.StripPunctuation | lib/arbitrage.ts:62 | Removing `[^\w\s]` keeps every word character and whitespace character of the input and nothing else |
| Arbitrage.StripPunctuationSingle | lib/arbitrage.ts:62 | One character survives exactly when it is not punctuation; with the append lemma this pins the in-order result |
| Arbitrage.StripPunctuationAppend | lib/arbitrage.ts:62 | Punctuation stripping works character by character: it distributes over concatenation |
| Arbitrage.NormalizeQuestion | lib/arbitrage.ts:61-62 | The result is in normal form (no punctuation, no upper case, no whitespace at the ends); it is the lower-cased, punctuation-free question with only whitespace cut from its ends; a question already in normal form is left unchanged |
| Arbitrage.NormalizeQuestionIdempotent | lib/arbitrage.ts:61-62 | Normalising twice is normalising once |
| Arbitrage.Includes | lib/arbitrage.ts:68 | `includes` finds a needle that is a prefix of the haystack (so the empty needle is always found), and never a needle longer than the haystack |
| Arbitrage.IncludesIffOccurs | lib/arbitrage.ts:68 | `includes` holds exactly when the needle occurs at some position of the haystack |
| Arbitrage.MatchMarkets | lib/arbitrage.ts:57-69 | Two questions match exactly when one normal form occurs at some position of the other, in either direction; in particular questions with the same normal form match, and a question whose normal form is empty (only punctuation and whitespace) matches every question |
| Arbitrage.MatchMarketsReflexive | lib/arbitrage.ts:64-68 | A question matches itself |
| Arbitrage.MatchMarketsSymmetric | lib/arbitrage.ts:64-68 | The verdict does not depend on which venue's question comes first |
| Arbitrage.MatchMarketsIgnoresCase | lib/arbitrage.ts:61-68 | Lower-casing either question does not change the verdict |
| Arbitrage.NormalizeIgnoresPunctuation | lib/arbitrage.ts:61-62 | Inserting a punctuation character anywhere in a question does not change its normal form |
| Arbitrage.MatchMarketsIgnoresPunctuation | lib/arbitrage.ts:61-68 | Inserting a punctuation character anywhere in a question does not change the verdict |
| Kalshi.GetKalshiMidPrice | lib/kalshi.ts:57-62 | The result is the midpoint of the chosen side's bid and ask, and lies between them when bid ≤ ask |
| Kalshi.MidPriceReadsOnlyItsSide | lib/kalshi.ts:57-62 | The YES mid-price depends only on the YES quotes, the NO mid-price only on the NO quotes |
| MarketFetcher.FindOutcome | lib/services/market-fetcher.ts:31-32 | `find` returns the first token whose lower-cased outcome is the wanted label, or reports that none has it |
| MarketFetcher.NormalizePolymarketMarket | lib/services/market-fetcher.ts:29-34 | A record is dropped exactly when its tokens are missing, fewer than two, or lack a "yes" or a "no" token (compared after lower-casing) |
| MarketFetcher.NormalizePolymarketMarketFields | lib/services/market-fetcher.ts:36-49 | A kept record takes the condition id, question, description and end date of the venue record, and the prices and token ids of the first "yes" and first "no" tokens |
| MarketFetcher.NormalizePolymarket | lib/services/market-fetcher.ts:27-50 | The output is no longer than the input and every record is tagged Polymarket |
| MarketFetcher.NormalizePolymarketAppend | lib/services/market-fetcher.ts:27-50 | Records are normalised one by one, in order: normalising two batches in sequence gives the two results in sequence |
| MarketFetcher.NormalizePolymarketSingle | lib/services/market-fetcher.ts:27-50 | A single record yields its normal form when kept, and nothing otherwise |
| MarketFetcher.NormalizePolymarketSources | lib/services/market-fetcher.ts:27-50 | Every output market is the normal form of some input record |
| MarketFetcher.FetchPolymarketMarkets | lib/services/market-fetcher.ts:23-55 | A failed fetch yields no markets at all, never a partial list; a successful one yields exactly the normalised records (`NormalizePolymarket`), at most one per record |
| MarketFetcher.NormalizeKalshiMarket | lib/services/market-fetcher.ts:64-78 | The ticker is the id and the title the question; each price is (bid + ask) / 200, and lies in [0, 1] when the quotes lie in [0, 100] |
| MarketFetcher.KalshiPricesAreMidPrices | lib/services/market-fetcher.ts:66-67 | The normalised prices are the `getKalshiMidPrice` of each side divided by 100 |
| MarketFetcher.NormalizeKalshi | lib/services/market-fetcher.ts:64 | Exactly one market per record, in the same order |
| MarketFetcher.FetchKalshiMarkets | lib/services/market-fetcher.ts:60-84 | A failed fetch yields no markets; a successful one yields exactly the normalised records (`NormalizeKalshi`), one per record, each tagged Kalshi |
| AiMatcher.ConfidentEntries | lib/services/ai-matcher.ts:80 | Keeps every entry whose confidence is at least 0.7, and only such entries of the answer |
| AiMatcher.ConfidentEntriesAppend | lib/services/ai-matcher.ts:80 | The confidence filter keeps the oracle's order |
| AiMatcher.MarketAt | lib/services/ai-matcher.ts:82-83 | A 1-based index resolves to `markets[index - 1]` exactly when it lies in 1..length |
| AiMatcher.ToCandidates | lib/services/ai-matcher.ts:81-86 | One candidate per entry, in order, with both indices resolved against the truncated lists |
| AiMatcher.ResolvedMatches | lib/services/ai-matcher.ts:87 | Keeps every candidate whose two markets resolved, and only those; each result is such a candidate |
| AiMatcher.ResolvedMatchesAppend | lib/services/ai-matcher.ts:87 | The resolution filter keeps the order |
| AiMatcher.MatchesFromOracle | lib/services/ai-matcher.ts:79-87 | Every match from the oracle path has confidence ≥ 0.7 and refers to markets of the truncated lists |
| AiMatcher.MatchesFromOracleAppend | lib/services/ai-matcher.ts:79-87 | Entries are processed one by one and survivors keep the oracle's order |
| AiMatcher.MatchesFromOracleSingle | lib/services/ai-matcher.ts:79-87 | One entry yields a match exactly when its confidence is ≥ 0.7 and both indices lie in range; the match carries the indexed markets, the confidence and the reasoning |
| AiMatcher.Words | lib/services/ai-matcher.ts:108-109 | The lower-cased question is the words with its non-empty whitespace runs put back between them; no word holds whitespace and only the first and last may be empty; glued together, the words are the lower-cased question without its whitespace |
| AiMatcher.FallbackReasoning | lib/services/ai-matcher.ts:120 | The reasoning is "Simple match: ", the count's canonical decimal digits, then " common words" |
| AiMatcher.CommonWords | lib/services/ai-matcher.ts:111-113 | The shared words are at most the Polymarket words; which words they are is pinned by `CommonWordsSingle`, `CommonWordsAppend` and `CommonWordsAreShared` |
| AiMatcher.CommonWordsAreShared | lib/services/ai-matcher.ts:111-113 | Every counted word is longer than three characters and occurs in both questions' word lists |
| AiMatcher.CommonWordsSingle | lib/services/ai-matcher.ts:111-113 | One Polymarket word is counted exactly when it is longer than three characters and occurs among the Kalshi words; with the append lemma this pins the count |
| AiMatcher.CommonWordsAppend | lib/services/ai-matcher.ts:111-113 | Each Polymarket word is judged on its own, so a repeated word counts once per occurrence |
| AiMatcher.FallbackConfidence | lib/services/ai-matcher.ts:119 | With at least three shared words, min(count / 5, 0.9) lies in [0.6, 0.9] |
| AiMatcher.FallbackPair | lib/services/ai-matcher.ts:108-121 | A pair yields a record exactly when its questions share at least three words; the record names the pair and has confidence in [0.6, 0.9] |
| AiMatcher.PairRecord | lib/services/ai-matcher.ts:115-122 | At most one record per pair |
| AiMatcher.PairsFor | lib/services/ai-matcher.ts:107-123 | At most one record per Kalshi market |
| AiMatcher.CandidatePairs | lib/services/ai-matcher.ts:106-124 | The loops push at most \|poly\| · \|kalshi\| records |
| AiMatcher.AtLeastConfidence | lib/services/ai-matcher.ts:126 | Keeps every record at or above the floor, and only records of the input at or above it; never lengthens the list |
| AiMatcher.AtLeastConfidenceKeepsAll | lib/services/ai-matcher.ts:126 | When every record is at or above the floor, the filter returns its input |
| AiMatcher.FallbackFloorRemovesNothing | lib/services/ai-matcher.ts:119-126 | Every pushed record already has confidence ≥ 0.6, so the final filter returns its input |
| AiMatcher.FallbackMatches | lib/services/ai-matcher.ts:100-127 | What `simpleStringMatch` returns equals the records the loops push: the final filter removes nothing |
| AiMatcher.PairsForMembership | lib/services/ai-matcher.ts:107-123 | A record is pushed in the inner loop exactly when it is the fallback record of the Polymarket market with some Kalshi market |
| AiMatcher.CandidatePairsMembership | lib/services/ai-matcher.ts:106-124 | A record is pushed by the loops exactly when it is the fallback record of some pair |
| AiMatcher.FallbackMatchesMembership | lib/services/ai-matcher.ts:100-127 | A record is returned by the fallback exactly when it is the record of a pair that shares at least three words |
| AiMatcher.FallbackMatchesWithin | lib/services/ai-matcher.ts:100-127 | Every fallback record names a market of each list and has confidence in [0.6, 0.9] |
| AiMatcher.PairsForAppend | lib/services/ai-matcher.ts:107-123 | The inner loop visits the Kalshi markets in order |
| AiMatcher.CandidatePairsAppend | lib/services/ai-matcher.ts:106-124 | The output is Polymarket-major: the records for a longer Polymarket list are those for its first part followed by those for the rest |
| AiMatcher.MatchPair | lib/services/ai-matcher.ts:108-122 | The loop body pushes exactly the pair's fallback record |
| AiMatcher.PushPairsFor | lib/services/ai-matcher.ts:107-123 | The inner loop appends exactly the records of the Polymarket market with each Kalshi market, in Kalshi order |
| AiMatcher.SimpleStringMatch | lib/services/ai-matcher.ts:100-127 | The loops and the final filter compute `FallbackMatches`, which equals the unfiltered pairs in loop order |
| AiMatcher.FindMarketMatches | lib/services/ai-matcher.ts:23-95 | Empty input gives no matches; every match names markets among the first 20 of each list and has confidence ≥ 0.6; with both lists non-empty, an oracle answer yields exactly the oracle-path matches over the first 20 of each list (so confidence ≥ 0.7) and empty oracle content yields none |
| AiMatcher.FindMarketMatchesSkipsOracleOnEmptyInput | lib/services/ai-matcher.ts:27-29 | With either list empty the result is empty whatever the oracle would have answered |
| AiMatcher.FindMarketMatchesSeesFirstTwenty | lib/services/ai-matcher.ts:32-33 | Markets after the twentieth of either list never influence the result |
| AiMatcher.FindMarketMatchesOnOracleFailure | lib/services/ai-matcher.ts:72-73 | Empty content gives no matches; a failed oracle gives exactly the fallback's result on the truncated lists |
| ArbitrageDetector.YesTokenId | lib/services/arbitrage-detector.ts:61 | `rawData?.yesTokenId` is present exactly for a Polymarket payload |
| ArbitrageDetector.BestArbitrage | lib/services/arbitrage-detector.ts:37-51 | The chosen direction is one of the two and its profit is at least each direction's profit |
| ArbitrageDetector.BestArbitrageIsEitherDirection | lib/services/arbitrage-detector.ts:37-51 | Whichever direction is chosen, spread and profit equal those of both directions: \|poly − kalshi\| and that spread over the cheaper YES price, in percent |
| ArbitrageDetector.Evaluate | lib/services/arbitrage-detector.ts:37-66 | A match yields an opportunity exactly when its profit reaches the threshold; the opportunity's id, name, prices, token id, ticker, time, confidence and reasoning come from the match |
| ArbitrageDetector.Opportunities | lib/services/arbitrage-detector.ts:31-72 | No more opportunities than matches, each with profit at or above the threshold |
| ArbitrageDetector.OpportunitiesSingle | lib/services/arbitrage-detector.ts:53-69 | One match yields its opportunity when significant, and nothing otherwise |
| ArbitrageDetector.OpportunitiesAppend | lib/services/arbitrage-detector.ts:33-70 | Matches are scored one by one and survivors keep their order |
| ArbitrageDetector.OpportunitiesSources | lib/services/arbitrage-detector.ts:33-70 | Every opportunity is the evaluation of one of the matches |
| ArbitrageDetector.DetectArbitrageOpportunities | lib/services/arbitrage-detector.ts:27-73 | The loop computes `Opportunities` of the matches, with the threshold defaulting to 2 |
| ArbitrageDetector.ToRecord | lib/services/arbitrage-detector.ts:83-92 | Each column of the row copies the opportunity's field of the same name |
| ArbitrageDetector.ToRecordForgetsIdentity | lib/services/arbitrage-detector.ts:83-92 | Two opportunities give the same row exactly when they agree on everything but id, confidence and reasoning |
| ArbitrageDetector.ToRecords | lib/services/arbitrage-detector.ts:83-92 | One row per opportunity, in the same order |
| ArbitrageDetector.StoreArbitrageOpportunities | lib/services/arbitrage-detector.ts:78-104 | Nothing is inserted exactly when there are no opportunities; otherwise the rows are inserted, and a failed insert is reported with its message |
| ArbitrageDetector.StoreSkipsEmptyInput | lib/services/arbitrage-detector.ts:81 | With no opportunities the insert is never attempted, so its outcome cannot matter |
| DetectRoute.Status | app/api/arbitrage/detect/route.ts:26-84 | 400 for missing markets, 200 for both successes, 500 for a failure |
| DetectRoute.Success | app/api/arbitrage/detect/route.ts:28-80 | `success` is true exactly on the answers sent with status 200 |
| DetectRoute.Message | app/api/arbitrage/detect/route.ts:29-81 | A completed run's message is "Detection complete! Found ", the opportunity count's canonical decimal digits, then " arbitrage opportunities"; a failure carries its error text; success and 400 messages are non-empty |
| DetectRoute.ThresholdFromBody | app/api/arbitrage/detect/route.ts:16 | A missing or zero threshold becomes 2; any other value is kept |
| DetectRoute.ErrorText | app/api/arbitrage/detect/route.ts:81 | An empty message becomes 'Internal server error'; any other is kept |
| DetectRoute.MatchesHavePositivePrices | app/api/arbitrage/detect/route.ts:36-55 | The matches handed to scoring name markets among the first twenty of each list, so positive YES prices there suffice for scoring |
| DetectRoute.Post | app/api/arbitrage/detect/route.ts:13-85 | 400 exactly when a venue is empty; "no matches" exactly when both venues are non-empty and the matcher finds nothing; a failure exactly when an attempted insert fails; an insert is attempted only on a completed or failed run |
| DetectRoute.PostShortCircuitsOnEmptyMarkets | app/api/arbitrage/detect/route.ts:26-32 | Either venue empty: a 400 failure with both counts, nothing stored, and the oracle's answer and the insert outcome cannot matter |
| DetectRoute.PostNoMatches | app/api/arbitrage/detect/route.ts:40-51 | Zero matches: a 200 success with zero matches and opportunities, and neither the threshold nor the insert outcome can matter |
| DetectRoute.PostStoresIffOpportunities | app/api/arbitrage/detect/route.ts:60-63 | The insert is attempted exactly when scoring found an opportunity, with one row per opportunity in order |
| DetectRoute.PostCompletedStats | app/api/arbitrage/detect/route.ts:65-75 | A completed run reports the four counts and previews the first min(10, n) opportunities in order, all at or above the threshold |
| DetectRoute.PostFailsOnlyOnStoreFailure | app/api/arbitrage/detect/route.ts:77-84 | A run fails (500) only through a failed insert, and then carries the insert's message or 'Internal server error'; a failed attempted insert always fails the run |

## Left out

- Network I/O is not modelled: the venue fetch wrappers, `fetchAllMarkets`'s concurrent fan-out and the OpenAI call. Their results are inputs: the fetched record lists or a failure, and the oracle's parsed entries, an empty answer or a failure. The prompt text and `JSON.parse` are part of that input.
- Every exception raised inside the oracle's `try` block becomes `OracleFailed`, which selects the word-overlap fallback. This covers a failed call, content that `JSON.parse` rejects, and a parsed value without `filter`.
- Persistence is not modelled: the Supabase insert and select, `getRecentOpportunities` and the opportunities listing route. The insert is an input outcome.
- The clock is an input: `new Date().toISOString()` becomes the `detectedAt` parameter. The source reads the clock once per opportunity (lib/services/arbitrage-detector.ts:63); the model gives every opportunity of a run the same time.
- React components and page layout are not modelled, and neither are console logging, `NextResponse` marshalling or the development-only `details` field.
- The `GET` status endpoint of the detect route is not modelled; it returns a fixed message.
- IEEE-754 arithmetic is not modelled: prices are exact reals, so rounding, `NaN` and `Infinity` have no counterpart.
- Arbitrage.CalculateArbitrage: requires both prices to be positive. The source divides by the smaller price without a guard, so a zero price yields `Infinity` or `NaN` there.
- ArbitrageDetector.DetectArbitrageOpportunities: requires every match to have positive YES prices, for the same reason.
- ArbitrageDetector.Evaluate: requires positive YES prices, for the same reason.
- ArbitrageDetector.Opportunities: requires positive YES prices, for the same reason.
- DetectRoute.Post: requires the matched markets (not all fetched markets) to have positive YES prices; `DetectRoute.MatchesHavePositivePrices` shows that positive prices among the first twenty markets of each venue suffice. The same requires is on the lemmas about completed, storing and failing runs; the lemmas about the 400 and no-match paths need none.
- DetectRoute.Post: only a failed insert reaches the handler's `catch`. Two other throws are not modelled: a request body that parses to `null`, for which reading `minProfitThreshold` throws and the handler answers 500; and a throw inside `simpleStringMatch` (a market without a `question`), which runs inside the matcher's own `catch` and so escapes to the handler.
- Text.Lower: lower-cases ASCII letters only. JavaScript's `toLowerCase` also folds non-ASCII letters.
- Arbitrage.IsPunctuation: `\w` is ASCII, as in JavaScript without the `u` flag. `\s` is the full JavaScript whitespace set.
- Oracle entries carry integer indices and a real confidence. A non-integer index, which resolves to `undefined` and is dropped in the source, is not representable. Neither is a non-numeric confidence: JavaScript coerces it for the `>= 0.7` test (`"0.9"` and `true` pass it, and the entry keeps its original value).
- DetectRoute.ThresholdFromBody: a threshold from the request body is a real or absent. Non-numeric JSON values and `NaN`, which JavaScript's `||` also treats specially, are not modelled.
- AiMatcher.CommonWords: word length is counted in characters (code points). JavaScript's `length` counts UTF-16 code units, so the two differ for words with characters outside the Basic Multilingual Plane, such as emoji.
- The `description` of a normalised market is always present. The source's optional field is not distinguished from an empty one.
