/** lib/services/ai-matcher.ts: pairing Polymarket markets with Kalshi markets that ask about
    the same event. The language-model oracle is an input: its answer, already parsed into
    entries, or a failure. A failed oracle falls back to a word-overlap matcher. */
module AiMatcher {
  import opened Common
  import opened Text
  import opened MarketFetcher
  import Arbitrage

  /** A Polymarket market and a Kalshi market judged to ask about the same event. */
  datatype MarketMatch = MarketMatch(
    polymarketMarket: NormalizedMarket,
    kalshiMarket: NormalizedMarket,
    confidenceScore: real,
    reasoning: string)

  /** Only the first this-many markets of each venue are offered to either matcher. */
  const MarketLimit: nat := 20

  /** The oracle's entries below this confidence are discarded. */
  const OracleMinConfidence: real := 0.7

  /** The word-overlap matcher's acceptance floor, its confidence cap, and the number of
      shared words it needs. */
  const FallbackMinConfidence: real := 0.6
  const FallbackMaxConfidence: real := 0.9
  const FallbackMinCommonWords: nat := 3

  /** One entry of the oracle's JSON answer; the indices count from 1. */
  datatype OracleEntry = OracleEntry(polymarketIndex: int, kalshiIndex: int, confidence: real, reasoning: string)

  /** What the oracle call produced: a failure (the call raised, or its content did not parse
      as an array of entries), an empty answer, or the parsed entries. */
  datatype OracleOutcome = OracleFailed | EmptyContent | OracleAnswer(entries: seq<OracleEntry>)

  /** An entry after its indices are looked up: a market is absent when its index is out of range. */
  datatype Candidate = Candidate(
    polymarketMarket: Option<NormalizedMarket>,
    kalshiMarket: Option<NormalizedMarket>,
    confidenceScore: real,
    reasoning: string)

  // ---------------------------------------------------------------------------------------
  // The oracle path: filter by confidence, resolve indices, drop unresolved entries.
  // ---------------------------------------------------------------------------------------

  /** `.filter(m => m.confidence >= 0.7)`: keeps exactly the entries at or above 0.7. */
  function ConfidentEntries(entries: seq<OracleEntry>): (r: seq<OracleEntry>)
    ensures |r| <= |entries|
    ensures forall e :: e in r ==> e in entries && e.confidence >= OracleMinConfidence
    ensures forall i :: 0 <= i < |entries| && entries[i].confidence >= OracleMinConfidence ==> entries[i] in r
  {
    if entries == [] then []
    else if entries[0].confidence >= OracleMinConfidence then [entries[0]] + ConfidentEntries(entries[1..])
    else ConfidentEntries(entries[1..])
  }

  lemma {:induction false} ConfidentEntriesAppend(a: seq<OracleEntry>, b: seq<OracleEntry>)
    ensures ConfidentEntries(a + b) == ConfidentEntries(a) + ConfidentEntries(b)
  {
    if a == [] {
      assert a + b == b;
    } else {
      assert (a + b)[0] == a[0];
      assert (a + b)[1..] == a[1..] + b;
      ConfidentEntriesAppend(a[1..], b);
    }
  }

  /** `markets[index - 1]`: the market at a 1-based index, absent outside 1..|markets|. */
  function MarketAt(markets: seq<NormalizedMarket>, index: int): (r: Option<NormalizedMarket>)
    ensures r.Some? <==> 1 <= index <= |markets|
    ensures r.Some? ==> r.value == markets[index - 1]
  {
    if 1 <= index <= |markets| then Some(markets[index - 1]) else None
  }

  /** `.map(m => ({ polymarketMarket: limitedPoly[m.polymarketIndex - 1], ... }))`. */
  function ToCandidates(entries: seq<OracleEntry>, poly: seq<NormalizedMarket>, kalshi: seq<NormalizedMarket>): (r: seq<Candidate>)
    ensures |r| == |entries|
    ensures forall i :: 0 <= i < |entries| ==> r[i] == Candidate(MarketAt(poly, entries[i].polymarketIndex),
                                                               MarketAt(kalshi, entries[i].kalshiIndex),
                                                               entries[i].confidence, entries[i].reasoning)
  {
    seq(|entries|, i requires 0 <= i < |entries| =>
      Candidate(MarketAt(poly, entries[i].polymarketIndex), MarketAt(kalshi, entries[i].kalshiIndex),
                entries[i].confidence, entries[i].reasoning))
  }

  lemma ToCandidatesAppend(a: seq<OracleEntry>, b: seq<OracleEntry>, poly: seq<NormalizedMarket>, kalshi: seq<NormalizedMarket>)
    ensures ToCandidates(a + b, poly, kalshi) == ToCandidates(a, poly, kalshi) + ToCandidates(b, poly, kalshi)
  {
  }

  /** `.filter(m => m.polymarketMarket && m.kalshiMarket)`: keeps exactly the candidates whose
      two markets resolved. */
  function ResolvedMatches(candidates: seq<Candidate>): (r: seq<MarketMatch>)
    ensures |r| <= |candidates|
    ensures forall k :: 0 <= k < |r| ==>
      Candidate(Some(r[k].polymarketMarket), Some(r[k].kalshiMarket), r[k].confidenceScore, r[k].reasoning) in candidates
    ensures forall i :: 0 <= i < |candidates| && candidates[i].polymarketMarket.Some? && candidates[i].kalshiMarket.Some? ==>
      MarketMatch(candidates[i].polymarketMarket.value, candidates[i].kalshiMarket.value,
                  candidates[i].confidenceScore, candidates[i].reasoning) in r
  {
    if candidates == [] then []
    else
      var c := candidates[0];
      if c.polymarketMarket.Some? && c.kalshiMarket.Some? then
        [MarketMatch(c.polymarketMarket.value, c.kalshiMarket.value, c.confidenceScore, c.reasoning)]
        + ResolvedMatches(candidates[1..])
      else ResolvedMatches(candidates[1..])
  }

  lemma {:induction false} ResolvedMatchesAppend(a: seq<Candidate>, b: seq<Candidate>)
    ensures ResolvedMatches(a + b) == ResolvedMatches(a) + ResolvedMatches(b)
  {
    if a == [] {
      assert a + b == b;
    } else {
      assert (a + b)[0] == a[0];
      assert (a + b)[1..] == a[1..] + b;
      ResolvedMatchesAppend(a[1..], b);
    }
  }

  /** The oracle path of `findMarketMatches` on the truncated lists: every match it returns
      has confidence at least 0.7 and refers to markets of those lists. */
  function MatchesFromOracle(entries: seq<OracleEntry>, poly: seq<NormalizedMarket>, kalshi: seq<NormalizedMarket>): (r: seq<MarketMatch>)
    ensures |r| <= |entries|
    ensures forall k :: 0 <= k < |r| ==>
      && r[k].confidenceScore >= OracleMinConfidence
      && r[k].polymarketMarket in poly
      && r[k].kalshiMarket in kalshi
  {
    var confident := ConfidentEntries(entries);
    var candidates := ToCandidates(confident, poly, kalshi);
    var r := ResolvedMatches(candidates);
    assert forall k :: 0 <= k < |r| ==>
      && r[k].confidenceScore >= OracleMinConfidence
      && r[k].polymarketMarket in poly
      && r[k].kalshiMarket in kalshi
    by {
      forall k | 0 <= k < |r|
        ensures r[k].confidenceScore >= OracleMinConfidence
        ensures r[k].polymarketMarket in poly && r[k].kalshiMarket in kalshi
      {
        var c := Candidate(Some(r[k].polymarketMarket), Some(r[k].kalshiMarket), r[k].confidenceScore, r[k].reasoning);
        var i :| 0 <= i < |candidates| && candidates[i] == c;
        assert confident[i] in confident;
      }
    }
    r
  }

  /** The oracle's entries are handled one by one and in order: the matches of two batches
      of entries are the matches of the first followed by those of the second. */
  lemma MatchesFromOracleAppend(a: seq<OracleEntry>, b: seq<OracleEntry>, poly: seq<NormalizedMarket>, kalshi: seq<NormalizedMarket>)
    ensures MatchesFromOracle(a + b, poly, kalshi) == MatchesFromOracle(a, poly, kalshi) + MatchesFromOracle(b, poly, kalshi)
  {
    var ca, cb := ConfidentEntries(a), ConfidentEntries(b);
    calc {
      MatchesFromOracle(a + b, poly, kalshi);
      ResolvedMatches(ToCandidates(ConfidentEntries(a + b), poly, kalshi));
      { ConfidentEntriesAppend(a, b); }
      ResolvedMatches(ToCandidates(ca + cb, poly, kalshi));
      { ToCandidatesAppend(ca, cb, poly, kalshi); }
      ResolvedMatches(ToCandidates(ca, poly, kalshi) + ToCandidates(cb, poly, kalshi));
      { ResolvedMatchesAppend(ToCandidates(ca, poly, kalshi), ToCandidates(cb, poly, kalshi)); }
      MatchesFromOracle(a, poly, kalshi) + MatchesFromOracle(b, poly, kalshi);
    }
  }

  /** One entry yields a match exactly when its confidence is at least 0.7 and both of its
      1-based indices fall inside the lists; the match carries the indexed markets and the
      entry's confidence and reasoning. */
  lemma MatchesFromOracleSingle(e: OracleEntry, poly: seq<NormalizedMarket>, kalshi: seq<NormalizedMarket>)
    ensures MatchesFromOracle([e], poly, kalshi) ==
      if e.confidence >= OracleMinConfidence && 1 <= e.polymarketIndex <= |poly| && 1 <= e.kalshiIndex <= |kalshi|
      then [MarketMatch(poly[e.polymarketIndex - 1], kalshi[e.kalshiIndex - 1], e.confidence, e.reasoning)]
      else []
  {
    assert [e][1..] == [];
    var confident := ConfidentEntries([e]);
    var candidates := ToCandidates(confident, poly, kalshi);
    if e.confidence >= OracleMinConfidence {
      assert confident == [e];
      assert candidates[1..] == [];
    } else {
      assert confident == [];
    }
  }

  // ---------------------------------------------------------------------------------------
  // The fallback: word overlap between the two questions.
  // ---------------------------------------------------------------------------------------

  /** `question.toLowerCase().split(/\s+/)`: the lower-cased question is the words with its
      whitespace runs put back between them; no word holds whitespace, and only the first and
      the last may be empty. */
  function Words(question: string): (words: seq<string>)
    ensures |words| >= 1
    ensures IsSplitBy(Lower(question), words, Separators(Lower(question)))
    ensures forall i, j :: 0 <= i < |words| && 0 <= j < |words[i]| ==> !IsSpace(words[i][j])
    ensures forall k :: 0 < k < |words| - 1 ==> words[k] != []
    ensures Concat(words) == RemoveSpaces(Lower(question))
  {
    SplitOnWhitespaceJoins(Lower(question));
    SplitOnWhitespace(Lower(question))
  }

  /** `polyWords.filter(w => w.length > 3 && kalshiWords.includes(w))`: a Polymarket word that
      occurs several times is kept each time. */
  function CommonWords(polyWords: seq<string>, kalshiWords: seq<string>): (r: seq<string>)
    ensures |r| <= |polyWords|
  {
    if polyWords == [] then []
    else if |polyWords[0]| > 3 && polyWords[0] in kalshiWords then [polyWords[0]] + CommonWords(polyWords[1..], kalshiWords)
    else CommonWords(polyWords[1..], kalshiWords)
  }

  /** Every counted word is longer than three characters and occurs in both word lists. */
  lemma {:induction false} CommonWordsAreShared(polyWords: seq<string>, kalshiWords: seq<string>)
    ensures forall w :: w in CommonWords(polyWords, kalshiWords) ==> w in polyWords && |w| > 3 && w in kalshiWords
  {
    if polyWords != [] {
      CommonWordsAreShared(polyWords[1..], kalshiWords);
    }
  }

  /** One Polymarket word is counted exactly when it is longer than three characters and
      occurs among the Kalshi words. */
  lemma CommonWordsSingle(w: string, kalshiWords: seq<string>)
    ensures CommonWords([w], kalshiWords) == if |w| > 3 && w in kalshiWords then [w] else []
  {
    assert [w][1..] == [];
  }

  /** Each word of the Polymarket question is judged on its own, so repeated words count
      once per occurrence. */
  lemma {:induction false} CommonWordsAppend(a: seq<string>, b: seq<string>, kalshiWords: seq<string>)
    ensures CommonWords(a + b, kalshiWords) == CommonWords(a, kalshiWords) + CommonWords(b, kalshiWords)
  {
    if a == [] {
      assert a + b == b;
    } else {
      assert (a + b)[0] == a[0];
      assert (a + b)[1..] == a[1..] + b;
      CommonWordsAppend(a[1..], b, kalshiWords);
    }
  }

  /** The number of shared words the fallback counts for a pair of questions. */
  function CommonWordCount(polyQuestion: string, kalshiQuestion: string): nat
  {
    |CommonWords(Words(polyQuestion), Words(kalshiQuestion))|
  }

  /** `Math.min(commonWords.length / 5, 0.9)`. */
  function FallbackConfidence(count: nat): (c: real)
    ensures count >= FallbackMinCommonWords ==> FallbackMinConfidence <= c <= FallbackMaxConfidence
  {
    Arbitrage.Min(count as real / 5.0, FallbackMaxConfidence)
  }

  /** `Simple match: ${commonWords.length} common words`. */
  function FallbackReasoning(count: nat): (reasoning: string)
    ensures exists digits :: && reasoning == "Simple match: " + digits + " common words"
                             && IsDecimal(digits, count)
  {
    "Simple match: " + NatToString(count) + " common words"
  }

  /** The record the fallback pushes for one pair, when the pair shares at least three words. */
  function FallbackPair(poly: NormalizedMarket, kalshi: NormalizedMarket): (r: Option<MarketMatch>)
    ensures r.Some? <==> CommonWordCount(poly.question, kalshi.question) >= FallbackMinCommonWords
    ensures r.Some? ==> r.value.polymarketMarket == poly && r.value.kalshiMarket == kalshi
    ensures r.Some? ==> FallbackMinConfidence <= r.value.confidenceScore <= FallbackMaxConfidence
  {
    var count := CommonWordCount(poly.question, kalshi.question);
    if count >= FallbackMinCommonWords
    then Some(MarketMatch(poly, kalshi, FallbackConfidence(count), FallbackReasoning(count)))
    else None
  }

  /** The record pushed for one pair, as a list of zero or one element. */
  function PairRecord(poly: NormalizedMarket, kalshi: NormalizedMarket): (r: seq<MarketMatch>)
    ensures |r| <= 1
  {
    match FallbackPair(poly, kalshi)
    case None => []
    case Some(m) => [m]
  }

  /** The records the inner loop pushes for one Polymarket market, in Kalshi order. */
  function PairsFor(poly: NormalizedMarket, kalshi: seq<NormalizedMarket>): (r: seq<MarketMatch>)
    ensures |r| <= |kalshi|
  {
    if kalshi == [] then [] else PairRecord(poly, kalshi[0]) + PairsFor(poly, kalshi[1..])
  }

  /** The records both loops push, Polymarket-major and Kalshi-minor: at most one per pair. */
  function CandidatePairs(poly: seq<NormalizedMarket>, kalshi: seq<NormalizedMarket>): (r: seq<MarketMatch>)
    ensures |r| <= |poly| * |kalshi|
  {
    if poly == [] then []
    else
      assert (|poly| - 1) * |kalshi| + |kalshi| == |poly| * |kalshi|;
      PairsFor(poly[0], kalshi) + CandidatePairs(poly[1..], kalshi)
  }

  /** `matches.filter(m => m.confidenceScore >= floor)`: keeps exactly the records at or above
      the floor. */
  function AtLeastConfidence(matches: seq<MarketMatch>, floor: real): (r: seq<MarketMatch>)
    ensures |r| <= |matches|
    ensures forall k :: 0 <= k < |r| ==> r[k].confidenceScore >= floor && r[k] in matches
    ensures forall i :: 0 <= i < |matches| && matches[i].confidenceScore >= floor ==> matches[i] in r
  {
    if matches == [] then []
    else if matches[0].confidenceScore >= floor then [matches[0]] + AtLeastConfidence(matches[1..], floor)
    else AtLeastConfidence(matches[1..], floor)
  }

  /** What `simpleStringMatch` returns: its final 0.6 filter removes nothing, since every
      pushed record already has confidence of at least 0.6. */
  function FallbackMatches(poly: seq<NormalizedMarket>, kalshi: seq<NormalizedMarket>): (r: seq<MarketMatch>)
    ensures r == CandidatePairs(poly, kalshi)
  {
    FallbackFloorRemovesNothing(poly, kalshi);
    AtLeastConfidence(CandidatePairs(poly, kalshi), FallbackMinConfidence)
  }

  lemma {:induction false} AtLeastConfidenceKeepsAll(matches: seq<MarketMatch>, floor: real)
    requires forall m :: m in matches ==> m.confidenceScore >= floor
    ensures AtLeastConfidence(matches, floor) == matches
  {
    if matches != [] {
      AtLeastConfidenceKeepsAll(matches[1..], floor);
    }
  }

  /** Every pushed record already has confidence between 0.6 and 0.9, so the fallback's final
      0.6 filter removes nothing. */
  lemma FallbackFloorRemovesNothing(poly: seq<NormalizedMarket>, kalshi: seq<NormalizedMarket>)
    ensures AtLeastConfidence(CandidatePairs(poly, kalshi), FallbackMinConfidence) == CandidatePairs(poly, kalshi)
  {
    var pairs := CandidatePairs(poly, kalshi);
    forall m | m in pairs ensures m.confidenceScore >= FallbackMinConfidence {
      CandidatePairsMembership(poly, kalshi, m);
    }
    AtLeastConfidenceKeepsAll(pairs, FallbackMinConfidence);
  }

  lemma {:induction false} PairsForMembership(poly: NormalizedMarket, kalshi: seq<NormalizedMarket>, m: MarketMatch)
    ensures m in PairsFor(poly, kalshi) <==> exists k :: k in kalshi && FallbackPair(poly, k) == Some(m)
  {
    if kalshi != [] {
      PairsForMembership(poly, kalshi[1..], m);
      if m !in PairsFor(poly, kalshi) {
        forall k | k in kalshi ensures FallbackPair(poly, k) != Some(m) {
          if k != kalshi[0] {
            assert k in kalshi[1..];
          }
        }
      }
    }
  }

  /** The fallback emits a record for a pair exactly when the two questions share at least
      three words; the record names the pair and carries min(count / 5, 0.9) as confidence. */
  lemma {:induction false} FallbackMatchesMembership(poly: seq<NormalizedMarket>, kalshi: seq<NormalizedMarket>, m: MarketMatch)
    ensures m in FallbackMatches(poly, kalshi) <==>
      exists p, k :: p in poly && k in kalshi && FallbackPair(p, k) == Some(m)
  {
    CandidatePairsMembership(poly, kalshi, m);
  }

  lemma {:induction false} CandidatePairsMembership(poly: seq<NormalizedMarket>, kalshi: seq<NormalizedMarket>, m: MarketMatch)
    ensures m in CandidatePairs(poly, kalshi) <==>
      exists p, k :: p in poly && k in kalshi && FallbackPair(p, k) == Some(m)
  {
    if poly != [] {
      var first, rest := poly[0], poly[1..];
      CandidatePairsMembership(rest, kalshi, m);
      PairsForMembership(first, kalshi, m);
      if m in PairsFor(first, kalshi) {
        var k :| k in kalshi && FallbackPair(first, k) == Some(m);
        assert first in poly;
      } else if m in CandidatePairs(rest, kalshi) {
        var p, k :| p in rest && k in kalshi && FallbackPair(p, k) == Some(m);
        assert p in poly;
      } else {
        forall p, k | p in poly && k in kalshi ensures FallbackPair(p, k) != Some(m) {
          if p != first {
            assert p in rest;
          }
        }
      }
    }
  }

  /** Every record the fallback returns names a market of each list and has confidence
      between 0.6 and 0.9. */
  lemma FallbackMatchesWithin(poly: seq<NormalizedMarket>, kalshi: seq<NormalizedMarket>)
    ensures forall k :: 0 <= k < |FallbackMatches(poly, kalshi)| ==>
      var m := FallbackMatches(poly, kalshi)[k];
      && m.polymarketMarket in poly && m.kalshiMarket in kalshi
      && FallbackMinConfidence <= m.confidenceScore <= FallbackMaxConfidence
  {
    var r := FallbackMatches(poly, kalshi);
    forall k | 0 <= k < |r|
      ensures r[k].polymarketMarket in poly && r[k].kalshiMarket in kalshi
      ensures FallbackMinConfidence <= r[k].confidenceScore <= FallbackMaxConfidence
    {
      FallbackMatchesMembership(poly, kalshi, r[k]);
    }
  }

  lemma {:induction false} PairsForAppend(poly: NormalizedMarket, a: seq<NormalizedMarket>, b: seq<NormalizedMarket>)
    ensures PairsFor(poly, a + b) == PairsFor(poly, a) + PairsFor(poly, b)
  {
    if a == [] {
      assert a + b == b;
    } else {
      assert (a + b)[0] == a[0];
      assert (a + b)[1..] == a[1..] + b;
      PairsForAppend(poly, a[1..], b);
    }
  }

  /** The pairs come out Polymarket-major: the records for a longer Polymarket list are those
      for its first part followed by those for the rest. */
  lemma {:induction false} CandidatePairsAppend(a: seq<NormalizedMarket>, b: seq<NormalizedMarket>, kalshi: seq<NormalizedMarket>)
    ensures CandidatePairs(a + b, kalshi) == CandidatePairs(a, kalshi) + CandidatePairs(b, kalshi)
  {
    if a == [] {
      assert a + b == b;
    } else {
      assert (a + b)[0] == a[0];
      assert (a + b)[1..] == a[1..] + b;
      CandidatePairsAppend(a[1..], b, kalshi);
    }
  }

  lemma PairsForStep(poly: NormalizedMarket, kalshi: seq<NormalizedMarket>, j: nat)
    requires j < |kalshi|
    ensures PairsFor(poly, kalshi[..j + 1]) == PairsFor(poly, kalshi[..j]) + PairRecord(poly, kalshi[j])
  {
    assert kalshi[..j + 1] == kalshi[..j] + [kalshi[j]];
    assert PairsFor(poly, [kalshi[j]]) == PairRecord(poly, kalshi[j]);
    PairsForAppend(poly, kalshi[..j], [kalshi[j]]);
  }

  lemma CandidatePairsStep(poly: seq<NormalizedMarket>, kalshi: seq<NormalizedMarket>, i: nat)
    requires i < |poly|
    ensures CandidatePairs(poly[..i + 1], kalshi) == CandidatePairs(poly[..i], kalshi) + PairsFor(poly[i], kalshi)
  {
    assert poly[..i + 1] == poly[..i] + [poly[i]];
    assert CandidatePairs([poly[i]], kalshi) == PairsFor(poly[i], kalshi);
    CandidatePairsAppend(poly[..i], [poly[i]], kalshi);
  }

  /** The body of the inner loop of `simpleStringMatch` for one pair: the record to push,
      if the two questions share at least three words. */
  method MatchPair(poly: NormalizedMarket, kalshi: NormalizedMarket) returns (pushed: seq<MarketMatch>)
    ensures pushed == PairRecord(poly, kalshi)
  {
    var count := CommonWordCount(poly.question, kalshi.question);
    pushed := [];
    if count >= FallbackMinCommonWords {
      pushed := [MarketMatch(poly, kalshi, FallbackConfidence(count), FallbackReasoning(count))];
    }
  }

  /** The inner loop of `simpleStringMatch` for one Polymarket market: walks the Kalshi list
      in order and appends the record of every pair that shares at least three words. */
  method PushPairsFor(poly: NormalizedMarket, kalshi: seq<NormalizedMarket>, acc: seq<MarketMatch>) returns (matches: seq<MarketMatch>)
    ensures matches == acc + PairsFor(poly, kalshi)
  {
    matches := acc;
    var j := 0;
    while j < |kalshi|
      invariant 0 <= j <= |kalshi|
      invariant matches == acc + PairsFor(poly, kalshi[..j])
    {
      var pushed := MatchPair(poly, kalshi[j]);
      matches := matches + pushed;
      PairsForStep(poly, kalshi, j);
      j := j + 1;
    }
    assert kalshi[..j] == kalshi;
  }

  /** `simpleStringMatch`: the outer loop over the Polymarket list (its inner loop is
      `PushPairsFor`), then the 0.6 confidence filter, which removes nothing. */
  method SimpleStringMatch(poly: seq<NormalizedMarket>, kalshi: seq<NormalizedMarket>) returns (matches: seq<MarketMatch>)
    ensures matches == FallbackMatches(poly, kalshi)
    ensures matches == CandidatePairs(poly, kalshi)
  {
    matches := [];
    var i := 0;
    while i < |poly|
      invariant 0 <= i <= |poly|
      invariant matches == CandidatePairs(poly[..i], kalshi)
    {
      matches := PushPairsFor(poly[i], kalshi, matches);
      CandidatePairsStep(poly, kalshi, i);
      i := i + 1;
    }
    assert poly[..i] == poly;
    FallbackFloorRemovesNothing(poly, kalshi);
    matches := AtLeastConfidence(matches, FallbackMinConfidence);
  }

  // ---------------------------------------------------------------------------------------
  // findMarketMatches
  // ---------------------------------------------------------------------------------------

  /** `findMarketMatches(polymarketMarkets, kalshiMarkets)` given what the oracle produced. */
  function FindMarketMatches(polymarketMarkets: seq<NormalizedMarket>, kalshiMarkets: seq<NormalizedMarket>, oracle: OracleOutcome): (r: seq<MarketMatch>)
    ensures polymarketMarkets == [] || kalshiMarkets == [] ==> r == []
    ensures forall k :: 0 <= k < |r| ==>
      && r[k].polymarketMarket in Take(polymarketMarkets, MarketLimit)
      && r[k].kalshiMarket in Take(kalshiMarkets, MarketLimit)
      && r[k].confidenceScore >= FallbackMinConfidence
    ensures oracle.OracleAnswer? ==> forall k :: 0 <= k < |r| ==> r[k].confidenceScore >= OracleMinConfidence
    ensures polymarketMarkets != [] && kalshiMarkets != [] && oracle.OracleAnswer? ==>
      r == MatchesFromOracle(oracle.entries, Take(polymarketMarkets, MarketLimit), Take(kalshiMarkets, MarketLimit))
    ensures polymarketMarkets != [] && kalshiMarkets != [] && oracle.EmptyContent? ==> r == []
  {
    if polymarketMarkets == [] || kalshiMarkets == [] then []
    else
      var limitedPoly := Take(polymarketMarkets, MarketLimit);
      var limitedKalshi := Take(kalshiMarkets, MarketLimit);
      match oracle
      case OracleFailed => FallbackMatchesWithin(limitedPoly, limitedKalshi); FallbackMatches(limitedPoly, limitedKalshi)
      case EmptyContent => []
      case OracleAnswer(entries) => MatchesFromOracle(entries, limitedPoly, limitedKalshi)
  }

  /** With either list empty the result is empty whatever the oracle would have said: the
      oracle is not consulted. */
  lemma FindMarketMatchesSkipsOracleOnEmptyInput(polymarketMarkets: seq<NormalizedMarket>, kalshiMarkets: seq<NormalizedMarket>, o1: OracleOutcome, o2: OracleOutcome)
    requires polymarketMarkets == [] || kalshiMarkets == []
    ensures FindMarketMatches(polymarketMarkets, kalshiMarkets, o1) == FindMarketMatches(polymarketMarkets, kalshiMarkets, o2) == []
  {
  }

  /** Markets past the twentieth of either list never influence the result. */
  lemma FindMarketMatchesSeesFirstTwenty(polymarketMarkets: seq<NormalizedMarket>, kalshiMarkets: seq<NormalizedMarket>, oracle: OracleOutcome)
    ensures FindMarketMatches(polymarketMarkets, kalshiMarkets, oracle) ==
            FindMarketMatches(Take(polymarketMarkets, MarketLimit), Take(kalshiMarkets, MarketLimit), oracle)
  {
  }

  /** Empty oracle content gives no matches; a failed oracle gives exactly what the fallback
      matcher returns on the truncated lists. */
  lemma FindMarketMatchesOnOracleFailure(polymarketMarkets: seq<NormalizedMarket>, kalshiMarkets: seq<NormalizedMarket>)
    ensures FindMarketMatches(polymarketMarkets, kalshiMarkets, EmptyContent) == []
    ensures polymarketMarkets != [] && kalshiMarkets != [] ==>
      FindMarketMatches(polymarketMarkets, kalshiMarkets, OracleFailed) ==
      FallbackMatches(Take(polymarketMarkets, MarketLimit), Take(kalshiMarkets, MarketLimit))
  {
  }
}
