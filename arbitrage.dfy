/** lib/arbitrage.ts: the price arithmetic of an arbitrage between two venues, the
    significance test, and the substring matcher on normalised questions. */
module Arbitrage {
  import opened Common
  import opened Text

  /** `Math.abs` on prices. */
  function Abs(x: real): (r: real)
    ensures r >= 0.0 && (r == x || r == -x)
  {
    if x < 0.0 then -x else x
  }

  /** `Math.min` on prices. */
  function Min(x: real, y: real): (r: real)
    ensures r <= x && r <= y && (r == x || r == y)
  {
    if x <= y then x else y
  }

  /** The profit threshold, in percent, that applies when the caller gives none. */
  const DefaultMinProfitThreshold: real := 2.0

  /** The result record of `calculateArbitrage`. */
  datatype ArbitrageResult = ArbitrageResult(spread: real, profitPercentage: real)

  /** One price brought onto the 0-1 scale: a price above 1 is read as a 0-100 quote when
      normalising is asked for; otherwise the price is taken as it is. */
  function Rescale(price: real, normalize: bool): (p: real)
    ensures normalize && price > 1.0 ==> p * 100.0 == price
    ensures !normalize ==> p == price
    ensures price <= 1.0 ==> p == price
    ensures normalize && 0.0 < price <= 100.0 ==> 0.0 < p <= 1.0
    ensures price > 0.0 ==> p > 0.0
  {
    if normalize && price > 1.0 then price / 100.0 else price
  }

  /** `calculateArbitrage(price1, price2, normalize = true)`. The source divides by the smaller
      price without a guard, so both prices must be positive here. */
  function CalculateArbitrage(price1: real, price2: real, normalize: Option<bool>): (r: ArbitrageResult)
    requires price1 > 0.0 && price2 > 0.0
    ensures var p1, p2 := Rescale(price1, ArgOr(normalize, true)), Rescale(price2, ArgOr(normalize, true));
      && r.spread == Abs(p1 - p2)
      && r.profitPercentage * Min(p1, p2) == r.spread * 100.0
    ensures r.spread >= 0.0 && r.profitPercentage >= 0.0
  {
    var n := ArgOr(normalize, true);
    var p1 := Rescale(price1, n);
    var p2 := Rescale(price2, n);
    var spread := Abs(p1 - p2);
    ArbitrageResult(spread, (spread / Min(p1, p2)) * 100.0)
  }

  /** Swapping the two prices changes neither the spread nor the profit percentage. */
  lemma CalculateArbitrageSymmetric(price1: real, price2: real, normalize: Option<bool>)
    requires price1 > 0.0 && price2 > 0.0
    ensures CalculateArbitrage(price1, price2, normalize) == CalculateArbitrage(price2, price1, normalize)
  {
    var n := ArgOr(normalize, true);
    var p1, p2 := Rescale(price1, n), Rescale(price2, n);
    assert Abs(p1 - p2) == Abs(p2 - p1);
    assert Min(p1, p2) == Min(p2, p1);
  }

  /** A spread, and hence a profit, exists exactly when the two rescaled prices differ;
      equal prices give a zero spread and a zero profit. */
  lemma ArbitrageZeroIffEqualPrices(price1: real, price2: real, normalize: Option<bool>)
    requires price1 > 0.0 && price2 > 0.0
    ensures var r := CalculateArbitrage(price1, price2, normalize);
      var n := ArgOr(normalize, true);
      && (r.spread == 0.0 <==> Rescale(price1, n) == Rescale(price2, n))
      && (r.profitPercentage == 0.0 <==> r.spread == 0.0)
  {
  }

  /** With normalising off, the profit is the spread as a percentage of the cheaper price. */
  lemma ProfitIsSpreadOverCheaperLeg(p1: real, p2: real)
    requires p1 > 0.0 && p2 > 0.0
    ensures var r := CalculateArbitrage(p1, p2, Some(false));
      && r.spread == Abs(p1 - p2)
      && r.profitPercentage == Abs(p1 - p2) / Min(p1, p2) * 100.0
  {
  }

  /** `isSignificantArbitrage(profitPercentage, minProfitThreshold = 2)`. */
  function IsSignificantArbitrage(profitPercentage: real, minProfitThreshold: Option<real>): (significant: bool)
    ensures minProfitThreshold.None? ==> (significant <==> profitPercentage >= 2.0)
    ensures minProfitThreshold.Some? ==> (significant <==> profitPercentage >= minProfitThreshold.value)
  {
    profitPercentage >= ArgOr(minProfitThreshold, DefaultMinProfitThreshold)
  }

  /** The test accepts a profit exactly when it reaches the threshold (the boundary included),
      and an omitted threshold means 2 percent. */
  lemma SignificantIffAtLeastThreshold(profitPercentage: real, threshold: real)
    ensures IsSignificantArbitrage(profitPercentage, Some(threshold)) <==> profitPercentage >= threshold
    ensures IsSignificantArbitrage(threshold, Some(threshold))
    ensures IsSignificantArbitrage(profitPercentage, None) <==> profitPercentage >= 2.0
  {
  }

  /** Characters that `/[^\w\s]/g` removes. */
  predicate IsPunctuation(c: char)
  {
    !IsWordChar(c) && !IsSpace(c)
  }

  /** `replace(/[^\w\s]/g, '')`: keeps exactly the word characters and whitespace, in order
      (with `StripPunctuationSingle` and `StripPunctuationAppend`). */
  function StripPunctuation(s: string): (r: string)
    ensures |r| <= |s|
    ensures forall c :: c in r ==> c in s && !IsPunctuation(c)
    ensures forall i :: 0 <= i < |s| && !IsPunctuation(s[i]) ==> s[i] in r
  {
    if s == [] then []
    else if IsPunctuation(s[0]) then StripPunctuation(s[1..])
    else [s[0]] + StripPunctuation(s[1..])
  }

  lemma {:induction false} StripPunctuationAppend(a: string, b: string)
    ensures StripPunctuation(a + b) == StripPunctuation(a) + StripPunctuation(b)
  {
    if a != [] {
      assert (a + b)[1..] == a[1..] + b;
      StripPunctuationAppend(a[1..], b);
    } else {
      assert a + b == b;
    }
  }

  /** A single character survives exactly when it is a word character or whitespace. */
  lemma StripPunctuationSingle(c: char)
    ensures StripPunctuation([c]) == if IsPunctuation(c) then [] else [c]
  {
    assert [c][1..] == [];
  }

  /** A string without punctuation is left as it is. */
  lemma {:induction false} StripPunctuationKeepsClean(s: string)
    requires forall i :: 0 <= i < |s| ==> !IsPunctuation(s[i])
    ensures StripPunctuation(s) == s
  {
    if s != [] {
      StripPunctuationKeepsClean(s[1..]);
    }
  }

  lemma TrimKeepsCharacters(s: string)
    ensures forall c :: c in Trim(s) ==> c in s
  {
    var t := TrimStart(s);
    forall c | c in Trim(s) ensures c in s {
      assert c in t;
      var k :| 0 <= k < |t| && t[k] == c;
      assert s[|s| - |t| + k] == c;
    }
  }

  /** A question already in normal form: no punctuation, no upper-case letter, no whitespace
      at either end. */
  predicate IsNormalQuestion(q: string)
  {
    && (forall i :: 0 <= i < |q| ==> !IsPunctuation(q[i]) && !IsUpper(q[i]))
    && (q == [] || (!IsSpace(q[0]) && !IsSpace(q[|q| - 1])))
  }

  /** The inner `normalize` of `matchMarkets`: lower-case, strip punctuation, trim. The result
      is in normal form, is the lower-cased, punctuation-free question with only whitespace
      cut from its ends, and a question already in normal form is its own normal form. */
  function NormalizeQuestion(question: string): (r: string)
    ensures IsNormalQuestion(r)
    ensures exists i :: TrimmedAt(StripPunctuation(Lower(question)), r, i)
    ensures IsNormalQuestion(question) ==> r == question
  {
    LowerHasNoUpper(question);
    var stripped := StripPunctuation(Lower(question));
    TrimKeepsCharacters(stripped);
    NormalQuestionIsFixed(question);
    Trim(stripped)
  }

  lemma NormalQuestionIsFixed(q: string)
    ensures IsNormalQuestion(q) ==> Trim(StripPunctuation(Lower(q))) == q
  {
    if IsNormalQuestion(q) {
      assert Lower(q) == q;
      StripPunctuationKeepsClean(q);
    }
  }

  /** Normalising twice is normalising once. */
  lemma NormalizeQuestionIdempotent(question: string)
    ensures NormalizeQuestion(NormalizeQuestion(question)) == NormalizeQuestion(question)
  {
  }

  lemma StrippedLowerAppend(a: string, b: string)
    ensures StripPunctuation(Lower(a + b)) == StripPunctuation(Lower(a)) + StripPunctuation(Lower(b))
  {
    LowerAppend(a, b);
    StripPunctuationAppend(Lower(a), Lower(b));
  }

  /** `hay.includes(needle)`: a prefix of the haystack is found, and a needle longer than the
      haystack never is. */
  function Includes(hay: string, needle: string): (found: bool)
    ensures needle <= hay ==> found
    ensures found ==> |needle| <= |hay|
    decreases |hay|
  {
    needle <= hay || (hay != [] && Includes(hay[1..], needle))
  }

  /** `needle` occurs in `hay` starting at position `i`. */
  predicate OccursAt(hay: string, needle: string, i: int)
  {
    0 <= i && i + |needle| <= |hay| && hay[i..i + |needle|] == needle
  }

  /** `includes` holds exactly when the needle occurs at some position of the haystack. */
  lemma {:induction false} IncludesIffOccurs(hay: string, needle: string)
    ensures Includes(hay, needle) <==> exists i :: OccursAt(hay, needle, i)
    decreases |hay|
  {
    if needle <= hay {
      assert OccursAt(hay, needle, 0);
    } else if hay == [] {
    } else {
      IncludesIffOccurs(hay[1..], needle);
      if exists i :: OccursAt(hay[1..], needle, i) {
        var i :| OccursAt(hay[1..], needle, i);
        assert hay[i + 1..i + 1 + |needle|] == hay[1..][i..i + |needle|];
        assert OccursAt(hay, needle, i + 1);
      }
      if exists i :: OccursAt(hay, needle, i) {
        var i :| OccursAt(hay, needle, i);
        assert i != 0;
        assert hay[1..][i - 1..i - 1 + |needle|] == hay[i..i + |needle|];
        assert OccursAt(hay[1..], needle, i - 1);
      }
    }
  }

  /** `matchMarkets(polymarketQuestion, kalshiQuestion)`: one normalised question contains the
      other. Questions with the same normal form match, and a question whose normal form is
      empty (only punctuation and whitespace) matches every question. */
  function MatchMarkets(polymarketQuestion: string, kalshiQuestion: string): (matched: bool)
    ensures NormalizeQuestion(polymarketQuestion) == NormalizeQuestion(kalshiQuestion) ==> matched
    ensures NormalizeQuestion(polymarketQuestion) == [] || NormalizeQuestion(kalshiQuestion) == [] ==> matched
    ensures matched <==>
      || (exists i :: OccursAt(NormalizeQuestion(polymarketQuestion), NormalizeQuestion(kalshiQuestion), i))
      || (exists i :: OccursAt(NormalizeQuestion(kalshiQuestion), NormalizeQuestion(polymarketQuestion), i))
  {
    var poly := NormalizeQuestion(polymarketQuestion);
    var kalshi := NormalizeQuestion(kalshiQuestion);
    IncludesIffOccurs(poly, kalshi);
    IncludesIffOccurs(kalshi, poly);
    Includes(poly, kalshi) || Includes(kalshi, poly)
  }

  /** A question matches itself. */
  lemma MatchMarketsReflexive(question: string)
    ensures MatchMarkets(question, question)
  {
  }

  /** The matcher does not care which venue's question comes first. */
  lemma MatchMarketsSymmetric(q1: string, q2: string)
    ensures MatchMarkets(q1, q2) == MatchMarkets(q2, q1)
  {
  }

  /** Lower-casing either question does not change the verdict. */
  lemma MatchMarketsIgnoresCase(q1: string, q2: string)
    ensures MatchMarkets(Lower(q1), Lower(q2)) == MatchMarkets(q1, q2)
  {
    LowerIdempotent(q1);
    LowerIdempotent(q2);
  }

  lemma StripIgnoresPunctuation(a: string, c: char, b: string)
    requires IsPunctuation(c)
    ensures StripPunctuation(Lower(a + [c] + b)) == StripPunctuation(Lower(a + b))
  {
    var sa, sb := StripPunctuation(Lower(a)), StripPunctuation(Lower(b));
    assert StripPunctuation(Lower([c])) == [] by {
      assert Lower([c]) == [c];
      assert [c][1..] == [];
    }
    calc {
      StripPunctuation(Lower(a + [c] + b));
      { StrippedLowerAppend(a + [c], b); }
      StripPunctuation(Lower(a + [c])) + sb;
      { StrippedLowerAppend(a, [c]); }
      sa + StripPunctuation(Lower([c])) + sb;
      sa + sb;
      { StrippedLowerAppend(a, b); }
      StripPunctuation(Lower(a + b));
    }
  }

  /** Removing one punctuation character anywhere in a question leaves its normal form alone. */
  lemma NormalizeIgnoresPunctuation(a: string, c: char, b: string)
    requires IsPunctuation(c)
    ensures NormalizeQuestion(a + [c] + b) == NormalizeQuestion(a + b)
  {
    StripIgnoresPunctuation(a, c, b);
  }

  /** Hence punctuation in a question never changes whether it matches another. */
  lemma MatchMarketsIgnoresPunctuation(a: string, c: char, b: string, other: string)
    requires IsPunctuation(c)
    ensures MatchMarkets(a + [c] + b, other) == MatchMarkets(a + b, other)
  {
    NormalizeIgnoresPunctuation(a, c, b);
  }
}
