/**
 * The local heuristic detector (`HeuristicDetector.analyseContent`): indicator
 * counts, the sentence-length and vocabulary-diversity bonuses, and the capped
 * likelihood they give.
 */
module Heuristic {
  import opened Wrappers
  import opened JsText
  import opened Indicators
  import opened Results

  /** The highest likelihood the heuristic ever reports. */
  const Cap: nat := 95

  /** The words of a text: the pieces between runs of `\s`, empty pieces dropped. */
  function Words(text: string): (r: seq<string>)
    ensures forall i :: 0 <= i < |r| ==> r[i] != []
  {
    NonEmpty(Split(text, IsSpace))
  }

  /** The sentences of a text: the pieces between runs of `.`, `!` and `?` that are longer than 10 characters once trimmed. */
  function Sentences(text: string): (r: seq<string>)
    ensures forall i :: 0 <= i < |r| ==> |Trim(r[i])| > 10
  {
    LongerThan(Split(text, IsSentenceEnd), 10)
  }

  /** The number of distinct words once lower-cased. */
  function UniqueWordCount(words: seq<string>): (n: nat)
    ensures words != [] ==> n >= 1
  {
    var folded := set w | w in words :: Fold(w);
    assert words != [] ==> Fold(words[0]) in folded;
    |folded|
  }

  /** Comparing a quotient of counts with a bound, without division. */
  lemma QuotientComparisons(n: nat, d: nat, k: real)
    ensures d > 0 ==> (k < n as real / d as real <==> k * d as real < n as real)
    ensures d > 0 ==> (n as real / d as real < k <==> n as real < k * d as real)
  {
    if d == 0 {
      return;
    }
    var x := n as real / d as real;
    assert x * d as real == n as real;
    if k < x {
      assert k * d as real < x * d as real;
    } else {
      assert x * d as real <= k * d as real;
    }
    if x < k {
      assert x * d as real < k * d as real;
    } else {
      assert k * d as real <= x * d as real;
    }
  }

  /**
   * The +2 for an average sentence length strictly between 20 and 25 words;
   * with no sentences the average is not a finite number and there is no bonus.
   */
  function LengthBonus(wordCount: nat, sentenceCount: nat): (b: nat)
    ensures b == 0 || b == 2
    ensures b == 2 <==>
      (sentenceCount > 0 && 20.0 < wordCount as real / sentenceCount as real < 25.0)
  {
    QuotientComparisons(wordCount, sentenceCount, 20.0);
    QuotientComparisons(wordCount, sentenceCount, 25.0);
    if 20 * sentenceCount < wordCount < 25 * sentenceCount then 2 else 0
  }

  /**
   * The +1 for a vocabulary ratio (distinct lower-cased words over words)
   * below 0.4; with no words the ratio is not a number and there is no bonus.
   */
  function DiversityBonus(uniqueCount: nat, wordCount: nat): (b: nat)
    ensures b == 0 || b == 1
    ensures b == 1 <==> wordCount > 0 && uniqueCount as real / wordCount as real < 0.4
  {
    QuotientComparisons(uniqueCount, wordCount, 0.4);
    if 5 * uniqueCount < 2 * wordCount then 1 else 0
  }

  /**
   * The AI share of all indicators as a rounded percentage, at most 95;
   * 0 when nothing matched.
   */
  function Likelihood(ai: nat, human: nat): (r: nat)
    ensures r <= Cap
    ensures ai + human == 0 ==> r == 0
    ensures ai + human > 0 ==> r == Min(Round(100.0 * ai as real / (ai + human) as real), Cap)
  {
    var total := ai + human;
    if total > 0 then
      HalfUpDivision(100 * ai, total);
      Min((200 * ai + total) / (2 * total), Cap)
    else 0
  }

  function Min(a: int, b: int): int {
    if a < b then a else b
  }

  /** The AI score: indicator matches plus the two bonuses. */
  function AiScore(text: string): (score: nat)
    ensures TotalMatches(AiIndicators, text) <= score <= TotalMatches(AiIndicators, text) + 3
  {
    var words := Words(text);
    TotalMatches(AiIndicators, text)
      + LengthBonus(|words|, |Sentences(text)|)
      + DiversityBonus(UniqueWordCount(words), |words|)
  }

  /** The human score: indicator matches only. */
  function HumanScore(text: string): nat {
    TotalMatches(HumanIndicators, text)
  }

  /** What `HeuristicDetector.analyseContent` returns for a text. */
  function HeuristicResult(text: string): (r: Analysis)
    ensures 0 <= r.likelihood <= Cap
    ensures |text| < MinLength ==> r == TooShort
    ensures |text| >= MinLength ==>
      (&& r.source == None && r.details.HeuristicBreakdown?
       && r.details.wordCount == |Words(text)| && r.details.sentenceCount == |Sentences(text)|)
  {
    if |text| < MinLength then TooShort
    else
      var words := Words(text);
      var sentences := Sentences(text);
      var ai := AiScore(text);
      var human := HumanScore(text);
      Analysis(
        Likelihood(ai, human),
        HeuristicBreakdown(ai, human, |words|, |sentences|,
                           RoundedQuotient(|words|, |sentences|),
                           RoundedQuotient(100 * UniqueWordCount(words), |words|)),
        None)
  }

  /**
   * `HeuristicDetector.analyseContent` on the extracted text: the indicator
   * scores accumulated in loops, then the bonuses added one by one.
   */
  method AnalyseContent(text: string) returns (r: Analysis)
    ensures r == HeuristicResult(text)
  {
    if |text| < MinLength {
      return TooShort;
    }
    var aiScore := ScorePatterns(AiIndicators, text);
    var humanScore := ScorePatterns(HumanIndicators, text);
    var sentences := Sentences(text);
    var words := Words(text);
    if 20 * |sentences| < |words| < 25 * |sentences| {
      aiScore := aiScore + 2;
    }
    assert aiScore == TotalMatches(AiIndicators, text) + LengthBonus(|words|, |sentences|);
    var unique := UniqueWordCount(words);
    if 5 * unique < 2 * |words| {
      aiScore := aiScore + 1;
    }
    assert aiScore == AiScore(text);
    r := Analysis(
      Likelihood(aiScore, humanScore),
      HeuristicBreakdown(aiScore, humanScore, |words|, |sentences|,
                         RoundedQuotient(|words|, |sentences|),
                         RoundedQuotient(100 * unique, |words|)),
      None);
  }

  /** Multiplying by a non-negative number keeps the order. */
  lemma MultiplyMonotone(b: int, x: int, y: int)
    requires b >= 0
    ensures x <= y ==> b * x <= b * y
  {
    assert b * y - b * x == b * (y - x);
  }

  /** Integer division is the one quotient that brackets the dividend. */
  lemma QuotientIs(a: int, b: int, q: int)
    requires b > 0 && b * q <= a < b * q + b
    ensures a / b == q
  {
    var d := a / b;
    assert b * d <= a < b * d + b;
    assert b * (q + 1) == b * q + b;
    assert b * (d + 1) == b * d + b;
    MultiplyMonotone(b, q + 1, d);
    MultiplyMonotone(b, d + 1, q);
  }

  /** Integer division is monotone in the fraction it approximates. */
  lemma DivisionMonotone(x1: nat, y1: nat, x2: nat, y2: nat)
    requires y1 > 0 && y2 > 0 && x1 * y2 <= x2 * y1
    ensures x1 / y1 <= x2 / y2
  {
    var q1, q2 := x1 / y1, x2 / y2;
    assert y1 * q1 <= x1;
    assert x2 < y2 * q2 + y2;
    MultiplyMonotone(y2, y1 * q1, x1);
    assert y1 * (y2 * q1) <= y1 * x2 by {
      assert y2 * (y1 * q1) == y1 * (y2 * q1);
      assert y2 * x1 == x1 * y2;
      assert x2 * y1 == y1 * x2;
    }
    assert y1 * (x2 + 1) == y1 * x2 + y1;
    MultiplyMonotone(y1, x2 + 1, y2 * q1);
    assert y2 * q1 <= x2;
    assert y2 * (q2 + 1) == y2 * q2 + y2;
    MultiplyMonotone(y2, q2 + 1, q1);
  }

  /** More AI indicators with the same human indicators never lower the likelihood. */
  lemma LikelihoodMonotone(ai1: nat, ai2: nat, human: nat)
    requires ai1 <= ai2
    ensures Likelihood(ai1, human) <= Likelihood(ai2, human)
  {
    var t1, t2 := ai1 + human, ai2 + human;
    if t1 > 0 {
      var x1, y1 := 200 * ai1 + t1, 2 * t1;
      var x2, y2 := 200 * ai2 + t2, 2 * t2;
      CrossProductsOrdered(ai1, ai2, human);
      DivisionMonotone(x1, y1, x2, y2);
    }
  }

  /** The cross-multiplied comparison behind `LikelihoodMonotone`. */
  lemma CrossProductsOrdered(ai1: nat, ai2: nat, human: nat)
    requires ai1 <= ai2
    ensures (200 * ai1 + (ai1 + human)) * (2 * (ai2 + human))
         <= (200 * ai2 + (ai2 + human)) * (2 * (ai1 + human))
  {
    assert (201 * ai1 + human) * (ai2 + human)
      == 201 * ai1 * ai2 + 201 * ai1 * human + human * ai2 + human * human;
    assert (201 * ai2 + human) * (ai1 + human)
      == 201 * ai1 * ai2 + 201 * ai2 * human + human * ai1 + human * human;
    MultiplyMonotone(human, ai1, ai2);
    assert (200 * ai1 + (ai1 + human)) * (2 * (ai2 + human)) == 2 * ((201 * ai1 + human) * (ai2 + human));
    assert (200 * ai2 + (ai2 + human)) * (2 * (ai1 + human)) == 2 * ((201 * ai2 + human) * (ai1 + human));
  }

  /** Text with AI indicators and no human ones gets the cap; text with no AI indicators gets 0. */
  lemma LikelihoodExtremes(ai: nat, human: nat)
    ensures ai > 0 && human == 0 ==> Likelihood(ai, human) == Cap
    ensures ai == 0 ==> Likelihood(ai, human) == 0
  {
    if ai > 0 && human == 0 {
      QuotientIs(200 * ai + ai, 2 * ai, 100);
    }
    if ai == 0 && human > 0 {
      QuotientIs(human, 2 * human, 0);
    }
  }

  /**
   * The word list holds exactly the non-whitespace characters of the text, cut
   * into non-empty tokens none of which contains whitespace.
   */
  lemma WordsAreTokens(text: string)
    ensures forall i :: 0 <= i < |Words(text)| ==> Words(text)[i] != []
    ensures forall i, j :: 0 <= i < |Words(text)| && 0 <= j < |Words(text)[i]| ==>
      !IsSpace(Words(text)[i][j])
    ensures Concat(Words(text)) == Strip(text, IsSpace)
  {
    var pieces := Split(text, IsSpace);
    SplitPiecesHaveNoDelimiter(text, IsSpace);
    SplitJoinsToStrip(text, IsSpace);
    NonEmptyKeepsConcat(pieces);
    forall i, j | 0 <= i < |Words(text)| && 0 <= j < |Words(text)[i]|
      ensures !IsSpace(Words(text)[i][j])
    {
      var k :| 0 <= k < |pieces| && pieces[k] == Words(text)[i];
      assert Words(text)[i][j] == pieces[k][j];
    }
  }

  /**
   * Every sentence kept is a piece between runs of `.`, `!` and `?` holding no
   * such character, and is longer than 10 characters once trimmed.
   */
  lemma SentencesAreLongPieces(text: string)
    ensures forall i :: 0 <= i < |Sentences(text)| ==> |Trim(Sentences(text)[i])| > 10
    ensures forall i, j :: 0 <= i < |Sentences(text)| && 0 <= j < |Sentences(text)[i]| ==>
      !IsSentenceEnd(Sentences(text)[i][j])
  {
    var pieces := Split(text, IsSentenceEnd);
    SplitPiecesHaveNoDelimiter(text, IsSentenceEnd);
    forall i, j | 0 <= i < |Sentences(text)| && 0 <= j < |Sentences(text)[i]|
      ensures !IsSentenceEnd(Sentences(text)[i][j])
    {
      var k :| 0 <= k < |pieces| && pieces[k] == Sentences(text)[i];
      assert Sentences(text)[i][j] == pieces[k][j];
    }
  }

  /** There are never more distinct lower-cased words than words. */
  lemma {:induction false} UniqueAtMostWords(words: seq<string>)
    ensures UniqueWordCount(words) <= |words|
  {
    if words != [] {
      UniqueAtMostWords(words[1..]);
      var rest := set w | w in words[1..] :: Fold(w);
      assert (set w | w in words :: Fold(w)) == rest + {Fold(words[0])};
    }
  }

  /** A rounded percentage of a part of a whole lies between 0 and 100. */
  lemma RoundedPercentage(part: nat, whole: nat)
    requires 0 < whole && part <= whole
    ensures RoundedQuotient(100 * part, whole).Finite?
    ensures 0 <= RoundedQuotient(100 * part, whole).n <= 100
  {
    var w := whole;
    DivisionMonotone(2 * (100 * part) + w, 2 * w, 2 * (100 * w) + w, 2 * w);
    QuotientIs(2 * (100 * w) + w, 2 * w, 100);
  }

  /** The reported vocabulary ratio is a percentage whenever the text has words. */
  lemma VocabularyRatioIsPercentage(text: string)
    requires |text| >= MinLength && |Words(text)| > 0
    ensures HeuristicResult(text).details.vocabularyRatio.Finite?
    ensures 0 <= HeuristicResult(text).details.vocabularyRatio.n <= 100
  {
    var words := Words(text);
    var u := UniqueWordCount(words);
    assert HeuristicResult(text).details.vocabularyRatio == RoundedQuotient(100 * u, |words|);
    UniqueAtMostWords(words);
    RoundedPercentage(u, |words|);
  }
}
