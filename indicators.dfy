/**
 * The two indicator lists of the heuristic detector and how many times each
 * of their patterns matches a text, as `text.match(pattern).length` does for
 * a global regular expression.
 */
module Indicators {
  import opened JsText

  /**
   * The three shapes of regular expression the lists use, all case-insensitive
   * except `Repeats`:
   * - `Phrases(alts)`   is `\b(alt1|alt2|...)\b` with flags `gi`;
   * - `LineStart(alts)` is `^(alt1|alt2|...)` with flags `gmi`;
   * - `Repeats(marks)`  is `[m1]{2,}|[m2]{2,}|...` with flag `g`.
   */
  datatype Pattern =
    | Phrases(alternatives: seq<string>)
    | LineStart(alternatives: seq<string>)
    | Repeats(marks: seq<char>)

  /** The AI-indicator list, in the order of the source. */
  const AiIndicators: seq<Pattern> := [
    Phrases(["furthermore", "moreover", "additionally", "consequently", "therefore", "thus", "hence"]),
    Phrases(["in conclusion", "to summarize", "in summary", "overall", "ultimately"]),
    Phrases(["it is important to note", "it should be noted", "it is worth mentioning"]),
    Phrases(["utilize", "facilitate", "implement", "demonstrate", "establish", "maintain"]),
    Phrases(["comprehensive", "extensive", "significant", "substantial", "considerable"]),
    Phrases(["various", "numerous", "multiple", "several", "different", "diverse"]),
    Phrases(["aspect", "factor", "element", "component", "feature", "characteristic"]),
    LineStart(["As an AI", "I'm an AI", "As a language model", "I don't have personal"]),
    LineStart(["It's worth noting", "It's important to", "One should consider"])
  ]

  /** The human-indicator list, in the order of the source. */
  const HumanIndicators: seq<Pattern> := [
    Phrases(["I remember", "when I was", "my experience", "personally", "in my opinion"]),
    Phrases(["I felt", "I thought", "I believe", "I think", "from my perspective"]),
    Phrases(["gonna", "wanna", "kinda", "sorta", "yeah", "nah", "ok", "okay"]),
    Phrases(["awesome", "cool", "weird", "crazy", "amazing", "terrible"]),
    Phrases(["don't", "won't", "can't", "shouldn't", "wouldn't", "couldn't", "isn't", "aren't"]),
    Repeats(['!', '?']),
    Phrases(["lol", "haha", "omg", "wtf", "tbh", "imo", "btw"])
  ]

  /** `\b` at position `i`: exactly one of the characters around `i` is a word character. */
  predicate WordBoundary(text: string, i: nat)
    requires i <= |text|
  {
    (i > 0 && IsWordChar(text[i - 1])) != (i < |text| && IsWordChar(text[i]))
  }

  /** `^` under the `m` flag at position `i`: the start of the text or of a line. */
  predicate LineStartAt(text: string, i: nat)
    requires i <= |text|
  {
    i == 0 || IsLineTerminator(text[i - 1])
  }

  /** `alt` occurs at position `i` of `text`, ignoring ASCII case. */
  predicate OccursAt(text: string, i: nat, alt: string) {
    i + |alt| <= |text| && Fold(text[i..i + |alt|]) == Fold(alt)
  }

  /** Some alternative of a `Phrases` pattern matches at `i`, bounded by `\b` on both sides. */
  predicate PhraseAt(text: string, i: nat, alts: seq<string>) {
    exists k :: 0 <= k < |alts| && OccursAt(text, i, alts[k])
      && WordBoundary(text, i) && WordBoundary(text, i + |alts[k]|)
  }

  /** Some alternative of a `LineStart` pattern matches at `i`, which starts a line. */
  predicate LineAlternativeAt(text: string, i: nat, alts: seq<string>) {
    i <= |text| && LineStartAt(text, i) && exists k :: 0 <= k < |alts| && OccursAt(text, i, alts[k])
  }

  /**
   * A greedy `[m]{2,}` match starts at `i`: two marks in a row that are not
   * preceded by the same mark (a longer run is consumed by one match).
   */
  predicate RunAt(text: string, i: nat, marks: seq<char>) {
    exists k :: 0 <= k < |marks| && i + 1 < |text| && text[i] == marks[k] && text[i + 1] == marks[k]
      && (i == 0 || text[i - 1] != marks[k])
  }

  /** A match of the pattern starts at position `i`. */
  predicate MatchAt(p: Pattern, text: string, i: nat) {
    match p
    case Phrases(alts) => PhraseAt(text, i, alts)
    case LineStart(alts) => LineAlternativeAt(text, i, alts)
    case Repeats(marks) => RunAt(text, i, marks)
  }

  /** The positions at or after `from` where a match of the pattern starts. */
  function MatchPositions(p: Pattern, text: string, from: nat): set<nat> {
    set i: nat | from <= i < |text| && MatchAt(p, text, i)
  }

  /** The number of positions at or after `from` where a match starts. */
  function MatchesFrom(p: Pattern, text: string, from: nat): (n: nat)
    ensures from <= |text| ==> n <= |text| - from
    ensures n == |MatchPositions(p, text, from)|
    decreases |text| - from
  {
    if from >= |text| then
      assert MatchPositions(p, text, from) == {};
      0
    else
      PositionsStep(p, text, from);
      (if MatchAt(p, text, from) then 1 else 0) + MatchesFrom(p, text, from + 1)
  }

  /** The matching positions from `from` are `from` itself, if it matches, and those after it. */
  lemma PositionsStep(p: Pattern, text: string, from: nat)
    requires from < |text|
    ensures MatchPositions(p, text, from)
      == (if MatchAt(p, text, from) then {from} else {}) + MatchPositions(p, text, from + 1)
    ensures from !in MatchPositions(p, text, from + 1)
  {
  }

  /** How many matches a global search for the pattern finds in the text: one per position where a match starts. */
  function MatchCount(p: Pattern, text: string): (n: nat)
    ensures n <= |text|
    ensures n == |set i: nat | i < |text| && MatchAt(p, text, i)|
  {
    assert MatchPositions(p, text, 0) == set i: nat | i < |text| && MatchAt(p, text, i);
    MatchesFrom(p, text, 0)
  }

  /** The sum of the match counts of a list of patterns, as the `forEach` loops accumulate it. */
  function TotalMatches(ps: seq<Pattern>, text: string): nat {
    if ps == [] then 0 else TotalMatches(ps[..|ps| - 1], text) + MatchCount(ps[|ps| - 1], text)
  }

  /** One `forEach` over a list of patterns, adding each pattern's match count. */
  method ScorePatterns(ps: seq<Pattern>, text: string) returns (score: nat)
    ensures score == TotalMatches(ps, text)
  {
    score := 0;
    for k := 0 to |ps|
      invariant score == TotalMatches(ps[..k], text)
    {
      assert ps[..k + 1][..k] == ps[..k];
      score := score + MatchCount(ps[k], text);
    }
    assert ps[..|ps|] == ps;
  }

  /** A text with a match of some pattern of a list scores at least one for that list. */
  lemma {:induction false} MatchMakesTotalPositive(ps: seq<Pattern>, text: string, k: nat, i: nat)
    requires k < |ps| && i < |text| && MatchAt(ps[k], text, i)
    ensures TotalMatches(ps, text) >= 1
  {
    MatchesFromCountsPosition(ps[k], text, 0, i);
    TotalAtLeastEach(ps, text, k);
  }

  /** Each position with a match at or after `from` is counted. */
  lemma {:induction false} MatchesFromCountsPosition(p: Pattern, text: string, from: nat, i: nat)
    requires from <= i < |text| && MatchAt(p, text, i)
    ensures MatchesFrom(p, text, from) >= 1
    decreases i - from
  {
    if from < i {
      MatchesFromCountsPosition(p, text, from + 1, i);
    }
  }

  /** The total of a list is at least the count of each of its patterns. */
  lemma {:induction false} TotalAtLeastEach(ps: seq<Pattern>, text: string, k: nat)
    requires k < |ps|
    ensures TotalMatches(ps, text) >= MatchCount(ps[k], text)
  {
    if k < |ps| - 1 {
      TotalAtLeastEach(ps[..|ps| - 1], text, k);
    }
  }

  /**
   * Matching ignores case and needs a word boundary on both sides: a text that
   * opens with "Furthermore," scores an AI indicator.
   */
  lemma OpeningConnectiveIsAiIndicator(text: string)
    requires |text| >= 12 && text[..12] == "Furthermore,"
    ensures TotalMatches(AiIndicators, text) >= 1
  {
    OpeningConnectiveMatches(text, AiIndicators[0]);
    MatchMakesTotalPositive(AiIndicators, text, 0, 0);
  }

  /** The first AI pattern matches at the start of a text opening with "Furthermore,". */
  lemma OpeningConnectiveMatches(text: string, p: Pattern)
    requires |text| >= 12 && text[..12] == "Furthermore,"
    requires p.Phrases? && p.alternatives != [] && p.alternatives[0] == "furthermore"
    ensures MatchAt(p, text, 0)
  {
    var alt := p.alternatives[0];
    assert text[0..11] == "Furthermore";
    FoldCapitalised();
    assert OccursAt(text, 0, alt);
    assert text[11] == ',' && text[10] == 'e';
    assert WordBoundary(text, 0) && WordBoundary(text, 11);
  }

  /** Folding the capitalised connective gives the pattern's spelling. */
  lemma FoldCapitalised()
    ensures Fold("Furthermore") == Fold("furthermore") == "furthermore"
  {
    var s, t := "Furthermore", "furthermore";
    forall i | 0 <= i < 11 ensures Fold(s)[i] == t[i] && Fold(t)[i] == t[i] {
      assert FoldChar('F') == 'f';
    }
  }

  /** Two marks of a `Repeats` pattern in a row start a run that the pattern matches. */
  lemma RepeatedMarkMatches(p: Pattern, text: string, i: nat, k: nat) returns (j: nat)
    requires p.Repeats? && k < |p.marks|
    requires i + 1 < |text| && text[i] == p.marks[k] && text[i + 1] == p.marks[k]
    ensures j <= i && MatchAt(p, text, j)
  {
    var c := p.marks[k];
    j := i;
    while j > 0 && text[j - 1] == c
      invariant 0 <= j <= i && forall m :: j <= m <= i + 1 ==> text[m] == c
    {
      j := j - 1;
    }
    assert RunAt(text, j, p.marks);
  }

  /** Two exclamation marks in a row count as a human indicator. */
  lemma DoubleExclamationIsHumanIndicator(text: string, i: nat)
    requires i + 1 < |text| && text[i] == '!' && text[i + 1] == '!'
    ensures TotalMatches(HumanIndicators, text) >= 1
  {
    var p := HumanIndicators[5];
    assert p == Repeats(['!', '?']);
    assert p.marks[0] == '!';
    var j := RepeatedMarkMatches(p, text, i, 0);
    MatchMakesTotalPositive(HumanIndicators, text, 5, j);
  }
}
