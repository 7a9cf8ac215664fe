/**
 * The detection orchestrator (`AIContentDetector.analyseContent`): refuse short
 * text, try the API, and on any failure fall back to the heuristic detector
 * with the result tagged `heuristic_fallback`.
 */
module Orchestrator {
  import opened Wrappers
  import opened JsText
  import opened Results
  import opened RemoteApi
  import Heuristic

  /**
   * `analyseContent()` on the extracted `text`, with the network call `fetch` as
   * a parameter. `request` is the text handed to `fetch`, `None` when the API was
   * not called. No failure of the API path escapes: it is caught here, and the
   * heuristic detector runs on `fallbackText`, what its own extraction of the
   * page gives once the request has failed (the page may have changed while the
   * request was pending).
   */
  method AnalyseContent(text: string, fallbackText: string, fetch: string -> Reply)
    returns (r: Analysis, request: Option<string>)
    ensures request.Some? <==> |text| >= MinLength
    ensures request.Some? ==> request.value == Truncate(text)
    ensures |text| < MinLength ==> r == TooShort
    ensures |text| >= MinLength && AnalyseWithApi(text, fetch).Success? ==>
      r == AnalyseWithApi(text, fetch).value
    ensures |text| >= MinLength && AnalyseWithApi(text, fetch).Failure? ==>
      r == Heuristic.HeuristicResult(fallbackText).(source := Some(HeuristicFallback))
    ensures r.source == Some(Local) <==> |text| < MinLength
    ensures r.source == Some(HeuristicFallback) <==>
      (|text| >= MinLength && AnalyseWithApi(text, fetch).Failure?)
    ensures r.details.ApiBreakdown? <==> (|text| >= MinLength && AnalyseWithApi(text, fetch).Success?)
  {
    if |text| < MinLength {
      return TooShort, None;
    }
    request := Some(Truncate(text));
    var api := AnalyseWithApi(text, fetch);
    match api
    case Success(result) =>
      r := result;
    case Failure(_) =>
      var fallback := Heuristic.AnalyseContent(fallbackText);
      fallback := fallback.(source := Some(HeuristicFallback));
      r := fallback;
  }

  /**
   * When the page still holds 100 characters or more at the second extraction,
   * a fallback result carries the heuristic breakdown of that text, never the
   * short-text message, and the likelihood the heuristic detector gives that
   * text on its own.
   */
  lemma FallbackIsFullHeuristic(fallbackText: string)
    requires |fallbackText| >= MinLength
    ensures var r := Heuristic.HeuristicResult(fallbackText).(source := Some(HeuristicFallback));
      && r.details.HeuristicBreakdown?
      && r.details.wordCount == |Heuristic.Words(fallbackText)|
      && r.likelihood == Heuristic.Likelihood(Heuristic.AiScore(fallbackText), Heuristic.HumanScore(fallbackText))
      && 0 <= r.likelihood <= Heuristic.Cap
  {
  }

  /**
   * When the page has shrunk below 100 characters by the second extraction, the
   * fallback result is the short-text message with likelihood 0, tagged
   * `heuristic_fallback` rather than `local`.
   */
  lemma FallbackOnShrunkPage(fallbackText: string)
    requires |fallbackText| < MinLength
    ensures var r := Heuristic.HeuristicResult(fallbackText).(source := Some(HeuristicFallback));
      && r.likelihood == 0 && r.details == TooShort.details && r.source == Some(HeuristicFallback)
  {
  }

  /**
   * For extracted text, which is trimmed, the API result's word count (an
   * unfiltered split) equals the heuristic's (empty tokens filtered out).
   */
  lemma WordCountsAgreeOnTrimmedText(text: string, score: Option<real>)
    requires |text| >= MinLength && !IsSpace(text[0]) && !IsSpace(text[|text| - 1])
    ensures ParseApiResponse(score, text).details.wordCount
      == Heuristic.HeuristicResult(text).details.wordCount
  {
    SplitOfTrimmedHasNoEmptyPiece(text, IsSpace);
  }

  /**
   * A text with leading whitespace gets one more word from the API adapter
   * than from the heuristic detector: the empty piece before the first run.
   * The extracted text is trimmed, so this does not arise from the page itself;
   * it shows why the two word counts agree only on trimmed text.
   */
  lemma LeadingSpaceAddsApiWord(text: string, score: Option<real>)
    requires |text| >= MinLength && IsSpace(text[0]) && !IsSpace(text[|text| - 1])
    ensures ParseApiResponse(score, text).details.wordCount
      == Heuristic.HeuristicResult(text).details.wordCount + 1
  {
    var pieces := Split(text, IsSpace);
    SplitShape(text, IsSpace);
    assert pieces[0] == [];
    assert pieces == [pieces[0]] + pieces[1..];
    assert forall i :: 0 <= i < |pieces[1..]| ==> pieces[1..][i] != [] by {
      forall i | 0 <= i < |pieces[1..]| ensures pieces[1..][i] != [] {
        assert pieces[1..][i] == pieces[i + 1];
      }
    }
    NonEmptyKeepsAll(pieces[1..]);
    assert NonEmpty(pieces) == NonEmpty(pieces[1..]);
  }
}
