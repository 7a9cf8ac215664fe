/**
 * The on-page widget's analysis logic (`AIDetectorUI.analyzeContent` and the
 * status part of `displayResults`): a re-entry guard around one analysis and
 * the status band shown for its likelihood.
 */
module Widget {
  import opened Wrappers
  import opened Results
  import opened RemoteApi
  import Orchestrator
  import Heuristic

  /** The status classes `displayResults` chooses from. */
  datatype Status = Human | Mixed | Ai

  /** The status band of a likelihood: below 30 human, below 70 mixed, otherwise AI. */
  function StatusFor(likelihood: int): (s: Status)
    ensures s == Human <==> likelihood < 30
    ensures s == Mixed <==> 30 <= likelihood < 70
    ensures s == Ai <==> 70 <= likelihood
  {
    if likelihood < 30 then Human
    else if likelihood < 70 then Mixed
    else Ai
  }

  /** The status text shown with each band. */
  function StatusMessage(s: Status): string {
    match s
    case Human => "Likely human-written"
    case Mixed => "Mixed or uncertain"
    case Ai => "Likely AI-generated"
  }

  /** The rank of a band, from most human to most AI. */
  function Rank(s: Status): nat {
    match s
    case Human => 0
    case Mixed => 1
    case Ai => 2
  }

  /** A higher likelihood never shows a more human status. */
  lemma StatusMonotone(l1: int, l2: int)
    requires l1 <= l2
    ensures Rank(StatusFor(l1)) <= Rank(StatusFor(l2))
  {
  }

  /** The class of the status indicator: bare, analysing, or showing a band. */
  datatype Indicator = Plain | Analyzing | Showing(status: Status)

  const IdleText: string := "Click analyze to check content"
  const BusyText: string := "Analyzing content..."
  const FailedText: string := "Analysis failed. Please try again."
  const IdleLabel: string := "Analyze Page"
  const BusyLabel: string := "Analyzing..."

  /** The widget's analysis state and the parts of the page it writes. */
  class DetectorWidget {
    var analysisInProgress: bool
    var lastAnalysis: Option<Analysis>
    var indicator: Indicator
    var statusText: string
    var buttonEnabled: bool
    var buttonLabel: string
    var resultsVisible: bool
    var shownLikelihood: int

    /** The state right after `createUI`: idle, nothing analysed, results hidden. */
    constructor ()
      ensures !analysisInProgress && lastAnalysis == None
      ensures indicator == Plain && statusText == IdleText
      ensures buttonEnabled && buttonLabel == IdleLabel
      ensures !resultsVisible && shownLikelihood == 0
    {
      analysisInProgress := false;
      lastAnalysis := None;
      indicator := Plain;
      statusText := IdleText;
      buttonEnabled := true;
      buttonLabel := IdleLabel;
      resultsVisible := false;
      shownLikelihood := 0;
    }

    /**
     * The synchronous start of `analyzeContent`, up to the `await`: a call while
     * an analysis is in progress changes nothing; otherwise the widget turns busy.
     */
    method Begin() returns (started: bool)
      modifies this
      ensures started == !old(analysisInProgress)
      ensures !started ==> unchanged(this)
      ensures started ==>
        && analysisInProgress && indicator == Analyzing && statusText == BusyText
        && !buttonEnabled && buttonLabel == BusyLabel && !resultsVisible
      ensures lastAnalysis == old(lastAnalysis) && shownLikelihood == old(shownLikelihood)
    {
      if analysisInProgress {
        return false;
      }
      analysisInProgress := true;
      buttonEnabled := false;
      buttonLabel := BusyLabel;
      indicator := Analyzing;
      statusText := BusyText;
      resultsVisible := false;
      started := true;
    }

    /** `displayResults(result)`: the status band and text, the likelihood bar, and the results shown. */
    method DisplayResults(result: Analysis)
      modifies this`indicator, this`statusText, this`shownLikelihood, this`resultsVisible
      ensures indicator == Showing(StatusFor(result.likelihood))
      ensures statusText == StatusMessage(StatusFor(result.likelihood))
      ensures shownLikelihood == result.likelihood && resultsVisible
    {
      var status := StatusFor(result.likelihood);
      indicator := Showing(status);
      statusText := StatusMessage(status);
      shownLikelihood := result.likelihood;
      resultsVisible := true;
    }

    /**
     * The part of `analyzeContent` after the `await`: on success the result is
     * displayed and remembered, on failure the error status is shown and the last
     * analysis kept; either way the guard is released and the button restored.
     */
    method Finish(outcome: Result<Analysis, string>)
      requires analysisInProgress
      modifies this
      ensures !analysisInProgress && buttonEnabled && buttonLabel == IdleLabel
      ensures outcome.Success? ==>
        && lastAnalysis == Some(outcome.value)
        && indicator == Showing(StatusFor(outcome.value.likelihood))
        && statusText == StatusMessage(StatusFor(outcome.value.likelihood))
        && shownLikelihood == outcome.value.likelihood && resultsVisible
      ensures outcome.Failure? ==>
        && lastAnalysis == old(lastAnalysis)
        && indicator == Plain && statusText == FailedText
        && shownLikelihood == old(shownLikelihood) && resultsVisible == old(resultsVisible)
    {
      match outcome {
        case Success(result) =>
          DisplayResults(result);
          lastAnalysis := Some(result);
        case Failure(_) =>
          statusText := FailedText;
          indicator := Plain;
      }
      analysisInProgress := false;
      buttonEnabled := true;
      buttonLabel := IdleLabel;
    }

    /**
     * `analyzeContent()` run to completion on the extracted `text`: ignored while
     * another analysis is in progress, otherwise the detector's result is shown
     * and remembered and the widget is idle again. `fallbackText` is the
     * detector's second extraction, used when the API path fails.
     */
    method AnalyzeContent(text: string, fallbackText: string, fetch: string -> Reply)
      returns (result: Option<Analysis>)
      modifies this
      ensures old(analysisInProgress) ==> result == None && unchanged(this)
      ensures !old(analysisInProgress) ==>
        && result.Some? && lastAnalysis == result
        && !analysisInProgress && buttonEnabled && buttonLabel == IdleLabel
        && indicator == Showing(StatusFor(result.value.likelihood))
        && statusText == StatusMessage(StatusFor(result.value.likelihood))
        && shownLikelihood == result.value.likelihood && resultsVisible
      ensures !old(analysisInProgress) && |text| < MinLength ==>
        result == Some(TooShort) && indicator == Showing(Human)
      ensures !old(analysisInProgress) && |text| >= MinLength && AnalyseWithApi(text, fetch).Success? ==>
        result == Some(AnalyseWithApi(text, fetch).value)
      ensures !old(analysisInProgress) && |text| >= MinLength && AnalyseWithApi(text, fetch).Failure? ==>
        result == Some(Heuristic.HeuristicResult(fallbackText).(source := Some(HeuristicFallback)))
    {
      var started := Begin();
      if !started {
        return None;
      }
      var r, _ := Orchestrator.AnalyseContent(text, fallbackText, fetch);
      Finish(Success(r));
      result := Some(r);
    }
  }
}
