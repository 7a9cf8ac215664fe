/**
 * The remote classifier adapter (`AIContentDetector.analyseWithAPI` and
 * `parseAPIResponse`): the text it sends, how it treats the reply, and the
 * result it builds from the provider's score.
 */
module RemoteApi {
  import opened Wrappers
  import opened JsText
  import opened Results

  /** The longest text sent to the provider, in characters. */
  const MaxLength: nat := 2000

  /** The text sent to the provider: its first 2000 characters when it is longer. */
  function Truncate(text: string): (r: string)
    ensures |r| <= MaxLength
    ensures r <= text
    ensures |text| <= MaxLength ==> r == text
    ensures |text| > MaxLength ==> |r| == MaxLength
  {
    if |text| > MaxLength then text[..MaxLength] else text
  }

  /**
   * The body `response.json()` resolves to: a JSON object whose `score` is a
   * number, or `None` when it is missing or falsy; or `Unreadable` when the body
   * is not JSON or its `score` cannot be read at all (a `null` body).
   */
  datatype Body = Json(score: Option<real>) | Unreadable

  /** What `fetch` settles to: a response with its status code and body, or a rejection. */
  datatype Reply = Response(status: int, body: Body) | Rejected

  /** Why the API path threw. */
  datatype ApiError = HttpError(status: int) | NetworkError | UnreadableBody

  /** `response.ok`: a status in the range 200-299. */
  predicate IsOk(status: int) {
    200 <= status <= 299
  }

  /**
   * `parseAPIResponse(apiData, originalText)`: the likelihood is the score as a
   * rounded percentage, a missing or falsy score counting as 0, and the word
   * count is that of the original text split on whitespace, without filtering.
   */
  function ParseApiResponse(score: Option<real>, originalText: string): (r: Analysis)
    ensures r.source == None && r.details.ApiBreakdown?
    ensures r.details.score == score.GetOr(0.0)
    ensures r.likelihood as real - 0.5 <= 100.0 * r.details.score < r.likelihood as real + 0.5
    ensures r.details.wordCount == |Split(originalText, IsSpace)| >= 1
  {
    var s := score.GetOr(0.0);
    Analysis(Round(s * 100.0), ApiBreakdown(s, |Split(originalText, IsSpace)|), None)
  }

  /**
   * `analyseWithAPI(text)` with the network call `fetch` as a parameter: the
   * request carries the truncated text, a rejected fetch, a non-2xx status or an
   * unreadable body is an error, and the result is parsed against the original text.
   */
  function AnalyseWithApi(text: string, fetch: string -> Reply): (r: Result<Analysis, ApiError>)
    ensures r.Success? <==>
      (fetch(Truncate(text)).Response? && IsOk(fetch(Truncate(text)).status)
       && fetch(Truncate(text)).body.Json?)
    ensures r.Success? ==> r.value == ParseApiResponse(fetch(Truncate(text)).body.score, text)
  {
    match fetch(Truncate(text))
    case Rejected => Failure(NetworkError)
    case Response(status, body) =>
      if !IsOk(status) then Failure(HttpError(status))
      else if body.Unreadable? then Failure(UnreadableBody)
      else Success(ParseApiResponse(body.score, text))
  }

  /** A missing or falsy score reads as a confident 0 with a recorded score of 0. */
  lemma MissingScoreReadsAsZero(originalText: string)
    ensures ParseApiResponse(None, originalText).likelihood == 0
    ensures ParseApiResponse(None, originalText).details.score == 0.0
  {
  }

  /** A score in [0, 1] gives a likelihood in [0, 100], and a higher score never a lower one. */
  lemma ScoreToLikelihood(s1: real, s2: real, originalText: string)
    requires 0.0 <= s1 <= s2 <= 1.0
    ensures 0 <= ParseApiResponse(Some(s1), originalText).likelihood
    ensures ParseApiResponse(Some(s1), originalText).likelihood
      <= ParseApiResponse(Some(s2), originalText).likelihood <= 100
  {
  }
}
