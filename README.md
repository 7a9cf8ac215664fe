# AI content detector: scoring, fallback and banding

This project models the deterministic core of a browser extension that estimates
how likely the text of a web page is to be machine-generated, and proves
properties of that model in Dafny.

- **Heuristic detector** (`HeuristicDetector.analyseContent`, module `Heuristic`):
  it refuses text shorter than 100 characters with a fixed zero result tagged
  `local`. Otherwise it counts matches of an AI-indicator list and a
  human-indicator list of regular expressions (module `Indicators`). It adds 2
  to the AI score when the average sentence length is strictly between 20 and 25
  words, and 1 when fewer than 40% of the words are distinct. The likelihood is
  the rounded AI share of all indicators, capped at 95. Word and sentence
  splitting, `trim` and the `\s`/`\w` classes are in module `JsText`. The method
  accumulates the scores in loops, as the source does. It is proved equal to the
  specification function `HeuristicResult`, and the lemmas are stated about
  that function.
- **API adapter** (`analyseWithAPI`, `parseAPIResponse`, module `RemoteApi`): the
  text sent is cut to 2000 characters. The network call is a parameter `fetch`
  that yields a response (status, body) or a rejection. A non-2xx status, a
  rejection or an unreadable body is an error. A missing or falsy `score` reads
  as 0. The likelihood is `Math.round(score * 100)`, and the word count is taken
  from the untruncated text.
- **Orchestrator** (`AIContentDetector.analyseContent`, module `Orchestrator`):
  it applies the same short-text guard, then tries the API. On success it
  returns the API result unchanged. On any failure it runs the heuristic
  detector, which extracts the page text again, and returns its result with
  top-level `source` set to `heuristic_fallback`.
- **Widget** (`AIDetectorUI`, module `Widget`): a class with the
  `analysisInProgress` and `lastAnalysis` fields and the status area it writes.
  `analyzeContent` is split at its `await` into `Begin` and `Finish`, so that a
  call made while an analysis is pending can be stated. `AnalyzeContent` runs
  both. The status band is below 30 human, below 70 mixed, otherwise AI.
- **Popup** (`displayAnalysis`, module `Popup`): it has four likelihood bands
  (80/60/40). It uses the API layout exactly when `details.source` is `'api'`.
  Missing fields fall back to `'N/A'` or 0%. The stored record is looked up by
  the key `analysis_<tabId>` (module `Storage`).
- **Background worker** (`onMessage`, module `Background`): it has four badge
  bands with the popup's boundaries. Only `updateBadge` messages are acted on.
  Each one writes the sender tab's badge and its record under `analysis_<tabId>`,
  and changes nothing else.

Numbers are exact. Ratio tests are cross-multiplied: `20·s < w < 25·s` and
`5·unique < 2·words`. Half-up rounding of `n/d` is `(2n + d) / (2d)`. Each integer
form is proved equal to the real-number expression the source evaluates
(`Heuristic.LengthBonus`, `Heuristic.DiversityBonus`, `Heuristic.Likelihood`,
`Results.RoundedQuotient`). `Math.round` on a real is `Floor(x + 0.5)`.

A few facts about the code that the model follows:
- The heuristic's likelihood is capped at 95 (content.js:91).
- Only the short-text result and the fallback result carry a top-level
  `source` (`'local'`, `'heuristic_fallback'`). The API result and the
  heuristic result carry only `details.source`, `'api'` or `'heuristic'`
  (content.js:93-100, 201-209).
- A second `analyzeContent` call made while one is pending returns at once,
  because the widget's `analysisInProgress` flag is set (content.js:572).

## Model

| member | source | states |
|---|---|---|
| Heuristic.AnalyseContent | content.js:42-102 | the detector, summing indicators in loops and adding the bonuses step by step, returns exactly `HeuristicResult(text)`: the indicator sums, the bonuses and the capped likelihood |
| Heuristic.HeuristicResult | content.js:42-102 | likelihood always in [0, 95]; text under 100 characters gives likelihood 0, the "too short" message and source `local`; longer text gives a breakdown whose word and sentence counts are the lengths of the filtered word and sentence lists, with no top-level source |
| Heuristic.Words | content.js:71 | the words are the non-empty pieces between runs of `\s`; none is empty |
| Heuristic.Sentences | content.js:69 | the sentences are the pieces between runs of `.`, `!`, `?` longer than 10 characters once trimmed |
| Heuristic.UniqueWordCount | content.js:80 | the number of distinct lower-cased words; at least 1 when there are words |
| Heuristic.AiScore | content.js:49-84 | the AI score is the AI-indicator match total plus the bonuses, so between that total and that total plus 3 |
| Heuristic.HumanScore | content.js:50-66 | the human score is the human-indicator match total |
| Heuristic.LengthBonus | content.js:74-77 | the bonus is 2 exactly when there are sentences and words/sentences lies strictly between 20 and 25 (as reals), else 0; no bonus without sentences |
| Heuristic.DiversityBonus | content.js:79-84 | the bonus is 1 exactly when there are words and distinct/words < 0.4 (as reals), else 0 |
| Heuristic.Likelihood | content.js:86-91 | at most 95; 0 when no indicator matched; otherwise `min(Math.round(100·ai/(ai+human)), 95)` over the reals |
| Heuristic.LikelihoodMonotone | content.js:87-88 | a larger AI score with the same human score never gives a lower likelihood |
| Heuristic.LikelihoodExtremes | content.js:87-91 | only AI indicators gives the cap 95; no AI indicator gives 0 |
| Heuristic.WordsAreTokens | content.js:71 | every word is non-empty and free of `\s`, and the words joined are the text with its whitespace removed |
| Heuristic.SentencesAreLongPieces | content.js:69 | every kept sentence is longer than 10 characters once trimmed and holds no `.`, `!` or `?` |
| Heuristic.UniqueAtMostWords | content.js:80-81 | the number of distinct lower-cased words is at most the number of words |
| Heuristic.VocabularyRatioIsPercentage | content.js:98 | for a text with words, the reported vocabulary ratio is a finite percentage in [0, 100] |
| Heuristic.RoundedPercentage | content.js:98 | the rounded percentage of a part of a whole lies in [0, 100] |
| Heuristic.DivisionMonotone | content.js:88 | proof helper for `LikelihoodMonotone`: integer division follows the order of the fractions it rounds |
| Heuristic.QuotientIs | content.js:88 | proof helper for `LikelihoodExtremes` and `RoundedPercentage`: the quotient of integer division is the unique one bracketing the dividend |
| Heuristic.QuotientComparisons | content.js:75 | proof helper for the bonus tests (`LengthBonus`, `DiversityBonus`): comparing a quotient of counts with a bound equals comparing the cross-multiplied counts |
| Results.Round | content.js:200 | `Math.round(x)` lies within half of x, halves going up |
| Results.HalfUpDivision | content.js:88 | `(2n + d) / (2d)` is `Math.round(n / d)` for d > 0 |
| Results.RoundedQuotient | content.js:97-98 | `Math.round(n / d)`: the rounded real quotient when d > 0, `Infinity` for a positive count over 0, `NaN` for 0 over 0 |
| Results.TooShort | content.js:46 | the fixed short-text result: likelihood 0, the message "Content too short to analyse", top-level source `local` |
| Indicators.ScorePatterns | content.js:53-66 | the loop over a pattern list adds up to the list's total match count |
| Indicators.AiIndicators | content.js:5-21 | the nine AI patterns, their alternatives and their shapes (`\b(...)\b` with `gi`, `^(...)` with `gmi`), in the source's order |
| Indicators.HumanIndicators | content.js:24-39 | the seven human patterns, with the run pattern for `!` and `?` sixth, in the source's order |
| Indicators.TotalMatches | content.js:53-66 | a list's score is the sum of its patterns' match counts |
| Indicators.MatchAt | content.js:7-38 | a match of a pattern starts at a position, by the pattern's shape |
| Indicators.PhraseAt | content.js:7-17 | some alternative occurs at the position ignoring ASCII case, with `\b` before and after it |
| Indicators.LineAlternativeAt | content.js:20-21 | the position starts the text or a line, and some alternative occurs there ignoring ASCII case |
| Indicators.LineStartAt | content.js:20-21 | `^` under the `m` flag: the start of the text or the position after a line terminator |
| Indicators.OccursAt | content.js:7-38 | the `i` flag: an alternative occurs at a position when both, lower-cased, are equal |
| Indicators.RunAt | content.js:37 | the position starts a greedy run of two or more equal marks |
| Indicators.WordBoundary | content.js:7 | `\b`: exactly one of the two characters around the position is a `\w` character |
| Indicators.MatchesFrom | content.js:54-56 | the count from a position is the number of matching positions from there, at most the characters left |
| Indicators.MatchCount | content.js:53-58 | the count is the number of positions of the text where a match of the pattern starts, so at most the text's length |
| Indicators.MatchMakesTotalPositive | content.js:53-66 | a match of any pattern of a list makes that list's score at least 1 |
| Indicators.OpeningConnectiveIsAiIndicator | content.js:7 | matching ignores case and needs `\b` on both sides: a text opening with "Furthermore," scores an AI indicator |
| Indicators.OpeningConnectiveMatches | content.js:7 | the first AI pattern matches at position 0 of a text opening with "Furthermore," |
| Indicators.DoubleExclamationIsHumanIndicator | content.js:37 | two `!` in a row anywhere score a human indicator |
| Indicators.RepeatedMarkMatches | content.js:37 | two equal marks of a `[m]{2,}` pattern in a row lie in a run whose start the pattern matches |
| Indicators.TotalAtLeastEach | content.js:53-58 | a list's score is at least the match count of each of its patterns |
| Indicators.MatchesFromCountsPosition | content.js:54-56 | every position holding a match is counted |
| JsText.Split | content.js:69 | a split always yields at least one piece, as JavaScript's `split` does; `SplitWithoutDelimiter` and `SplitAtRun` fix the pieces themselves |
| JsText.SplitWithoutDelimiter | content.js:69-71 | a text without delimiters splits into one piece, itself |
| JsText.SplitAfterRun | content.js:69-71 | a text opening with a delimiter run gives an empty piece, then the pieces after the run |
| JsText.SplitAtRun | content.js:69-71 | cutting at a maximal delimiter run gives the pieces before it followed by the pieces after it |
| JsText.SplitStep | content.js:69-71 | prefixing one character to both halves of a split keeps the pieces of the second half |
| JsText.SplitStepAtDelimiter | content.js:69-71 | the step of `SplitStep` for a text opening with a delimiter |
| JsText.SplitStepAtOther | content.js:69-71 | the step of `SplitStep` for a text opening with a non-delimiter |
| JsText.SplitOfWordStart | content.js:69-71 | a leading non-delimiter joins the first piece of the rest |
| JsText.SplitShape | content.js:206 | the first piece is empty exactly when the text is empty or starts with a delimiter, the last exactly when it is empty or ends with one, and all pieces in between are non-empty |
| JsText.SplitPiecesHaveNoDelimiter | content.js:69-71 | no piece of a split contains a delimiter character |
| JsText.SplitJoinsToStrip | content.js:71 | the pieces joined are the text with its delimiters removed |
| JsText.SplitOfTrimmedHasNoEmptyPiece | content.js:206 | a text that neither starts nor ends with a delimiter splits into non-empty pieces only |
| JsText.NonEmptyKeepsConcat | content.js:71 | dropping empty tokens does not change their concatenation |
| JsText.NonEmptyKeepsAll | content.js:71 | dropping empty tokens keeps every token when none is empty |
| JsText.NonEmpty | content.js:71 | the filtered list has only non-empty tokens of the input, and is no longer; `NonEmptyKeepsExactlyNonEmpty` states that every non-empty token is kept, in order |
| JsText.NonEmptyAppend | content.js:71 | filtering two joined lists is filtering each and joining |
| JsText.NonEmptyKeepsExactlyNonEmpty | content.js:71 | every piece is kept, in its place, exactly when it is not empty |
| JsText.LongerThan | content.js:69 | the filtered list has only pieces of the input whose trimmed length exceeds the bound; `LongerThanKeepsExactlyLong` states that every such piece is kept, in order |
| JsText.LongerThanAppend | content.js:69 | filtering two joined lists is filtering each and joining |
| JsText.LongerThanKeepsExactlyLong | content.js:69 | every piece is kept, in its place, exactly when it is longer than the bound once trimmed |
| JsText.TrimStart | content.js:69 | the result is a suffix of the input that does not start with `\s`, and only `\s` was removed |
| JsText.TrimEnd | content.js:69 | the result is a prefix of the input that does not end with `\s`, and only `\s` was removed |
| JsText.Trim | content.js:69 | the trimmed string neither starts nor ends with `\s` and is no longer than the input |
| JsText.IsSpace | content.js:69-71 | the `\s` class (WhiteSpace and LineTerminator), the set `trim` removes |
| JsText.IsWordChar | content.js:7-38 | the `\w` class behind `\b`: ASCII letters, digits and `_` |
| JsText.IsLineTerminator | content.js:20-21 | the line terminators after which `^` matches under the `m` flag |
| JsText.IsSentenceEnd | content.js:69 | the class `[.!?]` that sentences are split on |
| JsText.Fold | content.js:80 | the lower-cased string has the same length and lower-cases each ASCII capital |
| JsText.FoldChar | content.js:80 | each capital maps to its own lower-case letter (code point + 32) and every other character to itself |
| RemoteApi.Truncate | content.js:172-175 | the text sent is a prefix of the text, at most 2000 characters long, the whole text when it fits and exactly 2000 characters otherwise |
| RemoteApi.IsOk | content.js:188 | `response.ok`: a status from 200 to 299 |
| RemoteApi.ParseApiResponse | content.js:198-211 | the result has no top-level source and an API breakdown; `details.score` is the score or 0 when it is missing or falsy; the likelihood is that score as a percentage rounded half up; the word count is the number of pieces of the original text split on `\s`, at least 1 |
| RemoteApi.AnalyseWithApi | content.js:172-196 | succeeds exactly when `fetch` of the truncated text gives a 2xx response with a readable body, and then the result is the parsed response against the original text |
| RemoteApi.MissingScoreReadsAsZero | content.js:200-205 | a missing score gives likelihood 0 and a recorded score of 0 |
| RemoteApi.ScoreToLikelihood | content.js:199-200 | a score in [0, 1] gives a likelihood in [0, 100], and a higher score never gives a lower one |
| Orchestrator.AnalyseContent | content.js:152-170 | the API is called, with the truncated text, exactly when the text has 100 characters or more; short text gives the `local` zero result; API success is returned unchanged; API failure gives the heuristic result of the second extraction tagged `heuristic_fallback`; the `local` tag, the `heuristic_fallback` tag and the API breakdown each identify their path exactly |
| Orchestrator.FallbackIsFullHeuristic | content.js:163-168 | when the second extraction still has 100 characters or more, the fallback carries the full heuristic breakdown with the heuristic's own likelihood, in [0, 95] |
| Orchestrator.FallbackOnShrunkPage | content.js:45-47 | when the second extraction has under 100 characters, the fallback is the short-text message with likelihood 0, tagged `heuristic_fallback` |
| Orchestrator.WordCountsAgreeOnTrimmedText | content.js:206 | for trimmed text the API word count equals the heuristic word count |
| Orchestrator.LeadingSpaceAddsApiWord | content.js:206 | with leading whitespace (which the trimmed extracted text never has) the API word count is one more than the heuristic's |
| Widget.StatusFor | content.js:611-623 | below 30 human, 30 to 69 mixed, 70 and above AI |
| Widget.StatusMessage | content.js:614-623 | the status texts: "Likely human-written", "Mixed or uncertain", "Likely AI-generated" |
| Widget.StatusMonotone | content.js:614-623 | a higher likelihood never shows a more human status |
| Widget.DetectorWidget.constructor | content.js:252-283 | a new widget is idle and has no last analysis; the markup `createUI` builds shows the idle text and button label, with the results hidden |
| Widget.DetectorWidget.Begin | content.js:571-585 | a call while an analysis is in progress changes nothing; otherwise the flag is set, the status shows "analysing", the button is disabled and the results are hidden; the last analysis is untouched |
| Widget.DetectorWidget.DisplayResults | content.js:602-630 | the indicator and text show the band of the likelihood, the bar shows the likelihood and the results are visible |
| Widget.DetectorWidget.Finish | content.js:587-599 | the flag is cleared and the button restored; on success the result is displayed and becomes the last analysis; on failure the error text shows and the last analysis is kept |
| Widget.DetectorWidget.AnalyzeContent | content.js:571-600 | a call while an analysis is in progress changes nothing; otherwise the detector's result (the `local` zero result for short text, the API result on success, the fallback heuristic result of the second extraction on failure) becomes the last analysis, its band, message and likelihood are shown, and the widget is idle again |
| Storage.Decimal | background.js:38 | the rendering of a tab id is a non-empty string of decimal digits, one digit long exactly for ids below 10 |
| Storage.DecimalInjective | background.js:38 | distinct tab ids render differently |
| Storage.Key | background.js:38 | every key starts with `analysis_` |
| Storage.KeyInjective | popup.js:4 | two tabs never share a storage key |
| Storage.DigitChar | background.js:38 | every digit renders as a character from `0` to `9` |
| Popup.BandOf | popup.js:19-31 | 80 and above likely, 60 to 79 possibly, 40 to 59 maybe, below 40 unlikely |
| Popup.BandClass | popup.js:19-31 | the class of each band: `high`, `medium`, `low`, `none` |
| Popup.BandLabel | popup.js:19-31 | the label of each band: "Likely AI", "Possibly AI", "Maybe AI", "Unlikely AI" |
| Popup.BandMonotone | popup.js:22-31 | a higher likelihood never shows a lower band |
| Popup.OrNotAvailable | popup.js:47 | `'N/A'` exactly when the value is missing or 0, otherwise the value |
| Popup.Percent | popup.js:51 | a missing probability shows 0; otherwise the probability as a percentage rounded half up |
| Popup.OrText | popup.js:41 | a missing or empty provider shows the fallback text, otherwise the provider |
| Popup.DisplayAnalysis | popup.js:16-99 | the API layout is chosen exactly when `details.source` is `'api'`; the band and the number shown are those of the likelihood |
| Popup.PopupPage | popup.js:4-13 | the popup shows an analysis exactly when a record is stored under the tab's key |
| Popup.PopupAfterStore | popup.js:4-8 | after a record is stored for a tab, that tab's popup shows it and every other tab's popup is unchanged |
| Background.BadgeFor | background.js:12-24 | HIGH/#F44336 from 80, MED/#FF9800 from 60 to 79, LOW/#FFEB3B from 40 to 59, NONE/#4CAF50 below 40 |
| Background.BadgeAgreesWithPopup | background.js:12-24 | the badge band of every likelihood is the popup band with the same boundaries |
| Background.ServiceWorker.OnMessage | background.js:6-45 | a message other than `updateBadge` changes nothing; `updateBadge` sets the sender tab's badge and stores the likelihood and details unchanged, with the URL and time, under `analysis_<tabId>`, leaving every other entry as it was |

## Left out

- Text extraction from the page (`extractTextContent`, content.js:104-138 and
  213-247) is not modelled: the two extracted, trimmed texts are inputs. The
  first is what `AIContentDetector.analyseContent` extracts (`text`). The second
  is what the heuristic detector extracts again after the request failed
  (`fallbackText`). The model does not relate the two: the page may change
  while the request is pending.
- The HTTP request and JSON decoding are not modelled: `fetch` is a parameter
  that yields a response (status, decoded body) or a rejection. A body that is
  not JSON, or is `null`, is one `Unreadable` case.
- Indicators.MatchCount: counts each position where a match starts, whereas
  JavaScript's global match counts non-overlapping matches found left to right.
  For the source's lists the two agree, though no lemma states it: single-word
  alternatives have no `\b` inside them; no multi-word alternative holds, after
  an inner word boundary, the start of another alternative of its pattern; the
  `^` alternatives hold no line terminator; and a `[m]{2,}` match is counted
  only at the start of a maximal run, which a greedy match consumes whole.
  For other lists with overlapping alternatives the counts could differ.
- Heuristic.UniqueWordCount: lower-cases ASCII letters only, whereas
  `toLowerCase` folds all of Unicode. For the regular expressions' `i` flag,
  ASCII folding is exact, because every pattern is ASCII.
- Lengths are counted in Unicode characters. JavaScript counts UTF-16 code units,
  so a character outside the Basic Multilingual Plane counts once here and twice
  there.
- Floating point is not modelled: all ratios are exact rationals. A JavaScript
  double can round a value that is exactly one half differently, and
  `(score * 100)` can carry representation error.
- RemoteApi.ParseApiResponse: a `score` that is present but is not a number
  (such as a numeric string) is treated as missing.
- The paragraph list (content.js:70) is computed and never used, so it is not
  modelled.
- Widget construction, styles, dragging, toggling, closing and the details HTML
  (content.js:259-569, 632-673) are not modelled. Neither are initialisation and
  SPA re-initialisation (content.js:694-726). The widget keeps only the status
  area, button, likelihood bar and results visibility it writes in
  `analyzeContent` and `displayResults`.
- The `CONFIG` object (content.js:677-692) is declared and never read, so no rate
  limit is modelled.
- Background.ServiceWorker.OnMessage: the two `chrome.action` badge calls become
  one map entry per tab, and `chrome.storage.local.set` becomes a map update.
  `Date.now()` is the parameter `now`. Tab ids are natural numbers. The message's
  `likelihood` is an integer, so a missing or non-numeric likelihood is not
  modelled. The `onInstalled` log line is not modelled.
- None of the three files sends the `updateBadge` message. The background worker
  and the popup are therefore modelled on the record shape they read
  (`Storage.StoredDetails`), not on the content script's result.
- The popup's tab query, the asynchronous storage read and the `innerHTML`
  rendering are not modelled. The read is a lookup in a map. A stored record
  whose `details` is missing (which would throw in the popup) is not modelled.
