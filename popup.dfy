/**
 * The popup (`displayAnalysis`): the likelihood band, the layout chosen by the
 * result's source, the defaults of its fields, and which stored record it shows.
 */
module Popup {
  import opened Wrappers
  import opened Results
  import opened Storage

  /** The likelihood classes: `'none'`, `'low'`, `'medium'`, `'high'`. */
  datatype Band = Unlikely | Maybe | Possibly | Likely

  /** The band of a likelihood: from 80 likely, from 60 possibly, from 40 maybe, below that unlikely. */
  function BandOf(likelihood: int): (b: Band)
    ensures b == Likely <==> 80 <= likelihood
    ensures b == Possibly <==> 60 <= likelihood < 80
    ensures b == Maybe <==> 40 <= likelihood < 60
    ensures b == Unlikely <==> likelihood < 40
  {
    if likelihood >= 80 then Likely
    else if likelihood >= 60 then Possibly
    else if likelihood >= 40 then Maybe
    else Unlikely
  }

  /** The CSS class of a band. */
  function BandClass(b: Band): string {
    match b
    case Unlikely => "none"
    case Maybe => "low"
    case Possibly => "medium"
    case Likely => "high"
  }

  /** The label of a band. */
  function BandLabel(b: Band): string {
    match b
    case Unlikely => "Unlikely AI"
    case Maybe => "Maybe AI"
    case Possibly => "Possibly AI"
    case Likely => "Likely AI"
  }

  /** The rank of a band, from least to most likely AI. */
  function BandRank(b: Band): nat {
    match b
    case Unlikely => 0
    case Maybe => 1
    case Possibly => 2
    case Likely => 3
  }

  /** A higher likelihood never shows a lower band. */
  lemma BandMonotone(l1: int, l2: int)
    requires l1 <= l2
    ensures BandRank(BandOf(l1)) <= BandRank(BandOf(l2))
  {
  }

  /** A displayed count: the number, or `'N/A'`. */
  datatype Field = Shown(n: int) | NotAvailable

  /** A numeric field, or `'N/A'` when it is missing or zero. */
  function OrNotAvailable(value: Option<int>): (f: Field)
    ensures f == NotAvailable <==> value == None || value == Some(0)
    ensures f.Shown? ==> value == Some(f.n) && f.n != 0
  {
    if value.Some? && value.value != 0 then Shown(value.value) else NotAvailable
  }

  /** A probability shown as a rounded percentage; a missing probability shows 0. */
  function Percent(prob: Option<real>): (n: int)
    ensures prob == None ==> n == 0
    ensures n as real - 0.5 <= 100.0 * prob.GetOr(0.0) < n as real + 0.5
  {
    Round(prob.GetOr(0.0) * 100.0)
  }

  /** A string field, or the fallback text when it is missing or empty. */
  function OrText(text: Option<string>, fallback: string): (s: string)
    ensures text == None || text == Some("") ==> s == fallback
    ensures text.Some? && text.value != "" ==> s == text.value
  {
    if text.Some? && text.value != "" then text.value else fallback
  }

  /** What the popup renders: the API layout or the local-analysis layout. */
  datatype View =
    | ApiView(band: Band, likelihood: int, badge: string, wordCount: Field,
              generatedProb: int, completelyGeneratedProb: int, sentences: Field, detectionSource: string)
    | LocalView(band: Band, likelihood: int, wordCount: Field, avgSentenceLength: Field, sentences: Field)

  /** What `displayAnalysis` renders for a stored record. */
  function DisplayAnalysis(likelihood: int, details: StoredDetails): (v: View)
    ensures v.ApiView? <==> details.source == Some("api")
    ensures v.band == BandOf(likelihood) && v.likelihood == likelihood
  {
    var band := BandOf(likelihood);
    if details.source == Some("api") then
      ApiView(band, likelihood, OrText(details.provider, "API"), OrNotAvailable(details.wordCount),
              Percent(details.averageGeneratedProb), Percent(details.completelyGeneratedProb),
              OrNotAvailable(details.sentences), OrText(details.provider, "API"))
    else
      LocalView(band, likelihood, OrNotAvailable(details.wordCount),
                OrNotAvailable(details.avgSentenceLength), OrNotAvailable(details.sentenceCount))
  }

  /** The popup's content: the stored analysis of the tab, or the "no analysis" message. */
  datatype Page = NoAnalysis | Showing(view: View)

  /** The popup for the active tab, given the stored records (the `chrome.storage` read as a map lookup). */
  function PopupPage(storage: map<string, StoredAnalysis>, tabId: nat): (p: Page)
    ensures p.Showing? <==> Key(tabId) in storage
  {
    var key := Key(tabId);
    if key in storage then Showing(DisplayAnalysis(storage[key].likelihood, storage[key].details))
    else NoAnalysis
  }

  /**
   * Storing a record for one tab makes the popup of that tab show it and leaves
   * the popup of every other tab as it was.
   */
  lemma PopupAfterStore(storage: map<string, StoredAnalysis>, tabId: nat, record: StoredAnalysis, other: nat)
    ensures PopupPage(storage[Key(tabId) := record], tabId)
      == Showing(DisplayAnalysis(record.likelihood, record.details))
    ensures other != tabId ==> PopupPage(storage[Key(tabId) := record], other) == PopupPage(storage, other)
  {
    if Key(other) == Key(tabId) {
      KeyInjective(other, tabId);
    }
  }
}
