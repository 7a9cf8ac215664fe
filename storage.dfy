/**
 * The per-tab analysis record: its key `analysis_<tabId>`, written by the
 * background worker and read by the popup, and the fields the popup reads.
 */
module Storage {
  import opened Wrappers

  /** The character of a decimal digit. */
  function DigitChar(d: nat): (c: char)
    requires d < 10
    ensures '0' <= c <= '9'
  {
    ('0' as int + d) as char
  }

  /** The decimal rendering of a tab id, as template-literal interpolation gives it. */
  function Decimal(n: nat): (s: string)
    ensures 1 <= |s|
    ensures forall i :: 0 <= i < |s| ==> '0' <= s[i] <= '9'
    ensures n < 10 <==> |s| == 1
  {
    if n < 10 then [DigitChar(n)] else Decimal(n / 10) + [DigitChar(n % 10)]
  }

  /** Distinct tab ids render differently. */
  lemma {:induction false} DecimalInjective(a: nat, b: nat)
    requires Decimal(a) == Decimal(b)
    ensures a == b
  {
    if a >= 10 && b >= 10 {
      var s := Decimal(a);
      assert s == Decimal(a / 10) + [DigitChar(a % 10)];
      assert s == Decimal(b / 10) + [DigitChar(b % 10)];
      assert s[..|s| - 1] == Decimal(a / 10) && s[..|s| - 1] == Decimal(b / 10);
      assert s[|s| - 1] == DigitChar(a % 10) == DigitChar(b % 10);
      DecimalInjective(a / 10, b / 10);
    }
  }

  /** The storage key of a tab's analysis: `analysis_${tabId}`. */
  function Key(tabId: nat): (k: string)
    ensures |k| > 9 && k[..9] == "analysis_"
  {
    "analysis_" + Decimal(tabId)
  }

  /** Two tabs never share a storage key. */
  lemma KeyInjective(t1: nat, t2: nat)
    requires Key(t1) == Key(t2)
    ensures t1 == t2
  {
    assert Key(t1)[9..] == Decimal(t1);
    assert Key(t2)[9..] == Decimal(t2);
    DecimalInjective(t1, t2);
  }

  /**
   * The `details` object as the popup reads it: each field present or `None`
   * (missing, `undefined`, `null` or not a finite number).
   */
  datatype StoredDetails = StoredDetails(
    source: Option<string>,
    provider: Option<string>,
    wordCount: Option<int>,
    averageGeneratedProb: Option<real>,
    completelyGeneratedProb: Option<real>,
    sentences: Option<int>,
    avgSentenceLength: Option<int>,
    sentenceCount: Option<int>)

  /** The record stored per tab: `{ likelihood, details, url, timestamp }`. */
  datatype StoredAnalysis = StoredAnalysis(likelihood: int, details: StoredDetails, url: string, timestamp: int)
}
