/**
 * The shape of an analysis result as the content script builds it, and the
 * rounding (`Math.round`) every likelihood goes through.
 */
module Results {
  import opened Wrappers

  /** The shortest text the detectors analyse, in characters. */
  const MinLength: nat := 100

  /** The top-level `source` tag: `'local'` for refused text, `'heuristic_fallback'` after an API failure. */
  datatype Source = Local | HeuristicFallback

  /**
   * A number that `Math.round` produced from a quotient of two counts: finite,
   * `Infinity` (a positive count over zero) or `NaN` (zero over zero).
   */
  datatype Rounded = Finite(n: int) | Infinity | NaN

  /** The `details` of a result: a message string, the heuristic breakdown or the API breakdown. */
  datatype Details =
    | Message(text: string)
    | HeuristicBreakdown(aiIndicators: nat, humanIndicators: nat, wordCount: nat, sentenceCount: nat,
                         avgSentenceLength: Rounded, vocabularyRatio: Rounded)
    | ApiBreakdown(score: real, wordCount: nat)
  {
    /** `details.source`, which a message string does not have. */
    function SourceName(): Option<string> {
      match this
      case Message(_) => None
      case HeuristicBreakdown(_, _, _, _, _, _) => Some("heuristic")
      case ApiBreakdown(_, _) => Some("api")
    }

    /** `details.provider`, set only by the API adapter. */
    function Provider(): Option<string> {
      if ApiBreakdown? then Some("Sapling") else None
    }
  }

  /** `{ likelihood, details, source }`; a missing top-level `source` is `None`. */
  datatype Analysis = Analysis(likelihood: int, details: Details, source: Option<Source>)

  /** The fixed result for text below `MinLength` characters. */
  const TooShort: Analysis := Analysis(0, Message("Content too short to analyse"), Some(Local))

  /** `Math.round` on exact numbers: the nearest integer, halves rounded up. */
  function Round(x: real): (r: int)
    ensures r as real - 0.5 <= x < r as real + 0.5
  {
    (x + 0.5).Floor
  }

  /** Rounding a quotient of integers half up is integer division of `2n + d` by `2d`. */
  lemma HalfUpDivision(n: int, d: int)
    requires d > 0
    ensures (2 * n + d) / (2 * d) == Round(n as real / d as real)
  {
    HalfShift(n, d);
    DivisionIsFloor(2 * n + d, 2 * d);
  }

  /** Adding one half to `n / d` gives `(2n + d) / (2d)`. */
  lemma HalfShift(n: int, d: int)
    requires d > 0
    ensures n as real / d as real + 0.5 == (2 * n + d) as real / (2 * d) as real
  {
    var x := n as real / d as real;
    var y := (2 * n + d) as real / (2 * d) as real;
    QuotientTimesDivisor(n as real, d as real);
    QuotientTimesDivisor((2 * n + d) as real, (2 * d) as real);
    assert (x + 0.5) * (2 * d) as real == (2 * n + d) as real;
    CancelPositive(y, x + 0.5, (2 * d) as real);
    CancelPositive(x + 0.5, y, (2 * d) as real);
  }

  /** Integer division of a by a positive b is the floor of the real quotient. */
  lemma DivisionIsFloor(a: int, b: int)
    requires b > 0
    ensures (a as real / b as real).Floor == a / b
  {
    var q := a / b;
    QuotientBounds(a, b);
    assert b * (q + 1) == b * q + b;
    QuotientAtLeast(a, b, q);
    QuotientBelow(a, b, q + 1);
  }

  /** From `b * q <= a` over the integers, `q <= a / b` over the reals. */
  lemma QuotientAtLeast(a: int, b: int, q: int)
    requires b > 0 && b * q <= a
    ensures q as real <= a as real / b as real
  {
    CastProduct(b, q);
    QuotientTimesDivisor(a as real, b as real);
    CancelPositive(q as real, a as real / b as real, b as real);
  }

  /** From `a < b * q` over the integers, `a / b < q` over the reals. */
  lemma QuotientBelow(a: int, b: int, q: int)
    requires b > 0 && a < b * q
    ensures a as real / b as real < q as real
  {
    CastProduct(b, q);
    QuotientTimesDivisor(a as real, b as real);
    CancelPositiveStrict(a as real / b as real, q as real, b as real);
  }

  /** A quotient times its divisor is the dividend. */
  lemma QuotientTimesDivisor(a: real, b: real)
    requires b != 0.0
    ensures (a / b) * b == a
  {
  }

  /** Converting a product of integers to a real is the product of the conversions. */
  lemma CastProduct(a: int, b: int)
    ensures (a * b) as real == a as real * b as real
  {
  }

  /** The quotient of integer division brackets the dividend. */
  lemma QuotientBounds(a: int, b: int)
    requires b > 0
    ensures b * (a / b) <= a < b * (a / b) + b
  {
  }

  /** Dividing both sides of `a * c <= b * c` by a positive `c`. */
  lemma CancelPositive(a: real, b: real, c: real)
    requires c > 0.0 && a * c <= b * c
    ensures a <= b
  {
  }

  /** Dividing both sides of `a * c < b * c` by a positive `c`. */
  lemma CancelPositiveStrict(a: real, b: real, c: real)
    requires c > 0.0 && a * c < b * c
    ensures a < b
  {
  }

  /** `Math.round(n / d)` for counts, with JavaScript's results for a zero divisor. */
  function RoundedQuotient(n: nat, d: nat): (r: Rounded)
    ensures d > 0 ==> r == Finite(Round(n as real / d as real))
    ensures d == 0 && n > 0 ==> r == Infinity
    ensures d == 0 && n == 0 ==> r == NaN
  {
    if d > 0 then
      HalfUpDivision(n, d);
      Finite((2 * n + d) / (2 * d))
    else if n > 0 then Infinity
    else NaN
  }
}
