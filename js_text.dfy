/**
 * The pieces of JavaScript's string library that the detector relies on:
 * the `\s` character class, `trim`, `split` on a run of class characters,
 * `filter` over the pieces, ASCII case folding and the `\w` class.
 */
module JsText {

  /** Characters matched by `\s` (WhiteSpace and LineTerminator); `trim` removes the same set. */
  predicate IsSpace(c: char) {
    c == ' ' || c == '\t' || c == '\n' || c == '\U{000B}' || c == '\U{000C}' || c == '\r'
    || c == '\U{00A0}' || c == '\U{1680}' || ('\U{2000}' <= c <= '\U{200A}')
    || c == '\U{2028}' || c == '\U{2029}' || c == '\U{202F}' || c == '\U{205F}'
    || c == '\U{3000}' || c == '\U{FEFF}'
  }

  /** Line terminators: the positions after them are where `^` matches under the `m` flag. */
  predicate IsLineTerminator(c: char) {
    c == '\n' || c == '\r' || c == '\U{2028}' || c == '\U{2029}'
  }

  /** Characters matched by `\w`. */
  predicate IsWordChar(c: char) {
    ('a' <= c <= 'z') || ('A' <= c <= 'Z') || ('0' <= c <= '9') || c == '_'
  }

  /** Characters matched by the sentence delimiter class `[.!?]`. */
  predicate IsSentenceEnd(c: char) {
    c == '.' || c == '!' || c == '?'
  }

  /** ASCII lower-casing of one character. */
  function FoldChar(c: char): (r: char)
    ensures 'A' <= c <= 'Z' ==> 'a' <= r <= 'z' && r as int == c as int + 32
    ensures !('A' <= c <= 'Z') ==> r == c
  {
    if 'A' <= c <= 'Z' then (c as int + 32) as char else c
  }

  /** ASCII lower-casing of a string, character by character. */
  function Fold(s: string): (r: string)
    ensures |r| == |s|
    ensures forall i :: 0 <= i < |s| ==> r[i] == FoldChar(s[i])
  {
    seq(|s|, i requires 0 <= i < |s| => FoldChar(s[i]))
  }

  /** The string without its leading `\s` characters (`trimStart`). */
  function TrimStart(s: string): (r: string)
    ensures r == [] || !IsSpace(r[0])
    ensures |r| <= |s| && r == s[|s| - |r|..]
    ensures forall i :: 0 <= i < |s| - |r| ==> IsSpace(s[i])
  {
    if s != [] && IsSpace(s[0]) then TrimStart(s[1..]) else s
  }

  /** The string without its trailing `\s` characters (`trimEnd`). */
  function TrimEnd(s: string): (r: string)
    ensures r == [] || !IsSpace(r[|r| - 1])
    ensures |r| <= |s| && r == s[..|r|]
    ensures forall i :: |r| <= i < |s| ==> IsSpace(s[i])
  {
    if s != [] && IsSpace(s[|s| - 1]) then TrimEnd(s[..|s| - 1]) else s
  }

  /** The string without leading or trailing `\s` characters (`trim`). */
  function Trim(s: string): (r: string)
    ensures r == [] || (!IsSpace(r[0]) && !IsSpace(r[|r| - 1]))
    ensures |r| <= |s|
  {
    TrimEnd(TrimStart(s))
  }

  /**
   * JavaScript's `split` on a pattern `[class]+`, where `delim` decides membership of the class: the
   * pieces between maximal runs of delimiter characters, including the empty
   * piece before a leading run and after a trailing run; `[""]` for `""`.
   */
  function Split(s: string, delim: char -> bool): (r: seq<string>)
    ensures |r| >= 1
    decreases |s|
  {
    if s == [] then [[]]
    else if delim(s[0]) then
      if |s| > 1 && delim(s[1]) then Split(s[1..], delim)
      else [[]] + Split(s[1..], delim)
    else
      var rest := Split(s[1..], delim);
      [[s[0]] + rest[0]] + rest[1..]
  }

  /** The characters of `s` that are not delimiters, in order. */
  function Strip(s: string, delim: char -> bool): (r: string)
    ensures |r| <= |s|
  {
    if s == [] then []
    else if delim(s[0]) then Strip(s[1..], delim)
    else [s[0]] + Strip(s[1..], delim)
  }

  /** The concatenation of a sequence of strings. */
  function Concat(ss: seq<string>): string {
    if ss == [] then [] else ss[0] + Concat(ss[1..])
  }

  /** The pieces that are not empty, in order. */
  function NonEmpty(pieces: seq<string>): (r: seq<string>)
    ensures |r| <= |pieces|
    ensures forall i :: 0 <= i < |r| ==> r[i] != [] && r[i] in pieces
  {
    if pieces == [] then []
    else if pieces[0] != [] then [pieces[0]] + NonEmpty(pieces[1..])
    else NonEmpty(pieces[1..])
  }

  /** The pieces longer than `minLength` characters once trimmed, in order. */
  function LongerThan(pieces: seq<string>, minLength: nat): (r: seq<string>)
    ensures |r| <= |pieces|
    ensures forall i :: 0 <= i < |r| ==> |Trim(r[i])| > minLength && r[i] in pieces
  {
    if pieces == [] then []
    else if |Trim(pieces[0])| > minLength then [pieces[0]] + LongerThan(pieces[1..], minLength)
    else LongerThan(pieces[1..], minLength)
  }

  /** No piece of a split contains a delimiter character. */
  lemma {:induction false} SplitPiecesHaveNoDelimiter(s: string, delim: char -> bool)
    ensures forall i, j :: 0 <= i < |Split(s, delim)| && 0 <= j < |Split(s, delim)[i]| ==>
      !delim(Split(s, delim)[i][j])
    decreases |s|
  {
    if s != [] {
      SplitPiecesHaveNoDelimiter(s[1..], delim);
    }
  }

  /** Joining the pieces of a split gives back the input with its delimiters removed. */
  lemma {:induction false} SplitJoinsToStrip(s: string, delim: char -> bool)
    ensures Concat(Split(s, delim)) == Strip(s, delim)
    decreases |s|
  {
    if s != [] {
      var rest := Split(s[1..], delim);
      SplitJoinsToStrip(s[1..], delim);
      if delim(s[0]) {
        if !(|s| > 1 && delim(s[1])) {
          assert Split(s, delim) == [[]] + rest;
          assert Concat([[]] + rest) == [] + Concat(rest);
        }
      } else {
        var r := [[s[0]] + rest[0]] + rest[1..];
        assert Concat(rest) == rest[0] + Concat(rest[1..]);
        assert r[1..] == rest[1..];
        calc {
          Concat(r);
          ([s[0]] + rest[0]) + Concat(rest[1..]);
          [s[0]] + (rest[0] + Concat(rest[1..]));
        }
      }
    }
  }

  /**
   * The shape of a split: the first piece is empty exactly when the input is
   * empty or starts with a delimiter, the last exactly when it is empty or ends
   * with one, and every piece in between is non-empty.
   */
  lemma {:induction false} SplitShape(s: string, delim: char -> bool)
    ensures var r := Split(s, delim);
      && (r[0] == [] <==> s == [] || delim(s[0]))
      && (r[|r| - 1] == [] <==> s == [] || delim(s[|s| - 1]))
      && (s != [] && delim(s[|s| - 1]) ==> |r| >= 2)
      && (forall i :: 0 < i < |r| - 1 ==> r[i] != [])
    decreases |s|
  {
    if s != [] {
      var rest := Split(s[1..], delim);
      SplitShape(s[1..], delim);
      if delim(s[0]) && !(|s| > 1 && delim(s[1])) {
        var r := [[]] + rest;
        assert Split(s, delim) == r;
        forall i | 0 < i < |r| - 1 ensures r[i] != [] {
          assert r[i] == rest[i - 1];
        }
      } else if !delim(s[0]) {
        var r := [[s[0]] + rest[0]] + rest[1..];
        assert Split(s, delim) == r;
        forall i | 0 < i < |r| - 1 ensures r[i] != [] {
          assert r[i] == rest[i];
        }
      }
    }
  }

  /** A string without delimiters splits into one piece, itself. */
  lemma {:induction false} SplitWithoutDelimiter(w: string, delim: char -> bool)
    requires forall i :: 0 <= i < |w| ==> !delim(w[i])
    ensures Split(w, delim) == [w]
    decreases |w|
  {
    if w != [] {
      SplitWithoutDelimiter(w[1..], delim);
      assert [w[0]] + w[1..] == w;
    }
  }

  /**
   * A string that opens with a run of delimiters ending at a non-delimiter (or
   * at the end) splits into an empty piece, then the pieces after the run.
   */
  lemma {:induction false} SplitAfterRun(run: string, b: string, delim: char -> bool)
    requires run != [] && forall i :: 0 <= i < |run| ==> delim(run[i])
    requires b == [] || !delim(b[0])
    ensures Split(run + b, delim) == [[]] + Split(b, delim)
    decreases |run|
  {
    var s := run + b;
    assert s[0] == run[0];
    assert s[1..] == run[1..] + b;
    if |run| > 1 {
      assert s[1] == run[1];
      SplitAfterRun(run[1..], b, delim);
    } else {
      assert s[1..] == b;
    }
  }

  /**
   * Cutting at a maximal run of delimiters: the pieces of the text before the
   * run, followed by the pieces of the text after it. With
   * `SplitWithoutDelimiter` this determines every split, since each string is
   * delimiter-free stretches separated by maximal runs.
   */
  lemma {:induction false} SplitAtRun(a: string, run: string, b: string, delim: char -> bool)
    requires a == [] || !delim(a[|a| - 1])
    requires run != [] && forall i :: 0 <= i < |run| ==> delim(run[i])
    requires b == [] || !delim(b[0])
    ensures Split(a + run + b, delim) == Split(a, delim) + Split(b, delim)
    decreases |a|
  {
    if a == [] {
      assert a + run + b == run + b;
      SplitAfterRun(run, b, delim);
    } else {
      var tail := a[1..];
      assert tail == [] || tail[|tail| - 1] == a[|a| - 1];
      SplitAtRun(tail, run, b, delim);
      assert a + run + b == a + (run + b);
      assert tail + run + b == tail + (run + b);
      SplitStep(a, run + b, Split(b, delim), delim);
    }
  }

  /**
   * One step of `SplitAtRun`: if the pieces of `a[1..] + rest` are those of
   * `a[1..]` followed by `more`, the pieces of `a + rest` are those of `a`
   * followed by `more`.
   */
  lemma SplitStep(a: string, rest: string, more: seq<string>, delim: char -> bool)
    requires a != [] && (|a| == 1 ==> !delim(a[0]))
    requires Split(a[1..] + rest, delim) == Split(a[1..], delim) + more
    ensures Split(a + rest, delim) == Split(a, delim) + more
  {
    if delim(a[0]) {
      SplitStepAtDelimiter(a, rest, more, delim);
    } else {
      SplitStepAtOther(a, rest, more, delim);
    }
  }

  /** `SplitStep` when `a` opens with a delimiter (and so has a second character). */
  lemma SplitStepAtDelimiter(a: string, rest: string, more: seq<string>, delim: char -> bool)
    requires |a| > 1 && delim(a[0])
    requires Split(a[1..] + rest, delim) == Split(a[1..], delim) + more
    ensures Split(a + rest, delim) == Split(a, delim) + more
  {
    var s := a + rest;
    assert s[0] == a[0] && s[1] == a[1];
    assert s[1..] == a[1..] + rest;
    if delim(a[1]) {
      assert Split(s, delim) == Split(s[1..], delim);
      assert Split(a, delim) == Split(a[1..], delim);
    } else {
      assert Split(s, delim) == [[]] + Split(s[1..], delim);
      assert Split(a, delim) == [[]] + Split(a[1..], delim);
    }
  }

  /** `SplitStep` when `a` opens with a character that is not a delimiter. */
  lemma SplitStepAtOther(a: string, rest: string, more: seq<string>, delim: char -> bool)
    requires a != [] && !delim(a[0])
    requires Split(a[1..] + rest, delim) == Split(a[1..], delim) + more
    ensures Split(a + rest, delim) == Split(a, delim) + more
  {
    var s := a + rest;
    assert s[0] == a[0];
    assert s[1..] == a[1..] + rest;
    SplitOfWordStart(s, delim);
    SplitOfWordStart(a, delim);
    JoinFirst(a[0], Split(a[1..], delim), more);
  }

  /** The pieces of a string that opens with a non-delimiter: that character joins the first piece of the rest. */
  lemma SplitOfWordStart(s: string, delim: char -> bool)
    requires s != [] && !delim(s[0])
    ensures Split(s, delim) == [[s[0]] + Split(s[1..], delim)[0]] + Split(s[1..], delim)[1..]
  {
  }

  /** Prefixing a character to the first piece commutes with appending more pieces. */
  lemma JoinFirst(c: char, pieces: seq<string>, more: seq<string>)
    requires pieces != []
    ensures [[c] + (pieces + more)[0]] + (pieces + more)[1..] == ([[c] + pieces[0]] + pieces[1..]) + more
  {
    assert (pieces + more)[0] == pieces[0];
    assert (pieces + more)[1..] == pieces[1..] + more;
  }

  /** Filtering empty pieces out of two lists joined is filtering each and joining. */
  lemma {:induction false} NonEmptyAppend(a: seq<string>, b: seq<string>)
    ensures NonEmpty(a + b) == NonEmpty(a) + NonEmpty(b)
    decreases |a|
  {
    if a == [] {
      assert a + b == b;
    } else {
      assert (a + b)[0] == a[0];
      assert (a + b)[1..] == a[1..] + b;
      NonEmptyAppend(a[1..], b);
    }
  }

  /** Each piece is kept, in its place, exactly when it is not empty. */
  lemma NonEmptyKeepsExactlyNonEmpty(a: seq<string>, x: string, b: seq<string>)
    ensures NonEmpty(a + [x] + b) == NonEmpty(a) + (if x != [] then [x] else []) + NonEmpty(b)
  {
    NonEmptyAppend(a + [x], b);
    NonEmptyAppend(a, [x]);
    assert NonEmpty([x]) == (if x != [] then [x] else []) by {
      assert [x][1..] == [];
    }
  }

  /** Filtering short pieces out of two lists joined is filtering each and joining. */
  lemma {:induction false} LongerThanAppend(a: seq<string>, b: seq<string>, minLength: nat)
    ensures LongerThan(a + b, minLength) == LongerThan(a, minLength) + LongerThan(b, minLength)
    decreases |a|
  {
    if a == [] {
      assert a + b == b;
    } else {
      assert (a + b)[0] == a[0];
      assert (a + b)[1..] == a[1..] + b;
      LongerThanAppend(a[1..], b, minLength);
    }
  }

  /** Each piece is kept, in its place, exactly when it is longer than the bound once trimmed. */
  lemma LongerThanKeepsExactlyLong(a: seq<string>, x: string, b: seq<string>, minLength: nat)
    ensures LongerThan(a + [x] + b, minLength)
      == LongerThan(a, minLength) + (if |Trim(x)| > minLength then [x] else []) + LongerThan(b, minLength)
  {
    LongerThanAppend(a + [x], b, minLength);
    LongerThanAppend(a, [x], minLength);
    assert LongerThan([x], minLength) == (if |Trim(x)| > minLength then [x] else []) by {
      assert [x][1..] == [];
    }
  }

  /** Filtering out empty pieces does not change their concatenation. */
  lemma {:induction false} NonEmptyKeepsConcat(pieces: seq<string>)
    ensures Concat(NonEmpty(pieces)) == Concat(pieces)
  {
    if pieces != [] {
      var rest := pieces[1..];
      NonEmptyKeepsConcat(rest);
      assert Concat(pieces) == pieces[0] + Concat(rest);
      if pieces[0] != [] {
        var kept := [pieces[0]] + NonEmpty(rest);
        assert NonEmpty(pieces) == kept;
        assert kept[0] == pieces[0] && kept[1..] == NonEmpty(rest);
        assert Concat(kept) == pieces[0] + Concat(NonEmpty(rest));
      } else {
        assert NonEmpty(pieces) == NonEmpty(rest);
        assert pieces[0] + Concat(rest) == Concat(rest);
      }
    }
  }

  /** Filtering out empty pieces changes nothing when no piece is empty. */
  lemma {:induction false} NonEmptyKeepsAll(pieces: seq<string>)
    requires forall i :: 0 <= i < |pieces| ==> pieces[i] != []
    ensures NonEmpty(pieces) == pieces
  {
    if pieces != [] {
      NonEmptyKeepsAll(pieces[1..]);
    }
  }

  /**
   * A string that neither starts nor ends with a delimiter splits into
   * non-empty pieces only, so filtering out empty pieces keeps them all.
   */
  lemma SplitOfTrimmedHasNoEmptyPiece(s: string, delim: char -> bool)
    requires s != [] && !delim(s[0]) && !delim(s[|s| - 1])
    ensures NonEmpty(Split(s, delim)) == Split(s, delim)
  {
    var r := Split(s, delim);
    SplitShape(s, delim);
    assert forall i :: 0 <= i < |r| ==> r[i] != [] by {
      forall i | 0 <= i < |r| ensures r[i] != [] {
        if i != 0 && i != |r| - 1 {
        }
      }
    }
    NonEmptyKeepsAll(r);
  }
}
