/**
 * Tokenizers built from maximal runs of one character class, as
 * `re.findall` produces them for the patterns `(\w+|\W+)` and
 * `(\w+|\s+|[^\w\s]+)`, and `str.splitlines(keepends=True)`.
 */
module Tokens {
  import opened Text

  /** Classes of `(\w+|\W+)`: word characters, everything else. */
  function Kind2(c: char): nat { if IsWordChar(c) then 0 else 1 }

  /** Classes of `(\w+|\s+|[^\w\s]+)`: word characters, whitespace, everything else. */
  function Kind3(c: char): nat { if IsWordChar(c) then 0 else if IsSpace(c) then 1 else 2 }

  /** Length of the run of characters of the class of `s[0]` at the start of `s`. */
  function RunLength(s: string, kind: char -> nat): (n: nat)
    requires s != []
    ensures 1 <= n <= |s|
    ensures forall j :: 0 <= j < n ==> kind(s[j]) == kind(s[0])
    ensures n == |s| || kind(s[n]) != kind(s[0])
    decreases |s|
  {
    if |s| == 1 || kind(s[1]) != kind(s[0]) then 1 else 1 + RunLength(s[1..], kind)
  }

  /** The maximal runs of one class, left to right: what `re.findall` returns for the patterns above. */
  function Runs(s: string, kind: char -> nat): seq<string>
    decreases |s|
  {
    if s == [] then []
    else
      var n := RunLength(s, kind);
      [s[..n]] + Runs(s[n..], kind)
  }

  /** Every token is non-empty and of one class. */
  predicate Uniform(ts: seq<string>, kind: char -> nat)
  {
    forall i :: 0 <= i < |ts| ==> ts[i] != [] && forall j :: 0 <= j < |ts[i]| ==> kind(ts[i][j]) == kind(ts[i][0])
  }

  /** Neighbouring tokens meet at characters of different classes. */
  predicate RunBoundaries(ts: seq<string>, kind: char -> nat)
  {
    forall i :: 0 <= i < |ts| - 1 ==> Meet(ts[i], ts[i + 1], kind)
  }

  /** `a` ends and `b` starts with characters of different classes. */
  predicate Meet(a: string, b: string, kind: char -> nat)
  {
    a != [] && b != [] && kind(a[|a| - 1]) != kind(b[0])
  }

  lemma {:induction false} RunsConcat(s: string, kind: char -> nat)
    ensures Concat(Runs(s, kind)) == s
    decreases |s|
  {
    if s != [] {
      var n := RunLength(s, kind);
      RunsConcat(s[n..], kind);
      ConcatPrefix(s, n, Runs(s[n..], kind));
    }
  }

  lemma {:induction false} RunsUniform(s: string, kind: char -> nat)
    ensures Uniform(Runs(s, kind), kind)
    ensures s != [] ==> Runs(s, kind) != [] && Runs(s, kind)[0] != [] && Runs(s, kind)[0][0] == s[0]
    decreases |s|
  {
    if s != [] {
      var n := RunLength(s, kind);
      RunsUniform(s[n..], kind);
      var ts := Runs(s, kind);
      assert ts[1..] == Runs(s[n..], kind);
      forall i | 0 <= i < |ts|
        ensures ts[i] != [] && forall j :: 0 <= j < |ts[i]| ==> kind(ts[i][j]) == kind(ts[i][0])
      {
        if i > 0 { assert ts[i] == ts[1..][i - 1]; }
      }
    }
  }

  lemma {:induction false} RunsMeet(s: string, kind: char -> nat)
    ensures RunBoundaries(Runs(s, kind), kind)
    decreases |s|
  {
    if s != [] {
      var n := RunLength(s, kind);
      var rest := Runs(s[n..], kind);
      RunsMeet(s[n..], kind);
      RunsUniform(s[n..], kind);
      var ts := Runs(s, kind);
      assert ts == [s[..n]] + rest;
      forall i | 0 <= i < |ts| - 1 ensures Meet(ts[i], ts[i + 1], kind) {
        if i == 0 {
          assert rest[0][0] == s[n];
        } else {
          assert ts[i] == rest[i - 1] && ts[i + 1] == rest[i];
        }
      }
    }
  }

  lemma RunsAreMaximal(s: string, kind: char -> nat)
    ensures Concat(Runs(s, kind)) == s
    ensures Uniform(Runs(s, kind), kind)
    ensures RunBoundaries(Runs(s, kind), kind)
  {
    RunsConcat(s, kind);
    RunsUniform(s, kind);
    RunsMeet(s, kind);
  }

  /** A token that `re.fullmatch(r'\w+', token)` accepts. */
  predicate IsWordToken(t: string)
  {
    t != [] && forall j :: 0 <= j < |t| ==> IsWordChar(t[j])
  }

  /** No two neighbouring tokens are both word tokens. */
  predicate NoAdjacentWords(ts: seq<string>)
  {
    forall i :: 0 <= i < |ts| - 1 ==> !(IsWordToken(ts[i]) && IsWordToken(ts[i + 1]))
  }

  /** A token is either a word token or free of word characters. */
  predicate Homogeneous(t: string)
  {
    t != [] && (IsWordToken(t) || forall j :: 0 <= j < |t| ==> !IsWordChar(t[j]))
  }

  /** A window of neighbouring tokens that are all word tokens (what the phrase matchers test). */
  predicate AllWords(ts: seq<string>)
  {
    forall i :: 0 <= i < |ts| ==> IsWordToken(ts[i])
  }

  /** Without adjacent word tokens, no window of two or more tokens consists only of words. */
  lemma LongWindowsNeverAllWords(ts: seq<string>, i: nat, n: nat)
    requires NoAdjacentWords(ts)
    requires 2 <= n && i + n <= |ts|
    ensures !AllWords(ts[i..i + n])
  {
    assert ts[i..i + n][0] == ts[i];
    assert ts[i..i + n][1] == ts[i + 1];
  }

  /** Word classes of Kind2 and Kind3 are exactly the word characters. */
  lemma KindsSeparateWords(c: char)
    ensures (Kind2(c) == 0 <==> IsWordChar(c)) && (Kind3(c) == 0 <==> IsWordChar(c))
  {
  }

  /** The tokens of `re.findall(r'(\w+|\W+)', text)`. */
  function WordRuns(text: string): seq<string>
  {
    Runs(text, Kind2)
  }

  /** `(\w+|\W+)` tokenization is lossless, and words never touch. */
  lemma {:induction false} WordRunsLossless(text: string)
    ensures Concat(WordRuns(text)) == text
    ensures forall i :: 0 <= i < |WordRuns(text)| ==> Homogeneous(WordRuns(text)[i])
    ensures NoAdjacentWords(WordRuns(text))
  {
    var ts := WordRuns(text);
    RunsAreMaximal(text, Kind2);
    forall i | 0 <= i < |ts| ensures Homogeneous(ts[i]) {
      if IsWordChar(ts[i][0]) {
        assert IsWordToken(ts[i]);
      } else {
        assert forall j :: 0 <= j < |ts[i]| ==> !IsWordChar(ts[i][j]);
      }
    }
    forall i | 0 <= i < |ts| - 1 ensures !(IsWordToken(ts[i]) && IsWordToken(ts[i + 1])) {
      assert Meet(ts[i], ts[i + 1], Kind2);
    }
  }

  /** The tokens `re.findall(r'(\w+|\s+|[^\w\s]+)', line)` returns for one line. */
  function LineRuns(line: string): seq<string>
  {
    Runs(line, Kind3)
  }

  lemma {:induction false} LineRunsMaximal(line: string)
    ensures Concat(LineRuns(line)) == line
    ensures forall i :: 0 <= i < |LineRuns(line)| ==> Homogeneous(LineRuns(line)[i])
    ensures NoAdjacentWords(LineRuns(line))
  {
    var ts := LineRuns(line);
    RunsAreMaximal(line, Kind3);
    forall i | 0 <= i < |ts| ensures Homogeneous(ts[i]) {
      if IsWordChar(ts[i][0]) {
        assert IsWordToken(ts[i]);
      } else {
        assert forall j :: 0 <= j < |ts[i]| ==> Kind3(ts[i][j]) != 0;
      }
    }
    forall i | 0 <= i < |ts| - 1 ensures !(IsWordToken(ts[i]) && IsWordToken(ts[i + 1])) {
      assert Meet(ts[i], ts[i + 1], Kind3);
    }
  }

  function Last(ts: seq<string>): string requires ts != [] { ts[|ts| - 1] }

  /** The last character of a concatenation of non-empty tokens is the last token's last character. */
  lemma {:induction false} ConcatLastChar(ts: seq<string>)
    requires ts != [] && forall i :: 0 <= i < |ts| ==> ts[i] != []
    ensures |Concat(ts)| >= |Last(ts)| > 0
    ensures Concat(ts)[|Concat(ts)| - 1] == Last(ts)[|Last(ts)| - 1]
    decreases |ts|
  {
    if |ts| > 1 {
      ConcatLastChar(ts[1..]);
      assert Last(ts[1..]) == Last(ts);
    } else {
      ConcatSingle(ts[0]);
    }
  }

  /** The line terminators `str.splitlines` recognises in ASCII: \n \r \v \f \x1c \x1d \x1e (and \r\n). */
  predicate IsLineBreak(c: char) { (10 <= c as int <= 13) || (28 <= c as int <= 30) }

  /** Length of the first line of `s`, terminator included. */
  function LineLength(s: string): (n: nat)
    requires s != []
    ensures 1 <= n <= |s|
    ensures n < |s| ==> IsLineBreak(s[n - 1])
    decreases |s|
  {
    if IsLineBreak(s[0]) then
      (if s[0] == '\r' && |s| > 1 && s[1] == '\n' then 2 else 1)
    else if |s| == 1 then 1
    else 1 + LineLength(s[1..])
  }

  /** `str.splitlines(keepends=True)` */
  function SplitLines(s: string): (lines: seq<string>)
    ensures forall i :: 0 <= i < |lines| ==> lines[i] != []
    decreases |s|
  {
    if s == [] then []
    else
      var n := LineLength(s);
      [s[..n]] + SplitLines(s[n..])
  }

  /** Lines give the text back, and every line but the last ends with a line break. */
  lemma {:induction false} SplitLinesLossless(s: string)
    ensures Concat(SplitLines(s)) == s
    ensures forall i :: 0 <= i < |SplitLines(s)| - 1 ==>
      IsLineBreak(SplitLines(s)[i][|SplitLines(s)[i]| - 1])
  {
    SplitLinesConcat(s);
    SplitLinesBreaks(s);
  }

  lemma {:induction false} SplitLinesConcat(s: string)
    ensures Concat(SplitLines(s)) == s
    decreases |s|
  {
    if s != [] {
      var n := LineLength(s);
      SplitLinesConcat(s[n..]);
      ConcatPrefix(s, n, SplitLines(s[n..]));
    }
  }

  lemma {:induction false} SplitLinesBreaks(s: string)
    ensures forall i :: 0 <= i < |SplitLines(s)| - 1 ==>
      IsLineBreak(SplitLines(s)[i][|SplitLines(s)[i]| - 1])
    decreases |s|
  {
    if s != [] {
      var n := LineLength(s);
      var lines := SplitLines(s);
      SplitLinesBreaks(s[n..]);
      assert lines[1..] == SplitLines(s[n..]);
      if n == |s| {
        assert SplitLines(s[n..]) == [];
      }
    }
  }

  function LowerAll(ts: seq<string>): (ls: seq<string>)
    ensures |ls| == |ts| && forall k :: 0 <= k < |ts| ==> ls[k] == Lower(ts[k])
  {
    seq(|ts|, k requires 0 <= k < |ts| => Lower(ts[k]))
  }

  /** The phrase a window of tokens spells, as the phrase matchers compare it: its tokens lower-cased and joined by single spaces. */
  function PhraseKey(window: seq<string>): string
  {
    JoinSpace(LowerAll(window))
  }
}
