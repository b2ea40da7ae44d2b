/**
 * Character classes, case mapping and string helpers, restricted to ASCII.
 *
 * These model the Python built-ins the translator relies on: `\w` and `\s`
 * in regular expressions, `str.lower`, `str.upper`, `str.capitalize`,
 * `str.isupper`, `str.istitle`, `str.split()`, `str.strip()` and `" ".join`.
 */
module Text {

  predicate IsUpperChar(c: char) { 'A' <= c <= 'Z' }
  predicate IsLowerChar(c: char) { 'a' <= c <= 'z' }
  predicate IsCased(c: char) { IsUpperChar(c) || IsLowerChar(c) }

  /** The regular-expression class `\w`: letters, digits and underscore. */
  predicate IsWordChar(c: char) { IsCased(c) || ('0' <= c <= '9') || c == '_' }

  /** The regular-expression class `\s` (and `str.isspace`): space, \t \n \v \f \r and \x1c-\x1f. */
  predicate IsSpace(c: char) { c == ' ' || (9 <= c as int <= 13) || (28 <= c as int <= 31) }

  function ToLowerChar(c: char): char { if IsUpperChar(c) then (c as int + 32) as char else c }
  function ToUpperChar(c: char): char { if IsLowerChar(c) then (c as int - 32) as char else c }

  /** `str.lower` */
  function Lower(s: string): string
  {
    seq(|s|, i requires 0 <= i < |s| => ToLowerChar(s[i]))
  }

  /** `str.upper` */
  function Upper(s: string): string
  {
    seq(|s|, i requires 0 <= i < |s| => ToUpperChar(s[i]))
  }

  /** `str.capitalize`: first character upper case, the rest lower case. */
  function Capitalize(s: string): string
  {
    if s == [] then [] else [ToUpperChar(s[0])] + Lower(s[1..])
  }

  /** `str.isupper`: some cased character, and no lower-case one. */
  predicate IsUpper(s: string)
  {
    (exists i :: 0 <= i < |s| && IsUpperChar(s[i])) && forall i :: 0 <= i < |s| ==> !IsLowerChar(s[i])
  }

  /**
   * The shape `str.istitle` scans for: an upper-case character may follow only
   * an uncased one, a lower-case character only a cased one.
   */
  predicate TitleShape(s: string, previousCased: bool)
    decreases |s|
  {
    if s == [] then true
    else if IsUpperChar(s[0]) then !previousCased && TitleShape(s[1..], true)
    else if IsLowerChar(s[0]) then previousCased && TitleShape(s[1..], true)
    else TitleShape(s[1..], false)
  }

  /** `str.istitle`: title shape and at least one cased character. */
  predicate IsTitle(s: string)
  {
    (exists i :: 0 <= i < |s| && IsCased(s[i])) && TitleShape(s, false)
  }

  predicate IsLowerCase(s: string) { forall i :: 0 <= i < |s| ==> !IsUpperChar(s[i]) }

  lemma LowerIsLowerCase(s: string)
    ensures IsLowerCase(Lower(s)) && |Lower(s)| == |s|
  {
  }

  lemma LowerOfLowerCase(s: string)
    requires IsLowerCase(s)
    ensures Lower(s) == s
  {
  }

  /** Lower, Upper and Capitalize are idempotent: applying one twice changes nothing more. */
  lemma CaseMappingsIdempotent(t: string)
    ensures Lower(Lower(t)) == Lower(t)
    ensures Upper(Upper(t)) == Upper(t)
    ensures Capitalize(Capitalize(t)) == Capitalize(t)
  {
    if t != [] {
      assert Capitalize(t)[1..] == Lower(t[1..]);
      assert Lower(Lower(t[1..])) == Lower(t[1..]);
    }
  }

  /** Concatenation of a sequence of strings, in order. */
  function Concat(ss: seq<string>): string
  {
    if ss == [] then [] else ss[0] + Concat(ss[1..])
  }

  lemma {:induction false} ConcatAppend(a: seq<string>, b: seq<string>)
    ensures Concat(a + b) == Concat(a) + Concat(b)
    decreases |a|
  {
    if a == [] {
      assert a + b == b;
    } else {
      assert (a + b)[1..] == a[1..] + b;
      ConcatAppend(a[1..], b);
    }
  }

  lemma ConcatSingle(s: string)
    ensures Concat([s]) == s
  {
    assert [s][1..] == [];
  }

  lemma ConcatCons(s: string, rest: seq<string>)
    ensures Concat([s] + rest) == s + Concat(rest)
  {
    assert ([s] + rest)[1..] == rest;
  }

  /** A prefix of `s` followed by pieces that spell the rest of `s` spells `s`. */
  lemma ConcatPrefix(s: string, n: nat, rest: seq<string>)
    requires n <= |s| && Concat(rest) == s[n..]
    ensures Concat([s[..n]] + rest) == s
  {
    ConcatCons(s[..n], rest);
    assert s == s[..n] + s[n..];
  }

  /** `" ".join(ws)` */
  function JoinSpace(ws: seq<string>): string
  {
    if ws == [] then [] else if |ws| == 1 then ws[0] else ws[0] + " " + JoinSpace(ws[1..])
  }

  predicate EndsWith(w: string, suffix: string)
  {
    |suffix| <= |w| && w[|w| - |suffix|..] == suffix
  }

  predicate StartsWith(w: string, prefix: string)
  {
    |prefix| <= |w| && w[..|prefix|] == prefix
  }

  /** A field of `str.split()`: non-empty and free of whitespace. */
  predicate IsField(w: string)
  {
    w != [] && forall i :: 0 <= i < |w| ==> !IsSpace(w[i])
  }

  /** Length of the whitespace-free run at the start of `s`. */
  function FieldLength(s: string): (n: nat)
    requires s != [] && !IsSpace(s[0])
    ensures 1 <= n <= |s|
    ensures forall j :: 0 <= j < n ==> !IsSpace(s[j])
    ensures n == |s| || IsSpace(s[n])
    decreases |s|
  {
    if |s| == 1 || IsSpace(s[1]) then 1 else 1 + FieldLength(s[1..])
  }

  /** `str.split()` with no argument: the maximal whitespace-free runs, in order. */
  function Split(s: string): (ws: seq<string>)
    ensures forall i :: 0 <= i < |ws| ==> IsField(ws[i])
    decreases |s|
  {
    if s == [] then []
    else if IsSpace(s[0]) then Split(s[1..])
    else
      var n := FieldLength(s);
      [s[..n]] + Split(s[n..])
  }

  lemma {:induction false} SplitField(w: string, t: string)
    requires IsField(w)
    requires t == [] || IsSpace(t[0])
    ensures Split(w + t) == [w] + Split(t)
  {
    var s := w + t;
    assert s[0] == w[0];
    FieldLengthOf(w, t);
    assert s[..|w|] == w;
    assert s[|w|..] == t;
  }

  lemma {:induction false} FieldLengthOf(w: string, t: string)
    requires IsField(w)
    requires t == [] || IsSpace(t[0])
    ensures FieldLength(w + t) == |w|
    decreases |w|
  {
    var s := w + t;
    if |w| == 1 {
      assert |s| == 1 || IsSpace(s[1]);
    } else {
      assert s[1..] == w[1..] + t;
      FieldLengthOf(w[1..], t);
    }
  }

  /** Splitting a space-joined list of fields gives the fields back. */
  lemma {:induction false} SplitJoinSpace(ws: seq<string>)
    requires forall i :: 0 <= i < |ws| ==> IsField(ws[i])
    ensures Split(JoinSpace(ws)) == ws
    decreases |ws|
  {
    if ws == [] {
    } else if |ws| == 1 {
      SplitField(ws[0], []);
      assert ws[0] + [] == ws[0];
    } else {
      var rest := JoinSpace(ws[1..]);
      assert JoinSpace(ws) == ws[0] + (" " + rest);
      SplitField(ws[0], " " + rest);
      assert (" " + rest)[1..] == rest;
      SplitJoinSpace(ws[1..]);
      assert ws == [ws[0]] + ws[1..];
    }
  }

  /** A string is blank when every character is whitespace (the empty string included). */
  predicate IsBlank(s: string) { forall i :: 0 <= i < |s| ==> IsSpace(s[i]) }

  function TrimLeft(s: string): string
  {
    if s != [] && IsSpace(s[0]) then TrimLeft(s[1..]) else s
  }

  function TrimRight(s: string): string
  {
    if s != [] && IsSpace(s[|s| - 1]) then TrimRight(s[..|s| - 1]) else s
  }

  /** `str.strip()` */
  function Strip(s: string): string { TrimRight(TrimLeft(s)) }

  lemma {:induction false} TrimLeftBlank(s: string)
    ensures TrimLeft(s) == [] <==> IsBlank(s)
    ensures TrimLeft(s) != [] ==> !IsSpace(TrimLeft(s)[0])
    decreases |s|
  {
    if s != [] && IsSpace(s[0]) {
      TrimLeftBlank(s[1..]);
      assert IsBlank(s) <==> IsBlank(s[1..]) by {
        if IsBlank(s[1..]) {
          forall i | 0 <= i < |s| ensures IsSpace(s[i]) {
            if i > 0 { assert s[i] == s[1..][i - 1]; }
          }
        }
        if IsBlank(s) {
          forall i | 0 <= i < |s[1..]| ensures IsSpace(s[1..][i]) {
            assert s[1..][i] == s[i + 1];
          }
        }
      }
    }
  }

  lemma {:induction false} TrimRightKeepsHead(s: string)
    requires s != [] && !IsSpace(s[0])
    ensures TrimRight(s) != []
    decreases |s|
  {
    if IsSpace(s[|s| - 1]) {
      TrimRightKeepsHead(s[..|s| - 1]);
    }
  }

  /** The source's "empty text" test `not text.strip()` holds exactly for blank text. */
  lemma StripEmptyIffBlank(s: string)
    ensures Strip(s) == [] <==> IsBlank(s)
  {
    TrimLeftBlank(s);
    if TrimLeft(s) != [] {
      TrimRightKeepsHead(TrimLeft(s));
    }
  }
}
