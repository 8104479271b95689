/** The escape pre-pass run over program text before it is scanned: a
    left-to-right, non-overlapping rewrite of the two-character sequences
    `\n`, `\r`, `\t`, `\\`, `\'` and `\"` into the character they denote. */
module Unbackslash {

  /** The characters that may follow a backslash in a rewritten pair. */
  predicate Escapable(c: char) {
    c == '\\' || c == 'r' || c == 'n' || c == 't' || c == '\'' || c == '"'
  }

  /** The character a pair `\c` stands for. */
  function Unescape(c: char): (d: char)
    requires Escapable(c)
    ensures c == 'n' ==> d == '\n'
    ensures c == 'r' ==> d == '\r'
    ensures c == 't' ==> d == '\t'
    ensures c != 'n' && c != 'r' && c != 't' ==> d == c
  {
    if c == 'n' then '\n' else if c == 'r' then '\r' else if c == 't' then '\t' else c
  }

  /** A rewritten pair starts at the front of `s`. */
  predicate PairAtFront(s: string) {
    |s| >= 2 && s[0] == '\\' && Escapable(s[1])
  }

  function Unbackslash(s: string): (r: string)
    decreases |s|
  {
    if |s| == 0 then ""
    else if PairAtFront(s) then [Unescape(s[1])] + Unbackslash(s[2..])
    else [s[0]] + Unbackslash(s[1..])
  }

  /** The number of pairs the scan rewrites. */
  function Rewrites(s: string): nat
    decreases |s|
  {
    if |s| == 0 then 0
    else if PairAtFront(s) then 1 + Rewrites(s[2..])
    else Rewrites(s[1..])
  }

  /** Each rewrite replaces two characters by one, so the output is shorter
      by exactly the number of rewrites, and never longer than the input. */
  lemma {:induction false} ShortensByRewrites(s: string)
    ensures |Unbackslash(s)| == |s| - Rewrites(s)
    ensures 2 * Rewrites(s) <= |s|
    decreases |s|
  {
    if |s| == 0 {
    } else if PairAtFront(s) {
      ShortensByRewrites(s[2..]);
    } else {
      ShortensByRewrites(s[1..]);
    }
  }

  /** Text without a backslash is left unchanged. */
  lemma {:induction false} NoBackslashUnchanged(s: string)
    requires forall i :: 0 <= i < |s| ==> s[i] != '\\'
    ensures Unbackslash(s) == s
    ensures Rewrites(s) == 0
    decreases |s|
  {
    if |s| > 0 {
      NoBackslashUnchanged(s[1..]);
      assert [s[0]] + s[1..] == s;
    }
  }

  /** A backslash before any other character is kept, and so is that
      character, which is scanned afresh. */
  lemma OtherEscapeKept(c: char, rest: string)
    requires !Escapable(c)
    ensures Unbackslash(['\\', c] + rest) == ['\\', c] + Unbackslash(rest)
  {
    var s := ['\\', c] + rest;
    assert s[1..] == [c] + rest;
    assert ([c] + rest)[1..] == rest;
  }

  /** The named escapes. */
  lemma NamedEscapes(rest: string)
    ensures Unbackslash("\\n" + rest) == "\n" + Unbackslash(rest)
    ensures Unbackslash("\\r" + rest) == "\r" + Unbackslash(rest)
    ensures Unbackslash("\\t" + rest) == "\t" + Unbackslash(rest)
    ensures Unbackslash("\\\\" + rest) == "\\" + Unbackslash(rest)
    ensures Unbackslash("\\'" + rest) == "'" + Unbackslash(rest)
    ensures Unbackslash("\\\"" + rest) == "\"" + Unbackslash(rest)
  {
    assert ("\\n" + rest)[2..] == rest;
    assert ("\\r" + rest)[2..] == rest;
    assert ("\\t" + rest)[2..] == rest;
    assert ("\\\\" + rest)[2..] == rest;
    assert ("\\'" + rest)[2..] == rest;
    assert ("\\\"" + rest)[2..] == rest;
  }

  /** Matching is non-overlapping: in `\\n` the first pair consumes both
      backslashes, so the result is a backslash and the letter `n`, not a
      newline. */
  lemma NonOverlapping()
    ensures Unbackslash("\\\\n") == "\\n"
  {
    NamedEscapes("n");
    NoBackslashUnchanged("n");
  }

  /** The text whose unescaping is `s`: every backslash, newline, carriage
      return and tab written as its escape pair. */
  function Escape(s: string): (r: string)
    ensures |r| >= |s|
  {
    if |s| == 0 then ""
    else EscapeChar(s[0]) + Escape(s[1..])
  }

  function EscapeChar(c: char): (r: string)
    ensures |r| >= 1
  {
    if c == '\\' then "\\\\"
    else if c == '\n' then "\\n"
    else if c == '\r' then "\\r"
    else if c == '\t' then "\\t"
    else [c]
  }

  /** Unescaping undoes escaping, whatever the text. */
  lemma {:induction false} EscapeRoundTrip(s: string)
    ensures Unbackslash(Escape(s)) == s
    decreases |s|
  {
    if |s| > 0 {
      var c, rest := s[0], Escape(s[1..]);
      EscapeRoundTrip(s[1..]);
      assert Escape(s) == EscapeChar(c) + rest;
      if c == '\\' || c == '\n' || c == '\r' || c == '\t' {
        NamedEscapes(rest);
      } else {
        assert ([c] + rest)[1..] == rest;
      }
      assert [c] + s[1..] == s;
    }
  }

  /** The same scan as a loop over positions. */
  method Scan(s: string) returns (r: string)
    ensures r == Unbackslash(s)
  {
    r := "";
    var i := 0;
    while i < |s|
      invariant 0 <= i <= |s|
      invariant r + Unbackslash(s[i..]) == Unbackslash(s)
      decreases |s| - i
    {
      if PairAtFront(s[i..]) {
        assert s[i..][2..] == s[i + 2..];
        r := r + [Unescape(s[i + 1])];
        i := i + 2;
      } else {
        assert s[i..][1..] == s[i + 1..];
        r := r + [s[i]];
        i := i + 1;
      }
    }
  }
}
