/** The parser's view of the token queue: the front token, one token of
    lookahead, and the two ways of consuming it.

    A queue produced by the scanner holds exactly one EOF token, at its end.
    The parser never consumes EOF without failing, so every queue it looks
    at is `Terminated`.
 */
module Cursor {
  import opened Wrappers
  import opened Lexer

  /** Exactly one EOF token, the scanner's, and it comes last. */
  predicate Terminated(toks: seq<Token>) {
    && |toks| > 0
    && toks[|toks| - 1] == EofToken
    && forall i :: 0 <= i < |toks| - 1 ==> toks[i].kind != EOF
  }

  /** `not_eof`: the front token is not EOF. */
  function NotEof(toks: seq<Token>): (b: bool)
    requires Terminated(toks)
    ensures b <==> |toks| > 1
    ensures !b ==> toks == [EofToken]
  {
    toks[0].kind != EOF
  }

  /** `at`: the front token, left in place. */
  function At(toks: seq<Token>): (t: Token)
    requires |toks| > 0
    ensures t in toks
  {
    toks[0]
  }

  /** `la`: the token after the front one, when there is one. */
  function La(toks: seq<Token>): (r: Option<Token>)
    ensures r.Some? <==> |toks| > 1
    ensures r.Some? ==> toks == [toks[0], r.value] + toks[2..]
  {
    if |toks| > 1 then Some(toks[1]) else None
  }

  /** `eat`: the front token and the queue without it. Eating anything
      but the EOF keeps the queue terminated. */
  function Eat(toks: seq<Token>): (r: (Token, seq<Token>))
    requires |toks| > 0
    ensures [r.0] + r.1 == toks
    ensures Terminated(toks) && toks[0] != EofToken ==> Terminated(r.1)
  {
    (toks[0], toks[1..])
  }

  /** `expect`: like `eat`, but a missing front token or one of another
      kind aborts the parse. */
  function Expect(toks: seq<Token>, kind: TokenType): (r: Result<(Token, seq<Token>)>)
    ensures r.Ok? <==> |toks| > 0 && toks[0].kind == kind
    ensures r.Ok? ==> [r.value.0] + r.value.1 == toks
    ensures r.Ok? && Terminated(toks) && kind != EOF ==> Terminated(r.value.1)
  {
    if |toks| == 0 || toks[0].kind != kind then Err(ParseError("unexpected token"))
    else Ok(Eat(toks))
  }

  /** A scanned token list is a terminated queue. */
  lemma {:induction false} ScannedIsTerminated(toks: seq<Token>)
    requires |toks| > 0 && toks[|toks| - 1] == EofToken
    requires forall i :: 0 <= i < |toks| - 1 ==> WellShaped(toks[i])
    ensures Terminated(toks)
  {
    forall i | 0 <= i < |toks| - 1
      ensures toks[i].kind != EOF
    {
      assert WellShaped(toks[i]);
    }
  }
}
