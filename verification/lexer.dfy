/** The scanner: one left-to-right pass over the source characters, one
    loop iteration at a time, producing tokens tagged with their line and
    file name, and a final EOF token. */
module Lexer {
  import opened Wrappers

  datatype TokenType =
    | Null | Number | Identifier | Semicolon | Dot | StringMark
    | Let | Const | Fn | Native | NativeBlock | Export | Import
    | If | Else | While | For | Foreach | Break | Continue | Return | Negation
    | BinaryOperator | Equals | Comma | Colon
    | OpenParen | CloseParen | OpenBrace | CloseBrace | OpenBracket | CloseBracket
    | EOF

  datatype Token = Token(value: string, kind: TokenType, line: int, file: string)

  /** The fixed keyword table. */
  const KEYWORDS: map<string, TokenType> := map[
    "let" := Let, "const" := Const, "fn" := Fn, "if" := If, "while" := While,
    "for" := For, "break" := Break, "continue" := Continue, "return" := Return,
    "else" := Else, "native" := Native, "foreach" := Foreach,
    "export" := Export, "import" := Import]

  const FILE_MARKER: string := "###file:"

  /** The token appended after all input is consumed. */
  const EofToken: Token := Token("EndOfFile", EOF, -1, "EOF")

  predicate IsAscii(s: string) {
    forall i :: 0 <= i < |s| ==> s[i] < 128 as char
  }

  predicate IsDigit(c: char) { '0' <= c <= '9' }

  /** `isalpha` on an ASCII character: upper and lower case differ. */
  predicate IsAlpha(c: char) { 'A' <= c <= 'Z' || 'a' <= c <= 'z' }

  predicate IsAlphanumeric(c: char) { IsDigit(c) || IsAlpha(c) || c == '_' }

  predicate IsInt(c: char) { IsDigit(c) }

  predicate IsNumber(c: char) { c == '.' || IsDigit(c) }

  predicate IsSkippable(c: char) { c == ' ' || c == '\t' || c == '\n' || c == '\r' }

  /** `startsWith` demands strictly more input than the prefix. */
  predicate StartsWith(src: string, prefix: string) {
    |src| > |prefix| && src[..|prefix|] == prefix
  }

  /** Scanner state carried between iterations. */
  datatype LexState = LexState(inComment: bool, line: int, file: string)

  const Initial: LexState := LexState(false, 1, "single-file")

  /** One iteration: the tokens it emitted (none or one), the unread input,
      and the new state. */
  datatype StepOut = StepOut(emitted: seq<Token>, rest: string, state: LexState)

  /** `src.shift()` appended to a string: JavaScript renders the missing
      character of an empty queue as the text "undefined". */
  function ShiftText(s: string): string {
    if |s| == 0 then "undefined" else [s[0]]
  }

  /** `src.shift()` whose result is discarded. */
  function Drop1(s: string): (r: string)
    ensures |r| <= |s|
    ensures |s| > 0 ==> |r| == |s| - 1
  {
    if |s| == 0 then s else s[1..]
  }

  /** Body of a string literal: characters up to (not including) the next
      unescaped double quote. A backslash is dropped, the character after
      it is kept, and one more character is appended unconditionally. */
  function ReadString(s: string): (r: (string, string))
    ensures |r.1| <= |s|
    ensures |r.1| > 0 ==> r.1[0] == '"'
    decreases |s|
  {
    if |s| == 0 || s[0] == '"' then ("", s)
    else if s[0] == '\\' then
      var s2 := Drop1(s[1..]);
      var r := ReadString(Drop1(s2));
      (ShiftText(s[1..]) + ShiftText(s2) + r.0, r.1)
    else
      var r := ReadString(s[1..]);
      ([s[0]] + r.0, r.1)
  }

  /** Length of the longest prefix whose characters satisfy `p`. */
  function Span(s: string, p: char -> bool): (n: nat)
    ensures n <= |s|
    ensures forall i :: 0 <= i < n ==> p(s[i])
    ensures n < |s| ==> !p(s[n])
    decreases |s|
  {
    if |s| > 0 && p(s[0]) then 1 + Span(s[1..], p) else 0
  }

  /** Length of a native block's text: up to the next `%%`, or up to the
      last remaining character when no `%%` closes it. */
  function NativeSpan(s: string): (n: nat)
    ensures n <= |s| && (|s| > 0 ==> n < |s|)
    ensures n + 1 < |s| ==> s[n] == '%' && s[n + 1] == '%'
    ensures forall i :: 0 <= i < n ==> !(s[i] == '%' && s[i + 1] == '%')
    decreases |s|
  {
    if |s| > 1 && !(s[0] == '%' && s[1] == '%') then 1 + NativeSpan(s[1..]) else 0
  }

  predicate NotHash(c: char) { c != '#' }

  /** The `###file:NAME#` directive at the head of an iteration: it sets the
      file name and consumes one newline right after the closing `#`. */
  function FileMarker(src: string, st: LexState): (r: (string, LexState))
    ensures |r.0| <= |src|
    ensures StartsWith(src, FILE_MARKER) ==> |r.0| < |src|
    ensures !StartsWith(src, FILE_MARKER) ==> r == (src, st)
  {
    if |src| > 8 && StartsWith(src, FILE_MARKER) then
      var tail := src[8..];
      var k := Span(tail, NotHash);
      var s3 := Drop1(tail[k..]);
      var s4 := if |s3| > 0 && s3[0] == '\n' then s3[1..] else s3;
      (s4, st.(file := tail[..k]))
    else (src, st)
  }

  /** Operator texts the scanner emits. `>=` and `<=` are not among them. */
  const BINARY_OPERATORS: set<string> := {"+", "-", "*", "/", "%", ">", "<", "++", "--", "==", "!="}

  /** What a token of each kind looks like. */
  predicate WellShaped(t: Token) {
    match t.kind
    case Number =>
      |t.value| > 0 && IsDigit(t.value[0]) && forall i :: 0 <= i < |t.value| ==> IsNumber(t.value[i])
    case Identifier =>
      && |t.value| > 0 && IsAlpha(t.value[0])
      && (forall i :: 0 <= i < |t.value| ==> IsAlphanumeric(t.value[i]))
      && t.value !in KEYWORDS
    case BinaryOperator => t.value in BINARY_OPERATORS
    case Negation => t.value == "!"
    case Equals => t.value == "="
    case Semicolon => t.value == ";"
    case Colon => t.value == ":"
    case Comma => t.value == ","
    case Dot => t.value == "."
    case OpenParen => t.value == "("
    case CloseParen => t.value == ")"
    case OpenBrace => t.value == "{"
    case CloseBrace => t.value == "}"
    case OpenBracket => t.value == "["
    case CloseBracket => t.value == "]"
    case StringMark => true
    case NativeBlock => true
    case Null => false
    case EOF => false
    case _ => t.value in KEYWORDS && KEYWORDS[t.value] == t.kind
  }

  /** The outcome of an iteration that consumed input: the emitted tokens
      are well shaped and the rest is a proper suffix of the input. */
  predicate Advances(src: string, o: StepOut) {
    && |o.emitted| <= 1
    && (forall t | t in o.emitted :: WellShaped(t))
    && |o.rest| < |src|
  }

  /** Every emitted token carries the line and file of the state. */
  predicate Stamped(o: StepOut) {
    forall t | t in o.emitted :: t.line == o.state.line && t.file == o.state.file
  }

  function Emit(value: string, kind: TokenType, rest: string, st: LexState): StepOut {
    StepOut([Token(value, kind, st.line, st.file)], rest, st)
  }

  /** Single-character punctuation recognised first. */
  function PunctKind(c: char): (r: Option<TokenType>)
    ensures r.Some? ==> WellShaped(Token([c], r.value, 0, ""))
  {
    if c == '(' then Some(OpenParen)
    else if c == ')' then Some(CloseParen)
    else if c == '{' then Some(OpenBrace)
    else if c == '}' then Some(CloseBrace)
    else if c == '[' then Some(OpenBracket)
    else if c == ']' then Some(CloseBracket)
    else if c == '.' then Some(Dot)
    else None
  }

  /** Assignment and separators, recognised after the operators. */
  function SeparatorKind(c: char): (r: Option<TokenType>)
    ensures r.Some? ==> WellShaped(Token([c], r.value, 0, ""))
  {
    if c == '=' then Some(Equals)
    else if c == ';' then Some(Semicolon)
    else if c == ':' then Some(Colon)
    else if c == ',' then Some(Comma)
    else None
  }

  predicate IsSingleOperator(c: char) {
    c == '+' || c == '-' || c == '*' || c == '/' || c == '%' || c == '>' || c == '<'
  }

  predicate PairAt(src: string, a: char, b: char) {
    |src| > 1 && src[0] == a && src[1] == b
  }

  /** `%%...%%`: one native-block token with the text between the delimiters. */
  function NativeStep(src: string, st: LexState): (r: StepOut)
    requires PairAt(src, '%', '%')
    ensures Advances(src, r) && r.state == st && Stamped(r)
  {
    var text := src[2..];
    var k := NativeSpan(text);
    Emit(text[..k], NativeBlock, Drop1(Drop1(text[k..])), st)
  }

  /** A double-quoted string literal; the closing quote, if any, is dropped. */
  function StringStep(src: string, st: LexState): (r: StepOut)
    requires |src| > 0 && src[0] == '"'
    ensures Advances(src, r) && r.state == st && Stamped(r)
  {
    var t := ReadString(src[1..]);
    Emit(t.0, StringMark, Drop1(t.1), st)
  }

  /** A digit followed by digits and dots. */
  function NumberStep(src: string, st: LexState): (r: StepOut)
    requires |src| > 0 && IsInt(src[0])
    ensures Advances(src, r) && r.state == st && Stamped(r)
  {
    var k := Span(src, IsNumber);
    Emit(src[..k], Number, src[k..], st)
  }

  /** A letter followed by letters, digits and underscores: a keyword when
      listed, else an identifier. */
  function WordStep(src: string, st: LexState): (r: StepOut)
    requires |src| > 0 && IsAlpha(src[0])
    ensures Advances(src, r) && r.state == st && Stamped(r)
  {
    var k := Span(src, IsAlphanumeric);
    var word := src[..k];
    if word in KEYWORDS then Emit(word, KEYWORDS[word], src[k..], st)
    else Emit(word, Identifier, src[k..], st)
  }

  /** Token dispatch on a non-empty input outside a comment, in the
      host's branch order. */
  function Dispatch(src: string, st: LexState): (r: Result<StepOut>)
    requires |src| > 0
    ensures r.Ok? ==> Advances(src, r.value) && r.value.state == st && Stamped(r.value)
  {
    var c := src[0];
    if PunctKind(c).Some? then Ok(Emit([c], PunctKind(c).value, src[1..], st))
    else if PairAt(src, '+', '+') || PairAt(src, '-', '-') then Ok(Emit([c, c], BinaryOperator, src[2..], st))
    else if PairAt(src, '%', '%') then Ok(NativeStep(src, st))
    else if IsSingleOperator(c) then Ok(Emit([c], BinaryOperator, src[1..], st))
    else if PairAt(src, '=', '=') || PairAt(src, '!', '=') then Ok(Emit([c, '='], BinaryOperator, src[2..], st))
    // The host's `>=` and `<=` branches come here, after the branch that
    // already took every `>` and `<`; they can never fire and are left out.
    else if SeparatorKind(c).Some? then Ok(Emit([c], SeparatorKind(c).value, src[1..], st))
    else if c == '"' then Ok(StringStep(src, st))
    else if c == '!' then Ok(Emit("!", Negation, src[1..], st))
    else if IsInt(c) then Ok(NumberStep(src, st))
    else if IsAlpha(c) then Ok(WordStep(src, st))
    else if IsSkippable(c) then Ok(StepOut([], src[1..], st))
    else Err(LexError(c, st.file, st.line))
  }

  /** The part of an iteration after the file directive: line counting,
      comments, then token dispatch. */
  function Body(src: string, st: LexState): (r: Result<StepOut>)
    ensures r.Ok? && |src| > 0 ==> Advances(src, r.value)
    ensures r.Ok? && |src| == 0 ==> r.value.emitted == [] && r.value.rest == src
    ensures r.Ok? ==> r.value.state.line == st.line + (if |src| > 0 && src[0] == '\n' then 1 else 0)
    ensures r.Ok? ==> r.value.state.file == st.file && Stamped(r.value)
  {
    var line := if |src| > 0 && src[0] == '\n' then st.line + 1 else st.line;
    var st1 := st.(line := line);
    if |src| > 1 && src[0] == '/' && src[1] == '/' then
      Ok(StepOut([], src[2..], st1.(inComment := true)))
    else
      var ends := st1.inComment && |src| > 0 && (src[0] == '\n' || src[0] == '\r');
      var st2 := if ends then st1.(inComment := false) else st1;
      if st2.inComment then Ok(StepOut([], Drop1(src), st2))
      else if |src| == 0 then Err(TypeError("isint of a missing character"))
      else Dispatch(src, st2)
  }

  /** One iteration of the scanning loop. */
  function Step(src: string, st: LexState): (r: Result<StepOut>)
    requires |src| > 0
    ensures r.Ok? ==> Advances(src, r.value)
  {
    var m := FileMarker(src, st);
    Body(m.0, m.1)
  }

  /** The loop: iterate until the input is exhausted, concatenating the
      emitted tokens. */
  function Scan(src: string, st: LexState): (r: Result<seq<Token>>)
    ensures r.Ok? ==> forall t | t in r.value :: WellShaped(t)
    decreases |src|
  {
    if |src| == 0 then Ok([])
    else
      var o :- Step(src, st);
      var ts :- Scan(o.rest, o.state);
      Ok(o.emitted + ts)
  }

  /** `tokenize`: the scanned tokens followed by exactly one EOF token.
      An empty text is split into one empty character, which the scanner
      rejects like any unrecognised character. */
  function Tokenize(src: string): (r: Result<seq<Token>>)
    requires IsAscii(src)
    ensures r.Ok? ==> |src| > 0
    ensures r.Ok? ==> |r.value| > 0 && r.value[|r.value| - 1] == EofToken
    ensures r.Ok? ==> forall i :: 0 <= i < |r.value| - 1 ==> WellShaped(r.value[i])
  {
    if |src| == 0 then Err(EmptySource)
    else
      var ts :- Scan(src, Initial);
      Ok(ts + [EofToken])
  }
}
