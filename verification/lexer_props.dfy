/** Properties of the scanner: the priority of two-character operators,
    comments, line counting, string escapes, the file directive, native
    blocks, words and numbers. */
module LexerProps {
  import opened Wrappers
  import opened Lexer

  /** `tokenize` never emits an operator token reading `>=` or `<=`: the
      scanner splits them into a relational operator and `=`. */
  lemma NoCompoundRelational(src: string)
    requires IsAscii(src)
    ensures var r := Tokenize(src);
      r.Ok? ==> forall t | t in r.value && t.kind == BinaryOperator :: t.value != ">=" && t.value != "<="
  {
    var r := Tokenize(src);
    if r.Ok? {
      forall t | t in r.value && t.kind == BinaryOperator
        ensures t.value != ">=" && t.value != "<="
      {
        var i :| 0 <= i < |r.value| && r.value[i] == t;
        assert i < |r.value| - 1;
        OperatorShape(t);
      }
    }
  }

  lemma OperatorShape(t: Token)
    requires WellShaped(t) && t.kind == BinaryOperator
    ensures t.value != ">=" && t.value != "<="
  {
    assert ">=" !in BINARY_OPERATORS && "<=" !in BINARY_OPERATORS;
  }

  /** Only input starting with `#` can hold a file directive. */
  lemma NotMarker(src: string)
    requires |src| > 0 && src[0] != '#'
    ensures !StartsWith(src, FILE_MARKER)
  {
    if |src| > 8 {
      assert src[..8][0] == src[0];
    }
  }

  /** Outside a comment, at a character that is neither `#`, a newline nor
      the start of `//`, an iteration is plain token dispatch. */
  lemma StepIsDispatch(src: string, st: LexState)
    requires |src| > 0 && !st.inComment
    requires src[0] != '#' && src[0] != '\n' && !(|src| > 1 && src[0] == '/' && src[1] == '/')
    ensures Step(src, st) == Dispatch(src, st)
  {
    NotMarker(src);
  }

  /** The string, native-block, number and word branches of dispatch. */
  lemma DispatchString(src: string, st: LexState)
    requires |src| > 0 && src[0] == '"'
    ensures Dispatch(src, st) == Ok(StringStep(src, st))
  {
    assert PunctKind(src[0]).None? && SeparatorKind(src[0]).None? && !IsSingleOperator(src[0]);
  }

  lemma DispatchNative(src: string, st: LexState)
    requires PairAt(src, '%', '%')
    ensures Dispatch(src, st) == Ok(NativeStep(src, st))
  {
    assert PunctKind(src[0]).None? && !PairAt(src, '+', '+') && !PairAt(src, '-', '-');
  }

  lemma DispatchNumber(src: string, st: LexState)
    requires |src| > 0 && IsDigit(src[0])
    ensures Dispatch(src, st) == Ok(NumberStep(src, st))
  {
  }

  lemma DispatchWord(src: string, st: LexState)
    requires |src| > 0 && IsAlpha(src[0])
    ensures Dispatch(src, st) == Ok(WordStep(src, st))
  {
  }

  /** Outside a comment, `//` opens one and emits nothing. */
  lemma OpensComment(src: string, st: LexState)
    requires PairAt(src, '/', '/') && !st.inComment
    ensures Step(src, st) == Ok(StepOut([], src[2..], st.(inComment := true)))
  {
    NotMarker(src);
  }

  /** Two-character operators win over their one-character prefixes. */
  lemma TwoCharOperatorFirst(src: string, st: LexState)
    requires !st.inComment
    requires PairAt(src, '+', '+') || PairAt(src, '-', '-') || PairAt(src, '=', '=') || PairAt(src, '!', '=')
    ensures Step(src, st) == Ok(StepOut([Token([src[0], src[1]], BinaryOperator, st.line, st.file)], src[2..], st))
  {
    StepIsDispatch(src, st);
    if PairAt(src, '=', '=') || PairAt(src, '!', '=') {
      assert !IsSingleOperator(src[0]) && PunctKind(src[0]).None?;
    }
  }

  /** `>` and `<` are always single-character operators, whatever follows. */
  lemma RelationalIsOneChar(src: string, st: LexState)
    requires |src| > 0 && !st.inComment
    requires src[0] == '>' || src[0] == '<'
    ensures Step(src, st) == Ok(StepOut([Token([src[0]], BinaryOperator, st.line, st.file)], src[1..], st))
  {
    StepIsDispatch(src, st);
    assert PunctKind(src[0]).None? && IsSingleOperator(src[0]);
    assert !PairAt(src, '+', '+') && !PairAt(src, '-', '-') && !PairAt(src, '%', '%');
  }

  /** A `-` not followed by another `-` is an operator token of its own;
      digits after it form a separate number token. */
  lemma MinusIsSeparate(src: string, st: LexState)
    requires |src| > 0 && !st.inComment
    requires src[0] == '-' && (|src| == 1 || src[1] != '-')
    ensures Step(src, st) == Ok(StepOut([Token("-", BinaryOperator, st.line, st.file)], src[1..], st))
  {
    StepIsDispatch(src, st);
  }

  /** Characters that can stop a comment or start a file directive. */
  predicate CommentText(c: string) {
    forall i :: 0 <= i < |c| ==> c[i] != '\n' && c[i] != '\r' && c[i] != '#'
  }

  /** Inside a comment an iteration emits nothing and keeps the state; it
      consumes two characters at a nested `//`, one otherwise. */
  lemma StepInComment(src: string, st: LexState)
    requires |src| > 0 && st.inComment
    requires src[0] != '\n' && src[0] != '\r' && src[0] != '#'
    ensures Step(src, st)
         == Ok(StepOut([], if |src| > 1 && src[0] == '/' && src[1] == '/' then src[2..] else src[1..], st))
  {
    NotMarker(src);
  }

  /** An iteration that emits nothing contributes nothing to the scan. */
  lemma SilentStep(src: string, st: LexState, rest: string, st2: LexState)
    requires |src| > 0 && Step(src, st) == Ok(StepOut([], rest, st2))
    ensures Scan(src, st) == Scan(rest, st2)
  {
    var ts := Scan(rest, st2);
    if ts.Ok? {
      assert [] + ts.value == ts.value;
    }
  }

  /** Characters one in-comment iteration consumes from `c`. */
  function CommentWidth(c: string): (k: nat)
    requires |c| > 0
    ensures 1 <= k <= 2 && k <= |c|
  {
    if |c| > 1 && c[0] == '/' && c[1] == '/' then 2 else 1
  }

  lemma CommentStepSplit(c: string, tail: string, st: LexState)
    requires st.inComment && CommentText(c) && |c| > 0
    requires |tail| == 0 || tail[0] == '\n' || tail[0] == '\r'
    ensures Step(c + tail, st) == Ok(StepOut([], c[CommentWidth(c)..] + tail, st))
  {
    var src := c + tail;
    var k := CommentWidth(c);
    assert Step(src, st) == Ok(StepOut([], src[k..], st)) by {
      assert src[0] == c[0];
      assert (|src| > 1 && src[0] == '/' && src[1] == '/') <==> k == 2 by {
        if |c| > 1 {
          assert src[1] == c[1];
        } else if |src| > 1 {
          assert src[1] == tail[0];
        }
      }
      StepInComment(src, st);
    }
    assert src[k..] == c[k..] + tail;
  }

  lemma CommentStep(c: string, tail: string, st: LexState)
    requires st.inComment && CommentText(c) && |c| > 0
    requires |tail| == 0 || tail[0] == '\n' || tail[0] == '\r'
    ensures Scan(c + tail, st) == Scan(c[CommentWidth(c)..] + tail, st)
  {
    CommentStepSplit(c, tail, st);
    SilentStep(c + tail, st, c[CommentWidth(c)..] + tail, st);
  }

  /** Inside a comment, text without newline, carriage return or `#` is
      consumed without tokens and without changing the state. */
  lemma {:induction false} CommentSkips(c: string, tail: string, st: LexState)
    requires st.inComment && CommentText(c)
    requires |tail| == 0 || tail[0] == '\n' || tail[0] == '\r'
    ensures Scan(c + tail, st) == Scan(tail, st)
    decreases |c|
  {
    if |c| > 0 {
      CommentStep(c, tail, st);
      CommentSkips(c[CommentWidth(c)..], tail, st);
    } else {
      assert c + tail == tail;
    }
  }

  /** `//` starts a comment: the iteration emits nothing and the rest of
      the scan continues in comment mode (see `CommentSkips` for what
      follows). */
  lemma OpensCommentScan(src: string, st: LexState)
    requires PairAt(src, '/', '/') && !st.inComment
    ensures Scan(src, st) == Scan(src[2..], st.(inComment := true))
  {
    OpensComment(src, st);
    SilentStep(src, st, src[2..], st.(inComment := true));
  }

  /** The newline or carriage return that ends a comment is consumed as
      whitespace by the same iteration; a newline counts one line. */
  lemma CommentEnds(src: string, st: LexState)
    requires |src| > 0 && st.inComment
    requires src[0] == '\n' || src[0] == '\r'
    ensures Step(src, st) == Ok(StepOut([], src[1..],
      st.(inComment := false, line := if src[0] == '\n' then st.line + 1 else st.line)))
  {
    NotMarker(src);
  }

  /** Text with no double quote and no backslash. */
  predicate PlainText(s: string) {
    forall i :: 0 <= i < |s| ==> s[i] != '"' && s[i] != '\\'
  }

  lemma {:induction false} ReadPlain(body: string, rest: string)
    requires PlainText(body) && |rest| > 0 && rest[0] == '"'
    ensures ReadString(body + rest) == (body, rest)
    decreases |body|
  {
    var s := body + rest;
    if |body| > 0 {
      assert s[0] == body[0];
      assert s[1..] == body[1..] + rest;
      ReadPlain(body[1..], rest);
      assert [body[0]] + body[1..] == body;
    } else {
      assert s == rest;
    }
  }

  /** A plain string literal yields its text between the quotes; newlines
      inside it are not counted. */
  lemma PlainStringLiteral(body: string, rest: string, st: LexState)
    requires PlainText(body) && !st.inComment
    ensures Step("\"" + body + "\"" + rest, st)
         == Ok(StepOut([Token(body, StringMark, st.line, st.file)], rest, st))
  {
    var src := "\"" + body + "\"" + rest;
    assert src[0] == '"';
    StepIsDispatch(src, st);
    DispatchString(src, st);
    StringBody(body, rest, st);
  }

  lemma StringBody(body: string, rest: string, st: LexState)
    requires PlainText(body)
    ensures StringStep("\"" + body + "\"" + rest, st) == Emit(body, StringMark, rest, st)
  {
    var src := "\"" + body + "\"" + rest;
    assert src[1..] == body + ("\"" + rest);
    ReadPlain(body, "\"" + rest);
    assert Drop1("\"" + rest) == rest;
  }

  /** A backslash is dropped, the next character kept, and one more
      character taken unconditionally, even a closing quote. */
  lemma Escape(x: char, y: char, more: string)
    ensures ReadString(['\\', x, y] + more)
         == ([x, y] + ReadString(more).0, ReadString(more).1)
  {
    var s := ['\\', x, y] + more;
    assert s[0] == '\\';
    assert s[1..] == [x, y] + more;
    assert ShiftText(s[1..]) == [x];
    var s2 := Drop1(s[1..]);
    assert s2 == [y] + more;
    assert ShiftText(s2) == [y];
    assert Drop1(s2) == more;
    assert [x] + [y] + ReadString(more).0 == [x, y] + ReadString(more).0;
  }

  /** An escape as the last character of the input appends the escaped
      character and then the missing one, read as the text "undefined";
      an escaped closing quote is thus swallowed. */
  lemma EscapeAtEnd(x: char)
    ensures ReadString(['\\', x]) == ([x] + "undefined", [])
  {
    var s := ['\\', x];
    var s2 := Drop1(s[1..]);
    assert s2 == [];
    assert ReadString(Drop1(s2)) == ("", []);
    assert ShiftText(s[1..]) == [x];
    assert ShiftText(s2) == "undefined";
    assert [x] + "undefined" + "" == [x] + "undefined";
  }

  /** An empty program text is rejected by the scanner. */
  lemma EmptySourceRejected()
    ensures Tokenize("") == Err(EmptySource)
  {
  }

  /** The span of `p` over `pre + rest` is exactly `pre` when the
      character after it fails `p`. */
  lemma SpanSplit(pre: string, rest: string, p: char -> bool)
    requires forall i :: 0 <= i < |pre| ==> p(pre[i])
    requires |rest| == 0 || !p(rest[0])
    ensures Span(pre + rest, p) == |pre|
    ensures (pre + rest)[..|pre|] == pre && (pre + rest)[|pre|..] == rest
  {
    var s := pre + rest;
    assert forall i :: 0 <= i < |pre| ==> s[i] == pre[i];
    assert |rest| > 0 ==> s[|pre|] == rest[0];
  }

  /** A file directive sets the file name for later tokens, emits no token,
      and consumes one newline right after the closing `#`, uncounted. */
  lemma FileDirective(name: string, nl: bool, rest: string, st: LexState)
    requires forall i :: 0 <= i < |name| ==> name[i] != '#'
    requires nl || |rest| == 0 || rest[0] != '\n'
    ensures FileMarker(FILE_MARKER + name + "#" + (if nl then "\n" else "") + rest, st)
         == (rest, st.(file := name))
  {
    var tail := "#" + (if nl then "\n" else "") + rest;
    var src := FILE_MARKER + name + tail;
    assert src == FILE_MARKER + name + "#" + (if nl then "\n" else "") + rest;
    assert src[..8] == FILE_MARKER;
    assert StartsWith(src, FILE_MARKER);
    assert src[8..] == name + tail;
    SpanSplit(name, tail, NotHash);
    var s3 := Drop1(tail);
    assert s3 == (if nl then "\n" else "") + rest;
    if nl {
      assert s3[0] == '\n' && s3[1..] == rest;
    } else {
      assert s3 == rest;
      assert !(|s3| > 0 && s3[0] == '\n');
    }
  }

  lemma NativeSpanSplit(text: string, rest: string)
    requires forall i :: 0 <= i < |text| ==> text[i] != '%'
    requires |rest| > 1 && rest[0] == '%' && rest[1] == '%'
    ensures NativeSpan(text + rest) == |text|
    ensures (text + rest)[..|text|] == text && (text + rest)[|text|..] == rest
  {
    var s := text + rest;
    assert forall i :: 0 <= i < |text| ==> s[i] == text[i];
    assert s[|text|] == rest[0] && s[|text| + 1] == rest[1];
  }

  /** `%%text%%` emits one native-block token holding the text between the
      delimiters. */
  lemma NativeBlockToken(text: string, rest: string, st: LexState)
    requires forall i :: 0 <= i < |text| ==> text[i] != '%'
    requires !st.inComment
    ensures Step("%%" + text + "%%" + rest, st)
         == Ok(StepOut([Token(text, NativeBlock, st.line, st.file)], rest, st))
  {
    var src := "%%" + text + "%%" + rest;
    assert src[0] == '%' && src[1] == '%';
    StepIsDispatch(src, st);
    DispatchNative(src, st);
    NativeBody(text, rest, st);
  }

  lemma NativeBody(text: string, rest: string, st: LexState)
    requires forall i :: 0 <= i < |text| ==> text[i] != '%'
    ensures PairAt("%%" + text + "%%" + rest, '%', '%')
    ensures NativeStep("%%" + text + "%%" + rest, st) == Emit(text, NativeBlock, rest, st)
  {
    var src := "%%" + text + "%%" + rest;
    assert src[0] == '%' && src[1] == '%';
    assert src[2..] == text + ("%%" + rest);
    NativeSpanSplit(text, "%%" + rest);
    assert Drop1(Drop1("%%" + rest)) == rest;
  }

  /** Characters some branch of the scanner accepts. */
  predicate Recognised(c: char) {
    || PunctKind(c).Some? || IsSingleOperator(c) || SeparatorKind(c).Some?
    || c == '"' || c == '!' || IsInt(c) || IsAlpha(c) || IsSkippable(c)
  }

  /** Outside a comment, any other character is fatal and reports the
      character, file and line. */
  lemma UnrecognisedIsFatal(src: string, st: LexState)
    requires |src| > 0 && !st.inComment
    requires !Recognised(src[0]) && src[0] != '#'
    ensures Step(src, st) == Err(LexError(src[0], st.file, st.line))
  {
    StepIsDispatch(src, st);
  }

  /** In particular a word cannot start with `_`. */
  lemma UnderscoreIsFatal(src: string, st: LexState)
    requires |src| > 0 && !st.inComment && src[0] == '_'
    ensures Step(src, st).Err?
  {
    UnrecognisedIsFatal(src, st);
  }

  /** A word of letters, digits and underscores starting with a letter is
      its keyword's token when listed, else an identifier. */
  lemma Word(word: string, rest: string, st: LexState)
    requires |word| > 0 && IsAlpha(word[0]) && !st.inComment
    requires forall i :: 0 <= i < |word| ==> IsAlphanumeric(word[i])
    requires |rest| == 0 || !IsAlphanumeric(rest[0])
    ensures Step(word + rest, st)
         == Ok(StepOut([Token(word, if word in KEYWORDS then KEYWORDS[word] else Identifier,
                              st.line, st.file)], rest, st))
  {
    var src := word + rest;
    assert src[0] == word[0];
    StepIsDispatch(src, st);
    DispatchWord(src, st);
    SpanSplit(word, rest, IsAlphanumeric);
  }

  /** Digits and dots after a leading digit make one number token, so
      `1.2.3` is a single token. */
  lemma NumberToken(num: string, rest: string, st: LexState)
    requires |num| > 0 && IsDigit(num[0]) && !st.inComment
    requires forall i :: 0 <= i < |num| ==> IsNumber(num[i])
    requires |rest| == 0 || !IsNumber(rest[0])
    ensures Step(num + rest, st) == Ok(StepOut([Token(num, Number, st.line, st.file)], rest, st))
  {
    var src := num + rest;
    assert src[0] == num[0];
    StepIsDispatch(src, st);
    DispatchNumber(src, st);
    SpanSplit(num, rest, IsNumber);
  }
}
