/** The recursive-descent parser: one function per grammar rule, each taking
    the remaining token queue and returning the node it built together with
    the queue it left behind.

    Precedence, loosest first: assignment (right associative), object
    literal, comparison (with a trailing `++`/`--`), additive,
    multiplicative, call, member access, primary. Operators are recognised by
    their text, not their token kind.
 */
module Parser {
  import opened Wrappers
  import opened Lexer
  import opened Cursor
  import opened Ast
  import Numbers

  datatype Parsed<T> = Parsed(node: T, rest: seq<Token>)

  /** A successful rule consumed at least one token and left a terminated
      queue. */
  predicate Progress(toks: seq<Token>, rest: seq<Token>) {
    |rest| < |toks| && Terminated(rest)
  }

  /** A loop that may stop before consuming anything. */
  predicate Within(toks: seq<Token>, rest: seq<Token>) {
    |rest| <= |toks| && Terminated(rest)
  }

  /** The optional `;` that ends most statements. */
  function SkipSemicolon(toks: seq<Token>): (rest: seq<Token>)
    requires Terminated(toks)
    ensures Within(toks, rest)
  {
    if toks[0].kind == Semicolon then Eat(toks).1 else toks
  }

  // ---------------------------------------------------------------- names

  /** The letters anonymous function names are drawn from, upper case first. */
  function NameLetter(d: nat): (c: char)
    requires d < 52
    ensures IsAlpha(c)
  {
    if d < 26 then (('A' as int) + d) as char else (('a' as int) + d - 26) as char
  }

  /** The `k` base-52 digits of `n`, most significant first, as letters. */
  function NameLetters(n: nat, k: nat): (s: string)
    ensures |s| == k
    ensures forall i :: 0 <= i < k ==> IsAlpha(s[i])
  {
    if k == 0 then "" else NameLetters(n / 52, k - 1) + [NameLetter(n % 52)]
  }

  /** The name of an anonymous function: two underscores and 18 letters.
      The host draws the letters at random; here they spell the length of
      the token queue at the `fn` keyword, which differs for every function
      of one parse. */
  function FreshName(n: nat): (s: string)
    ensures |s| == 20 && s[0] == '_' && s[1] == '_'
    ensures forall i :: 2 <= i < 20 ==> IsAlpha(s[i])
  {
    "__" + NameLetters(n, 18)
  }

  // ----------------------------------------------------------- statements

  function ParseStmt(toks: seq<Token>): (r: Result<Parsed<Stmt>>)
    requires Terminated(toks)
    ensures r.Ok? ==> Progress(toks, r.value.rest)
    decreases |toks|, 12
  {
    match toks[0].kind
    case For => ParseFor(toks)
    case While => ParseWhile(toks)
    case If => ParseIf(toks)
    case Fn => ParseFn(toks)
    case Let => ParseVarDeclaration(toks)
    case Const => ParseVarDeclaration(toks)
    case Break => ParseBreakContinue(toks)
    case Continue => ParseBreakContinue(toks)
    case Return => ParseReturn(toks)
    case _ => ParseExpr(toks)
  }

  /** Statements up to, not including, the next `}` or the EOF. */
  function BlockStmts(toks: seq<Token>): (r: Result<Parsed<seq<Stmt>>>)
    requires Terminated(toks)
    ensures r.Ok? ==> Within(toks, r.value.rest)
    ensures r.Ok? ==> r.value.rest[0].kind == EOF || r.value.rest[0].kind == CloseBrace
    decreases |toks|, 13
  {
    if toks[0].kind == EOF || toks[0].kind == CloseBrace then Ok(Parsed([], toks))
    else
      var s :- ParseStmt(toks);
      var more :- BlockStmts(s.rest);
      Ok(Parsed([s.node] + more.node, more.rest))
  }

  /** `{ statements }`. */
  function BracedBody(toks: seq<Token>): (r: Result<Parsed<seq<Stmt>>>)
    requires Terminated(toks)
    ensures r.Ok? ==> Progress(toks, r.value.rest)
    decreases |toks|, 14
  {
    var open :- Expect(toks, OpenBrace);
    var b :- BlockStmts(open.1);
    var close :- Expect(b.rest, CloseBrace);
    Ok(Parsed(b.node, close.1))
  }

  /** `for (init; condition; increment) { body }`; the `;` after the
      initialiser is optional because a declaration already eats it. */
  function ParseFor(toks: seq<Token>): (r: Result<Parsed<Stmt>>)
    requires Terminated(toks) && toks[0].kind == For
    ensures r.Ok? ==> Progress(toks, r.value.rest) && r.value.node.ForExpr?
    decreases |toks|, 1
  {
    var open :- Expect(Eat(toks).1, OpenParen);
    var variable :- ParseStmt(open.1);
    var condition :- ParseExpr(SkipSemicolon(variable.rest));
    var semi :- Expect(condition.rest, Semicolon);
    var increment :- ParseExpr(semi.1);
    var close :- Expect(increment.rest, CloseParen);
    var body :- BracedBody(close.1);
    Ok(Parsed(ForExpr(variable.node, condition.node, increment.node, body.node), body.rest))
  }

  /** `if (condition) { body } [else { body }]`; the else body is always
      present, empty when there is no `else`. */
  function ParseIf(toks: seq<Token>): (r: Result<Parsed<Stmt>>)
    requires Terminated(toks) && toks[0].kind == If
    ensures r.Ok? ==> Progress(toks, r.value.rest)
    ensures r.Ok? ==> r.value.node.IfExpr? && r.value.node.elseBody.Some?
    decreases |toks|, 1
  {
    var open :- Expect(Eat(toks).1, OpenParen);
    var condition :- ParseExpr(open.1);
    var close :- Expect(condition.rest, CloseParen);
    var body :- BracedBody(close.1);
    if body.rest[0].kind == Else then
      var elseBody :- BracedBody(Eat(body.rest).1);
      Ok(Parsed(IfExpr(condition.node, body.node, Some(elseBody.node)), elseBody.rest))
    else
      Ok(Parsed(IfExpr(condition.node, body.node, Some([])), body.rest))
  }

  /** `while (condition) { body }`. */
  function ParseWhile(toks: seq<Token>): (r: Result<Parsed<Stmt>>)
    requires Terminated(toks) && toks[0].kind == While
    ensures r.Ok? ==> Progress(toks, r.value.rest) && r.value.node.WhileExpr?
    decreases |toks|, 1
  {
    var open :- Expect(Eat(toks).1, OpenParen);
    var condition :- ParseExpr(open.1);
    var close :- Expect(condition.rest, CloseParen);
    var body :- BracedBody(close.1);
    Ok(Parsed(WhileExpr(condition.node, body.node), body.rest))
  }

  /** The parameter names of a function: every argument must be a bare
      identifier. */
  function ParamNames(args: seq<Stmt>): (r: Result<seq<string>>)
    ensures r.Ok? <==> forall i :: 0 <= i < |args| ==> args[i].Identifier?
    ensures r.Ok? ==> |r.value| == |args|
    ensures r.Ok? ==> forall i :: 0 <= i < |args| ==> r.value[i] == args[i].symbol
  {
    if |args| == 0 then Ok([])
    else if !args[0].Identifier? then Err(ParseError("parameters must be identifiers"))
    else
      var more :- ParamNames(args[1..]);
      Ok([args[0].symbol] + more)
  }

  /** The body of a `native` function: the text of the native block token
      right after `{`, or empty text when there is none. */
  function NativeBody(toks: seq<Token>, args: seq<Stmt>): (r: Parsed<seq<Stmt>>)
    requires Terminated(toks)
    ensures Within(toks, r.rest) && |r.node| == 1 && r.node[0].NativeBlock?
  {
    if toks[0].kind == TokenType.NativeBlock then Parsed([Stmt.NativeBlock(args, toks[0].value)], Eat(toks).1)
    else Parsed([Stmt.NativeBlock(args, "")], toks)
  }

  /** What may stand between `fn` and its parameter list: `native`, then a
      name. */
  datatype FnHeader = FnHeader(isNative: bool, name: Option<string>, rest: seq<Token>)

  function ParseFnHeader(toks: seq<Token>): (h: FnHeader)
    requires Terminated(toks)
    ensures Within(toks, h.rest)
  {
    var isNative := toks[0].kind == Native;
    var r1 := if isNative then Eat(toks).1 else toks;
    if r1[0].kind == TokenType.Identifier then FnHeader(isNative, Some(r1[0].value), Eat(r1).1)
    else FnHeader(isNative, None, r1)
  }

  /** `fn [native] [name] (params) { body }`. The returned node never sets
      the native flag; a native function is recognised by its body. */
  function ParseFn(toks: seq<Token>): (r: Result<Parsed<Stmt>>)
    requires Terminated(toks) && toks[0].kind == Fn
    ensures r.Ok? ==> Progress(toks, r.value.rest)
    ensures r.Ok? ==> r.value.node.FunctionDeclaration? && !r.value.node.isNative
    decreases |toks|, 1
  {
    var h := ParseFnHeader(Eat(toks).1);
    var args :- ParseArgs(h.rest);
    var params :- ParamNames(args.node);
    var open :- Expect(args.rest, OpenBrace);
    var body :- if h.isNative then Ok(NativeBody(open.1, args.node)) else BlockStmts(open.1);
    var close :- Expect(body.rest, CloseBrace);
    var name := if h.name.Some? && h.name.value != "" then h.name.value else FreshName(|toks|);
    Ok(Parsed(FunctionDeclaration(params, name, body.node, false), close.1))
  }

  /** `x.push(e)`, the call an array literal element becomes. */
  function PushCall(name: string, e: Stmt): Stmt {
    CallExpr([e], MemberExpr(Stmt.Identifier(name), Stmt.Identifier("push"), false))
  }

  function PushCalls(name: string, elems: seq<Stmt>): (r: seq<Stmt>)
    ensures |r| == |elems|
    ensures forall i :: 0 <= i < |elems| ==> r[i] == PushCall(name, elems[i])
  {
    seq(|elems|, i requires 0 <= i < |elems| => PushCall(name, elems[i]))
  }

  /** `let`/`const` declarations. Without `=`, `let` declares the first
      identifier of its list only, and `const` is an error. */
  function ParseVarDeclaration(toks: seq<Token>): (r: Result<Parsed<Stmt>>)
    requires Terminated(toks) && (toks[0].kind == Let || toks[0].kind == Const)
    ensures r.Ok? ==> Progress(toks, r.value.rest)
    decreases |toks|, 1
  {
    var isConstant := toks[0].kind == Const;
    var ids :- ParseIdentifierList(Eat(toks).1);
    var r1 := ids.rest;
    if r1[0].kind != Equals then
      if isConstant then Err(ParseError("constant declared without a value"))
      else Ok(Parsed(VarDeclaration(false, [ids.node[0]], false, None), SkipSemicolon(r1)))
    else
      var init :- ParseInitializer(isConstant, ids.node, Eat(r1).1);
      Ok(Parsed(init.node, SkipSemicolon(init.rest)))
  }

  /** What follows `=` in a declaration of `ids`:
      `[]` declares an array; `[e1, ..., en]` declares an array and pushes
      the elements in order; `fn ...` declares the first identifier, the
      function, and assigns the function to it; anything else is an
      expression initialising the whole list. */
  function ParseInitializer(isConstant: bool, ids: seq<string>, toks: seq<Token>): (r: Result<Parsed<Stmt>>)
    requires Terminated(toks) && |ids| > 0
    ensures r.Ok? ==> Progress(toks, r.value.rest)
    decreases |toks|, 12
  {
    var identifier := ids[0];
    if toks[0].kind == OpenBracket && La(toks).Some? && La(toks).value.kind == CloseBracket then
      Ok(Parsed(VarDeclaration(isConstant, [identifier], true, None), Eat(Eat(toks).1).1))
    else if toks[0].kind == OpenBracket then
      var elems :- ParseArgumentsList(Eat(toks).1);
      var close :- Expect(elems.rest, CloseBracket);
      var decl := VarDeclaration(isConstant, [identifier], true, None);
      Ok(Parsed(AggregatedExpr([decl] + PushCalls(identifier, elems.node)), close.1))
    else if toks[0].kind == Fn then
      var func :- ParseFn(toks);
      var decl := VarDeclaration(isConstant, [identifier], false, None);
      var bind := AssignmentExpr(Stmt.Identifier(identifier), Stmt.Identifier(func.node.name));
      Ok(Parsed(AggregatedExpr([decl, func.node, bind]), func.rest))
    else
      var value :- ParseExpr(toks);
      Ok(Parsed(VarDeclaration(isConstant, ids, false, Some([value.node])), value.rest))
  }

  /** `break` or `continue`, told apart by the keyword's text. */
  function ParseBreakContinue(toks: seq<Token>): (r: Result<Parsed<Stmt>>)
    requires Terminated(toks) && (toks[0].kind == Break || toks[0].kind == Continue)
    ensures r.Ok? ==> Progress(toks, r.value.rest)
    decreases |toks|, 1
  {
    var isContinue := toks[0].value == "continue";
    Ok(Parsed(ContinueBreak(isContinue), SkipSemicolon(Eat(toks).1)))
  }

  /** `return` followed by a comma-separated list, unless a `}` follows. */
  function ParseReturn(toks: seq<Token>): (r: Result<Parsed<Stmt>>)
    requires Terminated(toks) && toks[0].kind == TokenType.Return
    ensures r.Ok? ==> Progress(toks, r.value.rest) && r.value.node.Return?
    decreases |toks|, 1
  {
    var r0 := Eat(toks).1;
    if r0[0].kind != CloseBrace then
      var vals :- ParseArgumentsList(r0);
      Ok(Parsed(Stmt.Return(vals.node), SkipSemicolon(vals.rest)))
    else
      Ok(Parsed(Stmt.Return([]), r0))
  }

  // ---------------------------------------------------------- expressions

  function ParseExpr(toks: seq<Token>): (r: Result<Parsed<Stmt>>)
    requires Terminated(toks)
    ensures r.Ok? ==> Progress(toks, r.value.rest)
    decreases |toks|, 11
  {
    ParseAssignment(toks)
  }

  /** `target = value`, grouping to the right. */
  function ParseAssignment(toks: seq<Token>): (r: Result<Parsed<Stmt>>)
    requires Terminated(toks)
    ensures r.Ok? ==> Progress(toks, r.value.rest)
    decreases |toks|, 10
  {
    var left :- ParseObject(toks);
    if left.rest[0].kind == Equals then
      var value :- ParseAssignment(Eat(left.rest).1);
      Ok(Parsed(AssignmentExpr(left.node, value.node), value.rest))
    else Ok(left)
  }

  /** `[]` (an empty array), `{ key: value, key, ... }`, or a comparison. */
  function ParseObject(toks: seq<Token>): (r: Result<Parsed<Stmt>>)
    requires Terminated(toks)
    ensures r.Ok? ==> Progress(toks, r.value.rest)
    decreases |toks|, 9
  {
    if toks[0].kind == OpenBracket && La(toks).Some? && La(toks).value.kind == CloseBracket then
      Ok(Parsed(ArrayDeclaration, Eat(Eat(toks).1).1))
    else if toks[0].kind != OpenBrace then
      ParseComparison(toks)
    else
      var props :- ObjectProps(Eat(toks).1);
      var close :- Expect(props.rest, CloseBrace);
      Ok(Parsed(ObjectLiteral(props.node), close.1))
  }

  /** The entries of an object literal up to its `}`. A key is an
      identifier or a string; a key followed by `,` or `}` is shorthand. */
  function ObjectProps(toks: seq<Token>): (r: Result<Parsed<seq<Property>>>)
    requires Terminated(toks)
    ensures r.Ok? ==> Within(toks, r.value.rest)
    decreases |toks|, 0
  {
    if !NotEof(toks) || toks[0].kind == CloseBrace then Ok(Parsed([], toks))
    else
      var key :- if toks[0].kind == TokenType.Identifier then Expect(toks, TokenType.Identifier) else Expect(toks, StringMark);
      var r1 := key.1;
      if r1[0].kind == Comma then
        var more :- ObjectProps(Eat(r1).1);
        Ok(Parsed([Property(key.0.value, None)] + more.node, more.rest))
      else if r1[0].kind == CloseBrace then
        Ok(Parsed([Property(key.0.value, None)], r1))
      else
        var colon :- Expect(r1, Colon);
        var value :- ParseExpr(colon.1);
        var prop := Property(key.0.value, Some(value.node));
        if value.rest[0].kind != CloseBrace then
          var comma :- Expect(value.rest, Comma);
          var more :- ObjectProps(comma.1);
          Ok(Parsed([prop] + more.node, more.rest))
        else
          Ok(Parsed([prop], value.rest))
  }

  predicate IsComparisonText(v: string) {
    v == "==" || v == ">=" || v == "<=" || v == "!=" || v == ">" || v == "<"
  }

  /** An additive expression, then either a trailing `++`/`--` that ends the
      expression, or a left-grouping chain of comparisons. */
  function ParseComparison(toks: seq<Token>): (r: Result<Parsed<Stmt>>)
    requires Terminated(toks)
    ensures r.Ok? ==> Progress(toks, r.value.rest)
    decreases |toks|, 8
  {
    var left :- ParseAdditive(toks);
    var r1 := left.rest;
    if r1[0].value == "++" || r1[0].value == "--" then
      Ok(Parsed(UnaryExpr(left.node, r1[0].value), Eat(r1).1))
    else
      ComparisonTail(left.node, r1)
  }

  function ComparisonTail(left: Stmt, toks: seq<Token>): (r: Result<Parsed<Stmt>>)
    requires Terminated(toks)
    ensures r.Ok? ==> Within(toks, r.value.rest)
    decreases |toks|, 8
  {
    if IsComparisonText(toks[0].value) then
      var right :- ParseAdditive(Eat(toks).1);
      ComparisonTail(BinaryExpr(left, right.node, toks[0].value), right.rest)
    else Ok(Parsed(left, toks))
  }

  predicate IsAdditiveText(v: string) { v == "+" || v == "-" }

  function ParseAdditive(toks: seq<Token>): (r: Result<Parsed<Stmt>>)
    requires Terminated(toks)
    ensures r.Ok? ==> Progress(toks, r.value.rest)
    decreases |toks|, 7
  {
    var left :- ParseMultiplicative(toks);
    AdditiveTail(left.node, left.rest)
  }

  function AdditiveTail(left: Stmt, toks: seq<Token>): (r: Result<Parsed<Stmt>>)
    requires Terminated(toks)
    ensures r.Ok? ==> Within(toks, r.value.rest)
    decreases |toks|, 7
  {
    if IsAdditiveText(toks[0].value) then
      var right :- ParseMultiplicative(Eat(toks).1);
      AdditiveTail(BinaryExpr(left, right.node, toks[0].value), right.rest)
    else Ok(Parsed(left, toks))
  }

  predicate IsMultiplicativeText(v: string) { v == "/" || v == "*" || v == "%" }

  function ParseMultiplicative(toks: seq<Token>): (r: Result<Parsed<Stmt>>)
    requires Terminated(toks)
    ensures r.Ok? ==> Progress(toks, r.value.rest)
    decreases |toks|, 6
  {
    var left :- ParseCallMember(toks);
    MultiplicativeTail(left.node, left.rest)
  }

  function MultiplicativeTail(left: Stmt, toks: seq<Token>): (r: Result<Parsed<Stmt>>)
    requires Terminated(toks)
    ensures r.Ok? ==> Within(toks, r.value.rest)
    decreases |toks|, 6
  {
    if IsMultiplicativeText(toks[0].value) then
      var right :- ParseCallMember(Eat(toks).1);
      MultiplicativeTail(BinaryExpr(left, right.node, toks[0].value), right.rest)
    else Ok(Parsed(left, toks))
  }

  /** A member expression, called when `(` follows. */
  function ParseCallMember(toks: seq<Token>): (r: Result<Parsed<Stmt>>)
    requires Terminated(toks)
    ensures r.Ok? ==> Progress(toks, r.value.rest)
    decreases |toks|, 5
  {
    var member :- ParseMember(toks);
    if member.rest[0].kind == OpenParen then ParseCall(member.node, member.rest)
    else Ok(member)
  }

  /** `caller(args)`, itself called again while `(` follows. */
  function ParseCall(caller: Stmt, toks: seq<Token>): (r: Result<Parsed<Stmt>>)
    requires Terminated(toks)
    ensures r.Ok? ==> Progress(toks, r.value.rest) && r.value.node.CallExpr?
    decreases |toks|, 1
  {
    var args :- ParseArgs(toks);
    var call := CallExpr(args.node, caller);
    if args.rest[0].kind == OpenParen then ParseCall(call, args.rest)
    else Ok(Parsed(call, args.rest))
  }

  /** `( )` or `( e1, ..., en )`. */
  function ParseArgs(toks: seq<Token>): (r: Result<Parsed<seq<Stmt>>>)
    requires Terminated(toks)
    ensures r.Ok? ==> Progress(toks, r.value.rest)
    decreases |toks|, 0
  {
    var open :- Expect(toks, OpenParen);
    var args :- if open.1[0].kind == CloseParen then Ok(Parsed([], open.1)) else ParseArgumentsList(open.1);
    var close :- Expect(args.rest, CloseParen);
    Ok(Parsed(args.node, close.1))
  }

  /** One or more assignment expressions separated by commas. */
  function ParseArgumentsList(toks: seq<Token>): (r: Result<Parsed<seq<Stmt>>>)
    requires Terminated(toks)
    ensures r.Ok? ==> Progress(toks, r.value.rest) && |r.value.node| > 0
    decreases |toks|, 11
  {
    var first :- ParseAssignment(toks);
    ArgumentsTail([first.node], first.rest)
  }

  function ArgumentsTail(acc: seq<Stmt>, toks: seq<Token>): (r: Result<Parsed<seq<Stmt>>>)
    requires Terminated(toks)
    ensures r.Ok? ==> Within(toks, r.value.rest) && |r.value.node| >= |acc|
    decreases |toks|, 11
  {
    if toks[0].kind == Comma then
      var next :- ParseAssignment(Eat(toks).1);
      ArgumentsTail(acc + [next.node], next.rest)
    else Ok(Parsed(acc, toks))
  }

  /** One or more identifiers separated by commas. */
  function ParseIdentifierList(toks: seq<Token>): (r: Result<Parsed<seq<string>>>)
    requires Terminated(toks)
    ensures r.Ok? ==> Progress(toks, r.value.rest) && |r.value.node| > 0
  {
    var first :- Expect(toks, TokenType.Identifier);
    IdentifierTail([first.0.value], first.1)
  }

  function IdentifierTail(acc: seq<string>, toks: seq<Token>): (r: Result<Parsed<seq<string>>>)
    requires Terminated(toks)
    ensures r.Ok? ==> Within(toks, r.value.rest) && |r.value.node| >= |acc|
    decreases |toks|
  {
    if toks[0].kind == Comma then
      var next :- Expect(Eat(toks).1, TokenType.Identifier);
      IdentifierTail(acc + [next.0.value], next.1)
    else Ok(Parsed(acc, toks))
  }

  /** A primary followed by `.name` and `[expr]` accesses, grouping left. */
  function ParseMember(toks: seq<Token>): (r: Result<Parsed<Stmt>>)
    requires Terminated(toks)
    ensures r.Ok? ==> Progress(toks, r.value.rest)
    decreases |toks|, 4
  {
    var obj :- ParsePrimary(toks);
    MemberTail(obj.node, obj.rest)
  }

  function MemberTail(obj: Stmt, toks: seq<Token>): (r: Result<Parsed<Stmt>>)
    requires Terminated(toks)
    ensures r.Ok? ==> Within(toks, r.value.rest)
    decreases |toks|, 4
  {
    if toks[0].kind == Dot then
      var property :- ParsePrimary(Eat(toks).1);
      if !property.node.Identifier? then Err(ParseError("dot must be followed by an identifier"))
      else MemberTail(MemberExpr(obj, property.node, false), property.rest)
    else if toks[0].kind == OpenBracket then
      var property :- ParseExpr(Eat(toks).1);
      var close :- Expect(property.rest, CloseBracket);
      MemberTail(MemberExpr(obj, property.node, true), close.1)
    else Ok(Parsed(obj, toks))
  }

  /** Identifiers, literals, `!expr`, `( expr )` and function expressions;
      any other token is an error. */
  function ParsePrimary(toks: seq<Token>): (r: Result<Parsed<Stmt>>)
    requires Terminated(toks)
    ensures r.Ok? ==> Progress(toks, r.value.rest)
    decreases |toks|, 3
  {
    match toks[0].kind
    case Identifier => Ok(Parsed(Stmt.Identifier(toks[0].value), Eat(toks).1))
    case Number =>
      var n :- Numbers.ParseFloat(toks[0].value);
      Ok(Parsed(NumericLiteral(n), Eat(toks).1))
    case StringMark => Ok(Parsed(StringLiteral(toks[0].value), Eat(toks).1))
    case Negation => ParseNegation(toks)
    case OpenParen =>
      var inner :- ParseExpr(Eat(toks).1);
      var close :- Expect(inner.rest, CloseParen);
      Ok(Parsed(inner.node, close.1))
    case Fn => ParseFn(toks)
    case _ => Err(ParseError("unexpected token"))
  }

  /** `!` applies to the whole expression that follows it. */
  function ParseNegation(toks: seq<Token>): (r: Result<Parsed<Stmt>>)
    requires Terminated(toks) && toks[0].kind == Negation
    ensures r.Ok? ==> Progress(toks, r.value.rest)
    decreases |toks|, 1
  {
    var operand :- ParseExpr(Eat(toks).1);
    Ok(Parsed(UnaryExpr(operand.node, "!"), operand.rest))
  }

  // -------------------------------------------------------------- program

  /** Statements in order until the EOF. */
  function ProgramBody(toks: seq<Token>): (r: Result<seq<Stmt>>)
    requires Terminated(toks)
    decreases |toks|
  {
    if !NotEof(toks) then Ok([])
    else
      var s :- ParseStmt(toks);
      var more :- ProgramBody(s.rest);
      Ok([s.node] + more)
  }

  /** `produceAST`: scan the source, then parse statements until EOF. */
  function ProduceAST(src: string): (r: Result<Stmt>)
    requires IsAscii(src)
    ensures r.Ok? ==> r.value.Program? && Tokenize(src).Ok?
    ensures |src| == 0 ==> r.Err?
  {
    var toks :- Tokenize(src);
    ScannedIsTerminated(toks);
    var body :- ProgramBody(toks);
    Ok(Program(body))
  }
}
