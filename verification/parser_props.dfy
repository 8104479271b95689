/** Properties of the parser: precedence and grouping of operators, member
    chains, the declaration expansions, and the anonymous function names. */
module ParserProps {
  import opened Wrappers
  import opened Lexer
  import opened Cursor
  import opened Ast
  import opened Parser

  function Id(x: string): Token { Token(x, TokenType.Identifier, 1, "main") }
  function Op(v: string): Token { Token(v, BinaryOperator, 1, "main") }
  function Mark(kind: TokenType, v: string): Token { Token(v, kind, 1, "main") }

  function V(x: string): Stmt { Stmt.Identifier(x) }

  predicate IsName(t: Token) { t.kind == TokenType.Identifier }

  // ------------------------------------------------------------ operands

  /** A token that ends an expression: no member access, call, operator or
      `=` continues it. */
  predicate Ends(t: Token) {
    && t.kind != Dot && t.kind != OpenBracket && t.kind != OpenParen && t.kind != Equals
    && !IsMultiplicativeText(t.value) && !IsAdditiveText(t.value) && !IsComparisonText(t.value)
    && t.value != "++" && t.value != "--"
  }

  /** A non-EOF token in front of a terminated queue keeps it terminated. */
  lemma {:induction false} Push(t: Token, rest: seq<Token>)
    requires t.kind != EOF && Terminated(rest)
    ensures Terminated([t] + rest) && ([t] + rest)[1..] == rest && Eat([t] + rest).1 == rest
  {
    var q := [t] + rest;
    assert q[|q| - 1] == rest[|rest| - 1];
    forall i | 0 <= i < |q| - 1 ensures q[i].kind != EOF {
      if i > 0 { assert q[i] == rest[i - 1]; }
    }
    assert q[1..] == rest;
  }

  /** An identifier not followed by `.`, `[` or `(` is a whole call/member
      expression. */
  lemma {:induction false} AtomIsIdentifier(x: Token, rest: seq<Token>)
    requires x.kind == TokenType.Identifier && Terminated(rest)
    requires rest[0].kind != Dot && rest[0].kind != OpenBracket && rest[0].kind != OpenParen
    ensures Terminated([x] + rest)
    ensures ParseCallMember([x] + rest) == Ok(Parsed(V(x.value), rest))
  {
    Push(x, rest);
    assert ParsePrimary([x] + rest) == Ok(Parsed(V(x.value), rest));
    assert MemberTail(V(x.value), rest) == Ok(Parsed(V(x.value), rest));
  }

  lemma {:induction false} MultiplicativeStep(left: Stmt, op: Token, toks: seq<Token>, right: Stmt, rest: seq<Token>)
    requires op.kind == BinaryOperator && IsMultiplicativeText(op.value) && Terminated(toks)
    requires ParseCallMember(toks) == Ok(Parsed(right, rest))
    ensures Terminated([op] + toks)
    ensures MultiplicativeTail(left, [op] + toks) == MultiplicativeTail(BinaryExpr(left, right, op.value), rest)
  {
    Push(op, toks);
  }

  lemma {:induction false} AdditiveStep(left: Stmt, op: Token, toks: seq<Token>, right: Stmt, rest: seq<Token>)
    requires op.kind == BinaryOperator && IsAdditiveText(op.value) && Terminated(toks)
    requires ParseMultiplicative(toks) == Ok(Parsed(right, rest))
    ensures Terminated([op] + toks)
    ensures AdditiveTail(left, [op] + toks) == AdditiveTail(BinaryExpr(left, right, op.value), rest)
  {
    Push(op, toks);
  }

  lemma {:induction false} ComparisonStep(left: Stmt, op: Token, toks: seq<Token>, right: Stmt, rest: seq<Token>)
    requires op.kind == BinaryOperator && IsComparisonText(op.value) && Terminated(toks)
    requires ParseAdditive(toks) == Ok(Parsed(right, rest))
    ensures Terminated([op] + toks)
    ensures ComparisonTail(left, [op] + toks) == ComparisonTail(BinaryExpr(left, right, op.value), rest)
  {
    Push(op, toks);
  }

  lemma MemberStop(e: Stmt, toks: seq<Token>)
    requires Terminated(toks) && toks[0].kind != Dot && toks[0].kind != OpenBracket
    ensures MemberTail(e, toks) == Ok(Parsed(e, toks))
  {
  }

  lemma MultiplicativeStop(e: Stmt, toks: seq<Token>)
    requires Terminated(toks) && !IsMultiplicativeText(toks[0].value)
    ensures MultiplicativeTail(e, toks) == Ok(Parsed(e, toks))
  {
  }

  lemma AdditiveStop(e: Stmt, toks: seq<Token>)
    requires Terminated(toks) && !IsAdditiveText(toks[0].value)
    ensures AdditiveTail(e, toks) == Ok(Parsed(e, toks))
  {
  }

  lemma ComparisonStop(e: Stmt, toks: seq<Token>)
    requires Terminated(toks) && !IsComparisonText(toks[0].value)
    ensures ComparisonTail(e, toks) == Ok(Parsed(e, toks))
  {
  }

  /** Every level below assignment passes on an expression that an ending
      token follows. */
  lemma {:induction false} TailsStop(e: Stmt, toks: seq<Token>)
    requires Terminated(toks) && Ends(toks[0])
    ensures MemberTail(e, toks) == Ok(Parsed(e, toks))
    ensures MultiplicativeTail(e, toks) == Ok(Parsed(e, toks))
    ensures AdditiveTail(e, toks) == Ok(Parsed(e, toks))
    ensures ComparisonTail(e, toks) == Ok(Parsed(e, toks))
  {
    MemberStop(e, toks);
    MultiplicativeStop(e, toks);
    AdditiveStop(e, toks);
    ComparisonStop(e, toks);
  }

  lemma MultiplicativeFrom(toks: seq<Token>, e: Stmt, mid: seq<Token>, r: Result<Parsed<Stmt>>)
    requires Terminated(toks)
    requires ParseCallMember(toks) == Ok(Parsed(e, mid)) && MultiplicativeTail(e, mid) == r
    ensures ParseMultiplicative(toks) == r
  {
  }

  lemma AdditiveFrom(toks: seq<Token>, e: Stmt, mid: seq<Token>, r: Result<Parsed<Stmt>>)
    requires Terminated(toks)
    requires ParseMultiplicative(toks) == Ok(Parsed(e, mid)) && AdditiveTail(e, mid) == r
    ensures ParseAdditive(toks) == r
  {
  }

  lemma ComparisonFrom(toks: seq<Token>, e: Stmt, mid: seq<Token>, r: Result<Parsed<Stmt>>)
    requires Terminated(toks)
    requires ParseAdditive(toks) == Ok(Parsed(e, mid)) && mid[0].value != "++" && mid[0].value != "--"
    requires ComparisonTail(e, mid) == r
    ensures ParseComparison(toks) == r
  {
  }

  /** A comparison-level result not followed by `=` is the whole
      expression, unless the input starts an array or object literal. */
  lemma {:induction false} ExprFromComparison(toks: seq<Token>, e: Stmt, rest: seq<Token>)
    requires Terminated(toks) && toks[0].kind != OpenBracket && toks[0].kind != OpenBrace
    requires ParseComparison(toks) == Ok(Parsed(e, rest)) && rest[0].kind != Equals
    ensures ParseExpr(toks) == Ok(Parsed(e, rest))
  {
    assert ParseObject(toks) == Ok(Parsed(e, rest));
  }

  /** An additive-level result that an ending token follows is the whole
      expression, when the input does not start an array or object. */
  lemma {:induction false} ExprFromAdditive(toks: seq<Token>, e: Stmt, rest: seq<Token>)
    requires Terminated(toks) && toks[0].kind != OpenBracket && toks[0].kind != OpenBrace
    requires ParseAdditive(toks) == Ok(Parsed(e, rest)) && Ends(rest[0])
    ensures ParseExpr(toks) == Ok(Parsed(e, rest))
  {
    ComparisonStop(e, rest);
    ComparisonFrom(toks, e, rest, Ok(Parsed(e, rest)));
    ExprFromComparison(toks, e, rest);
  }

  /** A call/member expression that an ending token follows is a whole
      operand at every level, and the whole expression. */
  lemma {:induction false} CallMemberExpr(toks: seq<Token>, e: Stmt, rest: seq<Token>)
    requires Terminated(toks) && toks[0].kind != OpenBracket && toks[0].kind != OpenBrace
    requires ParseCallMember(toks) == Ok(Parsed(e, rest)) && Ends(rest[0])
    ensures ParseMultiplicative(toks) == Ok(Parsed(e, rest))
    ensures ParseAdditive(toks) == Ok(Parsed(e, rest))
    ensures ParseExpr(toks) == Ok(Parsed(e, rest))
  {
    TailsStop(e, rest);
    MultiplicativeFrom(toks, e, rest, Ok(Parsed(e, rest)));
    AdditiveFrom(toks, e, rest, Ok(Parsed(e, rest)));
    ExprFromAdditive(toks, e, rest);
  }

  /** An identifier that an ending token follows is a whole operand at
      every level, and the whole expression. */
  lemma {:induction false} IdentifierOperand(x: Token, rest: seq<Token>)
    requires IsName(x) && Terminated(rest) && Ends(rest[0])
    ensures Terminated([x] + rest)
    ensures ParseMultiplicative([x] + rest) == Ok(Parsed(V(x.value), rest))
    ensures ParseAdditive([x] + rest) == Ok(Parsed(V(x.value), rest))
    ensures ParseExpr([x] + rest) == Ok(Parsed(V(x.value), rest))
  {
    AtomIsIdentifier(x, rest);
    CallMemberExpr([x] + rest, V(x.value), rest);
  }

  /** A token other than EOF that neither accesses a member nor calls. */
  predicate Plain(t: Token) {
    t.kind != EOF && t.kind != Dot && t.kind != OpenBracket && t.kind != OpenParen
  }

  /** An identifier before a token that is not a multiplicative operator
      is a whole multiplicative operand. */
  lemma {:induction false} MultiplicativeOperand(x: Token, op: Token, toks: seq<Token>)
    requires IsName(x) && Plain(op) && !IsMultiplicativeText(op.value) && Terminated(toks)
    ensures Terminated([op] + toks) && Terminated([x] + ([op] + toks))
    ensures ParseMultiplicative([x] + ([op] + toks)) == Ok(Parsed(V(x.value), [op] + toks))
  {
    Push(op, toks);
    AtomIsIdentifier(x, [op] + toks);
    MultiplicativeStop(V(x.value), [op] + toks);
    MultiplicativeFrom([x] + ([op] + toks), V(x.value), [op] + toks, Ok(Parsed(V(x.value), [op] + toks)));
  }

  /** An identifier before a token that is no multiplicative or additive
      operator is a whole additive operand. */
  lemma {:induction false} AdditiveOperand(x: Token, op: Token, toks: seq<Token>)
    requires IsName(x) && Plain(op) && !IsMultiplicativeText(op.value) && !IsAdditiveText(op.value)
    requires Terminated(toks)
    ensures Terminated([op] + toks) && Terminated([x] + ([op] + toks))
    ensures ParseAdditive([x] + ([op] + toks)) == Ok(Parsed(V(x.value), [op] + toks))
  {
    MultiplicativeOperand(x, op, toks);
    AdditiveStop(V(x.value), [op] + toks);
    AdditiveFrom([x] + ([op] + toks), V(x.value), [op] + toks, Ok(Parsed(V(x.value), [op] + toks)));
  }

  /** An identifier before a token that is no operator at all is a whole
      comparison operand. */
  lemma {:induction false} ComparisonOperand(x: Token, op: Token, toks: seq<Token>)
    requires IsName(x) && Plain(op) && Terminated(toks)
    requires !IsMultiplicativeText(op.value) && !IsAdditiveText(op.value) && !IsComparisonText(op.value)
    requires op.value != "++" && op.value != "--"
    ensures Terminated([op] + toks) && Terminated([x] + ([op] + toks))
    ensures ParseComparison([x] + ([op] + toks)) == Ok(Parsed(V(x.value), [op] + toks))
  {
    AdditiveOperand(x, op, toks);
    ComparisonStop(V(x.value), [op] + toks);
    ComparisonFrom([x] + ([op] + toks), V(x.value), [op] + toks, Ok(Parsed(V(x.value), [op] + toks)));
  }

  /** Token lists written flat are the nested pushes the proofs build. */
  lemma Flatten4(t1: Token, t2: Token, t3: Token, t4: Token, rest: seq<Token>)
    ensures [t1, t2, t3, t4] + rest == [t1] + ([t2] + ([t3] + ([t4] + rest)))
  {
  }

  lemma Flatten5(t1: Token, t2: Token, t3: Token, t4: Token, t5: Token, rest: seq<Token>)
    ensures [t1, t2, t3, t4, t5] + rest == [t1] + ([t2] + ([t3] + ([t4] + ([t5] + rest))))
  {
  }

  lemma Flatten6(t1: Token, t2: Token, t3: Token, t4: Token, t5: Token, t6: Token, rest: seq<Token>)
    ensures [t1, t2, t3, t4, t5, t6] + rest == [t1] + ([t2] + ([t3] + ([t4] + ([t5] + ([t6] + rest)))))
  {
  }

  // ---------------------------------------------------- precedence, grouping

  /** A multiplicative operator binds tighter than an additive one:
      `a + b * c` is `a + (b * c)`. */
  lemma {:induction false} ProductBindsTighter(a: Token, p: Token, b: Token, m: Token, c: Token, rest: seq<Token>)
    requires IsName(a) && IsName(b) && IsName(c) && Terminated(rest) && Ends(rest[0])
    requires p.kind == BinaryOperator && IsAdditiveText(p.value)
    requires m.kind == BinaryOperator && IsMultiplicativeText(m.value)
    ensures Terminated([a, p, b, m, c] + rest)
    ensures ParseExpr([a, p, b, m, c] + rest)
         == Ok(Parsed(BinaryExpr(V(a.value), BinaryExpr(V(b.value), V(c.value), m.value), p.value), rest))
  {
    var x, y, z := V(a.value), V(b.value), V(c.value);
    var yz := BinaryExpr(y, z, m.value);
    var sum := BinaryExpr(x, yz, p.value);
    var t4 := [c] + rest;
    var t3 := [m] + t4;
    var t2 := [b] + t3;
    var t1 := [p] + t2;
    var t0 := [a] + t1;
    AtomIsIdentifier(c, rest);
    MultiplicativeStep(y, m, t4, z, rest);
    MultiplicativeStop(yz, rest);
    AtomIsIdentifier(b, t3);
    MultiplicativeFrom(t2, y, t3, Ok(Parsed(yz, rest)));
    AdditiveStep(x, p, t2, yz, rest);
    AdditiveStop(sum, rest);
    MultiplicativeOperand(a, p, t2);
    AdditiveFrom(t0, x, t1, Ok(Parsed(sum, rest)));
    ExprFromAdditive(t0, sum, rest);
    Flatten5(a, p, b, m, c, rest);
  }

  /** Additive operators group to the left: `a - b + c` is `(a - b) + c`. */
  lemma {:induction false} AdditionGroupsLeft(a: Token, p: Token, b: Token, q: Token, c: Token, rest: seq<Token>)
    requires IsName(a) && IsName(b) && IsName(c) && Terminated(rest) && Ends(rest[0])
    requires p.kind == BinaryOperator && IsAdditiveText(p.value)
    requires q.kind == BinaryOperator && IsAdditiveText(q.value)
    ensures Terminated([a, p, b, q, c] + rest)
    ensures ParseExpr([a, p, b, q, c] + rest)
         == Ok(Parsed(BinaryExpr(BinaryExpr(V(a.value), V(b.value), p.value), V(c.value), q.value), rest))
  {
    var x, y, z := V(a.value), V(b.value), V(c.value);
    var xy := BinaryExpr(x, y, p.value);
    var xyz := BinaryExpr(xy, z, q.value);
    var t4 := [c] + rest;
    var t3 := [q] + t4;
    var t2 := [b] + t3;
    var t1 := [p] + t2;
    var t0 := [a] + t1;
    IdentifierOperand(c, rest);
    AdditiveStep(xy, q, t4, z, rest);
    AdditiveStop(xyz, rest);
    MultiplicativeOperand(b, q, t4);
    AdditiveStep(x, p, t2, y, t3);
    MultiplicativeOperand(a, p, t2);
    AdditiveFrom(t0, x, t1, Ok(Parsed(xyz, rest)));
    ExprFromAdditive(t0, xyz, rest);
    Flatten5(a, p, b, q, c, rest);
  }

  /** Multiplicative operators group to the left: `a / b * c` is
      `(a / b) * c`. */
  lemma {:induction false} ProductGroupsLeft(a: Token, p: Token, b: Token, q: Token, c: Token, rest: seq<Token>)
    requires IsName(a) && IsName(b) && IsName(c) && Terminated(rest) && Ends(rest[0])
    requires p.kind == BinaryOperator && IsMultiplicativeText(p.value)
    requires q.kind == BinaryOperator && IsMultiplicativeText(q.value)
    ensures Terminated([a, p, b, q, c] + rest)
    ensures ParseExpr([a, p, b, q, c] + rest)
         == Ok(Parsed(BinaryExpr(BinaryExpr(V(a.value), V(b.value), p.value), V(c.value), q.value), rest))
  {
    var x, y, z := V(a.value), V(b.value), V(c.value);
    var xy := BinaryExpr(x, y, p.value);
    var xyz := BinaryExpr(xy, z, q.value);
    var t4 := [c] + rest;
    var t3 := [q] + t4;
    var t2 := [b] + t3;
    var t1 := [p] + t2;
    var t0 := [a] + t1;
    AtomIsIdentifier(c, rest);
    MultiplicativeStep(xy, q, t4, z, rest);
    MultiplicativeStop(xyz, rest);
    AtomIsIdentifier(b, t3);
    MultiplicativeStep(x, p, t2, y, t3);
    AtomIsIdentifier(a, t1);
    MultiplicativeFrom(t0, x, t1, Ok(Parsed(xyz, rest)));
    AdditiveStop(xyz, rest);
    AdditiveFrom(t0, xyz, rest, Ok(Parsed(xyz, rest)));
    ExprFromAdditive(t0, xyz, rest);
    Flatten5(a, p, b, q, c, rest);
  }

  /** `b + c` before an ending token is one additive operand. */
  lemma {:induction false} SumOperand(b: Token, q: Token, c: Token, rest: seq<Token>)
    requires IsName(b) && IsName(c) && Terminated(rest) && Ends(rest[0])
    requires q.kind == BinaryOperator && IsAdditiveText(q.value)
    ensures Terminated([b] + ([q] + ([c] + rest)))
    ensures ParseAdditive([b] + ([q] + ([c] + rest)))
         == Ok(Parsed(BinaryExpr(V(b.value), V(c.value), q.value), rest))
  {
    var y, z := V(b.value), V(c.value);
    var yz := BinaryExpr(y, z, q.value);
    var t4 := [c] + rest;
    var t3 := [q] + t4;
    var t2 := [b] + t3;
    IdentifierOperand(c, rest);
    AdditiveStep(y, q, t4, z, rest);
    AdditiveStop(yz, rest);
    MultiplicativeOperand(b, q, t4);
    AdditiveFrom(t2, y, t3, Ok(Parsed(yz, rest)));
  }

  /** An additive operator binds tighter than a comparison:
      `a == b + c` is `a == (b + c)`. */
  lemma {:induction false} SumBindsTighterThanComparison(a: Token, p: Token, b: Token, q: Token, c: Token, rest: seq<Token>)
    requires IsName(a) && IsName(b) && IsName(c) && Terminated(rest) && Ends(rest[0])
    requires p.kind == BinaryOperator && IsComparisonText(p.value)
    requires q.kind == BinaryOperator && IsAdditiveText(q.value)
    ensures Terminated([a, p, b, q, c] + rest)
    ensures ParseExpr([a, p, b, q, c] + rest)
         == Ok(Parsed(BinaryExpr(V(a.value), BinaryExpr(V(b.value), V(c.value), q.value), p.value), rest))
  {
    var x, y, z := V(a.value), V(b.value), V(c.value);
    var yz := BinaryExpr(y, z, q.value);
    var cmp := BinaryExpr(x, yz, p.value);
    var t2 := [b] + ([q] + ([c] + rest));
    var t1 := [p] + t2;
    var t0 := [a] + t1;
    SumOperand(b, q, c, rest);
    ComparisonStep(x, p, t2, yz, rest);
    ComparisonStop(cmp, rest);
    AdditiveOperand(a, p, t2);
    ComparisonFrom(t0, x, t1, Ok(Parsed(cmp, rest)));
    ExprFromComparison(t0, cmp, rest);
    Flatten5(a, p, b, q, c, rest);
  }

  /** A trailing `++` or `--` applies to the whole additive expression
      before it and ends the expression: `a + b ++` is `(a + b)++`. */
  lemma {:induction false} TrailingIncrement(a: Token, p: Token, b: Token, inc: Token, rest: seq<Token>)
    requires IsName(a) && IsName(b) && Terminated(rest) && rest[0].kind != Equals
    requires p.kind == BinaryOperator && IsAdditiveText(p.value)
    requires inc.kind == BinaryOperator && (inc.value == "++" || inc.value == "--")
    ensures Terminated([a, p, b, inc] + rest)
    ensures ParseExpr([a, p, b, inc] + rest)
         == Ok(Parsed(UnaryExpr(BinaryExpr(V(a.value), V(b.value), p.value), inc.value), rest))
  {
    var x, y := V(a.value), V(b.value);
    var xy := BinaryExpr(x, y, p.value);
    var t3 := [inc] + rest;
    var t2 := [b] + t3;
    var t1 := [p] + t2;
    var t0 := [a] + t1;
    Push(inc, rest);
    MultiplicativeOperand(b, inc, rest);
    AdditiveStep(x, p, t2, y, t3);
    AdditiveStop(xy, t3);
    MultiplicativeOperand(a, p, t2);
    AdditiveFrom(t0, x, t1, Ok(Parsed(xy, t3)));
    assert ParseComparison(t0) == Ok(Parsed(UnaryExpr(xy, inc.value), rest));
    ExprFromComparison(t0, UnaryExpr(xy, inc.value), rest);
    Flatten4(a, p, b, inc, rest);
  }

  /** Assignment groups to the right: `a = b = c` is `a = (b = c)`. */
  lemma {:induction false} AssignmentGroupsRight(a: Token, e: Token, b: Token, f: Token, c: Token, rest: seq<Token>)
    requires IsName(a) && IsName(b) && IsName(c) && Terminated(rest) && Ends(rest[0])
    requires e == Token("=", Equals, e.line, e.file) && f == Token("=", Equals, f.line, f.file)
    ensures Terminated([a, e, b, f, c] + rest)
    ensures ParseExpr([a, e, b, f, c] + rest)
         == Ok(Parsed(AssignmentExpr(V(a.value), AssignmentExpr(V(b.value), V(c.value))), rest))
  {
    var x, y, z := V(a.value), V(b.value), V(c.value);
    var t4 := [c] + rest;
    var t3 := [f] + t4;
    var t2 := [b] + t3;
    var t1 := [e] + t2;
    var t0 := [a] + t1;
    IdentifierOperand(c, rest);
    assert ParseAssignment(t4) == Ok(Parsed(z, rest));
    ComparisonOperand(b, f, t4);
    Push(f, t4);
    assert ParseObject(t2) == Ok(Parsed(y, t3));
    assert ParseAssignment(t2) == Ok(Parsed(AssignmentExpr(y, z), rest));
    ComparisonOperand(a, e, t2);
    Push(e, t2);
    assert ParseObject(t0) == Ok(Parsed(x, t1));
    assert ParseAssignment(t0) == Ok(Parsed(AssignmentExpr(x, AssignmentExpr(y, z)), rest));
    Flatten5(a, e, b, f, c, rest);
  }

  /** `!` makes a primary of the expression after it. */
  lemma {:induction false} NegationPrimary(n: Token, toks: seq<Token>, e: Stmt, rest: seq<Token>)
    requires n.kind == Negation && Terminated(toks) && ParseExpr(toks) == Ok(Parsed(e, rest))
    ensures Terminated([n] + toks)
    ensures ParsePrimary([n] + toks) == Ok(Parsed(UnaryExpr(e, "!"), rest))
  {
    Push(n, toks);
    assert ParseNegation([n] + toks) == Ok(Parsed(UnaryExpr(e, "!"), rest));
  }

  /** `!` before an expression that an ending token follows. */
  lemma {:induction false} NegationOperand(n: Token, toks: seq<Token>, e: Stmt, rest: seq<Token>)
    requires n.kind == Negation && Terminated(toks)
    requires ParseExpr(toks) == Ok(Parsed(e, rest)) && Ends(rest[0])
    ensures Terminated([n] + toks)
    ensures ParseExpr([n] + toks) == Ok(Parsed(UnaryExpr(e, "!"), rest))
  {
    var t0 := [n] + toks;
    NegationPrimary(n, toks, e, rest);
    MemberStop(UnaryExpr(e, "!"), rest);
    assert ParseMember(t0) == Ok(Parsed(UnaryExpr(e, "!"), rest));
    assert ParseCallMember(t0) == Ok(Parsed(UnaryExpr(e, "!"), rest));
    CallMemberExpr(t0, UnaryExpr(e, "!"), rest);
  }

  /** `!` takes the whole expression after it: `! a == b` is `!(a == b)`. */
  lemma {:induction false} NegationTakesWholeExpression(n: Token, a: Token, p: Token, b: Token, rest: seq<Token>)
    requires n.kind == Negation && IsName(a) && IsName(b) && Terminated(rest) && Ends(rest[0])
    requires p.kind == BinaryOperator && IsComparisonText(p.value)
    ensures Terminated([n, a, p, b] + rest)
    ensures ParseExpr([n, a, p, b] + rest)
         == Ok(Parsed(UnaryExpr(BinaryExpr(V(a.value), V(b.value), p.value), "!"), rest))
  {
    var x, y := V(a.value), V(b.value);
    var cmp := BinaryExpr(x, y, p.value);
    var t3 := [b] + rest;
    var t2 := [p] + t3;
    var t1 := [a] + t2;
    IdentifierOperand(b, rest);
    ComparisonStep(x, p, t3, y, rest);
    ComparisonStop(cmp, rest);
    AdditiveOperand(a, p, t3);
    ComparisonFrom(t1, x, t2, Ok(Parsed(cmp, rest)));
    ExprFromComparison(t1, cmp, rest);
    NegationOperand(n, t1, cmp, rest);
    Flatten4(n, a, p, b, rest);
  }

  // --------------------------------------------------------- member chains

  /** `[expr]` extends a member chain with a computed access. */
  lemma {:induction false} IndexStep(obj: Stmt, o: Token, toks: seq<Token>, prop: Stmt, k: Token, rest: seq<Token>)
    requires o.kind == OpenBracket && k.kind == CloseBracket && Terminated(rest) && Terminated(toks)
    requires ParseExpr(toks) == Ok(Parsed(prop, [k] + rest))
    ensures Terminated([o] + toks)
    ensures MemberTail(obj, [o] + toks) == MemberTail(MemberExpr(obj, prop, true), rest)
  {
    Push(k, rest);
    Push(o, toks);
  }

  /** `.name` extends a member chain with a plain access. */
  lemma {:induction false} DotStep(obj: Stmt, d: Token, b: Token, rest: seq<Token>)
    requires d.kind == Dot && IsName(b) && Terminated(rest)
    ensures Terminated([d, b] + rest)
    ensures MemberTail(obj, [d, b] + rest) == MemberTail(MemberExpr(obj, V(b.value), false), rest)
  {
    Push(b, rest);
    Push(d, [b] + rest);
    assert [d, b] + rest == [d] + ([b] + rest);
    assert ParsePrimary([b] + rest) == Ok(Parsed(V(b.value), rest));
  }

  /** Member accesses fold to the left: `a.b[c]` is `(a.b)[c]`, the first
      access not computed, the second computed. */
  lemma {:induction false} MemberChainFoldsLeft(a: Token, d: Token, b: Token, o: Token, c: Token, k: Token, rest: seq<Token>)
    requires IsName(a) && IsName(b) && IsName(c) && Terminated(rest) && Ends(rest[0])
    requires d.kind == Dot && o.kind == OpenBracket && k == Token("]", CloseBracket, k.line, k.file)
    ensures Terminated([a, d, b, o, c, k] + rest)
    ensures ParseMember([a, d, b, o, c, k] + rest)
         == Ok(Parsed(MemberExpr(MemberExpr(V(a.value), V(b.value), false), V(c.value), true), rest))
  {
    var x, y, z := V(a.value), V(b.value), V(c.value);
    var abc := MemberExpr(MemberExpr(x, y, false), z, true);
    var t1 := [d, b] + ([o] + ([c] + ([k] + rest)));
    ChainTail(x, d, b, o, c, k, rest);
    Push(a, t1);
    assert ParsePrimary([a] + t1) == Ok(Parsed(x, t1));
    assert ParseMember([a] + t1) == Ok(Parsed(abc, rest));
    Flatten6(a, d, b, o, c, k, rest);
  }

  /** The tail `.b[c]` after an operand `x` folds onto it from the left. */
  lemma {:induction false} ChainTail(x: Stmt, d: Token, b: Token, o: Token, c: Token, k: Token, rest: seq<Token>)
    requires IsName(b) && IsName(c) && Terminated(rest) && Ends(rest[0])
    requires d.kind == Dot && o.kind == OpenBracket && k == Token("]", CloseBracket, k.line, k.file)
    ensures Terminated([d, b] + ([o] + ([c] + ([k] + rest))))
    ensures MemberTail(x, [d, b] + ([o] + ([c] + ([k] + rest))))
         == Ok(Parsed(MemberExpr(MemberExpr(x, V(b.value), false), V(c.value), true), rest))
  {
    var y, z := V(b.value), V(c.value);
    var ab := MemberExpr(x, y, false);
    var abc := MemberExpr(ab, z, true);
    var t5 := [k] + rest;
    var t4 := [c] + t5;
    var t3 := [o] + t4;
    Push(k, rest);
    IdentifierOperand(c, t5);
    IndexStep(ab, o, t4, z, k, rest);
    MemberStop(abc, rest);
    assert MemberTail(ab, t3) == Ok(Parsed(abc, rest));
    DotStep(x, d, b, t3);
  }

  /** After `.`, a number or a string is not a member name. */
  lemma {:induction false} DotNeedsName(obj: Stmt, d: Token, b: Token, rest: seq<Token>)
    requires d.kind == Dot && (b.kind == Number || b.kind == StringMark) && Terminated(rest)
    ensures Terminated([d] + ([b] + rest))
    ensures MemberTail(obj, [d] + ([b] + rest)).Err?
  {
    Push(b, rest);
    Push(d, [b] + rest);
    assert ParsePrimary([b] + rest).Ok? ==> !ParsePrimary([b] + rest).value.node.Identifier?;
  }

  /** `.` must be followed by an identifier: `a.1` and `a."b"` do not
      parse. */
  lemma {:induction false} DotNeedsIdentifier(a: Token, d: Token, b: Token, rest: seq<Token>)
    requires IsName(a) && d.kind == Dot && (b.kind == Number || b.kind == StringMark) && Terminated(rest)
    ensures Terminated([a, d, b] + rest)
    ensures ParseMember([a, d, b] + rest).Err?
  {
    var t1 := [d] + ([b] + rest);
    assert [a, d, b] + rest == [a] + t1;
    DotNeedsName(V(a.value), d, b, rest);
    Push(a, t1);
    assert ParsePrimary([a] + t1) == Ok(Parsed(V(a.value), t1));
  }

  // ----------------------------------------------------------- declarations

  /** `const x` without `=` is an error, whatever follows. */
  lemma {:induction false} ConstNeedsValue(toks: seq<Token>)
    requires Terminated(toks) && toks[0].kind == Const
    requires ParseIdentifierList(toks[1..]).Ok?
    requires ParseIdentifierList(toks[1..]).value.rest[0].kind != Equals
    ensures ParseVarDeclaration(toks).Err?
  {
    assert Eat(toks).1 == toks[1..];
  }

  /** `let a, b, ...` without `=` declares the first identifier only, as a
      variable without a value. */
  lemma {:induction false} LetWithoutValue(toks: seq<Token>)
    requires Terminated(toks) && toks[0].kind == Let
    requires ParseIdentifierList(toks[1..]).Ok?
    requires ParseIdentifierList(toks[1..]).value.rest[0].kind != Equals
    ensures ParseVarDeclaration(toks).Ok?
    ensures ParseVarDeclaration(toks).value.node
         == VarDeclaration(false, [ParseIdentifierList(toks[1..]).value.node[0]], false, None)
  {
    assert Eat(toks).1 == toks[1..];
  }

  /** `= []` declares an array. */
  lemma {:induction false} EmptyArrayInitializer(c: bool, ids: seq<string>, toks: seq<Token>)
    requires Terminated(toks) && |ids| > 0
    requires toks[0].kind == OpenBracket && toks[1].kind == CloseBracket
    ensures ParseInitializer(c, ids, toks) == Ok(Parsed(VarDeclaration(c, [ids[0]], true, None), toks[2..]))
  {
  }

  /** `= [e1, ..., en]` declares an array, then pushes the elements in
      order. */
  lemma {:induction false} ArrayLiteralExpands(c: bool, ids: seq<string>, toks: seq<Token>)
    requires Terminated(toks) && |ids| > 0
    requires toks[0].kind == OpenBracket && toks[1].kind != CloseBracket
    requires ParseArgumentsList(toks[1..]).Ok?
    requires ParseArgumentsList(toks[1..]).value.rest[0].kind == CloseBracket
    ensures ParseInitializer(c, ids, toks).Ok?
    ensures var elems := ParseArgumentsList(toks[1..]).value.node;
            var stmts := ParseInitializer(c, ids, toks).value.node;
            && stmts.AggregatedExpr?
            && |stmts.stmts| == |elems| + 1
            && stmts.stmts[0] == VarDeclaration(c, [ids[0]], true, None)
            && forall i :: 0 <= i < |elems| ==>
                 stmts.stmts[i + 1] == CallExpr([elems[i]], MemberExpr(V(ids[0]), V("push"), false))
  {
    assert Eat(toks).1 == toks[1..];
  }

  /** `= fn ...` declares the name, then the function, then assigns the
      function to the name. */
  lemma {:induction false} FunctionInitializerExpands(c: bool, ids: seq<string>, toks: seq<Token>, f: Stmt, rest: seq<Token>)
    requires Terminated(toks) && |ids| > 0 && toks[0].kind == Fn
    requires ParseFn(toks) == Ok(Parsed(f, rest))
    ensures ParseInitializer(c, ids, toks) == Ok(Parsed(AggregatedExpr([
              VarDeclaration(c, [ids[0]], false, None),
              f,
              AssignmentExpr(V(ids[0]), V(f.name))]), rest))
  {
  }

  // ---------------------------------------------------- anonymous functions

  lemma {:induction false} NameLettersInjective(n: nat, m: nat, k: nat)
    requires n < Power52(k) && m < Power52(k)
    requires NameLetters(n, k) == NameLetters(m, k)
    ensures n == m
    decreases k
  {
    if k > 0 {
      var a := NameLetters(n, k);
      var b := NameLetters(m, k);
      assert a[k - 1] == b[k - 1];
      assert n % 52 == m % 52;
      assert a[..k - 1] == NameLetters(n / 52, k - 1);
      assert b[..k - 1] == NameLetters(m / 52, k - 1);
      NameLettersInjective(n / 52, m / 52, k - 1);
    }
  }

  function Power52(k: nat): (p: nat)
    ensures p >= 1
  {
    if k == 0 then 1 else 52 * Power52(k - 1)
  }

  /** Distinct queue positions give distinct anonymous names. */
  lemma FreshNamesDiffer(n: nat, m: nat)
    requires n != m && n < Power52(18) && m < Power52(18)
    ensures FreshName(n) != FreshName(m)
  {
    if FreshName(n) == FreshName(m) {
      assert FreshName(n)[2..] == NameLetters(n, 18);
      assert FreshName(m)[2..] == NameLetters(m, 18);
      NameLettersInjective(n, m, 18);
    }
  }

  /** No identifier the scanner can produce is an anonymous function name,
      so such a name never captures or hides a user's binding. */
  lemma FreshNameIsNotIdentifier(t: Token, n: nat)
    requires WellShaped(t) && t.kind == TokenType.Identifier
    ensures t.value != FreshName(n)
  {
    assert IsAlpha(t.value[0]);
  }
}
