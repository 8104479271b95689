/** Properties of the evaluator: what each node kind evaluates to, how
    scopes and the heap change, and the typing rules of the unary operators,
    conditions and calls. Fuel only bounds the depth of evaluation, so each
    property holds once the fuel suffices for the nodes involved. */
module InterpreterProps {
  import opened Wrappers
  import opened Refs
  import opened Ast
  import opened Values
  import opened Interpreter
  import Environment
  import Natives
  import NativesProps

  /** A number literal makes a new number object on every evaluation. */
  lemma NumericLiteralFresh(fuel: nat, n: real, env: nat, st: State)
    requires Ready(st, env) && fuel > 0
    ensures Eval(fuel, NumericLiteral(n), env, st)
            == Ok(Out(State(st.heap + [NumCell(n)], st.frames), Ref(|st.heap|)))
  {
  }

  /** A string literal makes a new string object holding its text. */
  lemma StringLiteralFresh(fuel: nat, s: string, env: nat, st: State)
    requires Ready(st, env) && fuel > 0
    ensures var r := Eval(fuel, StringLiteral(s), env, st);
      r.Ok? && r.value.v == Ref(|st.heap|) && r.value.st.frames == st.frames
      && IsRuntimeString(r.value.st.heap, r.value.v) == Ok(true)
      && r.value.st.heap[|st.heap|].payload.text == s
  {
  }

  /** An already evaluated value is returned as it is, with no change. */
  lemma EvaluatedIdentity(fuel: nat, v: Val, env: nat, st: State)
    requires Ready(st, env) && fuel > 0
    ensures Eval(fuel, EvaluatedExpr(v), env, st) == Ok(Out(st, v))
  {
  }

  /** Node kinds the evaluator has no case for stop the run. */
  lemma UnhandledKinds(fuel: nat, params: seq<Stmt>, code: string, operand: Stmt, env: nat, st: State)
    requires Ready(st, env) && fuel > 0
    ensures Eval(fuel, NativeBlock(params, code), env, st).Err?
    ensures Eval(fuel, NegationExpr(operand), env, st).Err?
  {
  }

  /** An array declaration makes a new, empty array on every evaluation. */
  lemma ArrayDeclarationFresh(fuel: nat, env: nat, st: State)
    requires Ready(st, env) && fuel > 0
    ensures var r := Eval(fuel, ArrayDeclaration, env, st);
      r.Ok? && r.value.v == Ref(|st.heap|) && ArrayAt(r.value.st.heap, |st.heap|, [])
      && r.value.st.frames == st.frames
  {
  }

  /** A name reads its nearest binding; an unbound name is an error. */
  lemma IdentifierReadsNearest(fuel: nat, x: string, env: nat, st: State)
    requires Ready(st, env) && fuel > 0
    ensures Eval(fuel, Identifier(x), env, st).Ok? <==> Environment.Binds(st.frames, env, x)
    ensures var l := Environment.Lookup(st.frames, env, x);
      l.Ok? && l.value != Undefined ==> Eval(fuel, Identifier(x), env, st) == Ok(Out(st, l.value))
  {
    Environment.ResolveFindsNearest(st.frames, env, x);
  }

  /** `!` needs a boolean and negates it into a new cell. */
  lemma NegationRule(fuel: nat, v: Val, env: nat, st: State)
    requires Ready(st, env) && fuel >= 2
    ensures var r := Eval(fuel, UnaryExpr(EvaluatedExpr(v), "!"), env, st);
      (r.Ok? <==> v.Ref? && v.addr < |st.heap| && st.heap[v.addr].BoolCell?)
      && (r.Ok? ==> r.value.v == Ref(|st.heap|) && r.value.st.heap == st.heap + [BoolCell(!st.heap[v.addr].flag)])
  {
    assert Eval(fuel - 1, EvaluatedExpr(v), env, st) == Ok(Out(st, v));
  }

  /** `x++` changes the number object `x` refers to in place and evaluates to
      that same object, so every other name bound to it sees the change; the
      bindings themselves stay as they were. */
  lemma IncrementInPlace(fuel: nat, x: string, env: nat, st: State, a: nat, n: real)
    requires Ready(st, env) && fuel > 0
    requires Environment.Lookup(st.frames, env, x) == Ok(Ref(a)) && a < |st.heap| && st.heap[a] == NumCell(n)
    requires x !in st.frames[Environment.Resolve(st.frames, env, x).value].constants
    ensures var r := Eval(fuel, UnaryExpr(Identifier(x), "++"), env, st);
      r.Ok? && r.value.v == Ref(a) && r.value.st.heap == st.heap[a := NumCell(n + 1.0)]
      && r.value.st.frames == st.frames
  {
    var fs := st.frames;
    var at := Environment.Resolve(fs, env, x).value;
    var gs := Environment.Assign(fs, env, x, Ref(a)).value;
    assert gs[at] == fs[at];
    assert gs == fs;
  }

  /** `++` and `--` need a name bound to a number; any other operand or
      operator is an error. */
  lemma IncrementRules(fuel: nat, x: string, env: nat, st: State, op: string)
    requires Ready(st, env) && fuel > 0 && op != "!"
    ensures var l := Environment.Lookup(st.frames, env, x);
      l.Ok? && !(l.value.Ref? && l.value.addr < |st.heap| && st.heap[l.value.addr].NumCell?)
      ==> Eval(fuel, UnaryExpr(Identifier(x), op), env, st).Err?
    ensures op != "++" && op != "--" ==> Eval(fuel, UnaryExpr(Identifier(x), op), env, st).Err?
    ensures forall e: Stmt :: !e.Identifier? ==> Eval(fuel, UnaryExpr(e, op), env, st).Err?
  {
  }

  /** `break` and `continue` set exactly one of the two flags of the current
      scope, yield a new null and leave every binding alone. */
  lemma LoopControlFlags(fuel: nat, isContinue: bool, env: nat, st: State, j: nat, name: string)
    requires Ready(st, env) && fuel > 0 && j < |st.frames|
    ensures var r := Eval(fuel, ContinueBreak(isContinue), env, st);
      r.Ok? && r.value.st.frames[env].isContinueSet == isContinue
      && r.value.st.frames[env].isBreakSet == !isContinue
      && r.value.st.heap == st.heap + [NullCell] && r.value.v == Ref(|st.heap|)
      && Environment.Lookup(r.value.st.frames, j, name) == Environment.Lookup(st.frames, j, name)
  {
    Environment.FlagsKeepLookup(st.frames, env, isContinue, !isContinue, j, name);
  }

  /** An `if` evaluates its condition in the enclosing scope after opening
      the child scope for the branch; a false condition with no else body
      yields a new null. */
  lemma IfFalseWithoutElse(f: nat, b: nat, body: seq<Stmt>, env: nat, st: State)
    requires Ready(st, env) && f > 0 && b < |st.heap| && st.heap[b] == BoolCell(false)
    ensures var r := EvalIf(f, EvaluatedExpr(Ref(b)), body, None, env, st);
      r.Ok? && r.value.v == Ref(|st.heap|) && r.value.st.heap == st.heap + [NullCell]
      && |r.value.st.frames| == |st.frames| + 1 && r.value.st.frames[..|st.frames|] == st.frames
  {
  }

  /** A condition that is not a boolean is an error for `if` and `while`. */
  lemma ConditionMustBeBoolean(f: nat, c: nat, body: seq<Stmt>, elseBody: Option<seq<Stmt>>, env: nat, st: State)
    requires Ready(st, env) && f > 0 && c < |st.heap| && !st.heap[c].BoolCell?
    ensures EvalIf(f, EvaluatedExpr(Ref(c)), body, elseBody, env, st).Err?
    ensures EvalWhile(f, EvaluatedExpr(Ref(c)), body, env, st).Err?
  {
  }

  /** A `while` whose condition is false at first never runs its body. */
  lemma WhileFalseSkipsBody(f: nat, b: nat, body: seq<Stmt>, env: nat, st: State)
    requires Ready(st, env) && f > 0 && b < |st.heap| && st.heap[b] == BoolCell(false)
    ensures var r := EvalWhile(f, EvaluatedExpr(Ref(b)), body, env, st);
      r.Ok? && r.value.v == Ref(|st.heap|) && r.value.st.heap == st.heap + [NullCell]
  {
  }

  /** The taken branch of an `if` runs in the child scope, whose loop flags
      are then copied to the enclosing scope: a `break` inside the branch is
      seen by the loop around the `if`. */
  lemma IfPropagatesBreak(f: nat, b: nat, env: nat, st: State)
    requires Ready(st, env) && f >= 2 && b < |st.heap| && st.heap[b] == BoolCell(true)
    ensures var r := EvalIf(f, EvaluatedExpr(Ref(b)), [ContinueBreak(false)], None, env, st);
      r.Ok? && r.value.st.frames[env].isBreakSet && !r.value.st.frames[env].isContinueSet
  {
    var (fs, inner) := Environment.NewFrame(st.frames, Some(env));
    var st1 := State(st.heap, fs);
    assert Eval(f, EvaluatedExpr(Ref(b)), env, st1) == Ok(Out(st1, Ref(b)));
    var o := New(st1, MkNull());
    var body := [ContinueBreak(false)];
    assert body[0] == ContinueBreak(false);
    var c := New(State(o.st.heap, Environment.SetFlags(o.st.frames, inner, false, true)), MkNull());
    assert Eval(f, ContinueBreak(false), inner, o.st) == Ok(c);
    assert c.st.frames[inner].isBreakSet && !c.st.frames[inner].isContinueSet;
    assert TagOfVal(c.st, c.v) == Ok(NullTag);
    assert EvalBodyFrom(f, body, inner, o.st, true, o.v) == Ok(c);
    assert EvalBody(f, body, inner, st1, true) == Ok(c);
  }

  /** A block returns the first return value at once, skipping the rest. */
  lemma BodyStopsAtReturn(f: nat, rest: seq<Stmt>, env: nat, st: State, loopControl: bool)
    requires Ready(st, env) && f >= 1
    ensures var r := EvalBody(f, [Return([])] + rest, env, st, loopControl);
      r.Ok? && r.value.v.FunctionReturn? && |r.value.v.values| == 1
      && r.value.st.heap == st.heap + [NullCell, NullCell]
  {
    var o := New(st, MkNull());
    var stmts := [Return([])] + rest;
    assert stmts[0] == Return([]);
    var ret := EvalReturn(f - 1, [], env, o.st).value;
    assert Eval(f, Return([]), env, o.st) == Ok(ret);
    assert ret.v.FunctionReturn? && |ret.v.values| == 1;
    assert TagOfVal(ret.st, ret.v) == Ok(ReturnTag);
    assert EvalBodyFrom(f, stmts, env, o.st, loopControl, o.v) == Ok(ret);
  }

  /** Inside a loop a `continue` stops the block at once: the statements
      after it do not run and the scope is left with only `continue` set. */
  lemma ContinueSkipsRest(f: nat, rest: seq<Stmt>, env: nat, st: State)
    requires Ready(st, env) && f >= 1
    ensures EvalBody(f, [ContinueBreak(true)] + rest, env, st, true)
      == Ok(Out(State(st.heap + [NullCell, NullCell], Environment.SetFlags(st.frames, env, true, false)), Ref(|st.heap| + 1)))
  {
    var o := New(st, MkNull());
    var stmts := [ContinueBreak(true)] + rest;
    assert stmts[0] == ContinueBreak(true);
    var c := New(State(o.st.heap, Environment.SetFlags(o.st.frames, env, true, false)), MkNull());
    assert c.st.heap == st.heap + [NullCell, NullCell];
    assert Eval(f, ContinueBreak(true), env, o.st) == Ok(c);
    assert TagOfVal(c.st, c.v) == Ok(NullTag);
    assert EvalBodyFrom(f, stmts, env, o.st, true, o.v) == Ok(c);
  }

  /** A loop whose body returns still evaluates its condition before it
      hands the return value on: the loop succeeds exactly when the
      condition can be evaluated, and then yields the return value. */
  lemma ReturnInLoopTestsCondition(f: nat, x: string, scope: nat, st: State)
    requires Ready(st, scope) && f >= 1
    ensures var r := Loop(f, Identifier(x), None, [Return([])], scope, st);
      (r.Ok? <==> Environment.Resolve(st.frames, scope, x).Ok?) && (r.Ok? ==> r.value.v.FunctionReturn?)
  {
    var st0 := State(st.heap, Environment.SetFlags(st.frames, scope, false, st.frames[scope].isBreakSet));
    var n := New(st0, MkNull());
    var ret := EvalReturn(f - 1, [], scope, n.st).value;
    assert ret.st.frames == st0.frames;
    assert Eval(f, Return([]), scope, n.st) == Ok(ret);
    assert [Return([])][0] == Return([]);
    assert EvalBodyFrom(f, [Return([])], scope, n.st, true, n.v) == Ok(ret);
    Environment.FlagsKeepLookup(st.frames, scope, false, st.frames[scope].isBreakSet, scope, x);
  }

  /** A call evaluates its arguments before its callee: when an argument
      cannot be evaluated the call fails with that argument's error,
      whatever the callee. */
  lemma ArgumentsBeforeCallee(f: nat, a: string, callee: Stmt, env: nat, st: State)
    requires Ready(st, env) && f >= 2 && Environment.Resolve(st.frames, env, a).Err?
    ensures Eval(f, CallExpr([Identifier(a)], callee), env, st)
      == Err(RuntimeError("Cannot resolve '" + a + "' as it does not exist."))
  {
    ResolveFails(st.frames, env, a);
    var e := RuntimeError("Cannot resolve '" + a + "' as it does not exist.");
    assert Eval(f - 1, Identifier(a), env, st) == Err(e);
    assert [Identifier(a)][0] == Identifier(a);
    assert EvalList(f - 1, [Identifier(a)], env, st) == Err(e);
    assert EvalCall(f - 1, [Identifier(a)], callee, env, st) == Err(e);
  }

  /** Resolution fails with one message, naming the name. */
  lemma {:induction false} ResolveFails(fs: Environment.Frames, id: nat, name: string)
    requires Environment.Valid(fs) && id < |fs| && Environment.Resolve(fs, id, name).Err?
    ensures Environment.Resolve(fs, id, name) == Err(RuntimeError("Cannot resolve '" + name + "' as it does not exist."))
    decreases id
  {
    if name !in fs[id].variables && fs[id].parent.Some? {
      ResolveFails(fs, fs[id].parent.value, name);
    }
  }

  /** An empty block yields a new null. */
  lemma EmptyBodyIsNull(f: nat, env: nat, st: State, loopControl: bool)
    requires Ready(st, env)
    ensures EvalBody(f, [], env, st, loopControl) == Ok(Out(State(st.heap + [NullCell], st.frames), Ref(|st.heap|)))
  {
  }

  /** At the top level a return value does not stop the program: the
      statements after it still run and the last one gives the result. */
  lemma ProgramRunsPastReturn(fuel: nat, n: real, env: nat, st: State)
    requires Ready(st, env) && fuel >= 3
    ensures var r := Eval(fuel, Program([Return([]), NumericLiteral(n)]), env, st);
      r.Ok? && r.value.v == Ref(|st.heap| + 1) && r.value.st.heap == st.heap + [NullCell, NumCell(n)]
  {
    var f := fuel - 1;
    var o := EvalReturn(f - 1, [], env, st).value;
    assert Eval(f, Return([]), env, st) == Ok(o);
    assert EvalSeq(f, [NumericLiteral(n)], env, o.st, Some(o.v)) == EvalSeq(f, [], env, Eval(f, NumericLiteral(n), env, o.st).value.st, Some(Ref(|st.heap| + 1)));
  }

  /** A function declaration binds its name as a constant in the current
      scope: declaring or assigning the name there again fails. Its
      `paramCount` is the number of parameters and its `andThen` an
      uncompleted composition with the function as caller. */
  lemma FunctionNameIsConstant(params: seq<string>, name: string, body: seq<Stmt>, env: nat, st: State, v: Val)
    requires Ready(st, env) && name !in st.frames[env].variables
    ensures var r := EvalFunctionDeclaration(params, name, body, env, st);
      r.Ok? && FunctionAt(r.value.st.heap, |st.heap|, name, params, env, body)
      && Environment.Assign(r.value.st.frames, env, name, v).Err?
      && EvalFunctionDeclaration(params, name, body, env, r.value.st).Err?
  {
    var r := EvalFunctionDeclaration(params, name, body, env, st).value;
    assert Environment.Resolve(r.st.frames, env, name) == Ok(env);
  }

  /** A declaration of one name binds it to the declared value in the
      current scope; a constant cannot be assigned afterwards and a variable
      can. */
  lemma DeclarationBinds(f: nat, constant: bool, x: string, isArray: bool, inits: Option<seq<Stmt>>, env: nat, st: State, w: Val)
    requires Ready(st, env)
    ensures var r := EvalVarDeclaration(f, constant, [x], isArray, inits, env, st);
      r.Ok? ==>
        Environment.Lookup(r.value.st.frames, env, x) == Ok(r.value.v)
        && (Environment.Assign(r.value.st.frames, env, x, w).Ok? <==> !constant)
  {
    var r := EvalVarDeclaration(f, constant, [x], isArray, inits, env, st);
    if r.Ok? {
      assert Environment.Resolve(r.value.st.frames, env, x) == Ok(env);
    }
  }

  /** Without an initializer the name is bound to a new null, and with
      `isArray` to a new empty array even when an initializer is given. */
  lemma DeclaredValues(f: nat, constant: bool, x: string, v: Val, env: nat, st: State)
    requires Ready(st, env) && f > 0 && x !in st.frames[env].variables
    ensures var r := EvalVarDeclaration(f, constant, [x], false, None, env, st);
      r.Ok? && r.value.v == Ref(|st.heap|) && r.value.st.heap == st.heap + [NullCell]
    ensures var r := EvalVarDeclaration(f, constant, [x], true, Some([EvaluatedExpr(v)]), env, st);
      r.Ok? && r.value.v == Ref(|st.heap|) && ArrayAt(r.value.st.heap, |st.heap|, [])
  {
    assert Eval(f, EvaluatedExpr(v), env, st) == Ok(Out(st, v));
  }

  /** Several names take the values of a returned list pairwise; a value
      that is not a list of the same length is an error. */
  lemma MultipleNamesPairwise(f: nat, x: string, y: string, v: Val, w: Val, env: nat, st: State)
    requires Ready(st, env) && f > 0 && x != y
    requires x !in st.frames[env].variables && y !in st.frames[env].variables
    ensures var r := EvalVarDeclaration(f, false, [x, y], false, Some([EvaluatedExpr(FunctionReturn([v, w]))]), env, st);
      r.Ok? && Environment.Lookup(r.value.st.frames, env, x) == Ok(v)
      && Environment.Lookup(r.value.st.frames, env, y) == Ok(w)
    ensures EvalVarDeclaration(f, false, [x, y], false, Some([EvaluatedExpr(FunctionReturn([v]))]), env, st).Err?
  {
    assert Eval(f, EvaluatedExpr(FunctionReturn([v, w])), env, st) == Ok(Out(st, FunctionReturn([v, w])));
    assert Eval(f, EvaluatedExpr(FunctionReturn([v])), env, st) == Ok(Out(st, FunctionReturn([v])));
    var fs := st.frames;
    var fs1 := Environment.Declare(fs, env, x, v, false).value;
    var fs2 := Environment.Declare(fs1, env, y, w, false).value;
    assert DeclareAll(fs1, env, [y], [w], false) == Ok(fs2);
    assert DeclareAll(fs, env, [x, y], [v, w], false) == Ok(fs2);
    Environment.DeclareThenLookup(fs1, env, y, w, false, env, x);
    Environment.DeclareThenLookup(fs, env, x, v, false, env, y);
  }

  /** As the host evaluates it, `let x;` binds nothing a name can reach, so
      a name unbound before stays unbound; the declaration the model uses
      binds it. */
  lemma AsWrittenDeclarationLosesName(f: nat, x: string, env: nat, st: State)
    requires Ready(st, env) && Environment.Resolve(st.frames, env, x).Err?
    ensures var r := EvalVarDeclarationAsWritten(false, None, st);
      r.Ok? && Environment.Lookup(r.value.st.frames, env, x).Err?
    ensures var r := EvalVarDeclaration(f, false, [x], false, None, env, st);
      r.Ok? && Environment.Lookup(r.value.st.frames, env, x).Ok?
  {
    assert x !in st.frames[env].variables;
    DeclarationBinds(f, false, x, false, None, env, st, Undefined);
  }

  /** The parser's expansion of `let x = fn g() {…}`: declare `x`, declare
      the function, assign it to `x`. */
  function FunctionSugar(constant: bool, x: string, g: string, body: seq<Stmt>): Stmt {
    AggregatedExpr([VarDeclaration(constant, [x], false, None),
                    FunctionDeclaration([], g, body, false),
                    AssignmentExpr(Identifier(x), Identifier(g))])
  }

  /** With `let` the expansion leaves `x` bound to the function; with
      `const` the placeholder is constant, so the final assignment always
      fails. */
  lemma FunctionSugarBindsOnlyWithLet(fuel: nat, x: string, g: string, body: seq<Stmt>, env: nat, st: State)
    requires Ready(st, env) && fuel >= 4 && x != g
    requires x !in st.frames[env].variables && g !in st.frames[env].variables
    ensures var r := Eval(fuel, FunctionSugar(false, x, g, body), env, st);
      r.Ok? && Environment.Lookup(r.value.st.frames, env, x) == Ok(Ref(|st.heap| + 1))
      && FunctionAt(r.value.st.heap, |st.heap| + 1, g, [], env, body)
    ensures Eval(fuel, FunctionSugar(true, x, g, body), env, st).Err?
  {
    var f := fuel - 1;
    SugarSteps(f, false, x, g, body, env, st);
    SugarSteps(f, true, x, g, body, env, st);
  }

  lemma SugarSteps(f: nat, constant: bool, x: string, g: string, body: seq<Stmt>, env: nat, st: State)
    requires Ready(st, env) && f >= 3 && x != g
    requires x !in st.frames[env].variables && g !in st.frames[env].variables
    ensures var r := EvalSeq(f, FunctionSugar(constant, x, g, body).stmts, env, st, None);
      (r.Ok? <==> !constant)
      && (r.Ok? ==> Environment.Lookup(r.value.st.frames, env, x) == Ok(Ref(|st.heap| + 1))
                    && FunctionAt(r.value.st.heap, |st.heap| + 1, g, [], env, body))
  {
    var stmts := FunctionSugar(constant, x, g, body).stmts;
    var decl := DeclareStep(f, constant, x, env, st);
    var fn := FunctionStep(f, g, body, env, decl.st);
    assert EvalSeq(f, stmts, env, st, None) == EvalSeq(f, stmts[1..], env, decl.st, Some(decl.v));
    assert EvalSeq(f, stmts[1..], env, decl.st, Some(decl.v)) == EvalSeq(f, stmts[2..], env, fn.st, Some(fn.v));
    assert Environment.Resolve(fn.st.frames, env, g) == Ok(env);
    var asg := AssignStep(f, x, g, env, fn.st);
    if asg.Ok? {
      Environment.AssignThenLookup(fn.st.frames, env, x, fn.v, env, g);
      assert EvalSeq(f, stmts[2..], env, fn.st, Some(fn.v)) == EvalSeq(f, [], env, asg.value.st, Some(asg.value.v));
    }
  }

  /** The placeholder declaration of the expansion. */
  lemma DeclareStep(f: nat, constant: bool, x: string, env: nat, st: State) returns (o: Out)
    requires Ready(st, env) && f >= 1 && x !in st.frames[env].variables
    ensures Eval(f, VarDeclaration(constant, [x], false, None), env, st) == Ok(o)
    ensures Grows(st, o.st) && |o.st.frames| == |st.frames| && o.st.heap == st.heap + [NullCell]
    ensures o.st.frames[env].variables == st.frames[env].variables[x := o.v]
    ensures x in o.st.frames[env].constants <==> constant
    ensures forall j :: 0 <= j < |st.frames| ==> o.st.frames[j].parent == st.frames[j].parent
  {
    var n := New(st, MkNull());
    var fs := Environment.Declare(n.st.frames, env, x, n.v, constant).value;
    o := Out(State(n.st.heap, fs), n.v);
    assert EvalVarDeclaration(f - 1, constant, [x], false, None, env, st) == Ok(o);
    assert st.frames[env].constants <= st.frames[env].variables.Keys;
    forall j | 0 <= j < |st.frames|
      ensures o.st.frames[j].parent == st.frames[j].parent
    {
      if j != env {
        assert fs[j] == st.frames[j];
      }
    }
  }

  /** The function declaration of the expansion. */
  lemma FunctionStep(f: nat, g: string, body: seq<Stmt>, env: nat, st: State) returns (o: Out)
    requires Ready(st, env) && f >= 1 && g !in st.frames[env].variables
    ensures Eval(f, FunctionDeclaration([], g, body, false), env, st) == Ok(o)
    ensures Grows(st, o.st) && o.v == Ref(|st.heap|) && FunctionAt(o.st.heap, |st.heap|, g, [], env, body)
    ensures o.st.frames[env].variables == st.frames[env].variables[g := o.v]
    ensures o.st.frames[env].constants == st.frames[env].constants + {g}
    ensures |o.st.frames| == |st.frames| && forall j :: 0 <= j < |st.frames| && j != env ==> o.st.frames[j] == st.frames[j]
    ensures o.st.frames[env].parent == st.frames[env].parent
  {
    o := EvalFunctionDeclaration([], g, body, env, st).value;
  }

  /** The final assignment of the expansion: it succeeds exactly when `x` is
      not constant in the current scope. */
  lemma AssignStep(f: nat, x: string, g: string, env: nat, st: State) returns (r: Result<Out>)
    requires Ready(st, env) && f >= 3
    requires x in st.frames[env].variables
    requires Environment.Lookup(st.frames, env, g).Ok? && Environment.Lookup(st.frames, env, g).value != Undefined
    ensures Eval(f, AssignmentExpr(Identifier(x), Identifier(g)), env, st) == r
    ensures r.Ok? <==> x !in st.frames[env].constants
    ensures r.Ok? ==> r.value.st.frames == Environment.Assign(st.frames, env, x, Environment.Lookup(st.frames, env, g).value).value
                      && r.value.st.heap == st.heap
  {
    var v := Environment.Lookup(st.frames, env, g).value;
    assert Eval(f - 1, Identifier(g), env, st) == Ok(Out(st, v));
    assert Environment.Resolve(st.frames, env, x) == Ok(env);
    r := Eval(f, AssignmentExpr(Identifier(x), Identifier(g)), env, st);
    assert r == EvalAssignment(f - 1, Identifier(x), Identifier(g), env, st);
  }

  /** The cell at `a` is a user function declared in an existing scope with
      the given parameters and body. */
  predicate FunctionCell(st: State, a: nat, params: seq<string>, body: seq<Stmt>) {
    a < |st.heap| && st.heap[a].FnCell? && st.heap[a].parameters == params && st.heap[a].body == body
    && st.heap[a].declarationEnv < |st.frames|
  }

  /** A call whose function returns one value evaluates to that value; a
      list of two values is passed on as the list. */
  lemma ReturnUnwrapping(f: nat, a: nat, v: Val, w: Val, st: State)
    requires Environment.Valid(st.frames) && f >= 2
    ensures FunctionCell(st, a, [], [Return([EvaluatedExpr(v)])]) ==>
      var r := Apply(f, Ref(a), [], st); r.Ok? && r.value.v == v
    ensures FunctionCell(st, a, [], [Return([EvaluatedExpr(v), EvaluatedExpr(w)])]) ==>
      var r := Apply(f, Ref(a), [], st); r.Ok? && r.value.v == FunctionReturn([v, w])
  {
    if FunctionCell(st, a, [], [Return([EvaluatedExpr(v)])]) {
      ReturnsFromBody(f, a, [EvaluatedExpr(v)], [v], st);
    }
    if FunctionCell(st, a, [], [Return([EvaluatedExpr(v), EvaluatedExpr(w)])]) {
      ReturnsFromBody(f, a, [EvaluatedExpr(v), EvaluatedExpr(w)], [v, w], st);
    }
  }

  /** The body `return e` of a function runs `e` one fuel step down, after
      the block's initial null. */
  lemma ReturnOneStep(f: nat, node: Stmt, env: nat, st: State) returns (o: Out)
    requires Ready(st, env) && f >= 2
    requires Eval(f - 1, node, env, New(st, MkNull()).st).Ok?
    ensures o == Eval(f - 1, node, env, New(st, MkNull()).st).value
    ensures EvalBody(f, [Return([node])], env, st, false) == Ok(Out(o.st, FunctionReturn([o.v])))
  {
    var n := New(st, MkNull());
    o := Eval(f - 1, node, env, n.st).value;
    ReturnNode(f, node, env, n.st);
    assert TagOfVal(o.st, FunctionReturn([o.v])) == Ok(ReturnTag);
  }

  /** `return e` evaluates `e` one fuel step down and wraps its value. */
  lemma ReturnNode(f: nat, node: Stmt, env: nat, st: State)
    requires Ready(st, env) && f >= 2 && Eval(f - 1, node, env, st).Ok?
    ensures var o := Eval(f - 1, node, env, st).value;
      Eval(f, Return([node]), env, st) == Ok(Out(o.st, FunctionReturn([o.v])))
  {
    var o := Eval(f - 1, node, env, st).value;
    SingletonList(f - 1, node, env, st);
    assert EvalReturn(f - 1, [node], env, st) == Ok(Out(o.st, FunctionReturn([o.v])));
    ReturnDispatch(f, [node], env, st);
  }

  /** A `return` node is evaluated by `EvalReturn` one fuel step down. */
  lemma ReturnDispatch(f: nat, nodes: seq<Stmt>, env: nat, st: State)
    requires Ready(st, env) && f >= 1
    ensures Eval(f, Return(nodes), env, st) == EvalReturn(f - 1, nodes, env, st)
  {
  }

  /** A one-element list evaluates its element. */
  lemma SingletonList(f: nat, node: Stmt, env: nat, st: State)
    requires Ready(st, env) && Eval(f, node, env, st).Ok?
    ensures var o := Eval(f, node, env, st).value; EvalList(f, [node], env, st) == Ok(Outs(o.st, [o.v]))
  {
    var o := Eval(f, node, env, st).value;
    assert [node][1..] == [] && [o.v] + [] == [o.v];
  }

  /** A parameterless function whose body returns already evaluated values
      yields the list of those values. */
  lemma ReturnsFromBody(f: nat, a: nat, nodes: seq<Stmt>, vs: seq<Val>, st: State)
    requires Environment.Valid(st.frames) && f >= 2 && |nodes| == |vs| > 0
    requires forall i :: 0 <= i < |nodes| ==> nodes[i] == EvaluatedExpr(vs[i])
    requires FunctionCell(st, a, [], [Return(nodes)])
    ensures var r := EvalFunction(f, Ref(a), [], st); r.Ok? && r.value.v == FunctionReturn(vs)
  {
    var (fs, scope) := Environment.NewFrame(st.frames, Some(st.heap[a].declarationEnv));
    assert BindParams(fs, scope, [], [], 0) == Ok(fs);
    var st1 := State(st.heap, fs);
    var n := New(st1, MkNull());
    ListOfValues(f - 1, nodes, vs, scope, n.st);
    assert Eval(f, Return(nodes), scope, n.st) == Ok(Out(n.st, FunctionReturn(vs)));
    assert TagOfVal(n.st, FunctionReturn(vs)) == Ok(ReturnTag);
    assert EvalBody(f, [Return(nodes)], scope, st1, false) == Ok(Out(n.st, FunctionReturn(vs)));
  }

  /** Already evaluated nodes evaluate to their values, leaving the state
      alone. */
  lemma {:induction false} ListOfValues(f: nat, nodes: seq<Stmt>, vs: seq<Val>, env: nat, st: State)
    requires Ready(st, env) && f >= 1 && |nodes| == |vs|
    requires forall i :: 0 <= i < |nodes| ==> nodes[i] == EvaluatedExpr(vs[i])
    ensures EvalList(f, nodes, env, st) == Ok(Outs(st, vs))
    decreases |nodes|
  {
    if |nodes| > 0 {
      assert Eval(f, nodes[0], env, st) == Ok(Out(st, vs[0]));
      ListOfValues(f, nodes[1..], vs[1..], env, st);
      assert [vs[0]] + vs[1..] == vs;
    }
  }

  /** More arguments than parameters is an error when the function has a
      parameter; a function without parameters ignores extra arguments. */
  lemma ArgumentCount(f: nat, a: nat, p: string, body: seq<Stmt>, args: seq<Val>, st: State)
    requires Environment.Valid(st.frames) && |args| > 1
    ensures FunctionCell(st, a, [p], body) ==> EvalFunction(f, Ref(a), args, st).Err?
    ensures FunctionCell(st, a, [], body) ==> EvalFunction(f, Ref(a), args, st) == EvalFunction(f, Ref(a), [], st)
  {
  }

  /** A missing argument binds `undefined` to its parameter, which then
      reads as a new null. */
  lemma MissingArgumentReadsNull(f: nat, a: nat, p: string, st: State)
    requires Environment.Valid(st.frames) && f >= 3 && FunctionCell(st, a, [p], [Return([Identifier(p)])])
    ensures var r := Apply(f, Ref(a), [], st);
      r.Ok? && r.value.v.Ref? && r.value.v.addr < |r.value.st.heap| && r.value.st.heap[r.value.v.addr] == NullCell
  {
    var (fs, scope) := Environment.NewFrame(st.frames, Some(st.heap[a].declarationEnv));
    var fs' := Environment.Declare(fs, scope, p, Undefined, false).value;
    assert BindParams(fs, scope, [p], [], 0) == Ok(fs');
    assert Environment.Lookup(fs', scope, p) == Ok(Undefined) by {
      assert Environment.Resolve(fs', scope, p) == Ok(scope);
    }
    var st1 := State(st.heap, fs');
    var n := New(st1, MkNull());
    assert Eval(f - 1, Identifier(p), scope, n.st) == Ok(New(n.st, MkNull()));
    var o := ReturnOneStep(f, Identifier(p), scope, st1);
    assert EvalFunction(f, Ref(a), [], st) == Ok(Out(o.st, FunctionReturn([o.v])));
  }

  /** Names in a function body resolve in the scope the function was
      declared in, not in the caller's: the call scope's parent is the
      declaration scope. */
  lemma CallsSeeDeclarationScope(f: nat, a: nat, x: string, st: State)
    requires Environment.Valid(st.frames) && f >= 3 && FunctionCell(st, a, [], [Return([Identifier(x)])])
    requires var l := Environment.Lookup(st.frames, st.heap[a].declarationEnv, x); l.Ok? && l.value != Undefined
    ensures var r := Apply(f, Ref(a), [], st);
      r.Ok? && r.value.v == Environment.Lookup(st.frames, st.heap[a].declarationEnv, x).value
  {
    var e := st.heap[a].declarationEnv;
    var (fs, scope) := Environment.NewFrame(st.frames, Some(e));
    assert BindParams(fs, scope, [], [], 0) == Ok(fs);
    assert Environment.Resolve(fs, scope, x) == Environment.Resolve(fs, e, x);
    Environment.ResolvePrefix(fs, |st.frames|, e, x);
    assert fs[..|st.frames|] == st.frames;
    var v := Environment.Lookup(st.frames, e, x).value;
    assert Environment.Lookup(fs, scope, x) == Ok(v);
    var st1 := State(st.heap, fs);
    var n := New(st1, MkNull());
    assert Eval(f - 1, Identifier(x), scope, n.st) == Ok(Out(n.st, v));
    var o := ReturnOneStep(f, Identifier(x), scope, st1);
    assert EvalFunction(f, Ref(a), [], st) == Ok(Out(o.st, FunctionReturn([o.v])));
  }

  /** The first call of an uncompleted composition stores its first argument
      as the second function and evaluates to the composition itself. */
  lemma CompositionCompletes(f: nat, d: nat, caller: nat, args: seq<Val>, st: State)
    requires Environment.Valid(st.frames) && d < |st.heap| && st.heap[d] == DelegatedCell(false, caller, None)
    ensures Apply(f, Ref(d), args, st)
      == Ok(Out(State(st.heap[d := DelegatedCell(true, caller, Some(Natives.Arg(args, 0)))], st.frames), Ref(d)))
  {
  }

  /** A completed composition of `f` with `g` calls `f` with the arguments,
      then `g` with `f`'s result, and gives `g`'s result without unwrapping. */
  lemma CompositionChains(f: nat, d: nat, caller: nat, g: Val, args: seq<Val>, st: State)
    requires Environment.Valid(st.frames) && d < |st.heap| && st.heap[d] == DelegatedCell(true, caller, Some(g))
    ensures var first := EvalFunction(f, Ref(caller), args, st);
      Apply(f, Ref(d), args, st) == if first.Err? then Err(first.error) else EvalFunction(f, g, [first.value.v], first.value.st)
  {
  }

  /** Calling something that is not a function is an error; calling a native
      runs it on the heap and leaves the scopes alone. */
  lemma CallRules(f: nat, c: nat, args: seq<Val>, st: State)
    requires Environment.Valid(st.frames) && c < |st.heap|
    ensures st.heap[c].NumCell? || st.heap[c].BoolCell? || st.heap[c].NullCell? || st.heap[c].ObjCell?
            ==> Apply(f, Ref(c), args, st).Err?
    ensures st.heap[c].NativeCell? ==>
      var r := Apply(f, Ref(c), args, st);
      var n := Natives.CallNative(st.heap, st.heap[c].fn, args);
      (r.Ok? <==> n.Ok?) && (r.Ok? ==> r.value == Out(State(n.value.0, st.frames), n.value.1))
  {
  }

  /** The cell at `a` is an object or an array. */
  predicate ObjectAt(st: State, a: nat) {
    a < |st.heap| && st.heap[a].ObjCell?
  }

  /** `a.k`, `a["k"]` and `a[k]` all read the property named `k`: a name in
      brackets is a key, not a variable. A missing or `undefined` property
      reads as a new null. */
  lemma NamedMembersReadProperties(f: nat, a: nat, k: string, env: nat, st: State)
    requires Ready(st, env) && f >= 1 && ObjectAt(st, a)
    ensures var props := st.heap[a].properties;
      var r := EvalMember(f, EvaluatedExpr(Ref(a)), Identifier(k), env, st);
      r == EvalMember(f, EvaluatedExpr(Ref(a)), StringLiteral(k), env, st)
      && (k in props && props[k] != Undefined ==> r == Ok(Out(st, props[k])))
      && (!(k in props && props[k] != Undefined) ==> r == Ok(New(st, MkNull())))
  {
    assert Eval(f, EvaluatedExpr(Ref(a)), env, st) == Ok(Out(st, Ref(a)));
  }

  /** On an array, a number literal and a computed number read the same
      element, `undefined` outside the array; on an object that is not an
      array, a number literal is a type error. */
  lemma ArrayIndexing(f: nat, a: nat, i: nat, n: real, env: nat, st: State)
    requires Ready(st, env) && f >= 1 && ObjectAt(st, a)
    requires i < |st.heap| && st.heap[i] == NumCell(n)
    ensures st.heap[a].payload.Arr? ==>
      var e := Natives.ElementAt(st.heap[a].payload, NumIndex(n));
      EvalMember(f, EvaluatedExpr(Ref(a)), NumericLiteral(n), env, st) == Ok(Out(st, e))
      && EvalMember(f, EvaluatedExpr(Ref(a)), EvaluatedExpr(Ref(i)), env, st) == Ok(Out(st, e))
    ensures !st.heap[a].payload.Arr? ==> EvalMember(f, EvaluatedExpr(Ref(a)), NumericLiteral(n), env, st).Err?
  {
    assert Eval(f, EvaluatedExpr(Ref(a)), env, st) == Ok(Out(st, Ref(a)));
    assert Eval(f, EvaluatedExpr(Ref(i)), env, st) == Ok(Out(st, Ref(i)));
  }

  /** A function's members are its properties; a name it lacks is an
      error. Any key that is not a name or string literal reads the entry
      kept under `undefined`, and is an error while there is none. */
  lemma FunctionMembers(f: nat, a: nat, k: string, n: real, env: nat, st: State)
    requires Ready(st, env) && f >= 1 && a < |st.heap| && st.heap[a].FnCell?
    ensures var props := st.heap[a].properties;
      var r := EvalMember(f, EvaluatedExpr(Ref(a)), Identifier(k), env, st);
      (r.Ok? <==> k in props) && (r.Ok? && props[k] != Undefined ==> r.value == Out(st, props[k]))
    ensures EvalMember(f, EvaluatedExpr(Ref(a)), NumericLiteral(n), env, st).Err? <==> st.heap[a].unnamed.None?
  {
    assert Eval(f, EvaluatedExpr(Ref(a)), env, st) == Ok(Out(st, Ref(a)));
  }

  /** `f[1] = v` on a user function stores `v` under the key `undefined`,
      keeping its properties, and `f[2]` (indeed any member that is not a
      name or string literal) then reads `v` back. */
  lemma UnnamedAssignThenRead(f: nat, a: nat, v: Val, env: nat, st: State)
    requires Ready(st, env) && f >= 1 && a < |st.heap| && st.heap[a].FnCell? && v != Undefined
    ensures var r := EvalAssignment(f, MemberExpr(EvaluatedExpr(Ref(a)), NumericLiteral(1.0), true), EvaluatedExpr(v), env, st);
      r.Ok? && r.value.v == v && r.value.st.frames == st.frames && |r.value.st.heap| == |st.heap|
      && r.value.st.heap[a].FnCell? && r.value.st.heap[a].properties == st.heap[a].properties
      && r.value.st.heap[a].unnamed == Some(v)
      && (forall j :: 0 <= j < |st.heap| && j != a ==> r.value.st.heap[j] == st.heap[j])
      && EvalMember(f, EvaluatedExpr(Ref(a)), NumericLiteral(2.0), env, r.value.st) == Ok(Out(r.value.st, v))
  {
    assert Eval(f, EvaluatedExpr(Ref(a)), env, st) == Ok(Out(st, Ref(a)));
    assert Eval(f, EvaluatedExpr(v), env, st) == Ok(Out(st, v));
    var r := EvalAssignment(f, MemberExpr(EvaluatedExpr(Ref(a)), NumericLiteral(1.0), true), EvaluatedExpr(v), env, st);
    assert Eval(f, EvaluatedExpr(Ref(a)), env, r.value.st) == Ok(Out(r.value.st, Ref(a)));
  }

  /** Members of numbers, booleans and null are `undefined`, whatever the
      key, except for a method call, which is not supported. */
  lemma MembersOfOtherValues(f: nat, a: nat, prop: Stmt, env: nat, st: State)
    requires Ready(st, env) && f >= 1 && a < |st.heap|
    requires st.heap[a].NumCell? || st.heap[a].BoolCell? || st.heap[a].NullCell?
    ensures !prop.CallExpr? ==> EvalMember(f, EvaluatedExpr(Ref(a)), prop, env, st) == Ok(Out(st, Undefined))
    ensures prop.CallExpr? ==> EvalMember(f, EvaluatedExpr(Ref(a)), prop, env, st).Err?
  {
    assert Eval(f, EvaluatedExpr(Ref(a)), env, st) == Ok(Out(st, Ref(a)));
  }

  /** In an object literal a later key overwrites an earlier one, and a
      shorthand key takes the value of the variable of that name, failing
      when there is none. */
  lemma ObjectLiteralKeys(f: nat, k: string, v: Val, w: Val, env: nat, st: State)
    requires Ready(st, env) && f >= 1
    ensures EvalObject(f, [Property(k, Some(EvaluatedExpr(v))), Property(k, Some(EvaluatedExpr(w)))], env, st, map[])
            == Ok(New(st, ObjCell(map[k := w], Plain)))
    ensures var l := Environment.Lookup(st.frames, env, k);
      var r := EvalObject(f, [Property(k, None)], env, st, map[]);
      (r.Ok? <==> l.Ok?) && (r.Ok? ==> r == Ok(New(st, ObjCell(map[k := l.value], Plain))))
  {
    var ps := [Property(k, Some(EvaluatedExpr(v))), Property(k, Some(EvaluatedExpr(w)))];
    assert Eval(f, EvaluatedExpr(v), env, st) == Ok(Out(st, v));
    assert Eval(f, EvaluatedExpr(w), env, st) == Ok(Out(st, w));
    assert ps[1..] == [Property(k, Some(EvaluatedExpr(w)))] && ps[1..][1..] == [];
    assert map[][k := v][k := w] == map[k := w];
    assert EvalObject(f, ps[1..][1..], env, st, map[k := w]) == Ok(New(st, ObjCell(map[k := w], Plain)));
    assert EvalObject(f, ps[1..], env, st, map[][k := v]) == Ok(New(st, ObjCell(map[k := w], Plain)));
    assert [Property(k, None)][1..] == [];
  }

  /** `a.k = v` on an object that is not an array sets property `k`,
      changes no other cell and no scope, and yields `v`; reading `a.k`
      afterwards gives `v` back. */
  lemma PropertyAssignThenRead(f: nat, a: nat, k: string, v: Val, env: nat, st: State)
    requires Ready(st, env) && f >= 1 && ObjectAt(st, a) && !st.heap[a].payload.Arr? && v != Undefined
    ensures var r := EvalAssignment(f, MemberExpr(EvaluatedExpr(Ref(a)), Identifier(k), false), EvaluatedExpr(v), env, st);
      r.Ok? && r.value.v == v && r.value.st.frames == st.frames && |r.value.st.heap| == |st.heap|
      && r.value.st.heap[a] == ObjCell(st.heap[a].properties[k := v], st.heap[a].payload)
      && (forall j :: 0 <= j < |st.heap| && j != a ==> r.value.st.heap[j] == st.heap[j])
      && EvalMember(f, EvaluatedExpr(Ref(a)), Identifier(k), env, r.value.st) == Ok(Out(r.value.st, v))
  {
    assert Eval(f, EvaluatedExpr(Ref(a)), env, st) == Ok(Out(st, Ref(a)));
    assert Eval(f, EvaluatedExpr(v), env, st) == Ok(Out(st, v));
    var r := EvalAssignment(f, MemberExpr(EvaluatedExpr(Ref(a)), Identifier(k), false), EvaluatedExpr(v), env, st);
    assert Eval(f, EvaluatedExpr(Ref(a)), env, r.value.st) == Ok(Out(r.value.st, Ref(a)));
  }

  /** `a[n] = v` with a number literal on an array writes the key `n`: an
      element position overwrites the element, extending the array when it
      lies past the end, and any other number (negative, fractional, too
      large) stores an entry beside the elements. It yields `v`, and reading
      `a[n]` afterwards gives `v` back. */
  lemma ElementAssignThenRead(f: nat, a: nat, n: real, v: Val, env: nat, st: State)
    requires Ready(st, env) && f >= 1 && ObjectAt(st, a) && st.heap[a].payload.Arr?
    ensures var r := EvalAssignment(f, MemberExpr(EvaluatedExpr(Ref(a)), NumericLiteral(n), true), EvaluatedExpr(v), env, st);
      r.Ok? && r.value.v == v && r.value.st.frames == st.frames && |r.value.st.heap| == |st.heap|
      && r.value.st.heap[a] == ObjCell(st.heap[a].properties, Natives.WriteAt(st.heap[a].payload, NumIndex(n), v))
      && (forall j :: 0 <= j < |st.heap| && j != a ==> r.value.st.heap[j] == st.heap[j])
      && EvalMember(f, EvaluatedExpr(Ref(a)), NumericLiteral(n), env, r.value.st) == Ok(Out(r.value.st, v))
  {
    assert Eval(f, EvaluatedExpr(Ref(a)), env, st) == Ok(Out(st, Ref(a)));
    assert Eval(f, EvaluatedExpr(v), env, st) == Ok(Out(st, v));
    var r := EvalAssignment(f, MemberExpr(EvaluatedExpr(Ref(a)), NumericLiteral(n), true), EvaluatedExpr(v), env, st);
    assert Eval(f, EvaluatedExpr(Ref(a)), env, r.value.st) == Ok(Out(r.value.st, Ref(a)));
    NativesProps.ReadAfterWrite(st.heap[a].payload, NumIndex(n), NumIndex(n), v);
  }

  /** `a.k = v` on an array does not set property `k`: the host reads the
      missing number of the name node and stores `v` under the key
      `undefined`, beside the elements. */
  lemma NameAssignOnArray(f: nat, a: nat, k: string, v: Val, env: nat, st: State)
    requires Ready(st, env) && f >= 1 && ObjectAt(st, a) && st.heap[a].payload.Arr?
    ensures var r := EvalAssignment(f, MemberExpr(EvaluatedExpr(Ref(a)), Identifier(k), false), EvaluatedExpr(v), env, st);
      var p := st.heap[a].payload;
      r.Ok? && r.value.v == v && |r.value.st.heap| == |st.heap|
      && r.value.st.heap[a] == ObjCell(st.heap[a].properties, Arr(p.elems, p.keyed[NoField := v]))
  {
    assert Eval(f, EvaluatedExpr(Ref(a)), env, st) == Ok(Out(st, Ref(a)));
    assert Eval(f, EvaluatedExpr(v), env, st) == Ok(Out(st, v));
  }

  /** A computed key is evaluated before the array is read, and its side
      effects are seen: in `a[(a[0] = z)]` with `z` holding 0 the key stores
      `z` at position 0 and then reads that position back, giving `z`. */
  lemma ComputedKeyReadsAfterKey(f: nat, a: nat, z: nat, env: nat, st: State)
    requires Ready(st, env) && f >= 2 && ObjectAt(st, a) && st.heap[a].payload.Arr? && |st.heap[a].payload.elems| > 0
    requires z < |st.heap| && st.heap[z] == NumCell(0.0)
    ensures var key := AssignmentExpr(MemberExpr(EvaluatedExpr(Ref(a)), NumericLiteral(0.0), true), EvaluatedExpr(Ref(z)));
      var r := EvalMember(f, EvaluatedExpr(Ref(a)), key, env, st);
      r.Ok? && r.value.v == Ref(z)
  {
    var target := MemberExpr(EvaluatedExpr(Ref(a)), NumericLiteral(0.0), true);
    var key := AssignmentExpr(target, EvaluatedExpr(Ref(z)));
    assert Eval(f, EvaluatedExpr(Ref(a)), env, st) == Ok(Out(st, Ref(a)));
    ElementAssignThenRead(f - 1, a, 0.0, Ref(z), env, st);
    var k := EvalAssignment(f - 1, target, EvaluatedExpr(Ref(z)), env, st).value;
    assert Eval(f, key, env, st) == Ok(k);
    assert k.st.heap[z] == NumCell(0.0);
    assert Natives.GetRuntimeValue(k.st.heap, k.v) == Ok(Natives.HostNumber(0.0));
    assert Natives.IsElementKey(NumIndex(0.0));
  }

  /** Assigning a member of a number, boolean or null is a type error, and
      only names and members can be assigned at all. */
  lemma AssignmentErrors(f: nat, a: nat, k: string, v: Val, target: Stmt, env: nat, st: State)
    requires Ready(st, env) && f >= 1 && a < |st.heap|
    requires st.heap[a].NumCell? || st.heap[a].BoolCell? || st.heap[a].NullCell?
    ensures EvalAssignment(f, MemberExpr(EvaluatedExpr(Ref(a)), Identifier(k), false), EvaluatedExpr(v), env, st).Err?
    ensures !target.Identifier? && !target.MemberExpr? ==> EvalAssignment(f, target, EvaluatedExpr(v), env, st).Err?
  {
    assert Eval(f, EvaluatedExpr(Ref(a)), env, st) == Ok(Out(st, Ref(a)));
    assert Eval(f, EvaluatedExpr(v), env, st) == Ok(Out(st, v));
  }

  /** `x = v` succeeds exactly when `x` is bound in scope and not constant;
      `x` then reads `v` and the heap is unchanged. */
  lemma NameAssignment(f: nat, x: string, v: Val, env: nat, st: State)
    requires Ready(st, env) && f >= 1
    ensures var r := EvalAssignment(f, Identifier(x), EvaluatedExpr(v), env, st);
      var at := Environment.Resolve(st.frames, env, x);
      (r.Ok? <==> at.Ok? && x !in st.frames[at.value].constants)
      && (r.Ok? ==> r.value.v == v && r.value.st.heap == st.heap && Environment.Lookup(r.value.st.frames, env, x) == Ok(v))
  {
    assert Eval(f, EvaluatedExpr(v), env, st) == Ok(Out(st, v));
    var fs := Environment.Assign(st.frames, env, x, v);
    if fs.Ok? {
      assert EvalAssignment(f, Identifier(x), EvaluatedExpr(v), env, st) == Ok(Out(State(st.heap, fs.value), v));
      Environment.AssignThenLookup(st.frames, env, x, v, env, x + "'");
    } else {
      assert EvalAssignment(f, Identifier(x), EvaluatedExpr(v), env, st).Err?;
    }
  }

  /** One pass of a loop whose body is `break`: the loop ends although its
      condition still holds, and the break flag is cleared again. */
  lemma BreakEndsLoop(f: nat, b: nat, scope: nat, st: State)
    requires Ready(st, scope) && f >= 1 && b < |st.heap| && st.heap[b] == BoolCell(true)
    ensures var r := Loop(f, EvaluatedExpr(Ref(b)), None, [ContinueBreak(false)], scope, st);
      r.Ok? && |r.value.st.frames| == |st.frames| && !r.value.st.frames[scope].isBreakSet
  {
    var st0 := State(st.heap, Environment.SetFlags(st.frames, scope, false, st.frames[scope].isBreakSet));
    var n := New(st0, MkNull());
    var fs := Environment.SetFlags(n.st.frames, scope, false, true);
    var o := New(State(n.st.heap, fs), MkNull());
    assert Eval(f, ContinueBreak(false), scope, n.st) == Ok(o);
    assert EvalBody(f, [ContinueBreak(false)], scope, st0, true) == Ok(o);
    assert Eval(f, EvaluatedExpr(Ref(b)), scope, o.st) == Ok(Out(o.st, Ref(b)));
  }

  /** A loop whose condition stays true and whose body never breaks runs
      until the fuel is spent, however much there is. */
  lemma {:induction false} TrueConditionExhaustsFuel(f: nat, b: nat, scope: nat, st: State)
    requires Ready(st, scope) && b < |st.heap| && st.heap[b] == BoolCell(true) && !st.frames[scope].isBreakSet
    ensures Loop(f, EvaluatedExpr(Ref(b)), None, [], scope, st) == Err(OutOfFuel)
    decreases f
  {
    var st0 := State(st.heap, Environment.SetFlags(st.frames, scope, false, false));
    var n := New(st0, MkNull());
    assert EvalBody(f, [], scope, st0, true) == Ok(n);
    if f > 0 {
      assert Eval(f, EvaluatedExpr(Ref(b)), scope, n.st) == Ok(Out(n.st, Ref(b)));
      TrueConditionExhaustsFuel(f - 1, b, scope, n.st);
    }
  }

  /** A loop runs every pass in the same scope, so a `let` in its body
      declares its name on the first pass and fails on the second. */
  lemma LetInLoopFailsOnSecondPass(f: nat, b: nat, x: string, scope: nat, st: State)
    requires Ready(st, scope) && f >= 2 && b < |st.heap| && st.heap[b] == BoolCell(true)
    requires !st.frames[scope].isBreakSet && x !in st.frames[scope].variables
    ensures Loop(f, EvaluatedExpr(Ref(b)), None, [VarDeclaration(false, [x], false, None)], scope, st)
            == Err(RuntimeError("Cannot declare variable " + x + ". As it already is defined."))
  {
    var st1 := FirstPassDeclares(f, b, x, scope, st);
    SecondPassFails(f - 1, b, x, scope, st1);
  }

  lemma FirstPassDeclares(f: nat, b: nat, x: string, scope: nat, st: State) returns (st1: State)
    requires Ready(st, scope) && f >= 2 && b < |st.heap| && st.heap[b] == BoolCell(true)
    requires !st.frames[scope].isBreakSet && x !in st.frames[scope].variables
    ensures Ready(st1, scope) && b < |st1.heap| && st1.heap[b] == BoolCell(true)
    ensures !st1.frames[scope].isBreakSet && x in st1.frames[scope].variables
    ensures Loop(f, EvaluatedExpr(Ref(b)), None, [VarDeclaration(false, [x], false, None)], scope, st)
            == Loop(f - 1, EvaluatedExpr(Ref(b)), None, [VarDeclaration(false, [x], false, None)], scope, st1)
  {
    var decl := VarDeclaration(false, [x], false, None);
    var st0 := State(st.heap, Environment.SetFlags(st.frames, scope, false, false));
    var n := New(st0, MkNull());
    var m := New(n.st, MkNull());
    var fs := Environment.Declare(m.st.frames, scope, x, m.v, false).value;
    var o := Out(State(m.st.heap, fs), m.v);
    assert Eval(f, decl, scope, n.st) == Ok(o);
    assert TagOfVal(o.st, o.v) == Ok(NullTag);
    assert [decl][1..] == [];
    assert !o.st.frames[scope].isBreakSet && !o.st.frames[scope].isContinueSet;
    assert EvalBodyFrom(f, [], scope, o.st, true, o.v) == Ok(o);
    assert EvalBodyFrom(f, [decl], scope, n.st, true, n.v) == Ok(o);
    assert EvalBody(f, [decl], scope, st0, true) == Ok(o);
    assert Eval(f, EvaluatedExpr(Ref(b)), scope, o.st) == Ok(Out(o.st, Ref(b)));
    st1 := o.st;
  }

  lemma SecondPassFails(f: nat, b: nat, x: string, scope: nat, st: State)
    requires Ready(st, scope) && f >= 1 && x in st.frames[scope].variables
    ensures Loop(f, EvaluatedExpr(Ref(b)), None, [VarDeclaration(false, [x], false, None)], scope, st)
            == Err(RuntimeError("Cannot declare variable " + x + ". As it already is defined."))
  {
    var st0 := State(st.heap, Environment.SetFlags(st.frames, scope, false, st.frames[scope].isBreakSet));
    var n := New(st0, MkNull());
    var m := New(n.st, MkNull());
    var e := RuntimeError("Cannot declare variable " + x + ". As it already is defined.");
    assert Environment.Declare(m.st.frames, scope, x, m.v, false) == Err(e);
    assert Eval(f, VarDeclaration(false, [x], false, None), scope, n.st) == Err(e);
    assert EvalBody(f, [VarDeclaration(false, [x], false, None)], scope, st0, true) == Err(e);
  }
}
