/** The tree-walking evaluator: `evaluate` dispatching on the node kind and
    the evaluation functions for expressions and statements.

    The host's environment objects become frame indices into a store, and the
    host's heap the `Values` heap; both travel in a `State` that every step
    takes and returns. Programs need not terminate, so every evaluation
    carries a fuel budget: `Eval` spends one unit per node and a loop one
    unit per iteration, and running dry is the `OutOfFuel` error.
 */
module Interpreter {
  import opened Wrappers
  import opened Refs
  import opened Ast
  import opened Values
  import Environment
  import Operators
  import Natives

  datatype State = State(heap: Heap, frames: Environment.Frames)

  /** The result of evaluating one node: the new state and the value. */
  datatype Out = Out(st: State, v: Val)

  /** The result of evaluating a list of nodes. */
  datatype Outs = Outs(st: State, vs: seq<Val>)

  /** Frame `env` exists in a well-formed frame store. */
  predicate Ready(st: State, env: nat) {
    Environment.Valid(st.frames) && env < |st.frames|
  }

  /** Evaluation keeps the frame store well formed and never removes a
      frame, so every scope index stays usable. */
  predicate Grows(st: State, st': State) {
    Environment.Valid(st'.frames) && |st'.frames| >= |st.frames|
  }

  /** A fresh cell holding `c`. */
  function New(st: State, c: Cell): (o: Out)
    ensures o.st.frames == st.frames && o.v == Ref(|st.heap|)
    ensures |o.st.heap| == |st.heap| + 1 && o.st.heap[|st.heap|] == c
  {
    var (h, v) := Alloc(st.heap, c);
    Out(State(h, st.frames), v)
  }

  /** The cell a value refers to, for reading its `type`. */
  function TagOfVal(st: State, v: Val): Result<Tag> {
    TypeOf(st.heap, v)
  }

  function Eval(fuel: nat, node: Stmt, env: nat, st: State): (r: Result<Out>)
    requires Ready(st, env)
    ensures r.Ok? ==> Grows(st, r.value.st)
    decreases fuel, 0, 0
  {
    if fuel == 0 then Err(OutOfFuel)
    else
      var f := fuel - 1;
      match node
      case NumericLiteral(n) => Ok(New(st, MkNumber(n)))
      case StringLiteral(s) => Ok(New(st, MkString(s)))
      case Identifier(x) => EvalIdentifier(x, env, st)
      case ObjectLiteral(props) => EvalObject(f, props, env, st, map[])
      case IfExpr(c, body, elseBody) => EvalIf(f, c, body, elseBody, env, st)
      case WhileExpr(c, body) => EvalWhile(f, c, body, env, st)
      case ForExpr(init, c, incr, body) => EvalFor(f, init, c, incr, body, env, st)
      case MemberExpr(obj, prop, _) => EvalMember(f, obj, prop, env, st)
      case CallExpr(args, caller) => EvalCall(f, args, caller, env, st)
      case AssignmentExpr(target, value) => EvalAssignment(f, target, value, env, st)
      case UnaryExpr(left, op) => EvalUnary(f, left, op, env, st)
      case BinaryExpr(left, right, op) =>
        var l :- Eval(f, left, env, st);
        var r :- Eval(f, right, env, l.st);
        var hv :- Operators.Binary(r.st.heap, l.v, r.v, op);
        Ok(Out(State(hv.0, r.st.frames), hv.1))
      case Program(body) => EvalSeq(f, body, env, st, None)
      case FunctionDeclaration(params, name, body, _) => EvalFunctionDeclaration(params, name, body, env, st)
      case VarDeclaration(constant, ids, isArray, inits) => EvalVarDeclaration(f, constant, ids, isArray, inits, env, st)
      case ArrayDeclaration =>
        var (h, v) := MkArray(st.heap, []);
        Ok(Out(State(h, st.frames), v))
      case Return(values) => EvalReturn(f, values, env, st)
      case ContinueBreak(isContinue) =>
        var fs := Environment.SetFlags(st.frames, env, isContinue, !isContinue);
        Ok(New(State(st.heap, fs), MkNull()))
      case AggregatedExpr(stmts) => EvalSeq(f, stmts, env, st, None)
      case EvaluatedExpr(v) => Ok(Out(st, v))
      case NativeBlock(_, _) => Err(NotImplemented("NativeBlock"))
      case NegationExpr(_) => Err(NotImplemented("NegationExpr"))
  }

  /** A name's value; a name bound to `undefined` reads as a fresh null. */
  function EvalIdentifier(x: string, env: nat, st: State): (r: Result<Out>)
    requires Ready(st, env)
    ensures r.Ok? <==> Environment.Resolve(st.frames, env, x).Ok?
    ensures r.Ok? ==> r.value.st.frames == st.frames
    ensures r.Ok? && Environment.Lookup(st.frames, env, x).value != Undefined ==>
      r.value == Out(st, Environment.Lookup(st.frames, env, x).value)
  {
    var v :- Environment.Lookup(st.frames, env, x);
    if v == Undefined then Ok(New(st, MkNull())) else Ok(Out(st, v))
  }

  /** The statements of a program or an aggregate, in order, with the last
      result (a fresh null when there is none); a return value does not stop
      them. */
  function EvalSeq(f: nat, stmts: seq<Stmt>, env: nat, st: State, last: Option<Val>): (r: Result<Out>)
    requires Ready(st, env)
    ensures r.Ok? ==> Grows(st, r.value.st)
    decreases f, 1, |stmts|
  {
    if |stmts| == 0 then
      if last.Some? then Ok(Out(st, last.value)) else Ok(New(st, MkNull()))
    else
      var o :- Eval(f, stmts[0], env, st);
      EvalSeq(f, stmts[1..], env, o.st, Some(o.v))
  }

  /** A block: statements in order. It stops at the first return value and,
      when loop control is enabled, after a statement that set the frame's
      break or continue flag; its value is the last result, a fresh null for
      an empty block. A result of `undefined` is the host's TypeError. */
  function EvalBody(f: nat, stmts: seq<Stmt>, env: nat, st: State, loopControl: bool): (r: Result<Out>)
    requires Ready(st, env)
    ensures r.Ok? ==> Grows(st, r.value.st)
    decreases f, 2, 0
  {
    var o := New(st, MkNull());
    EvalBodyFrom(f, stmts, env, o.st, loopControl, o.v)
  }

  function EvalBodyFrom(f: nat, stmts: seq<Stmt>, env: nat, st: State, loopControl: bool, last: Val): (r: Result<Out>)
    requires Ready(st, env)
    ensures r.Ok? ==> Grows(st, r.value.st)
    decreases f, 1, |stmts|
  {
    if |stmts| == 0 then Ok(Out(st, last))
    else
      var o :- Eval(f, stmts[0], env, st);
      var t :- TagOfVal(o.st, o.v);
      if t == ReturnTag then Ok(o)
      else if loopControl && o.st.frames[env].isBreakSet then Ok(o)
      else if loopControl && o.st.frames[env].isContinueSet then Ok(o)
      else EvalBodyFrom(f, stmts[1..], env, o.st, loopControl, o.v)
  }

  /** Arguments or return values, left to right. */
  function EvalList(f: nat, nodes: seq<Stmt>, env: nat, st: State): (r: Result<Outs>)
    requires Ready(st, env)
    ensures r.Ok? ==> Grows(st, r.value.st) && |r.value.vs| == |nodes|
    decreases f, 1, |nodes|
  {
    if |nodes| == 0 then Ok(Outs(st, []))
    else
      var o :- Eval(f, nodes[0], env, st);
      var rest :- EvalList(f, nodes[1..], env, o.st);
      Ok(Outs(rest.st, [o.v] + rest.vs))
  }

  /** `return e1, …, en` carries the list of values; a bare `return` carries
      one fresh null. */
  function EvalReturn(f: nat, nodes: seq<Stmt>, env: nat, st: State): (r: Result<Out>)
    requires Ready(st, env)
    ensures r.Ok? ==> Grows(st, r.value.st) && r.value.v.FunctionReturn?
    ensures r.Ok? ==> |r.value.v.values| == if |nodes| == 0 then 1 else |nodes|
    decreases f, 2, 0
  {
    if |nodes| == 0 then
      var o := New(st, MkNull());
      Ok(Out(o.st, FunctionReturn([o.v])))
    else
      var os :- EvalList(f, nodes, env, st);
      Ok(Out(os.st, FunctionReturn(os.vs)))
  }

  /** An object literal: each key in order gets its value, or for a
      shorthand key the value of the variable of that name; a later key
      overwrites an earlier one. */
  function EvalObject(f: nat, props: seq<Property>, env: nat, st: State, acc: map<string, Val>): (r: Result<Out>)
    requires Ready(st, env)
    ensures r.Ok? ==> Grows(st, r.value.st)
    decreases f, 1, |props|
  {
    if |props| == 0 then Ok(New(st, ObjCell(acc, Plain)))
    else
      var p := props[0];
      match p.value
      case None =>
        var v :- Environment.Lookup(st.frames, env, p.key);
        EvalObject(f, props[1..], env, st, acc[p.key := v])
      case Some(e) =>
        var o :- Eval(f, e, env, st);
        EvalObject(f, props[1..], env, o.st, acc[p.key := o.v])
  }

  /** A condition's boolean; `undefined` fails on its type, any other
      non-boolean is rejected. */
  function Condition(st: State, v: Val): (r: Result<bool>)
    ensures r.Ok? <==> v.Ref? && v.addr < |st.heap| && st.heap[v.addr].BoolCell?
    ensures r.Ok? ==> r.value == st.heap[v.addr].flag
  {
    var t :- TagOfVal(st, v);
    if t != BooleanTag then Err(RuntimeError("condition must be boolean"))
    else Ok(st.heap[v.addr].flag)
  }

  /** Copies the loop flags of `inner` to `outer`. */
  function CopyFlags(st: State, inner: nat, outer: nat): (st': State)
    requires Ready(st, inner) && outer < |st.frames|
    ensures Grows(st, st') && st'.heap == st.heap
    ensures st'.frames[outer].isBreakSet == st.frames[inner].isBreakSet
    ensures st'.frames[outer].isContinueSet == st.frames[inner].isContinueSet
  {
    State(st.heap, Environment.SetFlags(st.frames, outer, st.frames[inner].isContinueSet, st.frames[inner].isBreakSet))
  }

  /** `if`: the taken branch runs in a new child scope whose flags are then
      copied to the enclosing scope; the condition is evaluated in the
      enclosing scope. */
  function EvalIf(f: nat, cond: Stmt, body: seq<Stmt>, elseBody: Option<seq<Stmt>>, env: nat, st: State): (r: Result<Out>)
    requires Ready(st, env)
    ensures r.Ok? ==> Grows(st, r.value.st)
    decreases f, 3, 0
  {
    var (fs, inner) := Environment.NewFrame(st.frames, Some(env));
    var c :- Eval(f, cond, env, State(st.heap, fs));
    var b :- Condition(c.st, c.v);
    if b then
      var o :- EvalBody(f, body, inner, c.st, true);
      Ok(Out(CopyFlags(o.st, inner, env), o.v))
    else if elseBody.Some? && |elseBody.value| > 0 then
      var o :- EvalBody(f, elseBody.value, inner, c.st, true);
      Ok(Out(CopyFlags(o.st, inner, env), o.v))
    else Ok(New(c.st, MkNull()))
  }

  /** The iterations of a loop whose condition held: clear the continue
      flag, run the body, run the increment (for `for`), re-evaluate the
      condition, and only then stop on a return value or on break (clearing
      it). The re-evaluated condition is taken by truthiness, unchecked. */
  function Loop(f: nat, cond: Stmt, incr: Option<Stmt>, body: seq<Stmt>, scope: nat, st: State): (r: Result<Out>)
    requires Ready(st, scope)
    ensures r.Ok? ==> Grows(st, r.value.st)
    decreases f, 3, 0
  {
    var st0 := State(st.heap, Environment.SetFlags(st.frames, scope, false, st.frames[scope].isBreakSet));
    var o :- EvalBody(f, body, scope, st0, true);
    var st1 :- if incr.Some? then var i :- Eval(f, incr.value, scope, o.st); Ok(i.st) else Ok(o.st);
    var c :- Eval(f, cond, scope, st1);
    if o.v.FunctionReturn? then Ok(Out(c.st, o.v))
    else if c.st.frames[scope].isBreakSet then
      var fs := Environment.SetFlags(c.st.frames, scope, c.st.frames[scope].isContinueSet, false);
      Ok(Out(State(c.st.heap, fs), o.v))
    else
      var again :- Operators.Truthy(c.st.heap, c.v);
      if !again then Ok(Out(c.st, o.v))
      else if f == 0 then Err(OutOfFuel)
      else Loop(f - 1, cond, incr, body, scope, c.st)
  }

  /** `while`: one child scope for all iterations; the first condition is
      evaluated in the enclosing scope and must be a boolean. */
  function EvalWhile(f: nat, cond: Stmt, body: seq<Stmt>, env: nat, st: State): (r: Result<Out>)
    requires Ready(st, env)
    ensures r.Ok? ==> Grows(st, r.value.st)
    decreases f, 4, 0
  {
    var (fs, scope) := Environment.NewFrame(st.frames, Some(env));
    var c :- Eval(f, cond, env, State(st.heap, fs));
    var b :- Condition(c.st, c.v);
    if b then Loop(f, cond, None, body, scope, c.st) else Ok(New(c.st, MkNull()))
  }

  /** `for`: the initialiser and every condition run in the loop's own
      scope; the increment follows the body. */
  function EvalFor(f: nat, init: Stmt, cond: Stmt, incr: Stmt, body: seq<Stmt>, env: nat, st: State): (r: Result<Out>)
    requires Ready(st, env)
    ensures r.Ok? ==> Grows(st, r.value.st)
    decreases f, 4, 0
  {
    var (fs, scope) := Environment.NewFrame(st.frames, Some(env));
    var i :- Eval(f, init, scope, State(st.heap, fs));
    var c :- Eval(f, cond, scope, i.st);
    var b :- Condition(c.st, c.v);
    if b then Loop(f, cond, Some(incr), body, scope, c.st) else Ok(New(c.st, MkNull()))
  }

  /** The key a property node names directly: an identifier's name or a
      string literal's text. */
  function KeyOf(prop: Stmt): (k: Option<string>)
    ensures prop.Identifier? ==> k == Some(prop.symbol)
    ensures prop.StringLiteral? ==> k == Some(prop.text)
    ensures !prop.Identifier? && !prop.StringLiteral? ==> k.None?
  {
    match prop
    case Identifier(x) => Some(x)
    case StringLiteral(s) => Some(s)
    case _ => None
  }

  /** A property read: a stored `undefined` or a missing key reads as a
      fresh null. */
  function ReadProperty(st: State, props: map<string, Val>, key: string): (o: Out)
    ensures key in props && props[key] != Undefined ==> o == Out(st, props[key])
    ensures !(key in props && props[key] != Undefined) ==>
      o.st.frames == st.frames && o.v == Ref(|st.heap|) && o.st.heap == st.heap + [NullCell]
  {
    if key in props && props[key] != Undefined then Out(st, props[key]) else New(st, MkNull())
  }

  /** Member access `obj.prop` / `obj[prop]` in its simple forms. On an
      object: a number literal indexes its elements, a name or string
      literal reads a property, anything else is evaluated and its payload
      used as an element key, read from the array as it stands after that
      evaluation. On a function: a name or string literal must be one of
      its properties, and any other property reads the entry kept under the
      key `undefined`, which must exist. On anything else: `undefined`. */
  function EvalMember(f: nat, obj: Stmt, prop: Stmt, env: nat, st: State): (r: Result<Out>)
    requires Ready(st, env)
    ensures r.Ok? ==> Grows(st, r.value.st)
    decreases f, 1, 0
  {
    if prop.CallExpr? then Err(Unsupported("member call rewriting"))
    else
      var o :- Eval(f, obj, env, st);
      var t :- TagOfVal(o.st, o.v);
      if t == ObjectTag then
        var cell := o.st.heap[o.v.addr];
        if prop.NumericLiteral? then
          if cell.payload.Arr? then Ok(Out(o.st, Natives.ElementAt(cell.payload, NumIndex(prop.num))))
          else Err(TypeError("element of a non-array"))
        else if prop.Identifier? then Ok(ReadProperty(o.st, cell.properties, prop.symbol))
        else if prop.StringLiteral? then Ok(ReadProperty(o.st, cell.properties, prop.text))
        else if prop.MemberExpr? then Err(Unsupported("nested member rewriting"))
        else
          var k :- Eval(f, prop, env, o.st);
          var hv :- Natives.GetRuntimeValue(k.st.heap, k.v);
          var a := o.v.addr;
          if a >= |k.st.heap| || !k.st.heap[a].ObjCell? || !k.st.heap[a].payload.Arr? then
            Err(TypeError("element of a non-array"))
          else if hv.HostString? then Err(Unsupported("string used as an array index"))
          else Ok(Out(k.st, Natives.ElementAt(k.st.heap[a].payload, HostKey(hv))))
      else if t == FunctionTag then
        var cell := o.st.heap[o.v.addr];
        var key := KeyOf(prop);
        if key.None? then
          if cell.unnamed.None? then Err(RuntimeError("Function does not have member"))
          else if cell.unnamed.value != Undefined then Ok(Out(o.st, cell.unnamed.value))
          else Ok(New(o.st, MkNull()))
        else if key.value !in cell.properties then Err(RuntimeError("Function does not have member"))
        else Ok(ReadProperty(o.st, cell.properties, key.value))
      else Ok(Out(o.st, Undefined))
  }

  /** The key a computed member hands the host's element store. */
  function HostKey(hv: Natives.HostValue): (k: Index)
    requires !hv.HostString?
    ensures hv.HostNumber? <==> k.NumIndex?
    ensures hv.HostNumber? ==> k.n == hv.n
    ensures hv.HostBool? <==> k.FlagIndex?
    ensures hv.HostBool? ==> k.b == hv.b
    ensures hv.HostObject? <==> k == AnyObject
  {
    match hv
    case HostNumber(n) => NumIndex(n)
    case HostBool(b) => FlagIndex(b)
    case HostObject(_) => AnyObject
  }

  /** The key an element write on an array uses: the host reads the `value`
      field of the property node. A number literal's is its number; an
      assignment's is the assigned node, an object; a node without such a
      field gives `undefined`. */
  function WriteKey(prop: Stmt): (r: Result<Index>)
    ensures prop.NumericLiteral? ==> r == Ok(NumIndex(prop.num))
    ensures prop.StringLiteral? || prop.VarDeclaration? ==> r.Err?
    ensures prop.AssignmentExpr? ==> r == Ok(AnyObject)
    ensures !(prop.NumericLiteral? || prop.StringLiteral? || prop.VarDeclaration? || prop.AssignmentExpr?) ==> r == Ok(NoField)
  {
    match prop
    case NumericLiteral(n) => Ok(NumIndex(n))
    case StringLiteral(_) => Err(Unsupported("string key on an array"))
    case VarDeclaration(_, _, _, _) => Err(Unsupported("declaration used as a key"))
    case AssignmentExpr(_, _) => Ok(AnyObject)
    case _ => Ok(NoField)
  }

  /** The properties map of a cell, if it has one. */
  function PropertiesOf(c: Cell): Option<map<string, Val>> {
    match c
    case ObjCell(p, _) => Some(p)
    case FnCell(_, _, _, _, p, _) => Some(p)
    case NativeCell(_, p) => Some(p)
    case _ => None
  }

  function WithProperties(c: Cell, p: map<string, Val>): Cell
    requires PropertiesOf(c).Some?
  {
    match c
    case ObjCell(_, payload) => ObjCell(p, payload)
    case FnCell(name, params, e, body, _, u) => FnCell(name, params, e, body, p, u)
    case NativeCell(fn, _) => NativeCell(fn, p)
  }

  /** Assignment to a name or to a member; its value is the assigned value.
      On an array the member's key (see `WriteKey`) is written in the
      element store; on any other object a name member sets a property, and
      on a function any other member sets the entry kept under the key
      `undefined`. The object is evaluated before the value. */
  function EvalAssignment(f: nat, target: Stmt, value: Stmt, env: nat, st: State): (r: Result<Out>)
    requires Ready(st, env)
    ensures r.Ok? ==> Grows(st, r.value.st)
    decreases f, 1, 0
  {
    match target
    case Identifier(x) =>
      var o :- Eval(f, value, env, st);
      var fs :- Environment.Assign(o.st.frames, env, x, o.v);
      Ok(Out(State(o.st.heap, fs), o.v))
    case MemberExpr(obj, prop, _) =>
      var oo :- Eval(f, obj, env, st);
      var ov :- Eval(f, value, env, oo.st);
      var cell :- Deref(ov.st.heap, oo.v);
      var a := oo.v.addr;
      var h := ov.st.heap;
      if cell.ObjCell? && cell.payload.Arr? then
        var k :- WriteKey(prop);
        var p := Natives.WriteAt(cell.payload, k, ov.v);
        Ok(Out(State(Store(h, a, ObjCell(cell.properties, p)), ov.st.frames), ov.v))
      else if PropertiesOf(cell).None? then Err(TypeError("properties of a value without properties"))
      else if !prop.Identifier? then
        if cell.FnCell? then
          var fn := FnCell(cell.name, cell.parameters, cell.declarationEnv, cell.body, cell.properties, Some(ov.v));
          Ok(Out(State(Store(h, a, fn), ov.st.frames), ov.v))
        else Ok(ov)
      else
        var props := PropertiesOf(cell).value[prop.symbol := ov.v];
        Ok(Out(State(Store(h, a, WithProperties(cell, props)), ov.st.frames), ov.v))
    case _ => Err(RuntimeError("Invalid LHS inside assignment expr"))
  }

  /** `!e` negates a boolean into a fresh cell. `x++`/`x--` need a name
      bound to a number; they change that number cell in place and assign
      it back to the name, giving the same cell. */
  function EvalUnary(f: nat, left: Stmt, op: string, env: nat, st: State): (r: Result<Out>)
    requires Ready(st, env)
    ensures r.Ok? ==> Grows(st, r.value.st)
    decreases f, 1, 0
  {
    if op == "!" then
      var o :- Eval(f, left, env, st);
      var b :- Condition(o.st, o.v);
      Ok(New(o.st, MkBool(!b)))
    else if !left.Identifier? then Err(RuntimeError("Unary must be used with identifiers only"))
    else
      var v :- Environment.Lookup(st.frames, env, left.symbol);
      var t :- TagOfVal(st, v);
      if t != NumberTag then Err(RuntimeError("Unary must be used with numbers only"))
      else if op == "++" || op == "--" then
        var n := st.heap[v.addr].num;
        var h := Store(st.heap, v.addr, NumCell(if op == "++" then n + 1.0 else n - 1.0));
        var fs :- Environment.Assign(st.frames, env, left.symbol, v);
        Ok(Out(State(h, fs), v))
      else Err(RuntimeError("Unary operator not supported"))
  }

  /** A call: the arguments first, then the callee. */
  function EvalCall(f: nat, args: seq<Stmt>, caller: Stmt, env: nat, st: State): (r: Result<Out>)
    requires Ready(st, env)
    ensures r.Ok? ==> Grows(st, r.value.st)
    decreases f, 5, 0
  {
    var a :- EvalList(f, args, env, st);
    var c :- Eval(f, caller, env, a.st);
    Apply(f, c.v, a.vs, c.st)
  }

  /** Calls an evaluated callee. A native runs on the heap; a user function
      has a single returned value unwrapped; a composition is completed by
      its first call, which yields the composition itself, and afterwards
      runs its two functions in turn. */
  function Apply(f: nat, callee: Val, args: seq<Val>, st: State): (r: Result<Out>)
    requires Environment.Valid(st.frames)
    ensures r.Ok? ==> Grows(st, r.value.st)
    decreases f, 4, 0
  {
    var t :- TagOfVal(st, callee);
    var cell := if callee.Ref? then st.heap[callee.addr] else NullCell;
    if t == NativeTag then
      var hv :- Natives.CallNative(st.heap, cell.fn, args);
      Ok(Out(State(hv.0, st.frames), hv.1))
    else if t == FunctionTag then
      var o :- EvalFunction(f, callee, args, st);
      if o.v.FunctionReturn? && |o.v.values| == 1 then Ok(Out(o.st, o.v.values[0])) else Ok(o)
    else if t == DelegatedTag && !cell.composed then
      var h := Store(st.heap, callee.addr, cell.(composed := true, callee := Some(Natives.Arg(args, 0))));
      Ok(Out(State(h, st.frames), callee))
    else if t == DelegatedTag then
      var first :- EvalFunction(f, Ref(cell.caller), args, st);
      var second := if cell.callee.Some? then cell.callee.value else Undefined;
      EvalFunction(f, second, [first.v], first.st)
    else Err(RuntimeError("Cannot call value that is not a function"))
  }

  /** Binds parameters positionally as non-constants in the call scope; a
      missing argument binds `undefined`. More arguments than parameters
      fail, but only when there is at least one parameter. */
  function BindParams(fs: Environment.Frames, scope: nat, params: seq<string>, args: seq<Val>, i: nat): (r: Result<Environment.Frames>)
    requires Environment.Valid(fs) && scope < |fs| && i <= |params|
    ensures r.Ok? ==> Environment.Valid(r.value) && |r.value| == |fs|
    ensures i < |params| && |params| < |args| ==> r.Err?
    decreases |params| - i
  {
    if i == |params| then Ok(fs)
    else if |params| < |args| then Err(RuntimeError("Missing required parameter for function"))
    else
      var fs' :- Environment.Declare(fs, scope, params[i], Natives.Arg(args, i), false);
      BindParams(fs', scope, params, args, i + 1)
  }

  /** Runs a user function in a fresh scope whose parent is the scope the
      function was declared in; loop control is off in its body. */
  function EvalFunction(f: nat, fv: Val, args: seq<Val>, st: State): (r: Result<Out>)
    requires Environment.Valid(st.frames)
    ensures r.Ok? ==> Grows(st, r.value.st)
    decreases f, 3, 0
  {
    var cell :- Deref(st.heap, fv);
    if !cell.FnCell? then Err(TypeError("parameters of a value that is not a function"))
    else if cell.declarationEnv >= |st.frames| then Err(RuntimeError("dangling scope"))
    else
      var (fs, scope) := Environment.NewFrame(st.frames, Some(cell.declarationEnv));
      var fs' :- BindParams(fs, scope, cell.parameters, args, 0);
      EvalBody(f, cell.body, scope, State(st.heap, fs'), false)
  }

  /** A function declaration makes a function value closing over the
      current scope and binds its name there as a constant. */
  function EvalFunctionDeclaration(params: seq<string>, name: string, body: seq<Stmt>, env: nat, st: State): (r: Result<Out>)
    requires Ready(st, env)
    ensures r.Ok? <==> name !in st.frames[env].variables
    ensures r.Ok? ==> Grows(st, r.value.st) && r.value.v == Ref(|st.heap|)
    ensures r.Ok? ==> FunctionAt(r.value.st.heap, |st.heap|, name, params, env, body)
    ensures r.Ok? ==> Environment.Lookup(r.value.st.frames, env, name) == Ok(Ref(|st.heap|))
    ensures r.Ok? ==> name in r.value.st.frames[env].constants
  {
    var (h, v) := MkFunction(st.heap, name, params, env, body);
    var fs :- Environment.Declare(st.frames, env, name, v, true);
    Ok(Out(State(h, fs), v))
  }

  /** A declaration evaluates its first initializer, or makes a fresh null
      without one; `isArray` replaces the value with a fresh empty array. One
      name is bound to the value; several names are bound pairwise to the
      values of a returned list of the same length. */
  function EvalVarDeclaration(f: nat, constant: bool, ids: seq<string>, isArray: bool, inits: Option<seq<Stmt>>, env: nat, st: State): (r: Result<Out>)
    requires Ready(st, env)
    ensures r.Ok? ==> Grows(st, r.value.st)
    decreases f, 1, 0
  {
    var o :- if inits.Some? then
               if |inits.value| == 0 then Err(NotImplemented("empty initializer list"))
               else Eval(f, inits.value[0], env, st)
             else Ok(New(st, MkNull()));
    var o' := if isArray then var (h, v) := MkArray(o.st.heap, []); Out(State(h, o.st.frames), v) else o;
    var fs :- Declarations(o'.st.frames, env, ids, o'.v, constant);
    Ok(Out(State(o'.st.heap, fs), o'.v))
  }

  /** The declaration as the host evaluates it. The parser stores the
      initializer as a one-element list and the names as a list, and the
      evaluator passes both on unchanged: evaluating the list as a node hits
      the unhandled-node exit, and the list becomes the key of the binding,
      which no lookup by name ever finds. So an initialized declaration
      fails and an uninitialized one binds nothing a name can reach. */
  function EvalVarDeclarationAsWritten(isArray: bool, inits: Option<seq<Stmt>>, st: State): (r: Result<Out>)
    ensures r.Ok? <==> inits.None?
    ensures r.Ok? ==> r.value.st.frames == st.frames
  {
    if inits.Some? then Err(NotImplemented("a list of nodes"))
    else if isArray then
      var (h, v) := MkArray(st.heap, []);
      Ok(Out(State(h, st.frames), v))
    else Ok(New(st, MkNull()))
  }

  /** The bindings a declaration makes. */
  function Declarations(fs: Environment.Frames, env: nat, ids: seq<string>, v: Val, constant: bool): (r: Result<Environment.Frames>)
    requires Environment.Valid(fs) && env < |fs|
    ensures r.Ok? ==> Environment.Valid(r.value) && |r.value| == |fs|
    ensures |ids| == 1 ==> r == Environment.Declare(fs, env, ids[0], v, constant)
  {
    if |ids| == 1 then Environment.Declare(fs, env, ids[0], v, constant)
    else if |ids| == 0 then Err(RuntimeError("declaration without a name"))
    else if !v.FunctionReturn? || |v.values| != |ids| then Err(TypeError("values do not match the names"))
    else DeclareAll(fs, env, ids, v.values, constant)
  }

  function DeclareAll(fs: Environment.Frames, env: nat, ids: seq<string>, vs: seq<Val>, constant: bool): (r: Result<Environment.Frames>)
    requires Environment.Valid(fs) && env < |fs| && |ids| == |vs|
    ensures r.Ok? ==> Environment.Valid(r.value) && |r.value| == |fs|
    decreases |ids|
  {
    if |ids| == 0 then Ok(fs)
    else
      var fs' :- Environment.Declare(fs, env, ids[0], vs[0], constant);
      DeclareAll(fs', env, ids[1..], vs[1..], constant)
  }
}
