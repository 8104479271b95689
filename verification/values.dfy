/** Runtime values and the heap that holds them.

    Every value the evaluator produces is a host object with identity, so the
    model keeps the objects in a heap (`seq<Cell>`, addresses are indices)
    and lets a `Refs.Val` point into it. An object-typed cell carries an
    optional payload: the text of a string object or the elements of an array
    object; the array methods of an array object refer back to the address of
    that very object, so whatever they change is what the payload shows.
 */
module Values {
  import opened Wrappers
  import opened Refs
  import Ast

  /** The seven methods every array object carries. */
  datatype ArrayMethod = Length | Get | Set | Push | Pop | Remove | Has

  /** The built-ins of the global scope. */
  datatype Builtin = Print | ReadFile | WriteFile | ArrayOf | Exit | Time

  /** What a native function does when called: an array method bound to the
      array object at `target`, or a global built-in. */
  datatype NativeFn =
    | ArrayNative(op: ArrayMethod, target: nat)
    | BuiltinNative(builtin: Builtin)

  /** A key the host uses on an array's element store, as it arrives: a
      number, a boolean, null, a missing field (`undefined`), or an object.
      The host turns a key that is not an element position into text, and
      distinct keys here give distinct texts; every object gives the same
      one, `[object Object]`. */
  datatype Index = NumIndex(n: real) | FlagIndex(b: bool) | NullIndex | NoField | AnyObject

  /** The extra field an object-typed value may carry. An array holds its
      elements, and the entries stored under keys that are not element
      positions. */
  datatype Payload = Plain | Str(text: string) | Arr(elems: seq<Val>, keyed: map<Index, Val>)

  /** One heap object; the constructor is its type tag. */
  datatype Cell =
    | NullCell
    | NumCell(num: real)
    | BoolCell(flag: bool)
    | ObjCell(properties: map<string, Val>, payload: Payload)
      /** A user function. `unnamed` is the entry the host keeps under the
          key `undefined`, which a member assignment whose property is not a
          name writes, and a member read whose property is not a name or
          string literal reads back. */
    | FnCell(name: string, parameters: seq<string>, declarationEnv: nat, body: seq<Ast.Stmt>,
             properties: map<string, Val>, unnamed: Option<Val>)
    | NativeCell(fn: NativeFn, properties: map<string, Val>)
      /** `andThen` of a user function: `caller` is that function; `callee`
          is absent until the first call supplies it. */
    | DelegatedCell(composed: bool, caller: nat, callee: Option<Val>)

  type Heap = seq<Cell>

  /** The type tag a value reports; a return list has its own tag. */
  datatype Tag = NullTag | NumberTag | BooleanTag | ObjectTag | NativeTag | FunctionTag | DelegatedTag | ReturnTag

  function TagOf(c: Cell): Tag {
    match c
    case NullCell => NullTag
    case NumCell(_) => NumberTag
    case BoolCell(_) => BooleanTag
    case ObjCell(_, _) => ObjectTag
    case FnCell(_, _, _, _, _, _) => FunctionTag
    case NativeCell(_, _) => NativeTag
    case DelegatedCell(_, _, _) => DelegatedTag
  }

  /** The cell a reference denotes. Reading a field of `undefined` is the
      host's TypeError; a dangling reference is reported rather than assumed
      away. */
  function Deref(h: Heap, v: Val): (r: Result<Cell>)
    ensures r.Ok? <==> v.Ref? && v.addr < |h|
    ensures r.Ok? ==> r.value == h[v.addr]
  {
    match v
    case Ref(a) => if a < |h| then Ok(h[a]) else Err(RuntimeError("dangling reference"))
    case Undefined => Err(TypeError("type of undefined"))
    case FunctionReturn(_) => Err(TypeError("fields of a return list"))
  }

  /** The `type` field of a value. */
  function TypeOf(h: Heap, v: Val): (r: Result<Tag>)
    ensures r.Ok? <==> v.FunctionReturn? || (v.Ref? && v.addr < |h|)
    ensures v.FunctionReturn? ==> r == Ok(ReturnTag)
    ensures v.Ref? && v.addr < |h| ==> r == Ok(TagOf(h[v.addr]))
  {
    if v.FunctionReturn? then Ok(ReturnTag)
    else
      var c :- Deref(h, v);
      Ok(TagOf(c))
  }

  /** Places `c` at the next free address. */
  function Alloc(h: Heap, c: Cell): (r: (Heap, Val))
    ensures |r.0| == |h| + 1 && r.0[..|h|] == h
    ensures r.1 == Ref(|h|) && r.0[|h|] == c
  {
    (h + [c], Ref(|h|))
  }

  /** Overwrites the cell at `a`; every other cell keeps its contents. */
  function Store(h: Heap, a: nat, c: Cell): (r: Heap)
    requires a < |h|
    ensures |r| == |h| && r[a] == c
    ensures forall b :: 0 <= b < |h| && b != a ==> r[b] == h[b]
  {
    h[a := c]
  }

  function MkNumber(n: real := 0.0): (c: Cell)
    ensures c.NumCell? && c.num == n
  {
    NumCell(n)
  }

  /** Null has a single shape: this cell is the only one tagged null. */
  function MkNull(): (c: Cell)
    ensures forall d :: TagOf(d) == NullTag <==> d == c
  {
    NullCell
  }

  function MkBool(b: bool := true): (c: Cell)
    ensures c.BoolCell? && c.flag == b
  {
    BoolCell(b)
  }

  /** A string object. Its native string methods are not modelled, so its
      property map is empty. */
  function MkString(s: string): (c: Cell)
    ensures c.ObjCell? && c.payload == Str(s) && c.properties == map[]
  {
    ObjCell(map[], Str(s))
  }

  /** A native function gets an empty extension map. */
  function MkNativeFn(f: NativeFn): (c: Cell)
    ensures c.NativeCell? && c.fn == f && c.properties == map[]
  {
    NativeCell(f, map[])
  }

  /** A composition that has not been given its second function yet. */
  function MkDelegated(caller: nat): (c: Cell)
    ensures c.DelegatedCell? && !c.composed && c.caller == caller && c.callee.None?
  {
    DelegatedCell(false, caller, None)
  }

  function MethodName(m: ArrayMethod): (s: string) {
    match m
    case Length => "length"
    case Get => "get"
    case Set => "set"
    case Push => "push"
    case Pop => "pop"
    case Remove => "remove"
    case Has => "has"
  }

  /** The methods in the order they are created. */
  const Methods: seq<ArrayMethod> := [Length, Get, Set, Push, Pop, Remove, Has]

  /** The property names of an array object. */
  const MethodNames: set<string> := {"length", "get", "set", "push", "pop", "remove", "has"}

  /** The names are exactly the methods' names, one per method. */
  lemma MethodNamesDiffer(m: ArrayMethod, n: ArrayMethod)
    ensures MethodName(m) in MethodNames
    ensures MethodName(m) == MethodName(n) ==> m == n
  {
  }

  /** `a` holds an array object with elements `elems` whose seven methods are
      native functions bound to `a` itself, and nothing else. */
  ghost predicate ArrayAt(h: Heap, a: nat, elems: seq<Val>) {
    a < |h| && h[a].ObjCell? && h[a].payload.Arr? && h[a].payload.elems == elems
    && h[a].properties.Keys == MethodNames
    && forall m: ArrayMethod :: MethodBound(h, h[a].properties[MethodName(m)], m, a)
  }

  /** `v` refers to the native method `m` of the array at `a`. */
  ghost predicate MethodBound(h: Heap, v: Val, m: ArrayMethod, a: nat) {
    v.Ref? && v.addr < |h| && h[v.addr] == NativeCell(ArrayNative(m, a), map[])
  }

  function ArrayMethods(a: nat): (props: map<string, Val>) {
    map["length" := Ref(a + 1), "get" := Ref(a + 2), "set" := Ref(a + 3), "push" := Ref(a + 4),
        "pop" := Ref(a + 5), "remove" := Ref(a + 6), "has" := Ref(a + 7)]
  }

  /** An array object over `elems`, followed by its seven method cells. */
  function MkArray(h: Heap, elems: seq<Val>): (r: (Heap, Val))
    ensures |r.0| == |h| + 8 && r.0[..|h|] == h
    ensures r.1 == Ref(|h|) && ArrayAt(r.0, |h|, elems) && r.0[|h|].payload.keyed == map[]
  {
    var a := |h|;
    var h' := h + [ObjCell(ArrayMethods(a), Arr(elems, map[]))]
                + [NativeCell(ArrayNative(Length, a), map[]), NativeCell(ArrayNative(Get, a), map[]),
                   NativeCell(ArrayNative(Set, a), map[]), NativeCell(ArrayNative(Push, a), map[]),
                   NativeCell(ArrayNative(Pop, a), map[]), NativeCell(ArrayNative(Remove, a), map[]),
                   NativeCell(ArrayNative(Has, a), map[])];
    (h', Ref(a))
  }

  /** `a` holds a user function with its two extensions: `paramCount`, a
      number equal to its parameter count, and `andThen`, a composition
      whose caller is the function itself and that is not yet composed. */
  ghost predicate FunctionAt(h: Heap, a: nat, name: string, params: seq<string>, env: nat, body: seq<Ast.Stmt>) {
    a < |h| && h[a].FnCell?
    && h[a].name == name && h[a].parameters == params && h[a].declarationEnv == env && h[a].body == body
    && h[a].properties.Keys == {"paramCount", "andThen"} && h[a].unnamed.None?
    && var count := h[a].properties["paramCount"];
    && var compose := h[a].properties["andThen"];
    && count.Ref? && count.addr < |h| && h[count.addr] == NumCell(|params| as real)
    && compose.Ref? && compose.addr < |h| && h[compose.addr] == DelegatedCell(false, a, None)
  }

  /** A user function value: the function object, then its `paramCount`
      number, then its `andThen` composition. */
  function MkFunction(h: Heap, name: string, params: seq<string>, env: nat, body: seq<Ast.Stmt>): (r: (Heap, Val))
    ensures |r.0| == |h| + 3 && r.0[..|h|] == h
    ensures r.1 == Ref(|h|) && FunctionAt(r.0, |h|, name, params, env, body)
  {
    var a := |h|;
    var props := map["paramCount" := Ref(a + 1), "andThen" := Ref(a + 2)];
    (h + [FnCell(name, params, env, body, props, None), MkNumber(|params| as real), MkDelegated(a)], Ref(a))
  }

  /** Whether a value is a string object; the host throws on `undefined`. */
  function IsRuntimeString(h: Heap, v: Val): (r: Result<bool>)
    ensures r.Err? <==> v.Undefined? || (v.Ref? && v.addr >= |h|)
    ensures r == Ok(true) <==> v.Ref? && v.addr < |h| && h[v.addr].ObjCell? && h[v.addr].payload.Str?
  {
    if v.FunctionReturn? then Ok(false)
    else
      var c :- Deref(h, v);
      Ok(c.ObjCell? && c.payload.Str?)
  }

  /** `MkString` makes string objects and `MkArray` does not. */
  lemma StringsAndArrays(h: Heap, s: string, elems: seq<Val>)
    ensures var h' := Alloc(h, MkString(s)).0; IsRuntimeString(h', Ref(|h|)) == Ok(true)
    ensures var h' := MkArray(h, elems).0; IsRuntimeString(h', Ref(|h|)) == Ok(false)
  {
  }

  /** The user function stored as an object's `toString`, if any. */
  function GetObjectToString(h: Heap, props: map<string, Val>): (r: Option<nat>)
    ensures r.Some? <==> "toString" in props && props["toString"].Ref?
                         && props["toString"].addr < |h| && h[props["toString"].addr].FnCell?
    ensures r.Some? ==> props["toString"] == Ref(r.value)
  {
    if "toString" in props then
      match props["toString"]
      case Ref(a) => if a < |h| && h[a].FnCell? then Some(a) else None
      case _ => None
    else None
  }
}
