/** The native functions: the seven array methods, the global scope and its
    built-ins, and the conversion of a value to its host payload.

    An array method is bound to the address of its array object and works on
    that object's element sequence, so a change made through one method is
    seen by every other method and by indexing. The host stores a missing
    element (a hole left by writing past the end) as `undefined`, which the
    model does too.
 */
module Natives {
  import opened Wrappers
  import opened Refs
  import opened Values
  import Operators
  import Numbers
  import Environment

  /** The largest array length the host allows, 2^32 - 1; element indices
      lie below it. */
  const MAX_LENGTH: int := 0xFFFF_FFFF

  /** The index an argument denotes. `undefined` has no fields at all; a
      string index would go through the host's string-to-index coercion,
      which the model does not cover. */
  function IndexOf(h: Heap, v: Val): (r: Result<Index>)
    ensures r.Ok? && v.Ref? ==> v.addr < |h|
    ensures v.Ref? && v.addr < |h| && h[v.addr].NumCell? ==> r == Ok(NumIndex(h[v.addr].num))
    ensures v.Undefined? ==> r.Err?
  {
    match v
    case Undefined => Err(TypeError("value of undefined"))
    case FunctionReturn(_) => Ok(NoField)
    case Ref(a) =>
      if a >= |h| then Err(RuntimeError("dangling reference"))
      else match h[a]
        case NumCell(n) => Ok(NumIndex(n))
        case BoolCell(b) => Ok(FlagIndex(b))
        case NullCell => Ok(NullIndex)
        case ObjCell(_, Str(_)) => Err(Unsupported("string used as an array index"))
        case _ => Ok(NoField)
  }

  /** `n` names an element position the host can store. */
  predicate IsArrayIndex(n: real) {
    Numbers.IsWhole(n) && 0.0 <= n < MAX_LENGTH as real
  }

  /** The keys that name an element position; every other key is stored
      beside the elements. */
  predicate IsElementKey(k: Index) {
    k.NumIndex? && IsArrayIndex(k.n)
  }

  /** Indexing: an element position reads the element there, `undefined`
      past the end (a hole); any other key reads the entry stored under it,
      `undefined` when there is none. */
  function ElementAt(p: Payload, k: Index): (v: Val)
    requires p.Arr?
    ensures IsElementKey(k) && k.n < |p.elems| as real ==> v == p.elems[k.n.Floor]
    ensures IsElementKey(k) && k.n >= |p.elems| as real ==> v == Undefined
    ensures !IsElementKey(k) && k in p.keyed ==> v == p.keyed[k]
    ensures !IsElementKey(k) && k !in p.keyed ==> v == Undefined
  {
    if IsElementKey(k) then
      if k.n < |p.elems| as real then p.elems[k.n.Floor] else Undefined
    else if k in p.keyed then p.keyed[k]
    else Undefined
  }

  /** Writing at a key: an element position is overwritten, extending the
      array with holes when it lies past the end; any other key stores an
      entry beside the elements, which are left alone. */
  function WriteAt(p: Payload, k: Index, v: Val): (r: Payload)
    requires p.Arr?
    ensures r.Arr?
    ensures IsElementKey(k) ==>
      |r.elems| == Max(|p.elems|, k.n.Floor + 1) && r.elems[k.n.Floor] == v
      && (forall i :: 0 <= i < |p.elems| && i != k.n.Floor ==> r.elems[i] == p.elems[i])
      && (forall i :: |p.elems| <= i < |r.elems| && i != k.n.Floor ==> r.elems[i] == Undefined)
      && r.keyed == p.keyed
    ensures !IsElementKey(k) ==> r.elems == p.elems && r.keyed == p.keyed[k := v]
  {
    if IsElementKey(k) then
      var i := k.n.Floor;
      var elems := if i < |p.elems| then p.elems[i := v] else p.elems + Holes(i - |p.elems|) + [v];
      Arr(elems, p.keyed)
    else Arr(p.elems, p.keyed[k := v])
  }

  function Max(a: int, b: int): int {
    if a < b then b else a
  }

  function Holes(n: nat): (r: seq<Val>)
    ensures |r| == n && forall i :: 0 <= i < n ==> r[i] == Undefined
  {
    seq(n, _ => Undefined)
  }

  /** The host's `index > -1` test ahead of a removal. */
  predicate AboveMinusOne(k: Index) {
    match k
    case NumIndex(n) => n > -1.0
    case FlagIndex(_) => true
    case NullIndex => true
    case NoField => false
    case AnyObject => false
  }

  /** The position a removal starts at: the index truncated toward zero, with
      booleans and null read as the numbers 0 and 1. */
  function SpliceStart(k: Index): (s: int)
    requires AboveMinusOne(k)
    ensures s >= 0
  {
    match k
    case NumIndex(n) => Operators.Trunc(n)
    case FlagIndex(b) => if b then 1 else 0
    case NullIndex => 0
  }

  /** Removes the element at `i`, shifting later ones left; past the end it
      removes nothing. */
  function Splice(elems: seq<Val>, i: nat): (r: seq<Val>)
    ensures i < |elems| ==> (|r| == |elems| - 1
      && (forall j :: 0 <= j < i ==> r[j] == elems[j])
      && (forall j :: i <= j < |r| ==> r[j] == elems[j + 1]))
    ensures i >= |elems| ==> r == elems
  {
    if i < |elems| then elems[..i] + elems[i + 1..] else elems
  }

  /** The element sequence of the array object at `a`. */
  function ElementsOf(h: Heap, a: nat): (r: Result<seq<Val>>)
    ensures r.Ok? <==> a < |h| && h[a].ObjCell? && h[a].payload.Arr?
    ensures r.Ok? ==> r.value == h[a].payload.elems
  {
    if a < |h| && h[a].ObjCell? && h[a].payload.Arr? then Ok(h[a].payload.elems)
    else Err(RuntimeError("not an array"))
  }

  /** Replaces the payload of the array object at `a`, keeping its methods. */
  function WithPayload(h: Heap, a: nat, p: Payload): (r: Heap)
    requires a < |h| && h[a].ObjCell?
    ensures |r| == |h| && r[a] == ObjCell(h[a].properties, p)
    ensures forall b :: 0 <= b < |h| && b != a ==> r[b] == h[b]
  {
    Store(h, a, ObjCell(h[a].properties, p))
  }

  /** Replaces the elements of the array object at `a`, keeping its methods
      and its other keys. */
  function WithElements(h: Heap, a: nat, elems: seq<Val>): (r: Heap)
    requires a < |h| && h[a].ObjCell? && h[a].payload.Arr?
    ensures |r| == |h| && r[a] == ObjCell(h[a].properties, Arr(elems, h[a].payload.keyed))
    ensures forall b :: 0 <= b < |h| && b != a ==> r[b] == h[b]
  {
    WithPayload(h, a, Arr(elems, h[a].payload.keyed))
  }

  /** The argument at `i`, or `undefined` when there are fewer. */
  function Arg(args: seq<Val>, i: nat): Val {
    if i < |args| then args[i] else Undefined
  }

  /** One array method called on the array at `a`. The result is the heap
      afterwards and the value returned. */
  function CallArrayMethod(h: Heap, m: ArrayMethod, a: nat, args: seq<Val>): (r: Result<(Heap, Val)>)
    ensures r.Ok? ==> ElementsOf(h, a).Ok?
    ensures r.Ok? ==> |r.value.0| >= |h|
  {
    var elems :- ElementsOf(h, a);
    match m
    case Length => Ok(Alloc(h, MkNumber(|elems| as real)))
    case Pop =>
      if |elems| == 0 then Ok((h, Undefined))
      else Ok((WithElements(h, a, elems[..|elems| - 1]), elems[|elems| - 1]))
    case Push =>
      if |args| != 1 then Err(RuntimeError("push must have one parameter"))
      else Ok((WithElements(h, a, elems + [args[0]]), args[0]))
    case Remove =>
      if |args| != 1 then Err(RuntimeError("push must have one parameter"))
      else
        var k :- IndexOf(h, args[0]);
        var item := ElementAt(h[a].payload, k);
        if AboveMinusOne(k) then Ok((WithElements(h, a, Splice(elems, SpliceStart(k))), item))
        else Ok((h, item))
    case Get =>
      var checked :- Guard(h, args, 1);
      var k :- IndexOf(h, Arg(args, 0));
      Ok((h, ElementAt(h[a].payload, k)))
    case Set =>
      var checked :- Guard(h, args, 2);
      var k :- IndexOf(h, Arg(args, 0));
      Ok((WithPayload(h, a, WriteAt(h[a].payload, k, Arg(args, 1))), Arg(args, 1)))
    case Has =>
      if |args| != 1 then Err(RuntimeError("has must have one parameter"))
      else if !args[0].Ref? then Err(Unsupported("identity search for a value that is not an object"))
      else Ok(Alloc(h, MkBool(args[0] in elems && elems[0] != args[0])))
  }

  /** The argument check of `get` and `set`: it throws only when the count
      differs from `count` AND the first argument is not a number; with no
      argument at all, reading the first one's type fails. */
  function Guard(h: Heap, args: seq<Val>, count: nat): (r: Result<bool>)
    ensures |args| == count ==> r.Ok?
    ensures |args| > 0 && args[0].Ref? && args[0].addr < |h| && h[args[0].addr].NumCell? ==> r.Ok?
    ensures r.Err? && |args| > 0 && args[0].Ref? && args[0].addr < |h| ==> !h[args[0].addr].NumCell?
  {
    if |args| == count then Ok(true)
    else
      var t :- TypeOf(h, Arg(args, 0));
      if t != NumberTag then Err(RuntimeError("parameter must be a number")) else Ok(true)
  }

  /** Calls a native function value. Built-ins other than `array` perform
      I/O or read the clock, which the model leaves to the host. */
  function CallNative(h: Heap, f: NativeFn, args: seq<Val>): (r: Result<(Heap, Val)>)
    ensures f.BuiltinNative? && f.builtin == ArrayOf ==> r.Ok? && r.value == MkArray(h, args)
    ensures f.BuiltinNative? && f.builtin != ArrayOf ==> r.Err?
    ensures f.ArrayNative? ==> r == CallArrayMethod(h, f.op, f.target, args)
  {
    match f
    case ArrayNative(m, a) => CallArrayMethod(h, m, a, args)
    case BuiltinNative(b) =>
      match b
      case ArrayOf => Ok(MkArray(h, args))
      case Print => Err(HostCall("print"))
      case ReadFile => Err(HostCall("readFile"))
      case WriteFile => Err(HostCall("writeFile"))
      case Exit => Err(HostCall("exit"))
      case Time => Err(HostCall("time"))
  }

  /** The names bound in the global scope, each to a built-in. */
  function BuiltinName(b: Builtin): string {
    match b
    case Print => "print"
    case ReadFile => "readFile"
    case WriteFile => "writeFile"
    case ArrayOf => "array"
    case Exit => "exit"
    case Time => "time"
  }

  const GlobalNames: set<string> := {"true", "false", "null", "print", "readFile", "writeFile", "array", "exit", "time"}

  /** The global scope: one parentless frame binding `true`, `false`, `null`
      and the six built-ins, all constant. */
  function CreateGlobalEnv(h: Heap): (r: (Heap, Environment.Frames))
    ensures |r.0| == |h| + 9 && r.0[..|h|] == h
    ensures Environment.Valid(r.1) && |r.1| == 1 && r.1[0].parent.None?
    ensures r.1[0].variables.Keys == GlobalNames && r.1[0].constants == GlobalNames
    ensures !r.1[0].isContinueSet && !r.1[0].isBreakSet
  {
    var a := |h|;
    var cells := [MkBool(true), MkBool(false), MkNull(),
                  MkNativeFn(BuiltinNative(Print)), MkNativeFn(BuiltinNative(ReadFile)),
                  MkNativeFn(BuiltinNative(WriteFile)), MkNativeFn(BuiltinNative(ArrayOf)),
                  MkNativeFn(BuiltinNative(Exit)), MkNativeFn(BuiltinNative(Time))];
    var vars := map["true" := Ref(a), "false" := Ref(a + 1), "null" := Ref(a + 2),
                    "print" := Ref(a + 3), "readFile" := Ref(a + 4), "writeFile" := Ref(a + 5),
                    "array" := Ref(a + 6), "exit" := Ref(a + 7), "time" := Ref(a + 8)];
    (h + cells, [Environment.Frame(None, vars, GlobalNames, false, false)])
  }

  /** In the global scope `true`, `false` and `null` denote the boolean true,
      the boolean false and null, and each built-in's name its native
      function. */
  lemma GlobalBindings(h: Heap)
    ensures var (h', fs) := CreateGlobalEnv(h);
      Bound(h', fs, "true", BoolCell(true)) && Bound(h', fs, "false", BoolCell(false))
      && Bound(h', fs, "null", NullCell)
      && forall b: Builtin :: Bound(h', fs, BuiltinName(b), NativeCell(BuiltinNative(b), map[]))
  {
    var (h', fs) := CreateGlobalEnv(h);
    var a := |h|;
    var vars := fs[0].variables;
    assert vars["true"] == Ref(a) && h'[a] == BoolCell(true);
    assert vars["false"] == Ref(a + 1) && h'[a + 1] == BoolCell(false);
    assert vars["null"] == Ref(a + 2) && h'[a + 2] == NullCell;
    forall b: Builtin
      ensures Bound(h', fs, BuiltinName(b), NativeCell(BuiltinNative(b), map[]))
    {
      if b == Print { assert vars["print"] == Ref(a + 3); }
      else if b == ReadFile { assert vars["readFile"] == Ref(a + 4); }
      else if b == WriteFile { assert vars["writeFile"] == Ref(a + 5); }
      else if b == ArrayOf { assert vars["array"] == Ref(a + 6); }
      else if b == Exit { assert vars["exit"] == Ref(a + 7); }
      else { assert vars["time"] == Ref(a + 8); }
    }
  }

  /** The first frame binds `name` to a reference to a cell equal to `c`. */
  ghost predicate Bound(h: Heap, fs: Environment.Frames, name: string, c: Cell) {
    |fs| > 0 && name in fs[0].variables && fs[0].variables[name].Ref?
    && fs[0].variables[name].addr < |h| && h[fs[0].variables[name].addr] == c
  }

  /** The host payload of a value, as built-ins hand it to the host. */
  datatype HostValue = HostNumber(n: real) | HostBool(b: bool) | HostString(s: string) | HostObject(addr: nat)

  /** A number's or boolean's payload, a string object's text, any other
      object itself; every other value has none. */
  function GetRuntimeValue(h: Heap, v: Val): (r: Result<HostValue>)
    ensures r.Ok? <==> v.Ref? && v.addr < |h| && (h[v.addr].NumCell? || h[v.addr].BoolCell? || h[v.addr].ObjCell?)
    ensures r.Ok? && h[v.addr].NumCell? ==> r.value == HostNumber(h[v.addr].num)
    ensures r.Ok? && h[v.addr].BoolCell? ==> r.value == HostBool(h[v.addr].flag)
    ensures r.Ok? && h[v.addr].ObjCell? && h[v.addr].payload.Str? ==> r.value == HostString(h[v.addr].payload.text)
    ensures r.Ok? && h[v.addr].ObjCell? && !h[v.addr].payload.Str? ==> r.value == HostObject(v.addr)
  {
    var t :- TypeOf(h, v);
    match t
    case NumberTag => Ok(HostNumber(h[v.addr].num))
    case BooleanTag => Ok(HostBool(h[v.addr].flag))
    case ObjectTag =>
      if h[v.addr].payload.Str? then Ok(HostString(h[v.addr].payload.text)) else Ok(HostObject(v.addr))
    case _ => Err(RuntimeError("Element does not have a runtime value"))
  }
}
