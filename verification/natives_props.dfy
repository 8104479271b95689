/** Properties of the array methods and the `array` built-in: how the methods
    relate to one another on the same array object, and that they act on the
    array they were created with. */
module NativesProps {
  import opened Wrappers
  import opened Refs
  import opened Values
  import opened Natives

  /** `push(x)` appends `x` and returns it; a following `pop()` returns `x`
      again and restores the heap exactly. */
  lemma PushThenPop(h: Heap, a: nat, elems: seq<Val>, x: Val)
    requires ElementsOf(h, a) == Ok(elems)
    ensures var r := CallArrayMethod(h, Push, a, [x]);
      r.Ok? && r.value.1 == x && ElementsOf(r.value.0, a) == Ok(elems + [x])
      && CallArrayMethod(r.value.0, Pop, a, []) == Ok((h, x))
  {
    var h1 := WithElements(h, a, elems + [x]);
    assert (elems + [x])[..|elems|] == elems;
    assert WithElements(h1, a, elems) == h;
  }

  /** `push` with any other number of arguments fails and changes nothing. */
  lemma PushArity(h: Heap, a: nat, args: seq<Val>)
    requires ElementsOf(h, a).Ok? && |args| != 1
    ensures CallArrayMethod(h, Push, a, args).Err?
  {
  }

  /** `pop` removes the last element and returns it; on an empty array it
      returns `undefined` and leaves the heap alone. */
  lemma PopRemovesLast(h: Heap, a: nat, elems: seq<Val>, args: seq<Val>)
    requires ElementsOf(h, a) == Ok(elems)
    ensures var r := CallArrayMethod(h, Pop, a, args);
      r.Ok?
      && (|elems| == 0 ==> r.value == (h, Undefined))
      && (|elems| > 0 ==>
            r.value.1 == elems[|elems| - 1] && ElementsOf(r.value.0, a) == Ok(elems[..|elems| - 1]))
  {
  }

  /** `length` reports the number of elements at the time of the call: after
      a `push` it is one more than before. */
  lemma LengthAfterPush(h: Heap, a: nat, elems: seq<Val>, x: Val)
    requires ElementsOf(h, a) == Ok(elems)
    ensures var h1 := CallArrayMethod(h, Push, a, [x]).value.0;
      var r := CallArrayMethod(h1, Length, a, []);
      r.Ok? && r.value.1 == Ref(|h1|) && r.value.0[|h1|] == NumCell((|elems| + 1) as real)
  {
    PushThenPop(h, a, elems, x);
  }

  /** A write at key `k` is read back at `k`, and every other key reads what
      it read before: holes appended by the write read `undefined`, as
      positions past the end did. */
  lemma ReadAfterWrite(p: Payload, k: Index, j: Index, v: Val)
    requires p.Arr?
    ensures ElementAt(WriteAt(p, k, v), j) == if j == k then v else ElementAt(p, j)
  {
    var r := WriteAt(p, k, v);
    if IsElementKey(k) && IsElementKey(j) && j != k {
      assert j.n != k.n;
      assert j.n.Floor != k.n.Floor;
      if j.n.Floor < |p.elems| {
        assert r.elems[j.n.Floor] == p.elems[j.n.Floor];
      } else if j.n.Floor < |r.elems| {
        assert r.elems[j.n.Floor] == Undefined;
      }
    }
  }

  /** `set(i, v)` returns `v`, and a following `get(i)` reads `v` back,
      whatever key `i` denotes: an element position, a negative or
      fractional number, a boolean, null, or a value without a number. */
  lemma SetThenGet(h: Heap, a: nat, i: Val, v: Val)
    requires ElementsOf(h, a).Ok? && IndexOf(h, i).Ok?
    ensures var r := CallArrayMethod(h, Set, a, [i, v]);
      r.Ok? && r.value.1 == v && CallArrayMethod(r.value.0, Get, a, [i]) == Ok((r.value.0, v))
  {
    var k := IndexOf(h, i).value;
    var p' := WriteAt(h[a].payload, k, v);
    var h1 := WithPayload(h, a, p');
    assert ElementsOf(h1, a).Ok?;
    assert IndexOf(h1, i) == Ok(k);
    ReadAfterWrite(h[a].payload, k, k, v);
  }

  /** `set` past the end extends the array with holes up to the index. */
  lemma SetPastEnd(h: Heap, a: nat, elems: seq<Val>, i: nat, n: real, v: Val)
    requires ElementsOf(h, a) == Ok(elems)
    requires i < |h| && h[i] == NumCell(n) && IsArrayIndex(n) && n >= |elems| as real
    ensures var r := CallArrayMethod(h, Set, a, [Ref(i), v]);
      r.Ok? && ElementsOf(r.value.0, a) == Ok(elems + Holes(n.Floor - |elems|) + [v])
  {
  }

  /** `remove(i)` at a whole in-range index returns the element there and
      shifts the later ones left. */
  lemma RemoveShifts(h: Heap, a: nat, elems: seq<Val>, i: nat, n: real)
    requires ElementsOf(h, a) == Ok(elems)
    requires i < |h| && h[i] == NumCell(n) && IsArrayIndex(n) && n < |elems| as real
    ensures var r := CallArrayMethod(h, Remove, a, [Ref(i)]);
      r.Ok? && r.value.1 == elems[n.Floor]
      && ElementsOf(r.value.0, a) == Ok(elems[..n.Floor] + elems[n.Floor + 1..])
  {
    assert Operators.Trunc(n) == n.Floor;
  }

  /** `remove(i)` with `i <= -1` removes nothing and returns the entry
      stored under `i`, `undefined` when there is none. */
  lemma RemoveNegative(h: Heap, a: nat, elems: seq<Val>, i: nat, n: real)
    requires ElementsOf(h, a) == Ok(elems)
    requires i < |h| && h[i] == NumCell(n) && n <= -1.0
    ensures var keyed := h[a].payload.keyed;
      CallArrayMethod(h, Remove, a, [Ref(i)])
        == Ok((h, if NumIndex(n) in keyed then keyed[NumIndex(n)] else Undefined))
  {
  }

  /** A fractional index between -1 and 0 names no element, yet the splice
      it triggers truncates it to 0 and so removes the first element. */
  lemma RemoveBetweenMinusOneAndZero(h: Heap, a: nat, elems: seq<Val>, i: nat)
    requires ElementsOf(h, a) == Ok(elems) && |elems| > 0
    requires i < |h| && h[i] == NumCell(-0.5)
    ensures var keyed := h[a].payload.keyed;
      var r := CallArrayMethod(h, Remove, a, [Ref(i)]);
      r.Ok? && r.value.1 == (if NumIndex(-0.5) in keyed then keyed[NumIndex(-0.5)] else Undefined)
      && ElementsOf(r.value.0, a) == Ok(elems[1..])
  {
    assert Operators.Trunc(-0.5) == 0;
    assert elems[..0] + elems[1..] == elems[1..];
  }

  /** `has(x)` looks for `x` by identity, but the host compares the position
      found with `> 0`: it is true exactly when `x` occurs in the array and
      the first element is not `x`. */
  lemma HasIgnoresFirst(h: Heap, a: nat, elems: seq<Val>, x: Val)
    requires ElementsOf(h, a) == Ok(elems) && x.Ref?
    ensures var r := CallArrayMethod(h, Has, a, [x]);
      r.Ok? && r.value.1 == Ref(|h|)
      && (r.value.0[|h|] == BoolCell(true) <==> exists k :: 0 < k < |elems| && elems[k] == x && elems[0] != x)
      && (|elems| > 0 && elems[0] == x ==> r.value.0[|h|] == BoolCell(false))
  {
    var b := x in elems && elems[0] != x;
    if b {
      var k :| 0 <= k < |elems| && elems[k] == x;
      assert k != 0;
    }
  }

  /** The argument guard of `get` and `set` fails exactly when the argument
      count is wrong and the first argument is not a number. */
  lemma GuardFailsOnlyOnBoth(h: Heap, args: seq<Val>, count: nat)
    ensures Guard(h, args, count).Err? <==> |args| != count && TypeOf(h, Arg(args, 0)) != Ok(NumberTag)
  {
  }

  /** `get` with two arguments of which the first is a number passes the
      guard, since only one of the two conditions fails. */
  lemma GetWithExtraArgument(h: Heap, a: nat, elems: seq<Val>, i: nat, n: real, extra: Val)
    requires ElementsOf(h, a) == Ok(elems) && i < |h| && h[i] == NumCell(n)
    ensures CallArrayMethod(h, Get, a, [Ref(i), extra]) == Ok((h, ElementAt(h[a].payload, NumIndex(n))))
  {
  }

  /** `array(args)` makes an array whose elements are exactly the arguments,
      in order. */
  lemma ArrayOfArguments(h: Heap, args: seq<Val>)
    ensures var r := CallNative(h, BuiltinNative(ArrayOf), args);
      r.Ok? && r.value.1 == Ref(|h|) && ElementsOf(r.value.0, |h|) == Ok(args)
  {
  }

  /** The methods of an array share its elements: calling the `push` found in
      the property map of a new array appends to that array's payload, and
      the array keeps all seven of its methods. */
  lemma MethodsShareElements(h: Heap, elems: seq<Val>, x: Val)
    ensures var (h1, arr) := MkArray(h, elems);
      var push := h1[|h|].properties["push"];
      push.Ref? && push.addr < |h1| && h1[push.addr].NativeCell?
      && var r := CallNative(h1, h1[push.addr].fn, [x]);
      r.Ok? && ArrayAt(r.value.0, |h|, elems + [x])
  {
    var (h1, arr) := MkArray(h, elems);
    var a := |h|;
    assert MethodBound(h1, h1[a].properties[MethodName(Push)], Push, a);
    var h2 := WithElements(h1, a, elems + [x]);
    forall m: ArrayMethod
      ensures MethodBound(h2, h2[a].properties[MethodName(m)], m, a)
    {
      assert MethodBound(h1, h1[a].properties[MethodName(m)], m, a);
    }
  }
}
