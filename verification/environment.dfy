/** Scopes. A scope is a frame in a store of frames; a frame names its parent
    by index, and a parent always has a smaller index than its child, so
    every parent chain is finite and ends in a frame without a parent.
 */
module Environment {
  import opened Wrappers
  import opened Refs

  /** One scope: its bindings, which of them are constant, and the two loop
      flags a `break`/`continue` sets. */
  datatype Frame = Frame(parent: Option<nat>, variables: map<string, Val>, constants: set<string>,
                         isContinueSet: bool, isBreakSet: bool)

  type Frames = seq<Frame>

  /** Parents come first, and only bound names are marked constant. */
  predicate Valid(fs: Frames) {
    forall i :: 0 <= i < |fs| ==>
      (fs[i].parent.Some? ==> fs[i].parent.value < i) && fs[i].constants <= fs[i].variables.Keys
  }

  /** The frames `id` consults, nearest first. */
  function Chain(fs: Frames, id: nat): (c: seq<nat>)
    requires Valid(fs) && id < |fs|
    ensures |c| > 0 && c[0] == id
    ensures forall k :: 0 <= k < |c| ==> c[k] <= id
    decreases id
  {
    match fs[id].parent
    case None => [id]
    case Some(p) => [id] + Chain(fs, p)
  }

  /** Some frame on the chain of `id` binds `name`. */
  ghost predicate Binds(fs: Frames, id: nat, name: string)
    requires Valid(fs) && id < |fs|
  {
    exists k :: 0 <= k < |Chain(fs, id)| && name in fs[Chain(fs, id)[k]].variables
  }

  /** `r` is the first frame on the chain of `id` that binds `name`. */
  ghost predicate Nearest(fs: Frames, id: nat, name: string, r: nat)
    requires Valid(fs) && id < |fs|
  {
    var c := Chain(fs, id);
    exists k :: 0 <= k < |c| && c[k] == r && name in fs[r].variables
      && forall j :: 0 <= j < k ==> name !in fs[c[j]].variables
  }

  /** A fresh scope: no bindings, no constants, both flags clear. */
  function NewFrame(fs: Frames, parent: Option<nat>): (r: (Frames, nat))
    requires Valid(fs) && (parent.Some? ==> parent.value < |fs|)
    ensures Valid(r.0) && r.1 == |fs| && |r.0| == |fs| + 1 && r.0[..|fs|] == fs
    ensures r.0[r.1].parent == parent && r.0[r.1].variables == map[] && r.0[r.1].constants == {}
    ensures !r.0[r.1].isContinueSet && !r.0[r.1].isBreakSet
  {
    (fs + [Frame(parent, map[], {}, false, false)], |fs|)
  }

  /** Binds `name` in frame `id` itself; fails iff that frame already binds
      it, whatever its ancestors hold. */
  function Declare(fs: Frames, id: nat, name: string, v: Val, constant: bool): (r: Result<Frames>)
    requires Valid(fs) && id < |fs|
    ensures r.Err? <==> name in fs[id].variables
    ensures r.Ok? ==> Valid(r.value) && |r.value| == |fs|
    ensures r.Ok? ==> r.value[id].variables == fs[id].variables[name := v]
    ensures r.Ok? ==> r.value[id].constants == if constant then fs[id].constants + {name} else fs[id].constants
    ensures r.Ok? ==> r.value[id].parent == fs[id].parent
    ensures r.Ok? ==> r.value[id].isContinueSet == fs[id].isContinueSet && r.value[id].isBreakSet == fs[id].isBreakSet
    ensures r.Ok? ==> forall j :: 0 <= j < |fs| && j != id ==> r.value[j] == fs[j]
  {
    if name in fs[id].variables then Err(RuntimeError("Cannot declare variable " + name + ". As it already is defined."))
    else
      var f := fs[id];
      Ok(fs[id := f.(variables := f.variables[name := v],
                     constants := if constant then f.constants + {name} else f.constants)])
  }

  /** The frame that holds `name` as seen from `id`. */
  function Resolve(fs: Frames, id: nat, name: string): (r: Result<nat>)
    requires Valid(fs) && id < |fs|
    ensures r.Ok? ==> r.value <= id && name in fs[r.value].variables
    decreases id
  {
    if name in fs[id].variables then Ok(id)
    else match fs[id].parent
      case None => Err(RuntimeError("Cannot resolve '" + name + "' as it does not exist."))
      case Some(p) => Resolve(fs, p, name)
  }

  /** Resolution succeeds exactly when some frame on the chain binds the
      name, and it finds the nearest such frame. */
  lemma {:induction false} ResolveFindsNearest(fs: Frames, id: nat, name: string)
    requires Valid(fs) && id < |fs|
    ensures Resolve(fs, id, name).Ok? <==> Binds(fs, id, name)
    ensures Resolve(fs, id, name).Ok? ==> Nearest(fs, id, name, Resolve(fs, id, name).value)
    decreases id
  {
    var c := Chain(fs, id);
    if name in fs[id].variables {
      assert c[0] == id;
    } else if fs[id].parent.Some? {
      var p := fs[id].parent.value;
      ResolveFindsNearest(fs, p, name);
      BindsThroughParent(fs, id, name);
      if Resolve(fs, p, name).Ok? {
        NearestThroughParent(fs, id, name, Resolve(fs, p, name).value);
      }
    } else {
      assert c == [id];
    }
  }

  /** A frame that does not bind a name passes the question to its parent. */
  lemma BindsThroughParent(fs: Frames, id: nat, name: string)
    requires Valid(fs) && id < |fs| && name !in fs[id].variables && fs[id].parent.Some?
    ensures Binds(fs, id, name) <==> Binds(fs, fs[id].parent.value, name)
  {
    var p := fs[id].parent.value;
    var c, cp := Chain(fs, id), Chain(fs, p);
    assert c == [id] + cp;
    if Binds(fs, id, name) {
      var k :| 0 <= k < |c| && name in fs[c[k]].variables;
      assert k > 0 && cp[k - 1] == c[k];
    }
    if Binds(fs, p, name) {
      var k :| 0 <= k < |cp| && name in fs[cp[k]].variables;
      assert c[k + 1] == cp[k];
    }
  }

  lemma NearestThroughParent(fs: Frames, id: nat, name: string, r: nat)
    requires Valid(fs) && id < |fs| && name !in fs[id].variables && fs[id].parent.Some?
    requires Nearest(fs, fs[id].parent.value, name, r)
    ensures Nearest(fs, id, name, r)
  {
    var p := fs[id].parent.value;
    var c, cp := Chain(fs, id), Chain(fs, p);
    assert c == [id] + cp;
    var k :| 0 <= k < |cp| && cp[k] == r && name in fs[r].variables
      && forall j :: 0 <= j < k ==> name !in fs[cp[j]].variables;
    assert c[k + 1] == r;
    forall j | 0 <= j < k + 1
      ensures name !in fs[c[j]].variables
    {
      if j > 0 { assert c[j] == cp[j - 1]; }
    }
  }

  /** The value `name` has as seen from `id`; fails iff it is unresolved. */
  function Lookup(fs: Frames, id: nat, name: string): (r: Result<Val>)
    requires Valid(fs) && id < |fs|
    ensures r.Ok? <==> Resolve(fs, id, name).Ok?
    ensures r.Ok? ==> r.value == fs[Resolve(fs, id, name).value].variables[name]
  {
    var at :- Resolve(fs, id, name);
    Ok(fs[at].variables[name])
  }

  /** Rebinds `name` in the frame it resolves to. Fails iff the name is
      unresolved or constant in that frame; changes nothing but that one
      binding and never creates a binding. */
  function Assign(fs: Frames, id: nat, name: string, v: Val): (r: Result<Frames>)
    requires Valid(fs) && id < |fs|
    ensures r.Err? <==> Resolve(fs, id, name).Err? || name in fs[Resolve(fs, id, name).value].constants
    ensures r.Ok? ==> Valid(r.value) && |r.value| == |fs|
    ensures r.Ok? ==> var at := Resolve(fs, id, name).value;
                      r.value[at] == fs[at].(variables := fs[at].variables[name := v])
                      && r.value[at].variables.Keys == fs[at].variables.Keys
                      && forall j :: 0 <= j < |fs| && j != at ==> r.value[j] == fs[j]
  {
    var at :- Resolve(fs, id, name);
    if name in fs[at].constants then
      Err(RuntimeError("Cannot reassign to variable " + name + " as it was declared constant."))
    else
      Ok(fs[at := fs[at].(variables := fs[at].variables[name := v])])
  }

  /** Sets the loop flags of one frame. */
  function SetFlags(fs: Frames, id: nat, isContinueSet: bool, isBreakSet: bool): (r: Frames)
    requires Valid(fs) && id < |fs|
    ensures Valid(r) && |r| == |fs|
    ensures r[id].isContinueSet == isContinueSet && r[id].isBreakSet == isBreakSet
    ensures SameShape(fs, r) && forall j :: 0 <= j < |fs| && j != id ==> r[j] == fs[j]
  {
    fs[id := fs[id].(isContinueSet := isContinueSet, isBreakSet := isBreakSet)]
  }

  /** Same frames with the same bindings; only flags may differ. */
  ghost predicate SameShape(fs: Frames, gs: Frames) {
    |fs| == |gs| && forall j :: 0 <= j < |fs| ==>
      fs[j].parent == gs[j].parent && fs[j].variables == gs[j].variables && fs[j].constants == gs[j].constants
  }

  /** Frames with the same parents that agree on which frames bind `name`
      resolve `name` alike. */
  lemma {:induction false} ResolveSameKeys(fs: Frames, gs: Frames, id: nat, name: string)
    requires Valid(fs) && Valid(gs) && |fs| == |gs| && id < |fs|
    requires forall j :: 0 <= j < |fs| ==>
      fs[j].parent == gs[j].parent && (name in fs[j].variables <==> name in gs[j].variables)
    ensures Resolve(fs, id, name) == Resolve(gs, id, name)
    decreases id
  {
    if name !in fs[id].variables && fs[id].parent.Some? {
      ResolveSameKeys(fs, gs, fs[id].parent.value, name);
    }
  }

  /** Resolution from `id` only consults frames up to `id`. */
  lemma {:induction false} ResolvePrefix(fs: Frames, n: nat, id: nat, name: string)
    requires Valid(fs) && id < n <= |fs|
    ensures Valid(fs[..n]) && Resolve(fs[..n], id, name) == Resolve(fs, id, name)
    decreases id
  {
    if name !in fs[id].variables && fs[id].parent.Some? {
      ResolvePrefix(fs, n, fs[id].parent.value, name);
    }
  }

  /** A declared name reads back as the declared value from its frame, and
      every other name reads as before from every frame. */
  lemma DeclareThenLookup(fs: Frames, id: nat, name: string, v: Val, constant: bool, j: nat, other: string)
    requires Valid(fs) && id < |fs| && j < |fs| && other != name
    requires Declare(fs, id, name, v, constant).Ok?
    ensures Lookup(Declare(fs, id, name, v, constant).value, id, name) == Ok(v)
    ensures Lookup(Declare(fs, id, name, v, constant).value, j, other) == Lookup(fs, j, other)
  {
    ResolveSameKeys(fs, Declare(fs, id, name, v, constant).value, j, other);
  }

  /** Declaring in a fresh child scope a name its parent chain already binds
      succeeds, hides the outer binding from the child and leaves the outer
      binding as the parent sees it. */
  lemma DeclareShadows(fs: Frames, id: nat, name: string, v: Val, constant: bool)
    requires Valid(fs) && id < |fs| && Resolve(fs, id, name).Ok?
    ensures var (fs1, child) := NewFrame(fs, Some(id));
            var r := Declare(fs1, child, name, v, constant);
            r.Ok? && Lookup(r.value, child, name) == Ok(v) && Lookup(r.value, id, name) == Lookup(fs, id, name)
  {
    var (fs1, child) := NewFrame(fs, Some(id));
    var fs2 := Declare(fs1, child, name, v, constant).value;
    assert fs2[..|fs|] == fs;
    ResolvePrefix(fs2, |fs|, id, name);
  }

  /** An assignment reads back from the assigning scope, and every other
      name reads as before from every frame. */
  lemma AssignThenLookup(fs: Frames, id: nat, name: string, v: Val, j: nat, other: string)
    requires Valid(fs) && id < |fs| && j < |fs| && other != name
    requires Assign(fs, id, name, v).Ok?
    ensures Lookup(Assign(fs, id, name, v).value, id, name) == Ok(v)
    ensures Lookup(Assign(fs, id, name, v).value, j, other) == Lookup(fs, j, other)
  {
    var gs := Assign(fs, id, name, v).value;
    ResolveSameKeys(fs, gs, id, name);
    ResolveSameKeys(fs, gs, j, other);
  }

  /** The loop flags play no part in name resolution. */
  lemma FlagsKeepLookup(fs: Frames, id: nat, isContinueSet: bool, isBreakSet: bool, j: nat, name: string)
    requires Valid(fs) && id < |fs| && j < |fs|
    ensures Lookup(SetFlags(fs, id, isContinueSet, isBreakSet), j, name) == Lookup(fs, j, name)
  {
    ResolveSameKeys(fs, SetFlags(fs, id, isContinueSet, isBreakSet), j, name);
  }
}
