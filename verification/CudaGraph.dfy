/** Warmup, capture and replay of a function over captured tensors
    (torchtitan/distributed/cudagraph.py). Tensors are objects, so that aliasing is real. */
module CudaGraph {
  import opened Wrappers
  import opened CudaGraphInputs

  class Tensor {
    var data: seq<real>
    const meta: nat  // shape, dtype and device

    constructor (data: seq<real>, meta: nat)
      ensures this.data == data && this.meta == meta
    {
      this.data, this.meta := data, meta;
    }
  }

  datatype Arg = T(tensor: Tensor) | Other(value: int)

  /** What a function sees of an argument. */
  datatype Value = Data(data: seq<real>) | Const(value: int)

  function TensorsOf(args: seq<Arg>): set<Tensor> {
    set i | 0 <= i < |args| && args[i].T? :: args[i].tensor
  }

  /** The contents of some tensors. */
  type Contents = map<Tensor, seq<real>>

  ghost function Snapshot(tensors: set<Tensor>): Contents
    reads tensors
  {
    map t | t in tensors :: t.data
  }

  ghost function ValueIn(h: Contents, a: Arg): Value {
    match a
    case T(t) => if t in h then Data(h[t]) else Data([])
    case Other(v) => Const(v)
  }

  ghost function ValuesIn(h: Contents, args: seq<Arg>): (s: seq<Value>)
    ensures |s| == |args| && forall i | 0 <= i < |args| :: s[i] == ValueIn(h, args[i])
  {
    seq(|args|, i requires 0 <= i < |args| => ValueIn(h, args[i]))
  }

  /** The values of args now. */
  function Values(args: seq<Arg>): (s: seq<Value>)
    reads TensorsOf(args)
    ensures |s| == |args|
    ensures forall i | 0 <= i < |args| :: s[i] == if args[i].T? then Data(args[i].tensor.data) else Const(args[i].value)
    ensures s == ValuesIn(Snapshot(TensorsOf(args)), args)
  {
    assert forall i | 0 <= i < |args| && args[i].T? :: args[i].tensor in TensorsOf(args);
    seq(|args|, i requires 0 <= i < |args| reads TensorsOf(args) =>
      assert args[i].T? ==> args[i].tensor in TensorsOf(args);
      if args[i].T? then Data(args[i].tensor.data) else Const(args[i].value))
  }

  datatype InputSpec = TensorInput(meta: nat) | ConstInput(value: int)

  predicate Fits(spec: InputSpec, a: Arg) {
    match spec
    case TensorInput(meta) => a.T? && a.tensor.meta == meta
    case ConstInput(v) => a == Other(v)
  }

  predicate Accepted(specs: seq<InputSpec>, args: seq<Arg>) {
    |args| == |specs| && forall i | 0 <= i < |specs| :: Fits(specs[i], args[i])
  }

  function SpecsOf(args: seq<Arg>): (s: seq<InputSpec>)
    ensures Accepted(s, args)
  {
    seq(|args|, i requires 0 <= i < |args| => if args[i].T? then TensorInput(args[i].tensor.meta) else ConstInput(args[i].value))
  }

  /** What a wrapper made for one input list takes: lists of that length with tensors of the same metadata, and the same
      constants, in the same places. */
  lemma AcceptedMeans(example: seq<Arg>, args: seq<Arg>)
    ensures Accepted(SpecsOf(example), args) <==>
      |args| == |example| && forall i | 0 <= i < |args| ::
        if example[i].T? then args[i].T? && args[i].tensor.meta == example[i].tensor.meta else args[i] == example[i]
  {
    var specs := SpecsOf(example);
    assert |specs| == |example|;
    assert forall i | 0 <= i < |example| :: Fits(specs[i], example[i]);
    if Accepted(specs, args) {
      assert forall i | 0 <= i < |args| :: Fits(specs[i], args[i]);
    }
  }

  datatype InputError = CountChanged | InputChanged(index: nat)

  // ---------- when copying in place is safe ----------

  predicate Copied(specs: seq<InputSpec>, statics: set<nat>, i: int) {
    0 <= i < |specs| && specs[i].TensorInput? && i !in statics
  }

  /** The captured inputs do not alias each other. */
  ghost predicate NoSharing(specs: seq<InputSpec>, statics: set<nat>, captured: seq<Arg>)
    requires Accepted(specs, captured)
  {
    forall i, j | Copied(specs, statics, i) && 0 <= j < |specs| && specs[j].TensorInput? && i != j ::
      captured[i].tensor != captured[j].tensor
  }

  /** A copy into an earlier captured input never overwrites an argument still to be copied. */
  ghost predicate NoClobber(specs: seq<InputSpec>, statics: set<nat>, captured: seq<Arg>, args: seq<Arg>)
    requires Accepted(specs, captured) && Accepted(specs, args)
  {
    forall i, j | Copied(specs, statics, i) && Copied(specs, statics, j) && i < j :: captured[i].tensor != args[j].tensor
  }

  /** Static inputs keep their tensor. */
  ghost predicate StaticsKept(specs: seq<InputSpec>, statics: set<nat>, captured: seq<Arg>, args: seq<Arg>)
    requires Accepted(specs, captured) && Accepted(specs, args)
  {
    forall i | 0 <= i < |specs| && specs[i].TensorInput? && i in statics :: args[i] == captured[i]
  }

  lemma OwnInputsSafe(specs: seq<InputSpec>, statics: set<nat>, captured: seq<Arg>)
    requires Accepted(specs, captured) && NoSharing(specs, statics, captured)
    ensures NoClobber(specs, statics, captured, captured) && StaticsKept(specs, statics, captured, captured)
  {
  }

  /** No tensor appears twice. */
  ghost predicate Distinct(args: seq<Arg>) {
    forall i, j | 0 <= i < j < |args| && args[i].T? && args[j].T? :: args[i].tensor != args[j].tensor
  }

  /** Every argument is either the captured tensor at its own position or no captured tensor at all. */
  ghost predicate Aligned(captured: seq<Arg>, args: seq<Arg>) {
    forall j | 0 <= j < |args| && args[j].T? && args[j].tensor in TensorsOf(captured) ::
      j < |captured| && captured[j] == args[j]
  }

  /** A copy of aligned arguments into captured inputs that do not share overwrites no argument still to be copied. */
  lemma AlignedNoClobber(specs: seq<InputSpec>, captured: seq<Arg>, args: seq<Arg>)
    requires Accepted(specs, captured) && Accepted(specs, args)
    requires NoSharing(specs, {}, captured) && Aligned(captured, args)
    ensures NoClobber(specs, {}, captured, args)
  {
    forall i, j | Copied(specs, {}, i) && Copied(specs, {}, j) && i < j
      ensures captured[i].tensor != args[j].tensor
    {
      assert Fits(specs[i], captured[i]) && Fits(specs[j], args[j]) && captured[i].tensor in TensorsOf(captured);
    }
  }

  /** Where an argument is the captured tensor of its own position, the copy leaves it with the value it had. */
  lemma CopiedOntoItself(captured: seq<Arg>, args: seq<Arg>, h: Contents)
    requires (args == captured || Aligned(captured, args)) && Values(captured) == ValuesIn(h, args)
    ensures forall t | t in TensorsOf(args) && t in TensorsOf(captured) && t in h :: t.data == h[t]
  {
    forall t | t in TensorsOf(args) && t in TensorsOf(captured) && t in h ensures t.data == h[t] {
      var i :| 0 <= i < |args| && args[i].T? && args[i].tensor == t;
      assert captured[i] == args[i] && Values(captured)[i] == ValuesIn(h, args)[i];
    }
  }

  class CUDAGraphWrapper {
    const fn: seq<Value> -> seq<real>
    const specs: seq<InputSpec>
    const statics: set<nat>
    var warmupRemaining: nat
    var captured: bool
    var args: seq<Arg>
    var output: Tensor?

    constructor (fn: seq<Value> -> seq<real>, example: seq<Arg>, statics: set<nat>, warmup: nat)
      ensures Valid() && !captured && warmupRemaining == warmup && output == null && args == []
      ensures this.fn == fn && specs == SpecsOf(example) && this.statics == statics
    {
      this.fn, this.specs, this.statics := fn, SpecsOf(example), statics;
      warmupRemaining, captured, args, output := warmup, false, [], null;
    }

    ghost predicate Valid()
      reads this
    {
      && (captured ==> warmupRemaining == 0 && output != null && Accepted(specs, args))
      && (captured ==> NoSharing(specs, statics, args) && output !in TensorsOf(args))
      && (!captured ==> args == [] && output == null)
    }

    /** What a caller has to respect about aliasing; nothing during warmup. */
    ghost predicate Safe(a: seq<Arg>)
      requires Valid()
      reads this
    {
      Accepted(specs, a) && warmupRemaining == 0 ==>
        if captured then NoClobber(specs, statics, args, a) && StaticsKept(specs, statics, args, a)
        else NoSharing(specs, statics, a)
    }

    /** The tensors a replay may write. */
    ghost function Footprint(): set<object>
      reads this
    {
      (set t | t in TensorsOf(args) :: t as object) + if output != null then {output as object} else {}
    }

    method ValidateInputs(a: seq<Arg>) returns (error: Option<InputError>)
      ensures error.None? <==> Accepted(specs, a)
    {
      if |a| != |specs| {
        return Some(CountChanged);
      }
      for i := 0 to |specs|
        invariant forall j | 0 <= j < i :: Fits(specs[j], a[j])
      {
        if !Fits(specs[i], a[i]) {
          return Some(InputChanged(i));
        }
      }
      error := None;
    }

    /** Every accepted call returns the eager value, whatever phase the wrapper is in. */
    method Call(a: seq<Arg>) returns (r: Result<Tensor, InputError>)
      requires Valid() && Safe(a)
      modifies this, Footprint(), set t | t in TensorsOf(a) && !captured :: t
      ensures Valid() && (r.Ok? <==> Accepted(specs, a))
      ensures r.Ok? ==> r.value.data == fn(old(Values(a)))
      ensures r.Ok? && old(warmupRemaining) > 0 ==>
        fresh(r.value) && warmupRemaining == old(warmupRemaining) - 1 && captured == old(captured)
      ensures r.Ok? && old(warmupRemaining) == 0 ==> captured && warmupRemaining == 0 && r.value == output
      ensures old(captured) ==> captured && args == old(args) && output == old(output)
      ensures !old(captured) && captured ==> args == a && fresh(output)
      ensures captured && r.Ok? && args == a ==> forall t | t in TensorsOf(a) :: t.data == old(t.data)
      ensures !old(captured) ==> forall t | t in TensorsOf(a) :: t.data == old(t.data)
      ensures r.Ok? && Aligned(old(args), a) && old(output) !in TensorsOf(a) ==>
        forall t | t in TensorsOf(a) :: t.data == old(t.data)
      ensures r.Err? ==> captured == old(captured) && warmupRemaining == old(warmupRemaining) && args == old(args)
    {
      hide NoClobber, StaticsKept, Fits;
      var error := ValidateInputs(a);
      if error.Some? {
        return Err(error.value);
      }
      if warmupRemaining > 0 {
        warmupRemaining := warmupRemaining - 1;
        var out := new Tensor(fn(Values(a)), 0);
        return Ok(out);
      }
      if !captured {
        OwnInputsSafe(specs, statics, a);
        Capture(a);
      }
      Replay(a);
      r := Ok(output);
    }

    /** Capture keeps the inputs and allocates the output; the graph runs only when it is replayed. */
    method Capture(a: seq<Arg>)
      requires Valid() && !captured && warmupRemaining == 0 && Accepted(specs, a) && NoSharing(specs, statics, a)
      modifies this
      ensures Valid() && captured && args == a && output != null && fresh(output) && warmupRemaining == 0
    {
      args := a;
      captured := true;
      output := new Tensor([], 0);
    }

    method Replay(a: seq<Arg>)
      requires Valid() && captured && Accepted(specs, a)
      requires NoClobber(specs, statics, args, a) && StaticsKept(specs, statics, args, a)
      modifies TensorsOf(args), output
      ensures output.data == fn(old(Values(a)))
      ensures args == a ==> forall t | t in TensorsOf(a) :: t.data == old(t.data)
      ensures Aligned(args, a) && output !in TensorsOf(a) ==> forall t | t in TensorsOf(a) :: t.data == old(t.data)
    {
      hide NoClobber, StaticsKept, NoSharing, Accepted, Aligned;
      ghost var h := Snapshot(TensorsOf(a));
      CopyInputs(a);
      if args == a || Aligned(args, a) {
        CopiedOntoItself(args, a, h);
      }
      output.data := fn(Values(args));
    }

    /** _args[i].copy_(args[i]) for every input to copy, in order. */
    method CopyInputs(a: seq<Arg>)
      requires Valid() && captured && Accepted(specs, a)
      requires NoClobber(specs, statics, args, a) && StaticsKept(specs, statics, args, a)
      modifies TensorsOf(args)
      ensures Values(args) == old(Values(a))
    {
      assert forall i | 0 <= i < |args| && args[i].T? :: args[i].tensor in TensorsOf(args);
      for i := 0 to |specs|
        invariant forall j | Copied(specs, statics, j) && j < i :: args[j].tensor.data == old(a[j].tensor.data)
        invariant forall j | Copied(specs, statics, j) && i <= j :: a[j].tensor.data == old(a[j].tensor.data)
        invariant forall j | 0 <= j < |specs| && specs[j].TensorInput? && j in statics ::
          args[j].tensor.data == old(args[j].tensor.data)
      {
        if specs[i].TensorInput? && i !in statics {
          assert Copied(specs, statics, i);
          args[i].tensor.data := a[i].tensor.data;
        }
      }
      forall i | 0 <= i < |specs| ensures Values(args)[i] == old(Values(a))[i] {
        assert Fits(specs[i], args[i]) && Fits(specs[i], a[i]);
        if specs[i].TensorInput? && i !in statics { assert Copied(specs, statics, i); }
      }
    }
  }

  // ---------- structured inputs ----------

  ghost function TreeIn(h: Contents, t: Tree<Arg>): Tree<Value> {
    match t
    case Leaf(a) => Leaf(ValueIn(h, a))
    case Mask(leaves, context) => Mask(ValuesIn(h, leaves), context)
    case Node(tag, kids) => Node(tag, KidsIn(h, kids))
  }

  ghost function KidsIn(h: Contents, kids: seq<Tree<Arg>>): seq<Tree<Value>> {
    if kids == [] then [] else [TreeIn(h, kids[0])] + KidsIn(h, kids[1..])
  }

  ghost function OuterIn(h: Contents, o: Outer<Arg>): Outer<Value> {
    match o case Plain(a) => Plain(ValueIn(h, a)) case Block(leaves, context) => Block(ValuesIn(h, leaves), context)
  }

  ghost function OutersIn(h: Contents, outer: seq<Outer<Arg>>): (s: seq<Outer<Value>>)
    ensures |s| == |outer| && forall i | 0 <= i < |outer| :: s[i] == OuterIn(h, outer[i])
  {
    seq(|outer|, i requires 0 <= i < |outer| => OuterIn(h, outer[i]))
  }

  /** Reading the tensors and taking the tree apart commute. */
  lemma {:induction false} TreeInOuter(h: Contents, t: Tree<Arg>)
    ensures SpecOf(TreeIn(h, t)) == SpecOf(t) && OuterLeaves(TreeIn(h, t)) == OutersIn(h, OuterLeaves(t))
  {
    if t.Node? { KidsInOuter(h, t.kids); }
  }

  lemma {:induction false} KidsInOuter(h: Contents, kids: seq<Tree<Arg>>)
    ensures SpecOfKids(KidsIn(h, kids)) == SpecOfKids(kids) && OuterOfKids(KidsIn(h, kids)) == OutersIn(h, OuterOfKids(kids))
  {
    if kids != [] {
      TreeInOuter(h, kids[0]);
      KidsInOuter(h, kids[1..]);
      assert KidsIn(h, kids)[1..] == KidsIn(h, kids[1..]);
    }
  }

  lemma {:induction false} FlatIn(h: Contents, outer: seq<Outer<Arg>>)
    ensures LeafSpecs(OutersIn(h, outer)) == LeafSpecs(outer)
    ensures Flat(OutersIn(h, outer)) == ValuesIn(h, Flat(outer))
  {
    if outer != [] {
      var n := |outer| - 1;
      FlatIn(h, outer[..n]);
      assert OutersIn(h, outer)[..n] == OutersIn(h, outer[..n]);
    }
  }

  /** flat_fn: rebuild the structured arguments from the flat values, then call the function. */
  function FlatFn(f: Tree<Value> -> seq<real>, spec: TreeSpec, specs: seq<LeafSpec>): seq<Value> -> seq<real> {
    values => match Unflattened(spec, specs, values) case Some(t) => f(t) case None => []
  }

  lemma FlatFnOnTree(f: Tree<Value> -> seq<real>, h: Contents, t: Tree<Arg>)
    ensures FlatFn(f, SpecOf(t), LeafSpecs(OuterLeaves(t)))(ValuesIn(h, FlatLeaves(t))) == f(TreeIn(h, t))
  {
    TreeInOuter(h, t);
    FlatIn(h, OuterLeaves(t));
    FlattenThenUnflatten(TreeIn(h, t));
    assert Unflattened(SpecOf(t), LeafSpecs(OuterLeaves(t)), ValuesIn(h, FlatLeaves(t))) == Some(TreeIn(h, t));
  }

  function TreeTensors(t: Tree<Arg>): set<Tensor> {
    TensorsOf(FlatLeaves(t))
  }

  datatype RunError = Structure(error: StructureError) | Inputs(error': InputError)

  /** The function returned by wrap_with_cuda_graph: the wrapper is built on the first call. */
  class GraphedFunction {
    const f: Tree<Value> -> seq<real>
    const numWarmupIterations: nat
    var wrapper: CUDAGraphWrapper?
    var inputSpec: CUDAGraphInputSpec?

    constructor (f: Tree<Value> -> seq<real>, numWarmupIterations: nat)
      ensures this.f == f && this.numWarmupIterations == numWarmupIterations && Valid() && wrapper == null
    {
      this.f, this.numWarmupIterations, wrapper, inputSpec := f, numWarmupIterations, null, null;
    }

    ghost predicate Valid()
      reads this, wrapper
    {
      && (wrapper == null <==> inputSpec == null)
      && (wrapper != null ==>
            wrapper.Valid() && inputSpec.Valid() && wrapper.statics == {} &&
            wrapper.fn == FlatFn(f, inputSpec.treeSpec, inputSpec.leafSpecs))
    }

    ghost predicate Safe(t: Tree<Arg>)
      requires Valid()
      reads this, wrapper
    {
      if wrapper == null then numWarmupIterations == 0 ==> NoSharing(SpecsOf(FlatLeaves(t)), {}, FlatLeaves(t))
      else wrapper.Safe(FlatLeaves(t))
    }

    /** The tensors a replay may write. */
    ghost function Footprint(): set<object>
      reads this, wrapper
    {
      if wrapper == null then {} else wrapper.Footprint()
    }

    ghost predicate Captured()
      reads this, wrapper
    {
      wrapper != null && wrapper.captured
    }

    /** After the first call: inputs of the structure and metadata seen there. */
    ghost predicate Accepts(t: Tree<Arg>)
      reads this
    {
      wrapper != null && inputSpec != null && inputSpec.Matches(t) && Accepted(wrapper.specs, FlatLeaves(t))
    }

    /** Calls still to run eagerly. */
    ghost function Remaining(): nat
      reads this, wrapper
    {
      if wrapper == null then numWarmupIterations else wrapper.warmupRemaining
    }

    ghost function CapturedArgs(): seq<Arg>
      reads this, wrapper
    {
      if wrapper == null then [] else wrapper.args
    }

    /** The tensors captured, and written by every replay. */
    ghost function CapturedTensors(): set<Tensor>
      reads this, wrapper
    {
      TensorsOf(CapturedArgs())
    }

    /** The tensors of t were captured, in the same places. */
    ghost predicate CapturedFrom(t: Tree<Arg>)
      reads this, wrapper
    {
      Captured() && wrapper.args == FlatLeaves(t)
    }

    /** Inputs that do not alias each other, each the captured tensor of its own position or no captured one, are safe. */
    lemma SafeInputs(t: Tree<Arg>)
      requires Valid() && Distinct(FlatLeaves(t)) && Aligned(CapturedArgs(), FlatLeaves(t))
      ensures Safe(t)
    {
      var a := FlatLeaves(t);
      if wrapper != null && Accepted(wrapper.specs, a) {
        assert forall i | 0 <= i < |a| && a[i].T? :: Fits(wrapper.specs[i], a[i]) && a[i].tensor in TensorsOf(a);
        if wrapper.captured {
          var c := wrapper.args;
          assert forall i | 0 <= i < |c| && c[i].T? :: Fits(wrapper.specs[i], c[i]) && c[i].tensor in TensorsOf(c);
          AlignedNoClobber(wrapper.specs, c, a);
        }
      }
    }

    /** Accepted calls return f of the tree's current values. */
    method Run(t: Tree<Arg>) returns (r: Result<Tensor, RunError>)
      requires Valid() && Safe(t)
      modifies this, wrapper, Footprint(), set x | x in TreeTensors(t) && !Captured() :: x
      ensures Valid() && (old(wrapper) != null ==> wrapper == old(wrapper) && inputSpec == old(inputSpec))
      ensures old(wrapper) == null ==> wrapper != null && fresh(wrapper) && r.Ok? && Accepts(t)
      ensures old(wrapper) == null ==> inputSpec.Matches(t) && wrapper.specs == SpecsOf(FlatLeaves(t))
      ensures old(wrapper) != null ==> (r.Ok? <==> Accepts(t))
      ensures r.Ok? ==> r.value.data == f(TreeIn(old(Snapshot(TreeTensors(t))), t))
      ensures r.Ok? ==> Remaining() == if old(Remaining()) == 0 then 0 else old(Remaining()) - 1
      ensures Captured() <==> old(Captured()) || (r.Ok? && old(Remaining()) == 0)
      ensures old(Captured()) ==> wrapper.args == old(wrapper.args) && wrapper.output == old(wrapper.output)
      ensures !old(Captured()) && Captured() ==> CapturedFrom(t) && fresh(wrapper.output)
      ensures r.Ok? && (!old(Captured()) || CapturedFrom(t)) ==>
        Snapshot(TreeTensors(t)) == old(Snapshot(TreeTensors(t)))
      ensures r.Ok? && Aligned(old(CapturedArgs()), FlatLeaves(t)) ==>
        (old(Captured()) ==> old(wrapper.output) !in TreeTensors(t)) ==>
        Snapshot(TreeTensors(t)) == old(Snapshot(TreeTensors(t)))
      ensures r.Ok? ==> if Captured() then r.value == wrapper.output else fresh(r.value)
    {
      hide NoClobber, StaticsKept, NoSharing, Fits, SpecOf, LeafSpecs, FlatFn;
      ghost var h := Snapshot(TreeTensors(t));
      var flat := Prepare(t);
      if flat.Err? {
        return Err(Structure(flat.error));
      }
      assert ValuesIn(h, flat.value) == Values(flat.value);
      FlatFnOnTree(f, h, t);
      var out := wrapper.Call(flat.value);
      r := if out.Err? then Err(Inputs(out.error)) else Ok(out.value);
    }

    /** Flattens the inputs, building the wrapper on the first call. */
    method Prepare(t: Tree<Arg>) returns (flat: Result<seq<Arg>, StructureError>)
      requires Valid()
      modifies this
      ensures Valid() && wrapper != null && (flat.Ok? <==> inputSpec.Matches(t))
      ensures flat.Ok? ==> flat.value == FlatLeaves(t)
      ensures old(wrapper) != null ==> wrapper == old(wrapper) && inputSpec == old(inputSpec)
      ensures old(wrapper) == null ==> fresh(wrapper) && !wrapper.captured && wrapper.warmupRemaining == numWarmupIterations
      ensures old(wrapper) == null ==> inputSpec.Matches(t) && wrapper.specs == SpecsOf(FlatLeaves(t))
    {
      if wrapper == null {
        var spec := new CUDAGraphInputSpec.Init(t);
        inputSpec := spec;
        flat := spec.Flatten(t);
        wrapper := new CUDAGraphWrapper(FlatFn(f, spec.treeSpec, spec.leafSpecs), flat.value, {}, numWarmupIterations);
      } else {
        flat := inputSpec.Flatten(t);
      }
    }
  }
}
