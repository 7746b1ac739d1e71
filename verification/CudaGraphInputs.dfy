/** Flattening structured inputs for a CUDA graph and rebuilding them
    (CUDAGraphInputSpec in torchtitan/distributed/cudagraph.py). */
module CudaGraphInputs {
  import opened Wrappers

  /** A pytree whose leaves are plain values or block masks, each with its own tensors and context. */
  datatype Tree<L> = Leaf(value: L) | Mask(leaves: seq<L>, context: nat) | Node(tag: nat, kids: seq<Tree<L>>)

  /** What pytree.tree_flatten returns with block masks as leaves: the outer leaves and the tree spec. */
  datatype Outer<L> = Plain(value: L) | Block(leaves: seq<L>, context: nat)

  datatype TreeSpec = Star | SpecNode(tag: nat, kids: seq<TreeSpec>)

  function OuterLeaves<L>(t: Tree<L>): seq<Outer<L>> {
    match t
    case Leaf(v) => [Plain(v)]
    case Mask(leaves, context) => [Block(leaves, context)]
    case Node(_, kids) => OuterOfKids(kids)
  }

  function OuterOfKids<L>(kids: seq<Tree<L>>): seq<Outer<L>> {
    if kids == [] then [] else OuterLeaves(kids[0]) + OuterOfKids(kids[1..])
  }

  function SpecOf<L>(t: Tree<L>): TreeSpec {
    match t
    case Leaf(_) => Star
    case Mask(_, _) => Star
    case Node(tag, kids) => SpecNode(tag, SpecOfKids(kids))
  }

  function SpecOfKids<L>(kids: seq<Tree<L>>): seq<TreeSpec> {
    if kids == [] then [] else [SpecOf(kids[0])] + SpecOfKids(kids[1..])
  }

  /** pytree.tree_unflatten; None when the leaves run out. Also returns the leaves left over. */
  function Rebuild<L>(spec: TreeSpec, outer: seq<Outer<L>>): Option<(Tree<L>, seq<Outer<L>>)> {
    match spec
    case Star =>
      if outer == [] then None
      else Some((match outer[0] case Plain(v) => Leaf(v) case Block(leaves, context) => Mask(leaves, context), outer[1..]))
    case SpecNode(tag, kids) =>
      match RebuildKids(kids, outer)
      case None => None
      case Some((trees, rest)) => Some((Node(tag, trees), rest))
  }

  function RebuildKids<L>(kids: seq<TreeSpec>, outer: seq<Outer<L>>): Option<(seq<Tree<L>>, seq<Outer<L>>)> {
    if kids == [] then Some(([], outer))
    else
      match Rebuild(kids[0], outer)
      case None => None
      case Some((tree, rest)) =>
        match RebuildKids(kids[1..], rest)
        case None => None
        case Some((trees, rest')) => Some(([tree] + trees, rest'))
  }

  lemma {:induction false} RebuildOuter<L>(t: Tree<L>, rest: seq<Outer<L>>)
    ensures Rebuild(SpecOf(t), OuterLeaves(t) + rest) == Some((t, rest))
  {
    match t
    case Leaf(v) => assert (OuterLeaves(t) + rest)[1..] == rest;
    case Mask(leaves, context) => assert (OuterLeaves(t) + rest)[1..] == rest;
    case Node(_, kids) => RebuildOuterKids(kids, rest);
  }

  lemma {:induction false} RebuildOuterKids<L>(kids: seq<Tree<L>>, rest: seq<Outer<L>>)
    ensures RebuildKids(SpecOfKids(kids), OuterOfKids(kids) + rest) == Some((kids, rest))
  {
    if kids == [] {
      assert OuterOfKids(kids) + rest == rest;
    } else {
      var others := OuterOfKids(kids[1..]) + rest;
      assert OuterOfKids(kids) + rest == OuterLeaves(kids[0]) + others;
      assert SpecOfKids(kids)[1..] == SpecOfKids(kids[1..]);
      RebuildOuter(kids[0], others);
      RebuildOuterKids(kids[1..], rest);
      assert [kids[0]] + kids[1..] == kids;
    }
  }

  // ---------- block masks inside the outer leaves ----------

  /** None for a plain leaf, the leaf count and context for a block mask. */
  type LeafSpec = Option<(nat, nat)>

  function LeafSpecOf<L>(o: Outer<L>): LeafSpec {
    match o case Plain(_) => None case Block(leaves, context) => Some((|leaves|, context))
  }

  function LeafSpecs<L>(outer: seq<Outer<L>>): (s: seq<LeafSpec>)
    ensures |s| == |outer|
    ensures forall i | 0 <= i < |outer| :: s[i] == LeafSpecOf(outer[i])
  {
    seq(|outer|, i requires 0 <= i < |outer| => LeafSpecOf(outer[i]))
  }

  function FlatOf<L>(o: Outer<L>): seq<L> {
    match o case Plain(v) => [v] case Block(leaves, _) => leaves
  }

  function Flat<L>(outer: seq<Outer<L>>): seq<L> {
    if outer == [] then [] else Flat(outer[..|outer| - 1]) + FlatOf(outer[|outer| - 1])
  }

  /** Tensors an outer leaf of the given spec takes. */
  function Width(spec: LeafSpec): nat {
    match spec case None => 1 case Some((n, _)) => n
  }

  function FlatCount(specs: seq<LeafSpec>): nat {
    if specs == [] then 0
    else FlatCount(specs[..|specs| - 1]) + Width(specs[|specs| - 1])
  }

  lemma CountAppend(specs: seq<LeafSpec>, spec: LeafSpec)
    ensures FlatCount(specs + [spec]) == FlatCount(specs) + Width(spec)
  {
    assert (specs + [spec])[..|specs|] == specs;
  }

  lemma {:induction false} FlatLength<L>(outer: seq<Outer<L>>)
    ensures |Flat(outer)| == FlatCount(LeafSpecs(outer))
  {
    if outer != [] {
      var n := |outer| - 1;
      FlatLength(outer[..n]);
      assert LeafSpecs(outer)[..n] == LeafSpecs(outer[..n]);
    }
  }

  lemma {:induction false} FlatPrefix<L>(outer: seq<Outer<L>>, k: nat)
    requires k <= |outer|
    ensures Flat(outer[..k]) <= Flat(outer)
    decreases |outer|
  {
    if k == |outer| {
      assert outer[..k] == outer;
    } else {
      var n := |outer| - 1;
      FlatPrefix(outer[..n], k);
      assert outer[..n][..k] == outer[..k];
    }
  }

  lemma FlatSlice<L>(outer: seq<Outer<L>>, k: nat)
    requires k < |outer|
    ensures FlatCount(LeafSpecs(outer)[..k]) == |Flat(outer[..k])|
    ensures |Flat(outer[..k])| + |FlatOf(outer[k])| <= |Flat(outer)|
    ensures Flat(outer)[|Flat(outer[..k])|..|Flat(outer[..k])| + |FlatOf(outer[k])|] == FlatOf(outer[k])
  {
    FlatLength(outer[..k]);
    assert LeafSpecs(outer)[..k] == LeafSpecs(outer[..k]);
    FlatPrefix(outer, k + 1);
    FlatNext(outer, k);
    PrefixTail(Flat(outer), Flat(outer[..k]), FlatOf(outer[k]));
  }

  lemma FlatNext<L>(outer: seq<Outer<L>>, k: nat)
    requires k < |outer|
    ensures Flat(outer[..k + 1]) == Flat(outer[..k]) + FlatOf(outer[k])
  {
    assert outer[..k + 1][..k] == outer[..k];
  }

  lemma PrefixTail<T>(s: seq<T>, a: seq<T>, b: seq<T>)
    requires a + b <= s
    ensures |a| + |b| <= |s| && s[|a|..|a| + |b|] == b
  {
    assert (a + b)[|a|..] == b;
  }

  /** The outer leaf that starts at position `start` of the flat leaves. */
  function OuterAt<L>(spec: LeafSpec, flat: seq<L>, start: nat): Outer<L>
    requires start + Width(spec) <= |flat|
  {
    match spec case None => Plain(flat[start]) case Some((n, context)) => Block(flat[start..start + n], context)
  }

  predicate CutAt<L(==)>(specs: seq<LeafSpec>, flat: seq<L>, k: nat, o: Outer<L>) {
    && k < |specs| && FlatCount(specs[..k]) + Width(specs[k]) <= |flat|
    && o == OuterAt(specs[k], flat, FlatCount(specs[..k]))
  }

  lemma OuterAtIs<L>(outer: seq<Outer<L>>, k: nat)
    requires k < |outer|
    ensures FlatCount(LeafSpecs(outer)[..k]) + Width(LeafSpecs(outer)[k]) <= |Flat(outer)|
    ensures OuterAt(LeafSpecs(outer)[k], Flat(outer), FlatCount(LeafSpecs(outer)[..k])) == outer[k]
  {
    FlatSlice(outer, k);
    var start := |Flat(outer[..k])|;
    var part := Flat(outer)[start..start + |FlatOf(outer[k])|];
    if outer[k].Plain? { assert part[0] == Flat(outer)[start]; }
  }

  /** All the leaves of an input, block masks opened. */
  function FlatLeaves<L>(t: Tree<L>): seq<L> {
    Flat(OuterLeaves(t))
  }

  function CutLeaves<L>(specs: seq<LeafSpec>, flat: seq<L>): seq<Outer<L>>
    requires |flat| == FlatCount(specs)
  {
    seq(|specs|, i requires 0 <= i < |specs| =>
      assert FlatCount(specs[..i]) + Width(specs[i]) <= |flat| by {
        assert specs[..i + 1][..i] == specs[..i];
        CountGrows(specs, i + 1);
      }
      OuterAt(specs[i], flat, FlatCount(specs[..i])))
  }

  /** The tree of the given structure with the given leaves. */
  function Unflattened<L>(spec: TreeSpec, specs: seq<LeafSpec>, flat: seq<L>): Option<Tree<L>> {
    if |flat| != FlatCount(specs) then None
    else match Rebuild(spec, CutLeaves(specs, flat)) case None => None case Some((tree, _)) => Some(tree)
  }

  /** Unflattening undoes flattening. */
  lemma FlattenThenUnflatten<L>(t: Tree<L>)
    ensures Unflattened(SpecOf(t), LeafSpecs(OuterLeaves(t)), FlatLeaves(t)) == Some(t)
  {
    var outer := OuterLeaves(t);
    FlatLength(outer);
    var cut := CutLeaves(LeafSpecs(outer), Flat(outer));
    forall i | 0 <= i < |outer| ensures cut[i] == outer[i] { OuterAtIs(outer, i); }
    assert cut == outer + [];
    RebuildOuter(t, []);
  }

  datatype StructureError = StructureChanged | WrongCount

  class CUDAGraphInputSpec {
    const treeSpec: TreeSpec
    const leafSpecs: seq<LeafSpec>
    const numFlatLeaves: nat

    /** The structure this object was built for. */
    predicate Matches<L>(t: Tree<L>) {
      SpecOf(t) == treeSpec && LeafSpecs(OuterLeaves(t)) == leafSpecs
    }

    predicate Valid() {
      numFlatLeaves == FlatCount(leafSpecs)
    }

    constructor Init<L>(tree: Tree<L>)
      ensures Valid() && Matches(tree)
    {
      var outer := OuterLeaves(tree);
      var specs, count := SpecsAndCount(outer);
      treeSpec, leafSpecs, numFlatLeaves := SpecOf(tree), specs, count;
    }

    static method SpecsAndCount<L>(outer: seq<Outer<L>>) returns (specs: seq<LeafSpec>, count: nat)
      ensures specs == LeafSpecs(outer) && count == FlatCount(specs)
    {
      specs, count := [], 0;
      for i := 0 to |outer|
        invariant |specs| == i && count == FlatCount(specs)
        invariant forall k | 0 <= k < i :: specs[k] == LeafSpecOf(outer[k])
      {
        var spec := LeafSpecOf(outer[i]);
        CountAppend(specs, spec);
        count := count + match spec case None => 1 case Some((n, _)) => n;
        specs := specs + [spec];
      }
      assert specs == LeafSpecs(outer);
    }

    method Flatten<L>(tree: Tree<L>) returns (r: Result<seq<L>, StructureError>)
      ensures r.Ok? <==> Matches(tree)
      ensures r.Ok? ==> r.value == FlatLeaves(tree)
    {
      var outer := OuterLeaves(tree);
      if SpecOf(tree) != treeSpec || |outer| != |leafSpecs| {
        return Err(StructureChanged);
      }
      var flat: seq<L> := [];
      for i := 0 to |outer|
        invariant flat == Flat(outer[..i])
        invariant forall k | 0 <= k < i :: LeafSpecOf(outer[k]) == leafSpecs[k]
      {
        assert outer[..i + 1][..i] == outer[..i];
        if leafSpecs[i].None? {
          if outer[i].Block? {
            assert LeafSpecs(outer)[i] != leafSpecs[i];
            return Err(StructureChanged);
          }
          flat := flat + [outer[i].value];
          continue;
        }
        if outer[i].Plain? || (|outer[i].leaves|, outer[i].context) != leafSpecs[i].value {
          assert LeafSpecs(outer)[i] != leafSpecs[i];
          return Err(StructureChanged);
        }
        flat := flat + outer[i].leaves;
      }
      assert outer[..|outer|] == outer;
      r := Ok(flat);
    }

    /** Cuts the flat leaves back into outer leaves. */
    method CutOuter<L>(flat: seq<L>) returns (outer: seq<Outer<L>>)
      requires |flat| == FlatCount(leafSpecs)
      ensures |outer| == |leafSpecs|
      ensures forall i | 0 <= i < |outer| :: CutAt(leafSpecs, flat, i, outer[i])
    {
      outer := [];
      var flatIndex := 0;
      for i := 0 to |leafSpecs|
        invariant |outer| == i && flatIndex == FlatCount(leafSpecs[..i])
        invariant forall k | 0 <= k < i :: CutAt(leafSpecs, flat, k, outer[k])
      {
        assert leafSpecs[..i + 1][..i] == leafSpecs[..i];
        CountGrows(leafSpecs, i + 1);
        if leafSpecs[i].None? {
          outer := outer + [Plain(flat[flatIndex])];
          flatIndex := flatIndex + 1;
        } else {
          var end := flatIndex + leafSpecs[i].value.0;
          outer := outer + [Block(flat[flatIndex..end], leafSpecs[i].value.1)];
          flatIndex := end;
        }
        assert CutAt(leafSpecs, flat, i, outer[i]);
      }
    }

    method Unflatten<L(==)>(flat: seq<L>) returns (r: Result<Tree<L>, StructureError>)
      requires Valid()
      ensures |flat| != numFlatLeaves ==> r == Err(WrongCount)
      ensures |flat| == numFlatLeaves ==> (r.Ok? <==> Unflattened(treeSpec, leafSpecs, flat).Some?)
      ensures r.Ok? ==> Unflattened(treeSpec, leafSpecs, flat) == Some(r.value)
    {
      if |flat| != numFlatLeaves {
        return Err(WrongCount);
      }
      var outer := CutOuter(flat);
      assert outer == CutLeaves(leafSpecs, flat);
      var tree := Rebuild(treeSpec, outer);
      r := if tree.Some? then Ok(tree.value.0) else Err(StructureChanged);
    }
  }

  lemma {:induction false} CountGrows(specs: seq<LeafSpec>, k: nat)
    requires k <= |specs|
    ensures FlatCount(specs[..k]) <= FlatCount(specs)
    decreases |specs|
  {
    if k == |specs| {
      assert specs[..k] == specs;
    } else {
      var n := |specs| - 1;
      CountGrows(specs[..n], k);
      assert specs[..n][..k] == specs[..k];
    }
  }
}
