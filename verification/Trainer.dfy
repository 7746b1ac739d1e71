/** The gradient-accumulation loop of train_step over a graphed forward/backward function, with the SDC check of
    each step's first group (torchtitan/trainer.py). */
module Trainer {
  import opened Wrappers
  import opened CudaGraphInputs
  import opened CudaGraph

  // ---------- how often the graphed function runs ----------

  /** Whether SDC checks step k: num_steps is -1 for all steps, 0 without SDC. */
  predicate CheckedStep(sdcSteps: int, k: nat) {
    sdcSteps == -1 || k < sdcSteps
  }

  function FirstCalls(sdcSteps: int, replays: nat, k: nat): nat {
    if CheckedStep(sdcSteps, k) then 1 + replays else 1
  }

  /** Calls of the graphed function in steps 0..k-1. */
  function CallsBefore(groups: nat, sdcSteps: int, replays: nat, k: nat): nat
    requires groups > 0
  {
    if k == 0 then 0
    else CallsBefore(groups, sdcSteps, replays, k - 1) + FirstCalls(sdcSteps, replays, k - 1) + (groups - 1)
  }

  /** num_warmup_iterations of wrap_with_cuda_graph. */
  function NumWarmupIterations(warmupSteps: nat, groups: nat, sdcSteps: int, replays: nat): nat
    requires sdcSteps >= -1
  {
    var checked := if sdcSteps == -1 then warmupSteps else if warmupSteps < sdcSteps then warmupSteps else sdcSteps;
    warmupSteps * groups + checked * replays
  }

  /** The wrapper's warmup count is the number of calls of the first warmupSteps optimizer steps. */
  lemma {:induction false} WarmupCoversSteps(warmupSteps: nat, groups: nat, sdcSteps: int, replays: nat)
    requires sdcSteps >= -1 && groups > 0
    ensures CallsBefore(groups, sdcSteps, replays, warmupSteps) == NumWarmupIterations(warmupSteps, groups, sdcSteps, replays)
  {
    if warmupSteps > 0 {
      var w := warmupSteps - 1;
      WarmupCoversSteps(w, groups, sdcSteps, replays);
      assert warmupSteps * groups == w * groups + groups;
      assert warmupSteps * replays == w * replays + replays;
    }
  }

  lemma {:induction false} CallsGrow(groups: nat, sdcSteps: int, replays: nat, j: nat, k: nat)
    requires groups > 0 && j <= k
    ensures CallsBefore(groups, sdcSteps, replays, j) + (k - j) <= CallsBefore(groups, sdcSteps, replays, k)
    decreases k
  {
    if j < k { CallsGrow(groups, sdcSteps, replays, j, k - 1); }
  }

  // ---------- the loop ----------

  function Total(losses: seq<real>): real {
    if losses == [] then 0.0 else Total(losses[..|losses| - 1]) + losses[|losses| - 1]
  }

  lemma TotalStep(losses: seq<real>, k: nat)
    requires k < |losses|
    ensures Total(losses[..k + 1]) == Total(losses[..k]) + losses[k] && Total([]) == 0.0
  {
    assert losses[..k + 1][..k] == losses[..k];
  }

  function Tensors(groups: seq<Tree<Arg>>): set<Tensor> {
    set i, x | 0 <= i < |groups| && x in TreeTensors(groups[i]) :: x
  }

  /** The scalar loss is computed from the inputs alone. */
  ghost predicate Scalar(f: Tree<Value> -> seq<real>) {
    forall t {:trigger f(t)} :: |f(t)| == 1
  }

  ghost function Part(h: Contents, tensors: set<Tensor>): Contents {
    map x | x in tensors && x in h :: h[x]
  }

  lemma TensorsWithin(groups: seq<Tree<Arg>>, i: nat)
    requires i < |groups|
    ensures TreeTensors(groups[i]) <= Tensors(groups)
  {
  }

  lemma LeftWithin(calls: seq<Tree<Arg>>, i: nat)
    requires i <= |calls|
    ensures Tensors(calls[i..]) <= Tensors(calls)
  {
    var left := calls[i..];
    assert forall j | 0 <= j < |left| :: left[j] == calls[i + j];
  }

  lemma SubSnapshot(h: Contents, all: set<Tensor>, part: set<Tensor>)
    requires Snapshot(all) == Part(h, all) && part <= all
    ensures Snapshot(part) == Part(h, part)
  {
    assert forall x | x in part :: x in all && Snapshot(all)[x] == Part(h, all)[x];
    assert forall x | x in all :: x in Snapshot(all);
  }

  /** What the function sees of a call's arguments when the tensors hold h. */
  ghost function Seen(h: Contents, t: Tree<Arg>): Tree<Value> {
    TreeIn(Part(h, TreeTensors(t)), t)
  }

  ghost function EagerLoss(f: Tree<Value> -> seq<real>, h: Contents, t: Tree<Arg>): real
    requires Scalar(f)
  {
    f(Seen(h, t))[0]
  }

  /** The losses the eager function gives when the tensors hold h. */
  ghost function EagerLosses(f: Tree<Value> -> seq<real>, h: Contents, groups: seq<Tree<Arg>>): (s: seq<real>)
    requires Scalar(f)
    ensures |s| == |groups|
    ensures forall i {:trigger s[i]} | 0 <= i < |groups| :: s[i] == EagerLoss(f, h, groups[i])
  {
    seq(|groups|, i requires 0 <= i < |groups| => EagerLoss(f, h, groups[i]))
  }

  /** How the tensors of `first` may come back in later calls: at their own flat positions, and, up to the last call
      that has one, in every call. A replay then copies such a tensor onto itself. */
  ghost predicate Joins(first: seq<Arg>, later: seq<Tree<Arg>>) {
    && (forall k | 0 <= k < |later| :: Aligned(first, FlatLeaves(later[k])))
    && (forall j, k | 0 <= j < k < |later| :: TensorsOf(first) * TreeTensors(later[k]) <= TreeTensors(later[j]))
  }

  /** The calls of a step, one after the other: no tensor twice in one call, and shared ones as Joins says. */
  ghost predicate Independent(calls: seq<Tree<Arg>>) {
    forall i | 0 <= i < |calls| :: Distinct(FlatLeaves(calls[i])) && Joins(FlatLeaves(calls[i]), calls[i + 1..])
  }

  /** Calls that share one tensor only, such as the count of valid tokens, and have it in one place. */
  lemma SharedCount(calls: seq<Tree<Arg>>, count: Tensor, place: nat)
    requires forall i | 0 <= i < |calls| :: Distinct(FlatLeaves(calls[i]))
    requires forall i | 0 <= i < |calls| :: place < |FlatLeaves(calls[i])| && FlatLeaves(calls[i])[place] == T(count)
    requires forall i, j | 0 <= i < j < |calls| :: TreeTensors(calls[i]) * TreeTensors(calls[j]) <= {count}
    ensures Independent(calls)
  {
    forall i | 0 <= i < |calls| ensures Joins(FlatLeaves(calls[i]), calls[i + 1..]) {
      var later := calls[i + 1..];
      assert forall k | 0 <= k < |later| :: later[k] == calls[i + 1 + k];
      forall k | 0 <= k < |later| ensures Aligned(FlatLeaves(calls[i]), FlatLeaves(later[k])) {
        OnlyShared(FlatLeaves(calls[i]), FlatLeaves(later[k]), count, place);
      }
      assert forall k | 0 <= k < |later| :: count in TreeTensors(later[k]);
    }
  }

  lemma OnlyShared(a: seq<Arg>, b: seq<Arg>, count: Tensor, place: nat)
    requires place < |a| && place < |b| && a[place] == b[place] == T(count) && Distinct(b)
    requires TensorsOf(a) * TensorsOf(b) <= {count}
    ensures Aligned(a, b)
  {
    forall j | 0 <= j < |b| && b[j].T? && b[j].tensor in TensorsOf(a) ensures j == place {
      assert b[j].tensor in TensorsOf(a) * TensorsOf(b);
    }
  }

  lemma FirstTensors(groups: seq<Tree<Arg>>)
    requires groups != []
    ensures Tensors(groups) == TreeTensors(groups[0]) + Tensors(groups[1..])
  {
    forall x | x in Tensors(groups) ensures x in TreeTensors(groups[0]) + Tensors(groups[1..]) {
      var i :| 0 <= i < |groups| && x in TreeTensors(groups[i]);
      if i > 0 { assert groups[1..][i - 1] == groups[i]; }
    }
    var rest := groups[1..];
    assert forall i | 0 <= i < |rest| :: rest[i] == groups[i + 1];
  }

  lemma JoinsApart(first: seq<Arg>, calls: seq<Tree<Arg>>)
    requires TensorsOf(first) !! Tensors(calls)
    ensures Joins(first, calls)
  {
    hide Tensors;
    forall k | 0 <= k < |calls| ensures TensorsOf(first) !! TreeTensors(calls[k]) {
      TensorsWithin(calls, k);
    }
    forall k | 0 <= k < |calls| ensures Aligned(first, FlatLeaves(calls[k])) {
      assert forall j | 0 <= j < |FlatLeaves(calls[k])| && FlatLeaves(calls[k])[j].T? ::
        FlatLeaves(calls[k])[j].tensor in TreeTensors(calls[k]);
    }
  }

  lemma JoinsRest(first: seq<Arg>, t: Tree<Arg>, rest: seq<Tree<Arg>>)
    requires Joins(first, [t] + rest)
    ensures Aligned(first, FlatLeaves(t)) && Joins(first, rest) && TensorsOf(first) * Tensors(rest) <= TreeTensors(t)
  {
    hide Aligned;
    var calls := [t] + rest;
    assert calls[0] == t && forall i | 0 <= i < |rest| :: rest[i] == calls[i + 1];
  }

  lemma IndependentRest(t: Tree<Arg>, rest: seq<Tree<Arg>>)
    requires Independent([t] + rest)
    ensures Distinct(FlatLeaves(t)) && Joins(FlatLeaves(t), rest) && Independent(rest)
  {
    hide Joins, Distinct;
    var calls := [t] + rest;
    assert calls[0] == t && calls[1..] == rest;
    assert forall i | 0 <= i < |rest| :: rest[i] == calls[i + 1] && rest[i + 1..] == calls[i + 2..];
  }

  predicate SameInputs(t: Tree<Arg>, u: Tree<Arg>) {
    && SpecOf(t) == SpecOf(u) && LeafSpecs(OuterLeaves(t)) == LeafSpecs(OuterLeaves(u))
    && SpecsOf(FlatLeaves(t)) == SpecsOf(FlatLeaves(u))
  }

  ghost predicate AllSame(groups: seq<Tree<Arg>>) {
    forall i | 0 <= i < |groups| :: SameInputs(groups[i], groups[0])
  }

  /** A step's calls in order: the SDC repeats come right after the first group. */
  function Calls(groups: seq<Tree<Arg>>, repeats: seq<Tree<Arg>>): seq<Tree<Arg>>
    requires groups != []
    ensures |Calls(groups, repeats)| == |groups| + |repeats|
  {
    [groups[0]] + repeats + groups[1..]
  }

  /** The repeats see the same values as the first group, if in other tensors. */
  ghost predicate SameValues(h: Contents, t: Tree<Arg>, repeats: seq<Tree<Arg>>) {
    forall k | 0 <= k < |repeats| :: Seen(h, repeats[k]) == Seen(h, t)
  }

  /** What one step gets: its groups, and what SDC's repeats of the first group are called with. */
  datatype StepInputs = StepInputs(groups: seq<Tree<Arg>>, repeats: seq<Tree<Arg>>) {
    function Inputs(): set<Tensor> {
      if groups == [] then {} else Tensors(Calls(groups, repeats))
    }
  }

  function AllInputs(steps: seq<StepInputs>): set<Tensor> {
    if steps == [] then {} else steps[0].Inputs() + AllInputs(steps[1..])
  }

  /** Every step has tensors of its own. */
  ghost predicate OwnInputs(steps: seq<StepInputs>) {
    steps == [] || (steps[0].Inputs() !! AllInputs(steps[1..]) && OwnInputs(steps[1..]))
  }

  lemma {:induction false} InputsWithin(steps: seq<StepInputs>, k: nat)
    requires k <= |steps|
    ensures AllInputs(steps[k..]) <= AllInputs(steps)
    ensures k < |steps| ==> steps[k].Inputs() <= AllInputs(steps)
    ensures OwnInputs(steps) ==> OwnInputs(steps[k..])
  {
    if k == 0 {
      assert steps[0..] == steps;
    } else {
      InputsWithin(steps[1..], k - 1);
      assert steps[1..][k - 1..] == steps[k..];
    }
  }

  lemma SeenAlike(h: Contents, g: Contents, t: Tree<Arg>, all: set<Tensor>)
    requires g == Part(h, all) && TreeTensors(t) <= all
    ensures Seen(h, t) == Seen(g, t)
  {
    assert Part(h, TreeTensors(t)) == Part(g, TreeTensors(t));
  }

  /** The eager losses depend only on what the groups' own tensors hold. */
  lemma EagerLossesAlike(f: Tree<Value> -> seq<real>, h: Contents, g: Contents, groups: seq<Tree<Arg>>, repeats: seq<Tree<Arg>>)
    requires Scalar(f) && groups != [] && g == Part(h, Tensors(Calls(groups, repeats)))
    ensures EagerLosses(f, h, groups) == EagerLosses(f, g, groups)
    ensures SameValues(h, groups[0], repeats) ==> SameValues(g, groups[0], repeats)
  {
    hide Seen, Tensors, Calls, Part;
    forall k | 0 <= k < |groups| ensures Seen(h, groups[k]) == Seen(g, groups[k]) {
      InCalls(groups, repeats, k);
      SeenAlike(h, g, groups[k], Tensors(Calls(groups, repeats)));
    }
    forall k | 0 <= k < |repeats| ensures Seen(h, repeats[k]) == Seen(g, repeats[k]) {
      RepeatInCalls(groups, repeats, k);
      SeenAlike(h, g, repeats[k], Tensors(Calls(groups, repeats)));
    }
  }

  lemma InCalls(groups: seq<Tree<Arg>>, repeats: seq<Tree<Arg>>, k: nat)
    requires k < |groups|
    ensures TreeTensors(groups[k]) <= Tensors(Calls(groups, repeats))
  {
    assert Calls(groups, repeats)[Place(repeats, k)] == groups[k];
  }

  lemma RepeatInCalls(groups: seq<Tree<Arg>>, repeats: seq<Tree<Arg>>, k: nat)
    requires k < |repeats| && groups != []
    ensures TreeTensors(repeats[k]) <= Tensors(Calls(groups, repeats))
  {
    assert Calls(groups, repeats)[1 + k] == repeats[k];
  }

  ghost predicate Among(calls: seq<Tree<Arg>>, all: seq<Tree<Arg>>) {
    forall i | 0 <= i < |calls| :: calls[i] in all
  }

  function AllCalls(steps: seq<StepInputs>): seq<Tree<Arg>> {
    if steps == [] then []
    else (if steps[0].groups == [] then [] else Calls(steps[0].groups, steps[0].repeats)) + AllCalls(steps[1..])
  }

  lemma {:induction false} CallsAmong(steps: seq<StepInputs>, k: nat)
    requires k < |steps| && steps[k].groups != []
    ensures Among(Calls(steps[k].groups, steps[k].repeats), AllCalls(steps))
  {
    if k > 0 { CallsAmong(steps[1..], k - 1); }
  }

  /** The position of group k's first call. */
  function Place(repeats: seq<Tree<Arg>>, k: nat): nat {
    if k == 0 then 0 else |repeats| + k
  }

  /** The calls of group k all see the group's values. */
  lemma TurnSees(h: Contents, groups: seq<Tree<Arg>>, repeats: seq<Tree<Arg>>, k: nat)
    requires k < |groups| && SameValues(h, groups[0], repeats)
    ensures Calls(groups, repeats)[Place(repeats, k)] == groups[k]
    ensures forall j | Place(repeats, k) <= j < Place(repeats, k + 1) :: Seen(h, Calls(groups, repeats)[j]) == Seen(h, groups[k])
  {
    hide Seen;
    forall j | Place(repeats, k) <= j < Place(repeats, k + 1)
      ensures Seen(h, Calls(groups, repeats)[j]) == Seen(h, groups[k])
    {
      if k == 0 && j > 0 { assert Calls(groups, repeats)[j] == repeats[j - 1]; }
    }
  }

  class Trainer {
    const graphed: GraphedFunction
    const groupsPerStep: nat
    const sdcSteps: int
    const replays: nat
    const warmupSteps: nat
    var stepsSinceReset: nat

    constructor (f: Tree<Value> -> seq<real>, groupsPerStep: nat, sdcSteps: int, replays: nat, warmupSteps: nat)
      requires groupsPerStep > 0 && sdcSteps >= -1 && Scalar(f)
      ensures Valid() && stepsSinceReset == 0 && graphed.f == f && fresh(graphed)
      ensures this.groupsPerStep == groupsPerStep && this.sdcSteps == sdcSteps
      ensures this.replays == replays && this.warmupSteps == warmupSteps
    {
      this.groupsPerStep, this.sdcSteps, this.replays, this.warmupSteps := groupsPerStep, sdcSteps, replays, warmupSteps;
      graphed := new GraphedFunction(f, NumWarmupIterations(warmupSteps, groupsPerStep, sdcSteps, replays));
      stepsSinceReset := 0;
    }

    /** The graph has been captured, and stops warming up, exactly by the number of calls made so far. */
    ghost predicate After(calls: nat)
      reads this, graphed, graphed.wrapper
    {
      && graphed.Valid() && Scalar(graphed.f)
      && graphed.Remaining() == (if calls < graphed.numWarmupIterations then graphed.numWarmupIterations - calls else 0)
      && (graphed.Captured() <==> calls > graphed.numWarmupIterations)
    }

    ghost predicate Valid()
      reads this, graphed, graphed.wrapper
    {
      && groupsPerStep > 0 && sdcSteps >= -1
      && graphed.numWarmupIterations == NumWarmupIterations(warmupSteps, groupsPerStep, sdcSteps, replays)
      && After(CallsBefore(groupsPerStep, sdcSteps, replays, stepsSinceReset))
    }

    /** The calls of the first warmupSteps steps run eagerly; the graph is captured by the first call after them. */
    lemma CaptureTiming()
      requires Valid()
      ensures graphed.Remaining() > 0 <==> stepsSinceReset < warmupSteps
      ensures graphed.Captured() <==> stepsSinceReset > warmupSteps
    {
      WarmupCoversSteps(warmupSteps, groupsPerStep, sdcSteps, replays);
      if stepsSinceReset <= warmupSteps {
        CallsGrow(groupsPerStep, sdcSteps, replays, stepsSinceReset, warmupSteps);
      } else {
        CallsGrow(groupsPerStep, sdcSteps, replays, warmupSteps, stepsSinceReset);
      }
    }

    /** Calls whose tensors meet what a replay writes only where a replay copies them onto themselves. */
    ghost predicate Outside(calls: seq<Tree<Arg>>)
      reads graphed, graphed.wrapper
    {
      Joins(graphed.CapturedArgs(), calls) &&
      (graphed.wrapper != null && graphed.wrapper.output != null ==> graphed.wrapper.output !in Tensors(calls))
    }

    /** Calls not made yet: their tensors hold what they held in h. */
    ghost predicate Pending(h: Contents, calls: seq<Tree<Arg>>)
      reads graphed, graphed.wrapper, Tensors(calls)
    {
      Independent(calls) && Outside(calls) && Snapshot(Tensors(calls)) == Part(h, Tensors(calls))
    }

    lemma FirstPending(h: Contents, t: Tree<Arg>, rest: seq<Tree<Arg>>)
      requires Pending(h, [t] + rest)
      ensures Tensors([t] + rest) == TreeTensors(t) + Tensors(rest) && Distinct(FlatLeaves(t))
      ensures Aligned(graphed.CapturedArgs(), FlatLeaves(t)) && Joins(FlatLeaves(t), rest) && Pending(h, rest)
      ensures forall x | x in graphed.CapturedTensors() && x in Tensors(rest) :: x in TreeTensors(t)
      ensures Snapshot(TreeTensors(t)) == Part(h, TreeTensors(t))
      ensures graphed.wrapper != null && graphed.wrapper.output != null ==>
        graphed.wrapper.output !in TreeTensors(t) && graphed.wrapper.output !in Tensors(rest)
    {
      hide Joins, Independent, Aligned, Distinct, Tensors, Part;
      FirstTensors([t] + rest);
      assert ([t] + rest)[1..] == rest;
      JoinsRest(graphed.CapturedArgs(), t, rest);
      IndependentRest(t, rest);
      SubSnapshot(h, Tensors([t] + rest), TreeTensors(t));
      SubSnapshot(h, Tensors([t] + rest), Tensors(rest));
    }

    /** What a call on t leaves of the wrapper: captures stay, and a new capture is of t. */
    twostate predicate Kept(t: Tree<Arg>)
      reads graphed, graphed.wrapper
    {
      && (old(graphed.wrapper) != null ==> graphed.wrapper == old(graphed.wrapper) && graphed.inputSpec == old(graphed.inputSpec))
      && (old(graphed.wrapper) == null && graphed.wrapper != null ==>
           fresh(graphed.wrapper) && graphed.Accepts(t) && graphed.wrapper.specs == SpecsOf(FlatLeaves(t)))
      && (old(graphed.Captured()) ==>
           graphed.Captured() && graphed.wrapper.args == old(graphed.wrapper.args) &&
           graphed.wrapper.output == old(graphed.wrapper.output))
      && (!old(graphed.Captured()) && graphed.Captured() ==> graphed.CapturedFrom(t) && fresh(graphed.wrapper.output))
    }

    /** One call: the loss is the eager one, and later calls and the running sum are left alone. */
    method Once(t: Tree<Arg>, ghost rest: seq<Tree<Arg>>, ghost h: Contents, ghost before: nat, ghost sum: Tensor?)
      returns (r: Result<Tensor, RunError>)
      requires After(before) && Pending(h, [t] + rest) && Tensors([t] + rest) <= h.Keys && OutsideSum(h, sum)
      modifies graphed, graphed.wrapper, graphed.Footprint(), TreeTensors(t)
      ensures r.Ok? ==> After(before + 1) && r.value.data == graphed.f(Seen(h, t))
      ensures graphed.Valid() && Kept(t) && (old(graphed.wrapper) == null || old(graphed.Accepts(t)) ==> r.Ok?)
      ensures r.Ok? ==> if graphed.Captured() then r.value == graphed.wrapper.output else fresh(r.value)
      ensures r.Ok? ==> graphed.Accepts(t) && Pending(h, rest) && r.value != sum
      ensures OutsideSum(h, sum) && (sum != null ==> sum.data == old(sum.data))
    {
      hide Joins, Independent, Aligned, Distinct, TreeIn, Tensors;
      FirstPending(h, t, rest);
      ghost var tensors, later := TreeTensors(t), Snapshot(Tensors(rest));
      graphed.SafeInputs(t);
      r := graphed.Run(t);
      if r.Ok? {
        assert Snapshot(tensors) == Part(h, tensors);
        forall x | x in later.Keys ensures x.data == later[x] {
          if x in tensors { assert x.data == Snapshot(tensors)[x]; }
        }
      }
    }

    /** The running sum is no input and no tensor a replay writes. */
    ghost predicate OutsideSum(h: Contents, sum: Tensor?)
      reads graphed, graphed.wrapper
    {
      sum != null ==> sum !in h.Keys && sum !in graphed.Footprint()
    }

    ghost predicate AllAccepted(calls: seq<Tree<Arg>>)
      reads graphed
    {
      forall j | 0 <= j < |calls| :: graphed.Accepts(calls[j])
    }

    /** Inputs every call takes without raising: those of the first call, if there was one. */
    ghost predicate Steady(calls: seq<Tree<Arg>>)
      reads graphed
    {
      if graphed.wrapper == null then AllSame(calls) else AllAccepted(calls)
    }

    twostate lemma StillAccepted(calls: seq<Tree<Arg>>)
      requires old(AllAccepted(calls)) && graphed.wrapper == old(graphed.wrapper) && graphed.inputSpec == old(graphed.inputSpec)
      ensures AllAccepted(calls)
    {
    }

    lemma AcceptedIn(calls: seq<Tree<Arg>>, i: nat)
      requires i < |calls| && AllAccepted(calls)
      ensures graphed.Accepts(calls[i])
    {
    }

    /** Once one call has been accepted, calls with the same inputs are too. */
    lemma SteadyAfterFirst(calls: seq<Tree<Arg>>, i: nat)
      requires i < |calls| && AllSame(calls)
      requires graphed.Accepts(calls[i]) && graphed.wrapper.specs == SpecsOf(FlatLeaves(calls[i]))
      ensures Steady(calls)
    {
      forall j | 0 <= j < |calls| ensures graphed.Accepts(calls[j]) {
        assert SameInputs(calls[i], calls[0]) && SameInputs(calls[j], calls[0]);
      }
    }

    /** Objects that include all a step writes. */
    ghost predicate Covers(frame: set<object>, calls: seq<Tree<Arg>>)
      reads graphed, graphed.wrapper
    {
      && graphed in frame && (graphed.wrapper != null ==> graphed.wrapper in frame)
      && graphed.Footprint() <= frame && (forall x | x in Tensors(calls) :: x in frame)
    }

    /** The next of a step's calls, within the frame of the whole step. */
    method Next(calls: seq<Tree<Arg>>, i: nat, ghost all: seq<Tree<Arg>>, ghost h: Contents, ghost before: nat,
                ghost sum: Tensor?, ghost frame: set<object>)
      returns (r: Result<Tensor, RunError>, ghost frame': set<object>)
      requires i < |calls| && After(before) && Pending(h, calls[i..]) && Tensors(calls) <= h.Keys && OutsideSum(h, sum)
      requires Covers(frame, calls) && this !in frame && Among(calls, all)
      modifies frame
      ensures old(Steady(all)) ==> r.Ok? && Steady(all)
      ensures r.Ok? ==> After(before + 1) && Pending(h, calls[i + 1..]) && r.value.data == graphed.f(Seen(h, calls[i]))
      ensures OutsideSum(h, sum) && (sum != null ==> sum.data == old(sum.data)) && (r.Ok? ==> r.value != sum)
      ensures fresh(frame' - frame) && Covers(frame', calls)
    {
      hide Pending, OutsideSum, Tensors, Accepted, Independent, Joins, After, AllSame, AllAccepted, Seen, Fits, FlatLeaves;
      assert [calls[i]] + calls[i + 1..] == calls[i..];
      TensorsWithin(calls, i);
      LeftWithin(calls, i);
      ghost var j :| 0 <= j < |all| && all[j] == calls[i];
      if graphed.wrapper != null && Steady(all) {
        AcceptedIn(all, j);
      }
      r := Once(calls[i], calls[i + 1..], h, before, sum);
      if old(Steady(all)) {
        if old(graphed.wrapper) == null {
          SteadyAfterFirst(all, j);
        } else {
          StillAccepted(all);
        }
      }
      frame' := frame + graphed.Footprint() + if graphed.wrapper == null then {} else {graphed.wrapper as object};
    }

    /** A group is run by n calls that see the same values: one, or with SDC on the first group, that and its replays.
        The last loss is kept. */
    method FwdBwd(calls: seq<Tree<Arg>>, i: nat, n: nat, ghost all: seq<Tree<Arg>>, ghost h: Contents, ghost before: nat,
                  ghost sum: Tensor?, ghost frame: set<object>)
      returns (r: Result<Tensor, RunError>, ghost frame': set<object>)
      requires n > 0 && i + n <= |calls| && forall k | i <= k < i + n :: Seen(h, calls[k]) == Seen(h, calls[i])
      requires After(before) && Pending(h, calls[i..]) && Tensors(calls) <= h.Keys && OutsideSum(h, sum)
      requires Covers(frame, calls) && this !in frame && Among(calls, all)
      modifies frame
      ensures old(Steady(all)) ==> r.Ok? && Steady(all)
      ensures r.Ok? ==> After(before + n) && Pending(h, calls[i + n..]) && r.value.data == graphed.f(Seen(h, calls[i]))
      ensures OutsideSum(h, sum) && (sum != null ==> sum.data == old(sum.data)) && (r.Ok? ==> r.value != sum)
      ensures fresh(frame' - frame) && Covers(frame', calls)
    {
      hide Pending, OutsideSum, After, Steady, Covers, Seen;
      r, frame' := Next(calls, i, all, h, before, sum, frame);
      var k := 1;
      while r.Ok? && k < n
        invariant 1 <= k <= n
        invariant old(Steady(all)) ==> r.Ok? && Steady(all)
        invariant r.Ok? ==> After(before + k) && Pending(h, calls[i + k..]) && r.value.data == graphed.f(Seen(h, calls[i]))
        invariant OutsideSum(h, sum) && (sum != null ==> sum.data == old(sum.data)) && (r.Ok? ==> r.value != sum)
        invariant fresh(frame' - frame) && Covers(frame', calls)
      {
        r, frame' := Next(calls, i + k, all, h, before + k, sum, frame');
        k := k + 1;
      }
    }

    /** accumulated_loss: the first loss is cloned, later ones are added in place. */
    method Accumulate(accumulated: Tensor?, loss: Tensor) returns (total: Tensor)
      requires |loss.data| == 1 && accumulated != loss && (accumulated != null ==> |accumulated.data| == 1)
      modifies accumulated
      ensures if accumulated == null then fresh(total) else total == accumulated
      ensures total.data == [(if accumulated == null then 0.0 else old(accumulated.data[0])) + loss.data[0]]
    {
      if accumulated == null {
        total := new Tensor(loss.data, 0);
      } else {
        accumulated.data := [accumulated.data[0] + loss.data[0]];
        total := accumulated;
      }
    }

    ghost predicate SumIs(sum: Tensor?, value: real)
      reads sum
    {
      sum != null && sum.data == [value]
    }

    /** Adding a loss touches no input and nothing a replay writes. */
    method AddLoss(ghost left: seq<Tree<Arg>>, ghost h: Contents, accumulated: Tensor?, loss: Tensor) returns (total: Tensor)
      requires |loss.data| == 1 && accumulated != loss && (accumulated != null ==> |accumulated.data| == 1)
      requires Pending(h, left) && Tensors(left) <= h.Keys && OutsideSum(h, accumulated)
      modifies accumulated
      ensures if accumulated == null then fresh(total) else total == accumulated
      ensures total.data == [(if accumulated == null then 0.0 else old(accumulated.data[0])) + loss.data[0]]
      ensures Pending(h, left) && OutsideSum(h, total)
    {
      hide Pending, Tensors;
      assert accumulated !in Tensors(left);
      total := Accumulate(accumulated, loss);
    }

    lemma ScalarAfter(calls: nat)
      requires After(calls)
      ensures Scalar(graphed.f)
    {
    }

    /** One group: run it, then add its loss to the accumulated one. */
    method GroupStep(calls: seq<Tree<Arg>>, i: nat, n: nat, ghost all: seq<Tree<Arg>>, ghost h: Contents, ghost before: nat,
                     accumulated: Tensor?, shouldLog: bool, ghost sum: real, ghost frame: set<object>)
      returns (r: Result<Tensor?, RunError>, ghost frame': set<object>)
      requires n > 0 && i + n <= |calls| && forall k | i <= k < i + n :: Seen(h, calls[k]) == Seen(h, calls[i])
      requires After(before) && Pending(h, calls[i..]) && Tensors(calls) <= h.Keys && OutsideSum(h, accumulated)
      requires accumulated != null ==> SumIs(accumulated, sum)
      requires shouldLog && accumulated == null ==> sum == 0.0
      requires Covers(frame, calls) && this !in frame && Among(calls, all)
      modifies frame, accumulated
      ensures old(Steady(all)) ==> r.Ok? && Steady(all)
      ensures r.Ok? ==> After(before + n) && Pending(h, calls[i + n..]) && OutsideSum(h, r.value)
      ensures r.Ok? ==> if shouldLog then SumIs(r.value, sum + EagerLoss(graphed.f, h, calls[i])) else r.value == accumulated
      ensures r.Ok? && r.value != accumulated ==> accumulated == null && fresh(r.value)
      ensures fresh(frame' - frame) && Covers(frame', calls)
    {
      hide Pending, OutsideSum, After, Steady, Covers, Seen, Tensors;
      ScalarAfter(before);
      var loss;
      loss, frame' := FwdBwd(calls, i, n, all, h, before, accumulated, frame);
      if loss.Err? {
        r := Err(loss.error);
        return;
      }
      if !shouldLog {
        r := Ok(accumulated);
        return;
      }
      LeftWithin(calls, i + n);
      var total := AddLoss(calls[i + n..], h, accumulated, loss.value);
      r := Ok(total);
    }

    /** Where a step stands after k groups, with the calls in `left` not made yet. */
    ghost predicate Progress(h: Contents, groups: seq<Tree<Arg>>, k: int, left: seq<Tree<Arg>>, accumulated: Tensor?, shouldLog: bool)
      requires 0 <= k <= |groups|
      reads graphed, graphed.wrapper, Tensors(left), accumulated
    {
      && Scalar(graphed.f) && Pending(h, left) && OutsideSum(h, accumulated)
      && (accumulated != null <==> shouldLog && k > 0)
      && (accumulated != null ==> SumIs(accumulated, Total(EagerLosses(graphed.f, h, groups)[..k])))
    }

    /** One group of a step, by its number. */
    method Advance(groups: seq<Tree<Arg>>, repeats: seq<Tree<Arg>>, k: nat, ghost all: seq<Tree<Arg>>, ghost h: Contents,
                   ghost before: nat, accumulated: Tensor?, shouldLog: bool, ghost frame: set<object>)
      returns (r: Result<Tensor?, RunError>, ghost frame': set<object>)
      requires k < |groups| && SameValues(h, groups[0], repeats) && Tensors(Calls(groups, repeats)) <= h.Keys
      requires After(before + Place(repeats, k))
      requires Progress(h, groups, k, Calls(groups, repeats)[Place(repeats, k)..], accumulated, shouldLog)
      requires Covers(frame, Calls(groups, repeats)) && this !in frame && Among(Calls(groups, repeats), all)
      modifies frame, accumulated
      ensures old(Steady(all)) ==> r.Ok? && Steady(all)
      ensures r.Ok? ==> After(before + Place(repeats, k + 1))
      ensures r.Ok? ==> Progress(h, groups, k + 1, Calls(groups, repeats)[Place(repeats, k + 1)..], r.value, shouldLog)
      ensures r.Ok? && r.value != accumulated ==> fresh(r.value)
      ensures fresh(frame' - frame) && Covers(frame', Calls(groups, repeats))
    {
      hide Pending, OutsideSum, After, Steady, Covers, Seen, Tensors, Total, Calls, SameValues, EagerLoss;
      ghost var losses := EagerLosses(graphed.f, h, groups);
      TotalStep(losses, k);
      TurnSees(h, groups, repeats, k);
      var i, n := Place(repeats, k), Place(repeats, k + 1) - Place(repeats, k);
      r, frame' := GroupStep(Calls(groups, repeats), i, n, all, h, before + i, accumulated, shouldLog, Total(losses[..k]), frame);
    }

    lemma Begins(groups: seq<Tree<Arg>>, calls: seq<Tree<Arg>>, shouldLog: bool)
      requires Scalar(graphed.f) && Independent(calls) && Outside(calls)
      ensures Progress(Snapshot(Tensors(calls)), groups, 0, calls[0..], null, shouldLog)
    {
      assert calls[0..] == calls;
      ghost var h := Snapshot(Tensors(calls));
      assert h == Part(h, Tensors(calls));
    }

    lemma Ends(h: Contents, groups: seq<Tree<Arg>>, repeats: seq<Tree<Arg>>, accumulated: Tensor?, shouldLog: bool)
      requires groups != []
      requires Progress(h, groups, |groups|, Calls(groups, repeats)[Place(repeats, |groups|)..], accumulated, shouldLog)
      ensures Progress(h, groups, |groups|, [], accumulated, shouldLog) && (accumulated != null <==> shouldLog)
    {
      assert Calls(groups, repeats)[Place(repeats, |groups|)..] == [];
    }

    /** The loop over a step's groups: the loss they sum to is the eager one although replays reuse one output tensor. */
    method RunGroups(groups: seq<Tree<Arg>>, repeats: seq<Tree<Arg>>, shouldLog: bool, ghost all: seq<Tree<Arg>>,
                     ghost before: nat, ghost frame: set<object>)
      returns (r: Result<Tensor?, RunError>, ghost frame': set<object>)
      requires groups != [] && |repeats| == FirstCalls(sdcSteps, replays, stepsSinceReset) - 1
      requires After(before) && Independent(Calls(groups, repeats)) && Outside(Calls(groups, repeats))
      requires SameValues(Snapshot(Tensors(Calls(groups, repeats))), groups[0], repeats)
      requires Covers(frame, Calls(groups, repeats)) && this !in frame && Among(Calls(groups, repeats), all)
      modifies frame
      ensures old(Steady(all)) ==> r.Ok? && Steady(all)
      ensures r.Ok? ==> After(before + FirstCalls(sdcSteps, replays, stepsSinceReset) + (|groups| - 1))
      ensures r.Ok? ==> Progress(old(Snapshot(Tensors(Calls(groups, repeats)))), groups, |groups|, [], r.value, shouldLog)
      ensures r.Ok? && shouldLog ==> fresh(r.value)
      ensures fresh(frame' - frame) && Covers(frame', Calls(groups, repeats))
    {
      hide Progress, After, Steady, Covers, Tensors, Independent, Outside, SameValues, Calls;
      ghost var h := Snapshot(Tensors(Calls(groups, repeats)));
      frame' := frame;
      ScalarAfter(before);
      Begins(groups, Calls(groups, repeats), shouldLog);
      var accumulated: Tensor? := null;
      for k := 0 to |groups|
        invariant After(before + Place(repeats, k))
        invariant Progress(h, groups, k, Calls(groups, repeats)[Place(repeats, k)..], accumulated, shouldLog)
        invariant Covers(frame', Calls(groups, repeats)) && fresh(frame' - frame)
        invariant accumulated != null ==> fresh(accumulated)
        invariant old(Steady(all)) ==> Steady(all)
      {
        var sum;
        sum, frame' := Advance(groups, repeats, k, all, h, before, accumulated, shouldLog, frame');
        if sum.Err? {
          r := Err(sum.error);
          return;
        }
        accumulated := sum.value;
      }
      Ends(h, groups, repeats, accumulated, shouldLog);
      r := Ok(accumulated);
    }

    static ghost predicate IsInput(o: object, calls: seq<Tree<Arg>>) {
      o is Tensor && o as Tensor in Tensors(calls)
    }

    /** What a step may write. */
    ghost function Frame(calls: seq<Tree<Arg>>): set<object>
      reads graphed, graphed.wrapper
    {
      {graphed as object} + (if graphed.wrapper == null then {} else {graphed.wrapper as object}) + graphed.Footprint() +
      set x | x in Tensors(calls) :: x as object
    }

    lemma CoversFrame(calls: seq<Tree<Arg>>)
      ensures Covers(Frame(calls), calls) && this !in Frame(calls)
    {
    }

    /** The wrapper and what it writes, told apart from the rest of a frame. */
    lemma Stays(calls: seq<Tree<Arg>>, frame': set<object>, frame: set<object>, wrapper: CUDAGraphWrapper?, written: set<object>)
      requires Covers(frame', calls)
      requires forall o: object | o in frame :: o == graphed || o == wrapper || o in written || IsInput(o, calls)
      requires forall o: object | o in written :: o is Tensor
      ensures graphed.Footprint() <= frame' && (graphed.wrapper != null ==> graphed.wrapper in frame')
      ensures graphed.wrapper == null || graphed.wrapper == wrapper || graphed.wrapper !in frame
      ensures forall o: object | o in graphed.Footprint() && o in frame :: o in written || IsInput(o, calls)
    {
    }

    /** A step returns the sum of the eager losses, whichever of its calls, the SDC repeats of the first group among
        them, run eagerly, capture the graph or replay it, and keeps the count of calls that decides that. No call
        raises if `all`, which has these calls and may have later ones, is of one structure and metadata. */
    method TrainStep(groups: seq<Tree<Arg>>, repeats: seq<Tree<Arg>>, shouldLog: bool, ghost all: seq<Tree<Arg>>)
      returns (r: Result<Tensor?, RunError>)
      requires Valid() && |groups| == groupsPerStep && |repeats| == FirstCalls(sdcSteps, replays, stepsSinceReset) - 1
      requires Independent(Calls(groups, repeats)) && Outside(Calls(groups, repeats))
      requires SameValues(Snapshot(Tensors(Calls(groups, repeats))), groups[0], repeats) && Among(Calls(groups, repeats), all)
      modifies this, graphed, graphed.wrapper, graphed.Footprint(), Tensors(Calls(groups, repeats))
      ensures old(Steady(all)) ==> r.Ok? && Steady(all)
      ensures r.Ok? ==> Valid() && stepsSinceReset == old(stepsSinceReset) + 1
      ensures r.Ok? && !shouldLog ==> r.value == null
      ensures r.Ok? && shouldLog ==> fresh(r.value) && r.value !in graphed.Footprint()
      ensures r.Ok? && shouldLog ==>
        SumIs(r.value, Total(EagerLosses(graphed.f, old(Snapshot(Tensors(Calls(groups, repeats)))), groups)))
      ensures graphed.wrapper != null ==> graphed.wrapper == old(graphed.wrapper) || fresh(graphed.wrapper)
      ensures forall o: object | o in graphed.Footprint() ::
        fresh(o) || o in old(graphed.Footprint()) || IsInput(o, Calls(groups, repeats))
    {
      hide Calls, Tensors, Independent, Outside, SameValues, Steady, Pending, SumIs, NumWarmupIterations, Covers;
      ghost var calls := Calls(groups, repeats);
      ghost var losses := EagerLosses(graphed.f, Snapshot(Tensors(calls)), groups);
      assert losses[..|groups|] == losses;
      ghost var wrapper, written, frame' := graphed.wrapper, graphed.Footprint(), {};
      ghost var frame := Frame(calls);
      CoversFrame(calls);
      r, frame' := RunGroups(groups, repeats, shouldLog, all, CallsBefore(groupsPerStep, sdcSteps, replays, stepsSinceReset), frame);
      Stays(calls, frame', frame, wrapper, written);
      if r.Ok? {
        stepsSinceReset := stepsSinceReset + 1;
      }
    }

    /** The inputs of step n as train_step makes them. */
    ghost predicate StepReady(step: StepInputs, h: Contents, n: nat) {
      && groupsPerStep > 0 && |step.groups| == groupsPerStep
      && |step.repeats| == FirstCalls(sdcSteps, replays, n) - 1
      && Independent(Calls(step.groups, step.repeats)) && SameValues(h, step.groups[0], step.repeats)
    }

    /** Tensors that hold what they held in h and that no replay writes. */
    ghost predicate Untouched(tensors: set<Tensor>, h: Contents)
      reads graphed, graphed.wrapper, tensors
    {
      Snapshot(tensors) == Part(h, tensors) && forall x | x in tensors :: x !in graphed.Footprint()
    }

    /** One step of a run: its sum is the eager one, and the inputs of later steps are left alone. */
    method StepOfTrain(step: StepInputs, ghost later: set<Tensor>, ghost all: seq<Tree<Arg>>, ghost h: Contents)
      returns (r: Result<real, RunError>)
      requires Valid() && StepReady(step, h, stepsSinceReset) && step.Inputs() !! later
      requires Untouched(step.Inputs(), h) && Untouched(later, h) && Among(Calls(step.groups, step.repeats), all)
      modifies this, graphed, graphed.wrapper, graphed.Footprint(), step.Inputs()
      ensures old(Steady(all)) ==> r.Ok? && Steady(all)
      ensures r.Ok? ==> Valid() && stepsSinceReset == old(stepsSinceReset) + 1
      ensures r.Ok? ==> r.value == Total(EagerLosses(graphed.f, h, step.groups))
      ensures Untouched(later, h)
      ensures graphed.wrapper != null ==> graphed.wrapper == old(graphed.wrapper) || fresh(graphed.wrapper)
      ensures forall o: object | o in graphed.Footprint() ::
        fresh(o) || o in old(graphed.Footprint()) || (o is Tensor && o as Tensor in step.Inputs())
    {
      hide Independent, SameValues, EagerLosses, Total, Joins, Outside, Tensors;
      var calls := Calls(step.groups, step.repeats);
      ghost var g := Snapshot(Tensors(calls));
      EagerLossesAlike(graphed.f, h, g, step.groups, step.repeats);
      OutsideApart(calls);
      ghost var was := Snapshot(later);
      var sum := TrainStep(step.groups, step.repeats, true, all);
      assert forall x | x in later :: x.data == was[x];
      if sum.Err? {
        return Err(sum.error);
      }
      r := Ok(sum.value.data[0]);
    }

    lemma OutsideApart(calls: seq<Tree<Arg>>)
      requires forall x | x in Tensors(calls) :: x !in graphed.Footprint()
      ensures Outside(calls)
    {
      hide Tensors, Joins;
      forall x | x in graphed.CapturedTensors() ensures x !in Tensors(calls) {
        assert (x as object) in graphed.Footprint();
      }
      JoinsApart(graphed.CapturedArgs(), calls);
    }

    /** A run of steps with inputs of their own: every step returns the sum of its eager losses, before, at and after
        the capture. */
    method Train(steps: seq<StepInputs>) returns (sums: seq<real>, error: Option<RunError>)
      requires Valid() && OwnInputs(steps) && forall x | x in AllInputs(steps) :: x !in graphed.Footprint()
      requires forall k | 0 <= k < |steps| :: StepReady(steps[k], Snapshot(AllInputs(steps)), stepsSinceReset + k)
      modifies this, graphed, graphed.wrapper, graphed.Footprint(), AllInputs(steps)
      ensures |sums| <= |steps| && (error.None? <==> |sums| == |steps|) && (old(Steady(AllCalls(steps))) ==> error.None?)
      ensures error.None? ==> Valid() && stepsSinceReset == old(stepsSinceReset) + |steps|
      ensures Scalar(graphed.f) && forall k | 0 <= k < |sums| ::
        sums[k] == Total(EagerLosses(graphed.f, old(Snapshot(AllInputs(steps))), steps[k].groups))
    {
      hide Untouched, StepReady, EagerLosses, Total, Valid, StepInputs.Inputs;
      ghost var h := Snapshot(AllInputs(steps));
      sums := [];
      assert steps[0..] == steps;
      BeginTrain(AllInputs(steps));
      for k := 0 to |steps|
        invariant |sums| == k && Valid() && stepsSinceReset == old(stepsSinceReset) + k
        invariant Untouched(AllInputs(steps[k..]), h) && (old(Steady(AllCalls(steps))) ==> Steady(AllCalls(steps)))
        invariant forall j | 0 <= j < k :: sums[j] == Total(EagerLosses(graphed.f, h, steps[j].groups))
        invariant graphed.wrapper != null ==> graphed.wrapper == old(graphed.wrapper) || fresh(graphed.wrapper)
        invariant forall o: object | o in graphed.Footprint() ::
          fresh(o) || o in old(graphed.Footprint()) || (o is Tensor && o as Tensor in AllInputs(steps))
      {
        InputsWithin(steps, k);
        ReadyAmong(steps, k, h);
        assert steps[k..][1..] == steps[k + 1..];
        SplitUntouched(steps[k..], h);
        var sum := StepOfTrain(steps[k], AllInputs(steps[k + 1..]), AllCalls(steps), h);
        if sum.Err? {
          return sums, Some(sum.error);
        }
        sums := sums + [sum.value];
      }
      error := None;
    }

    lemma ReadyAmong(steps: seq<StepInputs>, k: nat, h: Contents)
      requires k < |steps| && StepReady(steps[k], h, stepsSinceReset)
      ensures steps[k].groups != [] && Among(Calls(steps[k].groups, steps[k].repeats), AllCalls(steps))
    {
      CallsAmong(steps, k);
    }

    lemma BeginTrain(tensors: set<Tensor>)
      requires Valid() && forall x | x in tensors :: x !in graphed.Footprint()
      ensures Untouched(tensors, Snapshot(tensors)) && Scalar(graphed.f)
    {
      assert Snapshot(tensors) == Part(Snapshot(tensors), tensors);
    }

    lemma SplitUntouched(steps: seq<StepInputs>, h: Contents)
      requires steps != [] && Untouched(AllInputs(steps), h)
      ensures Untouched(steps[0].Inputs(), h) && Untouched(AllInputs(steps[1..]), h)
    {
      SubSnapshot(h, AllInputs(steps), steps[0].Inputs());
      SubSnapshot(h, AllInputs(steps), AllInputs(steps[1..]));
    }
  }
}
