/** Cutting a model into pipeline stages and giving stages to ranks (torchtitan/distributed/pipeline_parallel.py). */
module PipelineStages {
  import opened Sums
  import opened Wrappers

  datatype Module = Embeddings | Layer(index: nat) | Norm | LmHead

  // ---------- how many stages ----------

  datatype MetadataError = NotDivisible | SingleStageNeedsOne | MultiStageNeedsTwo

  function Ceiling(n: nat, d: nat): nat
    requires d > 0
  {
    (n + d - 1) / d
  }

  /** n is the fewest stages of `limit` layers that hold `effective` layers. */
  predicate Fewest(n: nat, effective: nat, limit: nat) {
    n * limit >= effective && (n > 0 ==> (n - 1) * limit < effective)
  }

  /** A stage count the schedule can use: as many on each rank, one of them or at least two. */
  predicate Schedulable(n: nat, pp: nat, singleStage: bool)
    requires pp > 0
  {
    n % pp == 0 && if singleStage then n / pp == 1 else n / pp >= 2
  }

  /** _get_pipeline_metadata: with layers_per_stage, the fewest stages of that size, when the schedule can use that many;
      otherwise one or two stages on each rank. */
  method GetPipelineMetadata(numLayers: nat, inputWeight: nat, outputWeight: nat, pp: nat, singleStage: bool, layersPerStage: Option<nat>)
    returns (r: Result<nat, MetadataError>)
    requires pp > 0 && (layersPerStage.Some? ==> layersPerStage.value > 0)
    ensures layersPerStage.Some? ==>
      var n := Ceiling(numLayers + inputWeight + outputWeight, layersPerStage.value);
      (r.Ok? <==> Schedulable(n, pp, singleStage)) && (r.Ok? ==> r.value == n) && (r == Err(NotDivisible) <==> n % pp != 0) &&
      (r == Err(SingleStageNeedsOne) <==> n % pp == 0 && singleStage && n / pp != 1) &&
      (r == Err(MultiStageNeedsTwo) <==> n % pp == 0 && !singleStage && n / pp < 2)
    ensures layersPerStage.None? ==> r == Ok(if singleStage then pp else 2 * pp) && Schedulable(r.value, pp, singleStage)
  {
    hide Ceiling;
    if layersPerStage.Some? {
      var effective := numLayers + inputWeight + outputWeight;
      var stages := Ceiling(effective, layersPerStage.value);
      if stages % pp != 0 {
        return Err(NotDivisible);
      }
      if singleStage && stages / pp != 1 {
        return Err(SingleStageNeedsOne);
      }
      if !singleStage && stages / pp < 2 {
        return Err(MultiStageNeedsTwo);
      }
      return Ok(stages);
    }
    var stagesPerRank := if singleStage then 1 else 2;
    StagesOfRanks(pp, stagesPerRank);
    r := Ok(pp * stagesPerRank);
  }

  lemma CeilingBounds(n: nat, d: nat)
    requires d > 0
    ensures Fewest(Ceiling(n, d), n, d)
  {
    var q, m := (n + d - 1) / d, (n + d - 1) % d;
    assert n + d - 1 == q * d + m;
    assert (q - 1) * d == q * d - d;
    if q > 0 && n == 0 { ProductAtLeast(q, d); }
  }

  /** The rounded-up quotient is the fewest stages that hold the layers. */
  lemma CeilingIsFewest(k: nat, effective: nat, limit: nat)
    requires limit > 0
    ensures Fewest(k, effective, limit) <==> k == Ceiling(effective, limit)
  {
    CeilingBounds(effective, limit);
    if Fewest(k, effective, limit) { OneFewest(k, Ceiling(effective, limit), effective, limit); }
  }

  lemma OneFewest(i: nat, j: nat, effective: nat, limit: nat)
    requires Fewest(i, effective, limit) && Fewest(j, effective, limit)
    ensures i == j
  {
    if i < j {
      LessTimes(i, j - 1, limit);
    } else if j < i {
      LessTimes(j, i - 1, limit);
    }
  }

  lemma LessTimes(i: nat, j: nat, d: nat)
    requires i <= j
    ensures i * d <= j * d
  {
    assert j * d == i * d + (j - i) * d;
    NonNegativeProduct(j - i, d);
  }

  lemma StagesOfRanks(pp: nat, k: nat)
    requires pp > 0
    ensures (pp * k) % pp == 0 && (pp * k) / pp == k
  {
    QuotientUnique(pp * k, pp, k, 0);
  }

  // ---------- which modules each stage holds ----------

  function LayerRange(lo: nat, hi: nat): (s: seq<Module>)
    requires lo <= hi
    ensures |s| == hi - lo && forall i | 0 <= i < |s| :: s[i] == Layer(lo + i)
  {
    seq(hi - lo, i requires 0 <= i => Layer(lo + i))
  }

  /** The whole model in order. */
  function WholeModel(numLayers: nat): seq<Module> {
    [Embeddings] + LayerRange(0, numLayers) + [Norm, LmHead]
  }

  function Flatten(stages: seq<seq<Module>>): seq<Module> {
    if stages == [] then [] else Flatten(stages[..|stages| - 1]) + stages[|stages| - 1]
  }

  function Weight(m: Module, inputWeight: nat, outputWeight: nat): nat {
    match m
    case Embeddings => inputWeight
    case Layer(_) => 1
    case Norm => outputWeight
    case LmHead => 0  // counted with the norm
  }

  function StageWeight(stage: seq<Module>, inputWeight: nat, outputWeight: nat): nat {
    if stage == [] then 0
    else StageWeight(stage[..|stage| - 1], inputWeight, outputWeight) + Weight(stage[|stage| - 1], inputWeight, outputWeight)
  }

  lemma {:induction false} WeightOfSum(a: seq<Module>, b: seq<Module>, inputWeight: nat, outputWeight: nat)
    ensures StageWeight(a + b, inputWeight, outputWeight) ==
            StageWeight(a, inputWeight, outputWeight) + StageWeight(b, inputWeight, outputWeight)
  {
    if b == [] {
      assert a + b == a;
    } else {
      var n := |b| - 1;
      WeightOfSum(a, b[..n], inputWeight, outputWeight);
      assert (a + b)[..|a + b| - 1] == a + b[..n];
    }
  }

  lemma {:induction false} WeightOfLayers(lo: nat, hi: nat, inputWeight: nat, outputWeight: nat)
    requires lo <= hi
    ensures StageWeight(LayerRange(lo, hi), inputWeight, outputWeight) == hi - lo
    decreases hi
  {
    if lo < hi {
      WeightOfLayers(lo, hi - 1, inputWeight, outputWeight);
      assert LayerRange(lo, hi)[..hi - lo - 1] == LayerRange(lo, hi - 1);
    }
  }

  /** The source also rejects shares of zero layers; with no more stages than effective layers there are none. */
  datatype StageError = NoStages | TooManyStages | InputTooHeavy | OutputTooHeavy

  function Least(a: nat, b: nat): nat {
    if a < b then a else b
  }

  /** Effective layers of the first k stages. */
  function EffectiveBefore(k: nat, perStage: nat, extra: nat): nat {
    Offset(k, perStage) + Least(k, extra)
  }

  function EffectiveOf(k: nat, perStage: nat, extra: nat): nat {
    perStage + if k < extra then 1 else 0
  }

  /** Layers of the first k stages, the input weight taken off. */
  function LayersBefore(k: nat, stages: nat, numLayers: nat, perStage: nat, extra: nat, inputWeight: nat): int {
    if k == 0 then 0 else if k == stages then numLayers else EffectiveBefore(k, perStage, extra) - inputWeight
  }

  lemma EffectiveTotal(effective: nat, stages: nat)
    requires stages > 0
    ensures EffectiveBefore(stages, effective / stages, effective % stages) == effective
  {
    OffsetIsProduct(stages, effective / stages);
    assert effective == stages * (effective / stages) + effective % stages;
  }

  /** The loop `for _ in range(n): if current_layer < num_layers: append`. */
  method AddLayers(n: nat, current: nat, numLayers: nat) returns (modules: seq<Module>, next: nat)
    requires current <= numLayers
    ensures next == Least(current + n, numLayers) && modules == LayerRange(current, next)
  {
    modules, next := [], current;
    for i := 0 to n
      invariant current <= next == Least(current + i, numLayers) && modules == LayerRange(current, next)
    {
      if next < numLayers {
        modules, next := modules + [Layer(next)], next + 1;
      }
    }
  }

  /** What the checks before the loop let through. */
  predicate Accepted(stages: nat, numLayers: nat, inputWeight: nat, outputWeight: nat) {
    && stages > 0
    && (stages > 1 ==>
          var effective := numLayers + inputWeight + outputWeight;
          stages <= effective && inputWeight <= effective / stages && outputWeight <= effective / stages)
  }

  /** The stages as the loop builds them. */
  function StageOf(k: nat, stages: nat, numLayers: nat, perStage: nat, extra: nat, inputWeight: nat): seq<Module>
    requires k < stages
    requires 0 <= LayersBefore(k, stages, numLayers, perStage, extra, inputWeight) <=
             LayersBefore(k + 1, stages, numLayers, perStage, extra, inputWeight)
  {
    (if k == 0 then [Embeddings] else []) +
    LayerRange(LayersBefore(k, stages, numLayers, perStage, extra, inputWeight),
               LayersBefore(k + 1, stages, numLayers, perStage, extra, inputWeight)) +
    (if k == stages - 1 then [Norm, LmHead] else [])
  }

  /** Stage boundaries are in order, and each stage has its share of effective layers. */
  lemma Boundaries(k: nat, stages: nat, numLayers: nat, inputWeight: nat, outputWeight: nat)
    requires Accepted(stages, numLayers, inputWeight, outputWeight) && k < stages
    ensures var effective := numLayers + inputWeight + outputWeight;
            var perStage, extra := effective / stages, effective % stages;
            var lo := LayersBefore(k, stages, numLayers, perStage, extra, inputWeight);
            var hi := LayersBefore(k + 1, stages, numLayers, perStage, extra, inputWeight);
            0 <= lo <= hi <= numLayers &&
            hi - lo + (if k == 0 then inputWeight else 0) + (if k == stages - 1 then outputWeight else 0) ==
              EffectiveOf(k, perStage, extra)
  {
    var effective := numLayers + inputWeight + outputWeight;
    var perStage, extra := effective / stages, effective % stages;
    if stages == 1 {
      return;
    }
    EffectiveTotal(effective, stages);
    BeforeGrows(1, k, perStage, extra);
    BeforeGrows(k + 1, stages, perStage, extra);
  }

  lemma {:induction false} BeforeGrows(j: nat, k: nat, perStage: nat, extra: nat)
    ensures j <= k ==> EffectiveBefore(j, perStage, extra) <= EffectiveBefore(k, perStage, extra)
    ensures j < k ==> EffectiveBefore(j, perStage, extra) + perStage <= EffectiveBefore(k, perStage, extra)
    decreases k
  {
    if j < k { BeforeGrows(j, k - 1, perStage, extra); }
  }

  ghost predicate AllStages(stages: seq<seq<Module>>, n: nat, numLayers: nat, inputWeight: nat, outputWeight: nat)
    requires Accepted(n, numLayers, inputWeight, outputWeight)
  {
    && |stages| <= n
    && forall k | 0 <= k < |stages| :: stages[k] == Stage(k, n, numLayers, inputWeight, outputWeight)
  }

  /** Stage k of an accepted configuration. */
  ghost function Stage(k: nat, n: nat, numLayers: nat, inputWeight: nat, outputWeight: nat): seq<Module>
    requires Accepted(n, numLayers, inputWeight, outputWeight) && k < n
  {
    var effective := numLayers + inputWeight + outputWeight;
    Boundaries(k, n, numLayers, inputWeight, outputWeight);
    StageOf(k, n, numLayers, effective / n, effective % n, inputWeight)
  }

  /** One turn of the loop over stages. */
  method BuildStage(k: nat, n: nat, numLayers: nat, inputWeight: nat, outputWeight: nat, current: nat) returns (modules: seq<Module>, next: nat)
    requires Accepted(n, numLayers, inputWeight, outputWeight) && n > 1 && k < n
    requires var effective := numLayers + inputWeight + outputWeight;
             current == LayersBefore(k, n, numLayers, effective / n, effective % n, inputWeight)
    ensures modules == Stage(k, n, numLayers, inputWeight, outputWeight)
    ensures var effective := numLayers + inputWeight + outputWeight;
            next == LayersBefore(k + 1, n, numLayers, effective / n, effective % n, inputWeight)
  {
    var effective := numLayers + inputWeight + outputWeight;
    var perStage, extra := effective / n, effective % n;
    Boundaries(k, n, numLayers, inputWeight, outputWeight);
    var share := perStage;
    if k < extra {
      share := share + 1;
    }
    if k == 0 {
      modules := [Embeddings];
      var layers;
      layers, next := AddLayers(share - inputWeight, current, numLayers);
      modules := modules + layers;
    } else if k == n - 1 {
      modules, next := AddLayers(share - outputWeight, current, numLayers);
      modules := modules + [Norm, LmHead];
    } else {
      modules, next := AddLayers(share, current, numLayers);
    }
    assert modules == Stage(k, n, numLayers, inputWeight, outputWeight);
  }

  /** The single stage is the whole model. */
  lemma WholeStage(numLayers: nat, inputWeight: nat, outputWeight: nat)
    ensures Stage(0, 1, numLayers, inputWeight, outputWeight) == WholeModel(numLayers)
  {
  }

  method GenerateStages(n: nat, numLayers: nat, inputWeight: nat, outputWeight: nat) returns (r: Result<seq<seq<Module>>, StageError>)
    ensures r.Ok? <==> Accepted(n, numLayers, inputWeight, outputWeight)
    ensures r == Err(NoStages) <==> n == 0
    ensures r == Err(TooManyStages) <==> n > 1 && n > numLayers + inputWeight + outputWeight
    ensures r == Err(InputTooHeavy) <==> n > 1 && var effective := numLayers + inputWeight + outputWeight;
      n <= effective && inputWeight > effective / n
    ensures r == Err(OutputTooHeavy) <==> n > 1 && var effective := numLayers + inputWeight + outputWeight;
      n <= effective && inputWeight <= effective / n < outputWeight
    ensures r.Ok? ==> |r.value| == n && Flatten(r.value) == WholeModel(numLayers)
    ensures r.Ok? ==> AllStages(r.value, n, numLayers, inputWeight, outputWeight)
  {
    if n < 1 {
      return Err(NoStages);
    }
    if n == 1 {
      var all := WholeModel(numLayers);
      assert Flatten([all]) == all;
      WholeStage(numLayers, inputWeight, outputWeight);
      return Ok([all]);
    }
    var effective := numLayers + inputWeight + outputWeight;
    if n > effective {
      return Err(TooManyStages);
    }
    var perStage, extra := effective / n, effective % n;
    if inputWeight > perStage {
      return Err(InputTooHeavy);
    }
    if outputWeight > perStage {
      return Err(OutputTooHeavy);
    }
    var stages, current := [], 0;
    assert Accepted(n, numLayers, inputWeight, outputWeight);
    hide Stage, Accepted;
    for k := 0 to n
      invariant |stages| == k && AllStages(stages, n, numLayers, inputWeight, outputWeight)
      invariant current == LayersBefore(k, n, numLayers, perStage, extra, inputWeight)
    {
      var modules;
      modules, current := BuildStage(k, n, numLayers, inputWeight, outputWeight, current);
      stages := stages + [modules];
    }
    FlattenStages(stages, n, numLayers, inputWeight, outputWeight, n);
    assert stages[..n] == stages;
    r := Ok(stages);
  }

  lemma {:induction false} FlattenStages(stages: seq<seq<Module>>, n: nat, numLayers: nat, inputWeight: nat, outputWeight: nat, k: nat)
    requires Accepted(n, numLayers, inputWeight, outputWeight) && n > 1 && 0 < k <= n
    requires |stages| == n && AllStages(stages, n, numLayers, inputWeight, outputWeight)
    ensures var effective := numLayers + inputWeight + outputWeight;
            var upTo := LayersBefore(k, n, numLayers, effective / n, effective % n, inputWeight);
            upTo >= 0 && Flatten(stages[..k]) == [Embeddings] + LayerRange(0, upTo) + if k == n then [Norm, LmHead] else []
    decreases k
  {
    hide LayerRange, Accepted, LayersBefore;
    var effective := numLayers + inputWeight + outputWeight;
    var lo := LayersBefore(k - 1, n, numLayers, effective / n, effective % n, inputWeight);
    var hi := LayersBefore(k, n, numLayers, effective / n, effective % n, inputWeight);
    Boundaries(k - 1, n, numLayers, inputWeight, outputWeight);
    assert stages[..k][..k - 1] == stages[..k - 1];
    assert Flatten(stages[..k]) == Flatten(stages[..k - 1]) + Stage(k - 1, n, numLayers, inputWeight, outputWeight);
    JoinRanges(lo, hi);
    if k > 1 {
      FlattenStages(stages, n, numLayers, inputWeight, outputWeight, k - 1);
      JoinStage([Embeddings], LayerRange(0, lo), LayerRange(lo, hi), if k == n then [Norm, LmHead] else []);
    } else {
      FirstStage(n, numLayers, inputWeight, outputWeight);
    }
  }

  lemma FirstStage(n: nat, numLayers: nat, inputWeight: nat, outputWeight: nat)
    requires Accepted(n, numLayers, inputWeight, outputWeight) && n > 1
    ensures var effective := numLayers + inputWeight + outputWeight;
            var upTo := LayersBefore(1, n, numLayers, effective / n, effective % n, inputWeight);
            upTo >= 0 && Stage(0, n, numLayers, inputWeight, outputWeight) == [Embeddings] + LayerRange(0, upTo)
  {
    Boundaries(0, n, numLayers, inputWeight, outputWeight);
  }

  lemma JoinRanges(lo: nat, hi: nat)
    requires lo <= hi
    ensures LayerRange(0, lo) + LayerRange(lo, hi) == LayerRange(0, hi)
  {
  }

  lemma JoinStage(a: seq<Module>, b: seq<Module>, c: seq<Module>, d: seq<Module>)
    ensures (a + b) + ([] + c + d) == a + (b + c) + d
  {
  }

  /** A stage's weight is its share of effective layers: shares differ by at most one. */
  lemma StageWeights(n: nat, numLayers: nat, inputWeight: nat, outputWeight: nat, k: nat)
    requires Accepted(n, numLayers, inputWeight, outputWeight) && k < n
    ensures var effective := numLayers + inputWeight + outputWeight;
            var w := StageWeight(Stage(k, n, numLayers, inputWeight, outputWeight), inputWeight, outputWeight);
            w == EffectiveOf(k, effective / n, effective % n) && effective / n <= w <= effective / n + 1
  {
    var effective := numLayers + inputWeight + outputWeight;
    Boundaries(k, n, numLayers, inputWeight, outputWeight);
    var lo := LayersBefore(k, n, numLayers, effective / n, effective % n, inputWeight);
    var hi := LayersBefore(k + 1, n, numLayers, effective / n, effective % n, inputWeight);
    var head := if k == 0 then [Embeddings] else [];
    var tail := if k == n - 1 then [Norm, LmHead] else [];
    WeightOfLayers(lo, hi, inputWeight, outputWeight);
    WeightOfSum(head, LayerRange(lo, hi), inputWeight, outputWeight);
    WeightOfSum(head + LayerRange(lo, hi), tail, inputWeight, outputWeight);
    WeightOfEnds(inputWeight, outputWeight);
  }

  lemma WeightOfEnds(inputWeight: nat, outputWeight: nat)
    ensures StageWeight([Embeddings], inputWeight, outputWeight) == inputWeight
    ensures StageWeight([Norm, LmHead], inputWeight, outputWeight) == outputWeight
    ensures StageWeight([], inputWeight, outputWeight) == 0
  {
    assert [Embeddings][..0] == [];
    assert [Norm, LmHead][..1] == [Norm] && [Norm][..0] == [];
  }

  /** With the stage count computed from layers_per_stage, no stage is heavier than layers_per_stage. */
  lemma StagesWithinLimit(n: nat, numLayers: nat, inputWeight: nat, outputWeight: nat, limit: nat, k: nat)
    requires Accepted(n, numLayers, inputWeight, outputWeight) && k < n
    requires n * limit >= numLayers + inputWeight + outputWeight
    ensures StageWeight(Stage(k, n, numLayers, inputWeight, outputWeight), inputWeight, outputWeight) <= limit
  {
    var effective := numLayers + inputWeight + outputWeight;
    StageWeights(n, numLayers, inputWeight, outputWeight, k);
    ShareWithin(effective, n, limit, k);
  }

  lemma ShareWithin(effective: nat, n: nat, limit: nat, k: nat)
    requires n > 0 && n * limit >= effective
    ensures EffectiveOf(k, effective / n, effective % n) <= limit
  {
    var q, m := effective / n, effective % n;
    assert effective == n * q + m;
    assert n * (limit - q) == n * limit - n * q;
    if limit < q { NegativeTimes(limit - q, n); }
  }

  lemma NegativeTimes(a: int, n: int)
    requires a < 0 < n
    ensures n * a < 0
  {
  }

  function StageCount(effective: nat, pp: nat, singleStage: bool, layersPerStage: Option<nat>): nat
    requires layersPerStage.Some? ==> layersPerStage.value > 0
  {
    if layersPerStage.Some? then Ceiling(effective, layersPerStage.value) else if singleStage then pp else 2 * pp
  }

  datatype PlanError = Metadata(error: MetadataError) | Stages(error': StageError)

  /** pipeline_llm's default plan: count the stages, then fill them. With layers_per_stage they are the fewest that keep
      every stage within that weight; in any case two stages differ by at most one layer. */
  method PlanStages(numLayers: nat, inputWeight: nat, outputWeight: nat, pp: nat, singleStage: bool, layersPerStage: Option<nat>)
    returns (r: Result<seq<seq<Module>>, PlanError>)
    requires pp > 0 && (layersPerStage.Some? ==> layersPerStage.value > 0)
    ensures var n := StageCount(numLayers + inputWeight + outputWeight, pp, singleStage, layersPerStage);
      r.Ok? <==> Schedulable(n, pp, singleStage) && Accepted(n, numLayers, inputWeight, outputWeight)
    ensures r.Ok? ==> Flatten(r.value) == WholeModel(numLayers) && Schedulable(|r.value|, pp, singleStage)
    ensures r.Ok? && layersPerStage.Some? ==>
      && Fewest(|r.value|, numLayers + inputWeight + outputWeight, layersPerStage.value)
      && forall k | 0 <= k < |r.value| :: StageWeight(r.value[k], inputWeight, outputWeight) <= layersPerStage.value
    ensures r.Ok? ==> forall j, k | 0 <= j < |r.value| && 0 <= k < |r.value| ::
      StageWeight(r.value[j], inputWeight, outputWeight) <= StageWeight(r.value[k], inputWeight, outputWeight) + 1
  {
    hide Accepted, Ceiling, StageWeight, Flatten, Schedulable, Stage;
    var n := GetPipelineMetadata(numLayers, inputWeight, outputWeight, pp, singleStage, layersPerStage);
    if n.Err? {
      return Err(Metadata(n.error));
    }
    var stages := GenerateStages(n.value, numLayers, inputWeight, outputWeight);
    if stages.Err? {
      return Err(Stages(stages.error));
    }
    if layersPerStage.Some? {
      CeilingBounds(numLayers + inputWeight + outputWeight, layersPerStage.value);
    }
    forall k | 0 <= k < n.value
      ensures layersPerStage.Some? ==> StageWeight(stages.value[k], inputWeight, outputWeight) <= layersPerStage.value
      ensures var effective := numLayers + inputWeight + outputWeight;
        effective / n.value <= StageWeight(stages.value[k], inputWeight, outputWeight) <= effective / n.value + 1
    {
      StageWeights(n.value, numLayers, inputWeight, outputWeight, k);
      if layersPerStage.Some? {
        StagesWithinLimit(n.value, numLayers, inputWeight, outputWeight, layersPerStage.value, k);
      }
    }
    r := Ok(stages.value);
  }

  // ---------- which rank holds each stage ----------

  datatype Style = Loop | V

  datatype MappingError = NotEven | NotTwoPerRank

  /** _get_pp_rank_to_stage_indices_mapping */
  function StagesOfRank(rank: nat, pp: nat, style: Style, n: nat): Result<seq<int>, MappingError>
    requires rank < pp
  {
    if n % pp != 0 then Err(NotEven)
    else if style.Loop? then Ok(seq(n / pp, s requires 0 <= s => rank + s * pp))
    else if n / pp != 2 then Err(NotTwoPerRank)
    else Ok([rank, n - 1 - rank])
  }

  predicate Holds(rank: nat, pp: nat, style: Style, n: nat, stage: int)
    requires rank < pp
  {
    StagesOfRank(rank, pp, style, n).Ok? && stage in StagesOfRank(rank, pp, style, n).value
  }

  predicate Mapped(pp: nat, style: Style, n: nat)
    requires pp > 0
  {
    n % pp == 0 && (style.V? ==> n / pp == 2)
  }

  function RankOf(stage: nat, pp: nat, style: Style, n: nat): int
    requires pp > 0
  {
    if style.Loop? then stage % pp else if stage < pp then stage else n - 1 - stage
  }

  /** Every stage is held by exactly one rank. */
  lemma OneRankPerStage(pp: nat, style: Style, n: nat, rank: nat, stage: int)
    requires pp > 0 && Mapped(pp, style, n) && rank < pp
    ensures Holds(rank, pp, style, n, stage) <==> 0 <= stage < n && rank == RankOf(stage, pp, style, n)
  {
    var k := n / pp;
    assert n == k * pp;
    if style.Loop? {
      LoopStages(rank, pp, n, stage);
    }
  }

  /** Activations move between neighbours: in the loop from each rank to the next, around the ranks; in the v down the
      ranks and back, so that the last stage lies with the first. */
  lemma Neighbours(pp: nat, style: Style, n: nat, rank: nat, next: nat, stage: nat)
    requires pp > 0 && Mapped(pp, style, n) && rank < pp && next < pp
    requires Holds(rank, pp, style, n, stage) && Holds(next, pp, style, n, stage + 1)
    ensures stage == 0 ==> rank == 0
    ensures style.Loop? ==> next == if rank + 1 < pp then rank + 1 else 0
    ensures style.V? ==> next == if stage + 1 < pp then rank + 1 else if stage + 1 == pp then rank else rank - 1
  {
    OneRankPerStage(pp, style, n, rank, stage);
    OneRankPerStage(pp, style, n, next, stage + 1);
    if style.Loop? {
      NextRemainder(stage, pp);
    } else {
      assert n == (n / pp) * pp;
    }
  }

  lemma NextRemainder(a: nat, d: nat)
    requires d > 0
    ensures (a + 1) % d == if a % d + 1 < d then a % d + 1 else 0
  {
    DivMod(a, d);
    var q := a / d;
    assert q * d + d == (q + 1) * d;
    if a % d + 1 < d { QuotientUnique(a + 1, d, q, a % d + 1); } else { QuotientUnique(a + 1, d, q + 1, 0); }
  }

  lemma RankInRange(stage: nat, pp: nat, style: Style, n: nat)
    requires pp > 0 && Mapped(pp, style, n) && stage < n
    ensures 0 <= RankOf(stage, pp, style, n) < pp
  {
    assert n == (n / pp) * pp;
  }

  lemma LoopStages(rank: nat, pp: nat, n: nat, stage: int)
    requires rank < pp && n % pp == 0
    ensures Holds(rank, pp, Loop, n, stage) <==> 0 <= stage < n && rank == stage % pp
  {
    var k := n / pp;
    InLoop(rank, pp, k, stage);
    if 0 <= stage < n {
      LoopQuotient(stage, pp, n);
      DivMod(stage, pp);
    }
    forall s | 0 <= s < k && stage == rank + s * pp ensures stage < n && stage % pp == rank {
      LoopStage(rank, pp, n, s);
    }
  }

  lemma DivMod(n: nat, d: nat)
    requires d > 0
    ensures n == n % d + (n / d) * d
  {
  }

  /** What the comprehension rank + s * pp yields. */
  lemma InLoop(rank: nat, pp: nat, k: nat, stage: int)
    ensures var stages := seq(k, s requires 0 <= s => rank + s * pp);
            stage in stages <==> exists s :: 0 <= s < k && stage == rank + s * pp
  {
    var stages := seq(k, s requires 0 <= s => rank + s * pp);
    if s :| 0 <= s < k && stage == rank + s * pp { assert stages[s] == stage; }
  }

  lemma LoopStage(rank: nat, pp: nat, n: nat, s: nat)
    requires rank < pp && n % pp == 0 && s < n / pp
    ensures rank + s * pp < n && (rank + s * pp) % pp == rank
  {
    LoopBound(rank, pp, n, s);
    QuotientUnique(rank + s * pp, pp, s, rank);
  }

  lemma LoopBound(rank: nat, pp: nat, n: nat, s: nat)
    requires rank < pp && n % pp == 0 && s < n / pp
    ensures rank + s * pp < n
  {
    assert n == (n / pp) * pp;
    assert (n / pp) * pp == s * pp + (n / pp - s) * pp;
    ProductAtLeast(n / pp - s, pp);
  }

  lemma LoopQuotient(stage: nat, pp: nat, n: nat)
    requires pp > 0 && n % pp == 0 && stage < n
    ensures stage / pp < n / pp
  {
    var a, b := stage / pp, n / pp;
    assert n == b * pp && stage == a * pp + stage % pp;
    assert (a - b) * pp == a * pp - b * pp;
    if a >= b { NonNegativeProduct(a - b, pp); }
  }

  lemma NonNegativeProduct(a: nat, b: nat)
    ensures a * b >= 0
  {
  }

  // ---------- every module is on exactly one rank ----------

  ghost function StageStart(k: nat, n: nat, numLayers: nat, inputWeight: nat, outputWeight: nat): int
    requires n > 0
  {
    var effective := numLayers + inputWeight + outputWeight;
    LayersBefore(k, n, numLayers, effective / n, effective % n, inputWeight)
  }

  lemma {:induction false} StartsGrow(j: nat, k: nat, n: nat, numLayers: nat, inputWeight: nat, outputWeight: nat)
    requires Accepted(n, numLayers, inputWeight, outputWeight) && j <= k <= n
    ensures StageStart(j, n, numLayers, inputWeight, outputWeight) <= StageStart(k, n, numLayers, inputWeight, outputWeight)
    decreases k
  {
    if j < k {
      StartsGrow(j, k - 1, n, numLayers, inputWeight, outputWeight);
      Boundaries(k - 1, n, numLayers, inputWeight, outputWeight);
    }
  }

  predicate InModel(m: Module, numLayers: nat) {
    m.Layer? ==> m.index < numLayers
  }

  lemma InStage(m: Module, k: nat, n: nat, numLayers: nat, inputWeight: nat, outputWeight: nat)
    requires Accepted(n, numLayers, inputWeight, outputWeight) && k < n
    ensures m in Stage(k, n, numLayers, inputWeight, outputWeight) <==>
            match m
            case Embeddings => k == 0
            case Layer(i) => StageStart(k, n, numLayers, inputWeight, outputWeight) <= i < StageStart(k + 1, n, numLayers, inputWeight, outputWeight)
            case Norm => k == n - 1
            case LmHead => k == n - 1
  {
    Boundaries(k, n, numLayers, inputWeight, outputWeight);
    var layers := LayerRange(StageStart(k, n, numLayers, inputWeight, outputWeight), StageStart(k + 1, n, numLayers, inputWeight, outputWeight));
    if m.Layer? && StageStart(k, n, numLayers, inputWeight, outputWeight) <= m.index < StageStart(k + 1, n, numLayers, inputWeight, outputWeight) {
      assert layers[m.index - StageStart(k, n, numLayers, inputWeight, outputWeight)] == m;
    }
  }

  lemma {:induction false} FindLayer(i: nat, k: nat, n: nat, numLayers: nat, inputWeight: nat, outputWeight: nat) returns (stage: nat)
    requires Accepted(n, numLayers, inputWeight, outputWeight) && k <= n
    requires i < StageStart(k, n, numLayers, inputWeight, outputWeight)
    ensures stage < k
    ensures StageStart(stage, n, numLayers, inputWeight, outputWeight) <= i < StageStart(stage + 1, n, numLayers, inputWeight, outputWeight)
    decreases k
  {
    if i < StageStart(k - 1, n, numLayers, inputWeight, outputWeight) {
      stage := FindLayer(i, k - 1, n, numLayers, inputWeight, outputWeight);
    } else {
      stage := k - 1;
    }
  }

  /** A stage and the rank that holds it. */
  ghost predicate Places(m: Module, stage: nat, rank: nat, pp: nat, style: Style, n: nat, numLayers: nat, inputWeight: nat, outputWeight: nat)
    requires Accepted(n, numLayers, inputWeight, outputWeight)
  {
    stage < n && rank < pp && m in Stage(stage, n, numLayers, inputWeight, outputWeight) && Holds(rank, pp, style, n, stage)
  }

  lemma SomePlace(m: Module, pp: nat, style: Style, n: nat, numLayers: nat, inputWeight: nat, outputWeight: nat) returns (stage: nat, rank: nat)
    requires Accepted(n, numLayers, inputWeight, outputWeight) && pp > 0 && Mapped(pp, style, n) && InModel(m, numLayers)
    ensures Places(m, stage, rank, pp, style, n, numLayers, inputWeight, outputWeight)
  {
    stage := 0;
    if m.Layer? { stage := FindLayer(m.index, n, n, numLayers, inputWeight, outputWeight); }
    if m.Norm? || m.LmHead? { stage := n - 1; }
    hide Stage, StagesOfRank, Accepted, StageStart, RankOf, Mapped;
    InStage(m, stage, n, numLayers, inputWeight, outputWeight);
    RankInRange(stage, pp, style, n);
    rank := RankOf(stage, pp, style, n);
    OneRankPerStage(pp, style, n, rank, stage);
  }

  lemma OnePlace(m: Module, j: nat, q: nat, k: nat, r: nat, pp: nat, style: Style, n: nat, numLayers: nat, inputWeight: nat, outputWeight: nat)
    requires Accepted(n, numLayers, inputWeight, outputWeight) && pp > 0 && Mapped(pp, style, n)
    requires Places(m, j, q, pp, style, n, numLayers, inputWeight, outputWeight)
    requires Places(m, k, r, pp, style, n, numLayers, inputWeight, outputWeight)
    ensures j == k && q == r
  {
    hide Stage, StageStart, RankOf, StagesOfRank, Accepted;
    InStage(m, j, n, numLayers, inputWeight, outputWeight);
    InStage(m, k, n, numLayers, inputWeight, outputWeight);
    if k < j { StartsGrow(k + 1, j, n, numLayers, inputWeight, outputWeight); }
    if j < k { StartsGrow(j + 1, k, n, numLayers, inputWeight, outputWeight); }
    OneRankPerStage(pp, style, n, q, j);
    OneRankPerStage(pp, style, n, r, k);
  }

  /** Every module is in one stage on one pipeline rank, and in no other stage or rank. */
  lemma OneRankPerModule(m: Module, pp: nat, style: Style, n: nat, numLayers: nat, inputWeight: nat, outputWeight: nat)
    requires Accepted(n, numLayers, inputWeight, outputWeight) && pp > 0 && Mapped(pp, style, n) && InModel(m, numLayers)
    ensures exists stage: nat, rank: nat :: Places(m, stage, rank, pp, style, n, numLayers, inputWeight, outputWeight)
    ensures forall j: nat, q: nat, k: nat, r: nat | Places(m, j, q, pp, style, n, numLayers, inputWeight, outputWeight) &&
              Places(m, k, r, pp, style, n, numLayers, inputWeight, outputWeight) :: j == k && q == r
  {
    hide Places, Accepted;
    var stage, rank := SomePlace(m, pp, style, n, numLayers, inputWeight, outputWeight);
    forall j: nat, q: nat, k: nat, r: nat | Places(m, j, q, pp, style, n, numLayers, inputWeight, outputWeight) &&
        Places(m, k, r, pp, style, n, numLayers, inputWeight, outputWeight)
      ensures j == k && q == r
    {
      OnePlace(m, j, q, k, r, pp, style, n, numLayers, inputWeight, outputWeight);
    }
  }
}
