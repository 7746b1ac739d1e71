# torchtitan: distributed execution that must equal its one-device form

This project models the parts of torchtitan whose promise is an equality: a sharded, fused, cached, replayed or
rewritten execution gives what the plain one gives. Each module is named after the component it models. Numbers are
exact reals; a collective is a function of all ranks' local values; objects that the program updates in place
(buffers, captured tensors, gradient stores, state dicts, config nodes, folders) are classes and arrays updated in
place here too.

- **Sharded algebra.** `Sums` and `Matrices` hold the block-matrix laws. `DistLinear` proves that the tensor-parallel
  linears and their hand-written backwards return exactly the shards of the unsharded results, and that each backward
  is the adjoint of its forward summed over ranks. `FusedSwiGLU` puts the interleaved gate/up weight on top;
  `SiluKernels` is its tiled activation kernel with the chain rule for its gradients. `VocabShards`, `LossParallel` and
  `ChunkedLoss` do the same for cross-entropy. `Tiling`, `FusedMla` and `FusedMlaBackward` are the tiled in-place
  kernels of multi-head latent attention, launched in any order of programs.
- **Layouts and meshes.** `SpmdTypes` is the redistribution check, `SpmdTensors` says what locals mean under a layout,
  `SpmdCollectives` what each collective does to that meaning, `SpmdSoundness` distributes and redistributes, and
  `SpmdExactness` proves exactly which redistributions keep the tensor, and that the check accepts those.
  `SpmdCounterexample` is an accepted pair that does not. `MeshViews` and `ParallelDims` are the mixed-radix views of one
  world of ranks. `Experts` is the strided expert sharding and the regrouping of expert weights. `PipelineStages` cuts a
  model into stages.
- **State and aliasing.** `SdcReplayer` snapshots, runs, restores and re-runs, `SdcInPlace` shows that in-place gradient
  accumulation can be replayed so, `SdcSignature` that a signature misses nothing, and `SdcGroup` runs all ranks;
  `CudaGraphInputs` and `CudaGraph` flatten inputs, warm up, capture and replay over captured buffers; `Trainer`
  accumulates losses that alias a graph-owned output, over groups that share tensors, and counts the calls that decide
  when capture happens. `Checkpointer` is the save/purge protocol as a state machine; `ModelWrapper` the cache that keeps
  storages stable.
- **Config trees.** `ConfigTree` is an object store with lists and dotted names, `Configurable` the traversal of it,
  `Overrides` the claim, conflict check and in-place replacement, `OverrideImports` the command-line form, `Lora` the
  reversed in-place conversion. `Decimals` are the numbers in names.

Where the code does not meet a property everywhere, the project gives an input that shows it and the exact condition:
redistributions without PartitionSpec that shard one dim by several axes (`AcceptedButUnsound`, `RedistributionExact`),
re-saving a step while an older one is queued for deletion (`ResaveLosesKept`, `DrainKeeps`), override targets that the
token syntax cannot carry (`RoundTrip`), and step directories written with digits outside ASCII, which the pattern's
`\d` accepts (`TwoNamesOfOneStep`).

## Model

| member | source | states |
|---|---|---|
| Matrices.PartialProductsSum | torchtitan/distributed/linear.py:357-383 | splitting the contracted dimension over ranks: the partial products sum to the whole product |
| Matrices.StackOfShards | torchtitan/distributed/linear.py:110-141 | gathering the row shards rebuilds the matrix |
| Matrices.RowShardOfMul | torchtitan/distributed/linear.py:110-141 | a row shard of a product needs only that row shard of the left factor |
| Matrices.ColShardOfMul | torchtitan/distributed/linear.py:110-141 | a column shard of a product needs only that column shard of the right factor |
| Matrices.MulAdjointLeft | torchtitan/distributed/linear.py:144-182 | the inner product of a b with y is that of a with y times b transposed |
| Matrices.MulAdjointRight | torchtitan/distributed/linear.py:144-182 | the inner product of a b with y is that of b with a transposed times y |
| DistLinear.GradientsAreAdjoint | torchtitan/distributed/linear.py:144-182 | dY W and dY transposed X are the adjoints of the linear map in its input and its weight |
| DistLinear.BiasGradientIsAdjoint | torchtitan/distributed/linear.py:412-416 | the column sum of dY is the adjoint of broadcasting the bias over rows |
| DistLinear.GatherOfKShards | torchtitan/distributed/linear.py:110-182 | gathering transposed K-shards of the input rebuilds its transpose although no rank kept all of it |
| DistLinear.OutputShard | torchtitan/distributed/linear.py:110-141 | a rank's product with its weight shard and bias shard is its column shard of the whole output |
| DistLinear.EvenChunks | torchtitan/distributed/linear.py:132-136 | when the input width divides evenly, every rank finds a chunk to save and the chunks are the even shards |
| DistLinear.ChunksReachEveryRank | torchtitan/distributed/linear.py:132-136 | every rank finds a chunk exactly when the chunks before the last do not already cover the columns |
| DistLinear.AllGatherLinear.Forward | torchtitan/distributed/linear.py:110-141 | for every input width: every rank gets its column shard of the unsharded linear and keeps one K-chunk of the gathered input, or, exactly when some rank finds no chunk, the forward fails |
| DistLinear.AllGatherLinear.Backward | torchtitan/distributed/linear.py:144-182 | from the K-shards alone: row shards of dY W, row shards of dY transposed X, column shards of the bias gradient |
| DistLinear.CatProduct | torchtitan/distributed/linear.py:243-280 | one product of concatenated operands is the sum of the two products |
| DistLinear.ConcatenatedGrad | torchtitan/distributed/linear.py:243-280 | the ranks' concatenated local products reduce-scatter to the row shards of the sum of both input gradients |
| DistLinear.AllGatherLinearMulti.Forward | torchtitan/distributed/linear.py:214-240 | one gather feeds both weights: each result is the column shard of its own unsharded linear, for every input width that leaves each rank a chunk to save |
| DistLinear.AllGatherLinearMulti.Backward | torchtitan/distributed/linear.py:243-280 | the input gradient is the shard of the sum over both weights, and each weight gradient is its own shard |
| DistLinear.ReduceScatterOfShards | torchtitan/distributed/linear.py:357-383 | multiplying column shards by row shards and reduce-scattering gives the row shards of the whole product |
| DistLinear.AddRowToShards | torchtitan/distributed/linear.py:357-383 | adding the whole bias after the reduce-scatter adds it exactly once |
| DistLinear.LinearReduceScatter.Forward | torchtitan/distributed/linear.py:357-383 | every rank gets its row shard of the unsharded linear, the bias counted once and not once per rank |
| DistLinear.LinearReduceScatter.Backward | torchtitan/distributed/linear.py:386-418 | column shards of both gradients, and on every rank the whole bias gradient |
| DistLinear.AllReduce | torchtitan/distributed/linear.py:412-416 | the in-place all-reduce leaves the sum of all buffers in each |
| DistLinear.ColumnSumOfRowShards | torchtitan/distributed/linear.py:412-416 | summing each rank's own column sums is the column sum over all rows |
| DistLinear.ReducedBiasGrad | torchtitan/distributed/linear.py:412-416 | after the in-place all-reduce every rank holds the unsharded bias gradient |
| DistLinear.AllGatherBackwardIsAdjoint | torchtitan/distributed/linear.py:110-182 | summed over ranks, the inner product of output and gradient equals that of input with its gradient and of weight with its gradient |
| DistLinear.ReduceScatterBackwardIsAdjoint | torchtitan/distributed/linear.py:357-418 | the same adjointness for the row-parallel layout |
| FusedSwiGLU.HalvesOfInterleave | torchtitan/overrides/fused_swiglu.py:478-487 | taking the two halves of the interleaved weight gives back w1 and w3 |
| FusedSwiGLU.InterleaveOfHalves | torchtitan/overrides/fused_swiglu.py:490-504 | interleaving the halves of a fused weight gives it back |
| FusedSwiGLU.HalvesOfProduct | torchtitan/overrides/fused_swiglu.py:472-475 | every second column of the fused product is the gate, and the other the up, projection |
| FusedSwiGLU.ShardOfInterleave | torchtitan/overrides/fused_swiglu.py:35-40 | a row shard of the interleaved weight is the interleaving of the matching shards of both projections |
| FusedSwiGLU.FusedIsFeedForward | torchtitan/overrides/fused_swiglu.py:472-475 | the fused layer computes w2(silu(w1 x) * (w3 x)) for any activation function |
| FusedSwiGLU.ActivationShards | torchtitan/overrides/fused_swiglu.py:537-550 | the ranks' activations are the column shards of the one-device activation |
| FusedSwiGLU.DistGEMMFusedSwiGLU.Forward | torchtitan/overrides/fused_swiglu.py:529-558 | each rank ends with exactly its row shard of the one-device feed-forward, the w2 bias added once, for every model width that leaves each rank a chunk to save |
| FusedSwiGLU.CheckpointHooks.SplitW13OnSave | torchtitan/overrides/fused_swiglu.py:478-487 | the state dict loses the fused key and gains the two stock keys, in place |
| FusedSwiGLU.CheckpointHooks.MergeW13OnLoad | torchtitan/overrides/fused_swiglu.py:490-504 | stock keys, or a native key, become the fused key, in place |
| FusedSwiGLU.LoadedProjections | torchtitan/overrides/fused_swiglu.py:490-504 | the halves of the loaded weight are the native gate and up planes, or else the stock w1 and w3; the keys they came from are gone and all others are unchanged |
| FusedSwiGLU.LoadAfterSave | torchtitan/overrides/fused_swiglu.py:478-504 | loading what was saved restores the fused state dict |
| FusedSwiGLU.SaveAfterLoad | torchtitan/overrides/fused_swiglu.py:478-504 | a stock checkpoint loaded and saved again is unchanged |
| SiluKernels.OneTile | torchtitan/overrides/fused_swiglu.py:114-125 | every element is in the tile of exactly one program, and that program is in the grid |
| SiluKernels.ForwardProgram | torchtitan/overrides/fused_swiglu.py:96-141 | a program writes silu(gate) * up in its tile below the row limit and nothing else |
| SiluKernels.Forward | torchtitan/overrides/fused_swiglu.py:219-251 | in any order of programs, rows below the last offset (all rows without offsets) hold silu(gate) * up and the others are untouched; empty offsets are an error |
| SiluKernels.GradientsAreChainRule | torchtitan/overrides/fused_swiglu.py:192-211 | the stored gradients are the chain rule's: upstream times the directional derivative is their inner product with the direction |
| SiluKernels.BackwardProgram | torchtitan/overrides/fused_swiglu.py:145-211 | a program writes both gradients in its tile below the row limit and nothing else |
| SiluKernels.Backward | torchtitan/overrides/fused_swiglu.py:254-297 | in any order of programs both gradients are complete below the limit and untouched above it |
| SpmdTypes.PerAxisTypes | torchtitan/distributed/spmd_types.py:247-269 | the loop gives every axis its local type, overridden by the PartitionSpec |
| SpmdTypes.NormalizePartitionSpec | torchtitan/distributed/spmd_types.py:288-307 | the synthesized spec, and exactly when a shard dim is out of range |
| SpmdTypes.CheckOrder | torchtitan/distributed/spmd_types.py:380-405 | the loop over dims accepts exactly when every dim's shard axes are the same on both sides, or gain or lose the changed axis innermost |
| SpmdTypes.ValidatePair | torchtitan/distributed/spmd_types.py:309-397 | accepts exactly the pairs of Accepts, which AcceptedExactly and ValidationExact tie to the nested orders and to the tensors; says exactly when the axes differ, several change, one changes from or to varying, or a shard dim is out of range |
| SpmdSoundness.SpecOrder | torchtitan/distributed/spmd_types.py:468-490 | sharding dim by dim in spec order nests the axes as the PartitionSpec tuples say |
| SpmdSoundness.TypeMatchesOrder | torchtitan/distributed/spmd_types.py:247-269 | an axis shards a dim in distribution order exactly when its per-axis type says so |
| SpmdSoundness.DistributeTensor | torchtitan/distributed/spmd_types.py:456-505 | the shards represent the tensor under the layout's nested order |
| SpmdSoundness.RedistributePerAxis | torchtitan/distributed/spmd_types.py:414-453 | for an accepted pair the loop issues exactly one collective, on the changed axis, or none |
| SpmdSoundness.AcceptedOrders | torchtitan/distributed/spmd_types.py:340-397 | with at most one axis per dim where there is no spec, acceptance means every dim takes an innermost step |
| SpmdSoundness.AcceptedExactly | torchtitan/distributed/spmd_types.py:309-397 | with at most one axis per dim where there is no spec, a pair is accepted if and only if one axis changes, not from or to varying, and every dim's nested order keeps its axes or gains or loses that axis innermost |
| SpmdSoundness.ValidateRedistributions | torchtitan/distributed/spmd_types.py:399-411 | the loop over the inputs that have both layouts, and the output, passes exactly when each of them is one such collective |
| SpmdCollectives.AllGatherLeg | torchtitan/distributed/spmd_types.py:414-453 | gathering the innermost shard of a dim keeps the tensor the locals represent, partial sums included |
| SpmdCollectives.AllReduceLeg | torchtitan/distributed/spmd_types.py:414-453 | all-reducing a partial axis keeps the tensor |
| SpmdCollectives.SliceLeg | torchtitan/distributed/spmd_types.py:414-453 | slicing makes the axis the innermost shard of the same tensor |
| SpmdCollectives.AsPartialLeg | torchtitan/distributed/spmd_types.py:414-453 | keeping the value on one rank only makes it a partial sum of the same tensor |
| SpmdExactness.StepSound | torchtitan/distributed/spmd_types.py:376-397 | an innermost step of one axis, whatever its types, keeps the tensor |
| SpmdExactness.StepNeeded | torchtitan/distributed/spmd_types.py:376-397 | any other step fails already on a tensor whose entries are their positions along the dim |
| SpmdExactness.UnitsDiffer | torchtitan/distributed/spmd_types.py:456-505 | two orders of the same axes place the rank one step along some axis differently |
| SpmdExactness.RedistributionExact | torchtitan/distributed/spmd_types.py:309-453 | an accepted redistribution keeps every tensor if, and on non-empty shapes only if, the orders without axes of size 1 take innermost steps |
| SpmdExactness.RedistributionSound | torchtitan/distributed/spmd_types.py:309-453 | with at most one axis per dim where there is no PartitionSpec, every accepted redistribution keeps every tensor |
| SpmdExactness.ValidationExact | torchtitan/distributed/spmd_types.py:309-453 | on axes larger than 1 and non-empty shapes, with at most one axis per dim where there is no spec, a one-axis pair is accepted if and only if its redistribution keeps every tensor |
| SpmdCounterexample.AcceptedButUnsound | torchtitan/distributed/spmd_types.py:360-362 | a pair without PartitionSpecs that is accepted although gathering the outer of two axes puts entries out of order |
| MeshViews.RankOfCoordinates | torchtitan/distributed/parallel_dims.py:188-211 | every rank is where its coordinates in a view say |
| MeshViews.CoordinatesOfRank | torchtitan/distributed/parallel_dims.py:188-211 | every coordinate tuple is some rank's: a view is a bijection |
| MeshViews.FoldAxes | torchtitan/distributed/parallel_dims.py:216-262 | folding two neighbouring axes combines their coordinates row-major and keeps the others |
| MeshViews.AgreeFolded | torchtitan/distributed/parallel_dims.py:216-262 | agreeing outside some axes of a folded view is agreeing outside the axes they stand for |
| ParallelDims.EfsdpDegree | torchtitan/distributed/parallel_dims.py:218 | efsdp times ep is dp_shard times cp times tp |
| ParallelDims.DpFoldsReplicateAndShard | torchtitan/distributed/parallel_dims.py:240-262 | the dp and batch coordinate is dp_replicate * |dp_shard| + dp_shard; pp, cp and tp are unchanged |
| ParallelDims.FsdpFoldsShardAndCp | torchtitan/distributed/parallel_dims.py:263-269 | the fsdp coordinate is dp_shard * |cp| + cp |
| ParallelDims.SparseFolds | torchtitan/distributed/parallel_dims.py:271-275 | the sparse view keeps the pp and dp_replicate coordinates and re-cuts the same region |
| ParallelDims.GroupIsFull | torchtitan/distributed/parallel_dims.py:284-297 | every group of a mesh has exactly one rank for each number below the mesh's size |
| ParallelDims.PositionBelow | torchtitan/distributed/parallel_dims.py:284-297 | every rank is the member of its own group at its own number |
| ParallelDims.DenseAxisGroups | torchtitan/distributed/parallel_dims.py:221-297 | an axis' group is exactly the ranks agreeing on every storage coordinate it does not cover; a loss group shares pp and tp |
| ParallelDims.ExpertGroupsStayInRegion | torchtitan/distributed/parallel_dims.py:271-275 | an ep or efsdp group never crosses pp or dp_replicate |
| ParallelDims.RegionIsEfsdpByEp | torchtitan/distributed/parallel_dims.py:271-282 | the ranks of one stage and replica are exactly those reached along efsdp and ep |
| ParallelDims.SizeOfAxis | torchtitan/distributed/parallel_dims.py:306-329 | every mesh has the size the validation expects |
| ParallelDims.StageOfRank | torchtitan/components/metrics.py:254-257 | a rank's pipeline coordinate is its quotient by the size of a stage |
| ParallelDims.MetricsRankIsFirstOfLastStage | torchtitan/components/metrics.py:246-257 | outside ZBV the metrics rank is the first rank whose pipeline coordinate is the last |
| ParallelDims.ParallelDims.Validate | torchtitan/distributed/parallel_dims.py:102-128 | passes exactly when some degrees, equal to the given ones but for a dp_shard of -1, fill the world in the storage view and let ep divide a region; dp_shard becomes the only one that does |
| ParallelDims.ParallelDims.BuildMesh | torchtitan/distributed/parallel_dims.py:147-304 | every axis name the backend uses gets its mesh, and the closing size check never fails |
| ParallelDims.ParallelDims.SetAxes | torchtitan/distributed/parallel_dims.py:284-302 | the single-axis table holds exactly the axes of the backend, each cut from its view |
| ParallelDims.ParallelDims.ValidateMeshes | torchtitan/distributed/parallel_dims.py:306-329 | passes exactly when every mesh has its expected size |
| Experts.CalculateIndices | torchtitan/models/utils.py:124-191 | the loop over mesh axes gives the range, or the error: accepted exactly for no axis, one Shard axis or a StridedShard and a second axis, whose degrees divide the size |
| Experts.ShardingAxes | torchtitan/models/utils.py:135-144 | the axes taken are exactly those whose placement shards the dim, in mesh order |
| Experts.RangesPartition | torchtitan/models/utils.py:105-122 | whether the split is accepted is the same on every rank, and then every expert is held at exactly one place of the mesh |
| Experts.StridedIsNested | torchtitan/models/utils.py:82-122 | the strided range is the strided rank's equal part of the shard rank's block |
| Experts.StateDictAdapter.GetLocalExperts | torchtitan/models/utils.py:193-299 | the range is recorded, a local weight of the wrong size is an error, and expert id is row id - start |
| Experts.Pending.Store | torchtitan/models/deepseek_v3/state_dict_adapter.py:244-251 | files an expert under its layer and key and changes no other group |
| Experts.Pending.Concatenate | torchtitan/models/utils.py:301-358 | nothing until complete; then the stack in id order, the entry removed and no empty layer left |
| Experts.StateDictAdapter.Receive | torchtitan/models/deepseek_v3/state_dict_adapter.py:244-273 | one entry keeps every group either emitted and forgotten, or pending with exactly what has arrived |
| Experts.StateDictAdapter.FromHf | torchtitan/models/deepseek_v3/state_dict_adapter.py:222-273 | after any interleaving of groups and ids, exactly the complete groups are emitted and the rest is pending |
| Experts.LocalWeightRebuilt | torchtitan/models/utils.py:193-358 | split and fed back in any order, a local weight is emitted exactly when all its experts came, equal to the original, with nothing left |
| Experts.SaveThenLoad | torchtitan/models/utils.py:193-358 | one adapter splits a local weight and then regroups its experts, in any order among any other groups': the weight comes back and nothing of it stays pending |
| PipelineStages.CeilingIsFewest | torchtitan/distributed/pipeline_parallel.py:221-224 | the rounded-up quotient is exactly the fewest stages of the given size that hold all layers |
| PipelineStages.GetPipelineMetadata | torchtitan/distributed/pipeline_parallel.py:194-264 | the stage count, and exactly when the schedule rejects it and with which error |
| PipelineStages.AddLayers | torchtitan/distributed/pipeline_parallel.py:400-467 | the inner loop appends the next layers and stops at the last layer |
| PipelineStages.BuildStage | torchtitan/distributed/pipeline_parallel.py:400-467 | one turn of the loop appends stage k and advances the current layer to the next boundary |
| PipelineStages.GenerateStages | torchtitan/distributed/pipeline_parallel.py:381-467 | the stages concatenate to embeddings, layers 0..n-1 in order, norm and head; exactly when each error is given |
| PipelineStages.Boundaries | torchtitan/distributed/pipeline_parallel.py:400-467 | stage boundaries are in order and each stage takes its share of effective layers |
| PipelineStages.StageWeights | torchtitan/distributed/pipeline_parallel.py:381-467 | a stage's weight is its share, and shares differ by at most one |
| PipelineStages.StagesWithinLimit | torchtitan/distributed/pipeline_parallel.py:221-224 | with enough stages for the limit, no stage is heavier than layers_per_stage |
| PipelineStages.PlanStages | torchtitan/distributed/pipeline_parallel.py:80-92 | counting and filling together: exactly when the plan is accepted, and then the stages are the whole model, the fewest within layers_per_stage, and differ by at most one layer |
| PipelineStages.OneRankPerStage | torchtitan/distributed/pipeline_parallel.py:532-567 | under the loop and the v mapping every stage is held by exactly one rank |
| PipelineStages.Neighbours | torchtitan/distributed/pipeline_parallel.py:549-567 | the loop goes from each rank to the next and around; the v goes down the ranks and back, so that the last stage lies with the first |
| PipelineStages.OneRankPerModule | torchtitan/distributed/pipeline_parallel.py:381-567 | every module is in exactly one stage on exactly one pipeline rank |
| SdcReplayer.SDCReplayer.Capture | torchtitan/observability/sdc_replayer.py:188-234 | the snapshot records every buffer with a copy and every gradient with its tensor |
| SdcReplayer.SDCReplayer.Restore | torchtitan/observability/sdc_replayer.py:236-273 | the machine looks as at entry and binds the same tensors, even if the execution swapped them |
| SdcReplayer.AllBack | torchtitan/observability/sdc_replayer.py:236-273 | when every buffer and gradient is back, the whole view is back |
| SdcReplayer.SameView | torchtitan/observability/sdc_replayer.py:188-273 | two machines look the same exactly when every RNG, scalar and fixed tensor is equal and every buffer and gradient is bound on both to equal tensors or on both to none |
| SdcReplayer.SameRun | torchtitan/observability/sdc_replayer.py:528-558 | two runs from machines that look the same and bind the same tensors end looking the same, with the same loss |
| SdcInPlace.InPlaceIsDeterministic | torchtitan/trainer.py:805-828 | an execution that adds to gradients and buffers in place, shared or not, and allocates missing gradients, is one that can be replayed |
| SdcInPlace.WriteTwins | torchtitan/trainer.py:805-828 | machines with the same values, shared in the same way, stay so through an in-place write |
| SdcReplayer.SDCReplayer.ReplayOnce | torchtitan/observability/sdc_replayer.py:541-555 | restore, run, compare: a deterministic execution shows no mismatch |
| SdcReplayer.SDCReplayer.ReplayAll | torchtitan/observability/sdc_replayer.py:541-558 | for any number of replays the state stays that of one execution |
| SdcReplayer.SDCReplayer.RunChecked | torchtitan/observability/sdc_replayer.py:528-558 | a checked run raises only if another rank reports a mismatch, and otherwise ends as exactly one execution |
| SdcReplayer.SDCReplayer.RunFwdBwd | torchtitan/observability/sdc_replayer.py:392-413 | exactly the first num_steps steps (all for -1) are checked: it raises if and only if another rank reports a mismatch in a replay of such a step, with that report and the step after the last; otherwise the step is one execution and advances the schedule |
| SdcGroup.RunReferences | torchtitan/observability/sdc_replayer.py:535-538 | every rank captures its own entry state and runs its reference |
| SdcGroup.ReplayRanks | torchtitan/observability/sdc_replayer.py:541-546 | one replay on every rank gives every rank the signature of its reference again |
| SdcGroup.RunCheckedGroup | torchtitan/observability/sdc_replayer.py:528-558 | a group of deterministic ranks never raises, and every rank ends where one execution leaves it |
| SdcReplayer.CompareSignature | torchtitan/observability/sdc_replayer.py:276-293 | true exactly when the two signatures are not equal |
| SdcSignature.SameSignature | torchtitan/observability/sdc_replayer.py:415-484 | without hash collisions, two executions have the same signature if and only if their losses, every RNG state, every scalar, every buffer and every gradient are equal |
| SdcReplayer.FindSignatureMismatch | torchtitan/observability/sdc_replayer.py:296-315 | a cause is found exactly when the signatures differ, and it is the first difference: schema, tensors in order, then scalar state in order |
| SdcReplayer.RaiseIfMismatch | torchtitan/observability/sdc_replayer.py:490-526 | raises exactly when some rank's flag is set, naming the lowest such rank and its cause |
| SdcReplayer.CheckAllRanks | torchtitan/observability/sdc_replayer.py:490-526 | either no rank raises or all raise the same error, naming the lowest mismatching rank and what differs there |
| CudaGraphInputs.FlattenThenUnflatten | torchtitan/distributed/cudagraph.py:58-120 | unflattening undoes flattening, block masks included |
| CudaGraphInputs.CUDAGraphInputSpec.Init | torchtitan/distributed/cudagraph.py:40-56 | the spec matches the tree it was made from |
| CudaGraphInputs.CUDAGraphInputSpec.SpecsAndCount | torchtitan/distributed/cudagraph.py:45-56 | the loop records one spec per outer leaf and counts the flat leaves |
| CudaGraphInputs.CUDAGraphInputSpec.Flatten | torchtitan/distributed/cudagraph.py:58-96 | accepts exactly trees of the recorded structure and returns all their leaves |
| CudaGraphInputs.CUDAGraphInputSpec.CutOuter | torchtitan/distributed/cudagraph.py:105-118 | cuts the flat leaves where each outer leaf begins |
| CudaGraphInputs.CUDAGraphInputSpec.Unflatten | torchtitan/distributed/cudagraph.py:98-120 | rebuilds the tree, or reports the wrong number of leaves |
| CudaGraph.CUDAGraphWrapper.ValidateInputs | torchtitan/distributed/cudagraph.py:284-310 | accepts exactly inputs with the recorded metadata and constants |
| CudaGraph.AcceptedMeans | torchtitan/distributed/cudagraph.py:284-310 | what is accepted after a first call: as many inputs, tensors of the same metadata in the same places, and the same constants |
| CudaGraph.CUDAGraphWrapper.CopyInputs | torchtitan/distributed/cudagraph.py:344-345 | the captured inputs hold the caller's values when no copy clobbers a later source |
| CudaGraph.CUDAGraphWrapper.Capture | torchtitan/distributed/cudagraph.py:324-337 | keeps the inputs and allocates the output |
| CudaGraph.CUDAGraphWrapper.Replay | torchtitan/distributed/cudagraph.py:342-347 | the one output buffer holds the function of the caller's values |
| CudaGraph.CUDAGraphWrapper.Call | torchtitan/distributed/cudagraph.py:312-347 | every accepted call returns the eager value in warmup, capture and replay; counters and buffers move as stated |
| CudaGraph.FlatFnOnTree | torchtitan/distributed/cudagraph.py:417-420 | the flat function on flattened values is the function on the tree |
| CudaGraph.GraphedFunction.SafeInputs | torchtitan/distributed/cudagraph.py:411-432 | inputs that do not alias each other, each the captured tensor of its own position or apart from all captured ones, are safe |
| CudaGraph.GraphedFunction.Prepare | torchtitan/distributed/cudagraph.py:411-430 | the first call builds the wrapper; later calls accept exactly its structure |
| CudaGraph.GraphedFunction.Run | torchtitan/distributed/cudagraph.py:411-432 | every accepted call returns the function of the current tensors of the tree, and leaves aligned inputs as they were |
| Trainer.WarmupCoversSteps | torchtitan/distributed/cudagraph.py:395-404 | the warmup count is exactly the number of calls of the first warmup optimizer steps, SDC replays included |
| Trainer.CallsGrow | torchtitan/trainer.py:902-935 | later steps only add calls |
| Trainer.Trainer.CaptureTiming | torchtitan/distributed/cudagraph.py:395-404 | calls run eagerly exactly in the first warmup steps, and the graph is captured by the first call after them |
| Trainer.SharedCount | torchtitan/trainer.py:884-925 | groups that share only the count of valid tokens, passed in one place, meet what a step asks of its calls |
| Trainer.Trainer.Once | torchtitan/trainer.py:783-803 | one call returns the eager value of its tensors, captured ones among them or not, and leaves alone the tensors of later calls and the running sum |
| Trainer.Trainer.FwdBwd | torchtitan/trainer.py:920-935 | a group's calls, SDC repeats in other tensors included, return the group's eager loss and leave alone later calls' tensors and the running sum |
| Trainer.Trainer.Accumulate | torchtitan/trainer.py:943-949 | the first loss is cloned and later ones are added in place |
| Trainer.Trainer.GroupStep | torchtitan/trainer.py:902-949 | after a group the accumulated loss has grown by its eager loss |
| Trainer.Trainer.RunGroups | torchtitan/trainer.py:899-949 | after the loop the sum is that of the eager losses although replays reuse one output and groups share tensors |
| Trainer.Trainer.TrainStep | torchtitan/trainer.py:860-949 | a step returns the sum of the eager losses in a tensor no replay writes, whichever of its calls warm up, capture or replay, and keeps the capture schedule |
| Trainer.Trainer.Train | torchtitan/trainer.py:1061-1069 | over any number of steps with inputs of their own, before, at and after the capture, every step returns the sum of its eager losses, and none raises if all inputs have one structure |
| Checkpointer.ParseStepDir | torchtitan/components/checkpointer/base.py:312-315 | a step's directory name parses to the step |
| Checkpointer.StepDirOfParse | torchtitan/components/checkpointer/base.py:312-315 | among ASCII names no other directory parses to it |
| Checkpointer.TwoNamesOfOneStep | torchtitan/components/checkpointer/base.py:312-315 | a digit outside ASCII gives a second directory of one step |
| Checkpointer.FindLoadStep | torchtitan/components/checkpointer/base.py:326-352 | the highest loadable step, -1 exactly when there is none |
| Checkpointer.Scan | torchtitan/components/checkpointer/base.py:366-390 | the loop finds exactly the checkpoints and exactly the abandoned entries |
| Checkpointer.PurgedIsStale | torchtitan/components/checkpointer/base.py:392-408 | what the sorted list enqueues is exactly what is stale: outdated and not exempt, or abandoned |
| Checkpointer.StaleNames | torchtitan/components/checkpointer/base.py:362-408 | by name: staging directories of other steps; step directories without metadata; and non-exempt ones with metadata that keep_latest_k - 1 newer ones follow |
| Checkpointer.CheckpointManager.PurgeStaleCheckpoints | torchtitan/components/checkpointer/base.py:354-408 | enqueues exactly the stale directories |
| Checkpointer.CheckpointManager.BeginSave | torchtitan/components/checkpointer/base.py:354-408 | a save's purge and first write is a step of the protocol |
| Checkpointer.CheckpointManager.PurgeOne | torchtitan/components/checkpointer/base.py:50-70 | one deletion, failed or not, keeps the highest loadable step |
| Checkpointer.CheckpointManager.Drain | torchtitan/components/checkpointer/base.py:50-70 | a drain without failures leaves exactly the unqueued entries |
| Checkpointer.NextSafe | torchtitan/components/checkpointer/base.py:37-408 | every step of the protocol keeps the queue safe |
| Checkpointer.RunSafe | torchtitan/components/checkpointer/base.py:37-408 | so does every run |
| Checkpointer.RetentionHolds | torchtitan/components/checkpointer/base.py:37-408 | over every run the highest loadable step is never queued or lost, exempt loadable steps stay, and a purge never queues the step being saved |
| Checkpointer.NewestAreNewer | torchtitan/components/checkpointer/base.py:392-395 | the newest n steps are newer than all others |
| Checkpointer.NewestSize | torchtitan/components/checkpointer/base.py:392-395 | and there are n of them, or all |
| Checkpointer.DrainKeeps | torchtitan/components/checkpointer/base.py:354-408 | after a purge and a drain exactly the newest keep_latest_k - 1 and the exempt are left, if and only if none of them had been queued before |
| Checkpointer.DrainExact | torchtitan/components/checkpointer/base.py:354-408 | in runs that never re-save a loadable step that always holds |
| Checkpointer.ResaveLosesKept | torchtitan/components/checkpointer/base.py:354-408 | a run with a re-save in which a step to be kept is lost |
| ModelWrapper.Model.StateDict | torchtitan/components/checkpointer/base.py:123-125 | parameters by reference, hook tensors newly allocated with current values |
| ModelWrapper.Model.Load | torchtitan/components/checkpointer/base.py:142-146 | parameters are written in place; a tied one takes a value loaded under one of its names |
| ModelWrapper.ModelWrapper.Merge | torchtitan/components/checkpointer/base.py:130-139 | one key keeps its storage if shape and dtype fit, and gets the current value |
| ModelWrapper.ModelWrapper.MergeOne | torchtitan/components/checkpointer/base.py:130-139 | merging one hook key leaves the others ready and their storages unchanged |
| ModelWrapper.ModelWrapper.StateDict | torchtitan/components/checkpointer/base.py:127-140 | current values under every key, in the storages the cache had |
| ModelWrapper.ModelWrapper.LoadStateDict | torchtitan/components/checkpointer/base.py:142-148 | loaded values, tied parameters included, and a refreshed cache that represents them |
| ConfigTree.PrefixIsAncestor | torchtitan/config/override.py:436-440 | a dotted prefix is exactly tree ancestry |
| Decimals.DecimalInjective | torchtitan/config/configurable.py:122-123 | list indices written in names are told apart |
| ConfigTree.AgreeUnfold | torchtitan/config/override.py:386-394 | stores that agree below a node unfold it to the same tree |
| ConfigTree.WriteNext | torchtitan/config/override.py:482-485 | one in-place write is one more entry of the set of writes |
| Configurable.Below | torchtitan/config/configurable.py:113-132 | the recursive walk yields the hits below an object in field and list order |
| Configurable.Traverse | torchtitan/config/configurable.py:75-132 | the walk yields the specified hits, each with the slot that holds it |
| Configurable.HitsBelow | torchtitan/config/configurable.py:99-132 | hits below an object lie strictly below its path |
| Configurable.TraversalApart | torchtitan/config/configurable.py:99-102 | one override's matches are never nested |
| Configurable.TraversalLocated | torchtitan/config/configurable.py:99-132 | every hit is where its path says, in the slot it names |
| Configurable.TraversalExact | torchtitan/config/configurable.py:75-132 | the hits are exactly the configs of the class at paths that enter no list in a list and, without recursion, pass no other config of the class, each with its name, container and key |
| Configurable.SlotOfPath | torchtitan/config/configurable.py:104-132 | in a tree-shaped config a hit is on a slot exactly if its path leads there |
| Overrides.CollectClaims | torchtitan/config/override.py:386-411 | the claims of every override in activation order |
| Overrides.ClaimedExactly | torchtitan/config/override.py:386-411 | a config is claimed exactly when it is of the target class (that very class for an exact override), its dotted name is selected, and no config of the class lies above it |
| Overrides.CheckSameNode | torchtitan/config/override.py:423-433 | passes exactly when no slot is claimed under two names |
| Overrides.CheckNodeConflicts | torchtitan/config/override.py:414-445 | passes exactly when claims of different overrides are never nested, stated by their paths; and exactly when the error is that one node is claimed twice |
| Overrides.ClashIsNesting | torchtitan/config/override.py:414-445 | two claims of different overrides clash, by slot or dotted name, if and only if the path of the second starts with that of the first |
| Overrides.PassedClaimsApart | torchtitan/config/override.py:386-445 | claims that pass are pairwise at unrelated places of the tree |
| Overrides.NoClashApart | torchtitan/config/override.py:414-445 | two claims of different overrides that do not clash are at unrelated places |
| Overrides.ApplyStep | torchtitan/config/override.py:478-485 | whatever was applied before, a claim still gets its factory of the original node |
| Overrides.UnfoldReplace | torchtitan/config/override.py:478-485 | after all writes the tree is the original with every claimed node replaced at once |
| Overrides.ReplaceIsReplaced | torchtitan/config/override.py:478-485 | the replacement path by path: at a claimed path stands its factory of the original node, and at every path below no claim a node of the same kind and fields |
| Overrides.Confluent | torchtitan/config/override.py:448-500 | applying the claims in any order is the simultaneous replacement |
| Overrides.ResolveActive | torchtitan/config/override.py:339-367 | succeeds exactly when every target is registered and named once |
| Overrides.OverridableConfig.ApplyClaims | torchtitan/config/override.py:478-490 | the loop applies the claims in order and stops at a root claim |
| Overrides.OverridableConfig.ApplyOverrides | torchtitan/config/override.py:448-500 | succeeds if and only if no claim is at the root and claims of different overrides are at unrelated paths; then every claimed node is its factory of the original and all others are as before; on a conflict nothing changes |
| OverrideImports.ParseCliImports | torchtitan/config/override.py:94-125 | the loop parses every token, and the first bad token decides the error |
| OverrideImports.ParsedClean | torchtitan/config/override.py:94-125 | every parsed target survives the token syntax |
| OverrideImports.TargetGroup | torchtitan/config/override.py:113-124 | a token of comma-separated plain targets gives those targets in order, without the empty ones |
| OverrideImports.RoundTrip | torchtitan/config/override.py:94-133 | parsing undoes formatting exactly for targets the token syntax can carry |
| Lora.RestoreConverted | torchtitan/components/lora.py:135-138 | conversion keeps every other field and the shape of the tree |
| Lora.ConvertedAt | torchtitan/components/lora.py:196-235 | at every path that enters no list in a list: a Linear whose last key is targeted (any, without targets) has the LoRA class and the two fields rank and alpha more, any other module config the frozen class and no field more, and everything else is unchanged |
| Lora.SegmentOfChild | torchtitan/components/lora.py:150-164 | the last segment of a child's dotted name is its key |
| Lora.UnfoldConverted | torchtitan/components/lora.py:196-235 | below an object whose hits are done the store holds the conversion |
| Lora.WalkStep | torchtitan/components/lora.py:196-235 | in reversed order a config's children are already converted when it is |
| Lora.WalkNext | torchtitan/components/lora.py:196-235 | one write of the reversed walk keeps the set of conversions done |
| Lora.ModelConfig.ConvertModel | torchtitan/components/lora.py:196-235 | the reversed in-place walk is the bottom-up map of the whole tree; at every path that enters no list in a list it leaves the LoRA class with rank and alpha exactly for a Linear whose last key is targeted, and the frozen class for other module configs |
| VocabShards.ShardsPartition | torchtitan/components/loss.py:120-126 | every class has exactly one owning rank, uneven and empty shards included |
| VocabShards.SumOverShards | torchtitan/components/loss.py:152-157 | summing shards and then ranks is summing the whole vocabulary |
| LossParallel.ShiftCancels | torchtitan/components/loss.py:146-158 | subtracting the maximum does not change the log-probability |
| LossParallel.SoftmaxSumsToOne | torchtitan/components/loss.py:146-158 | the probabilities of a row add up to 1 |
| LossParallel.SoftmaxProportions | torchtitan/components/loss.py:146-158 | they are positive and in the proportions of the exponentials of the logits |
| LossParallel.NllIsNegativeLog | torchtitan/components/loss.py:169-180 | a token's loss is minus the log of its label's probability |
| LossParallel.GlobalMaxBounds | torchtitan/components/loss.py:146-153 | no shifted logit is positive on any rank |
| LossParallel.LogProbsAreShards | torchtitan/components/loss.py:146-158 | the distributed log-softmax is the shard of the unsharded one |
| LossParallel.MaskLabels | torchtitan/components/loss.py:160-167 | labels of other shards are overwritten in place and flagged |
| LossParallel.Gather | torchtitan/components/loss.py:169-170 | a rank contributes its label's log-probability, or zero |
| LossParallel.OneContribution | torchtitan/components/loss.py:160-173 | over all ranks exactly the label's log-probability is contributed |
| LossParallel.CheckInputs | torchtitan/components/loss.py:127-144 | accepts exactly non-empty shards of the right width and labels in range or ignored; each error names an input that has it |
| LossParallel.LossParallelCrossEntropy.Forward | torchtitan/components/loss.py:103-187 | every rank gets the unsharded per-token loss |
| LossParallel.GradOnRank | torchtitan/components/loss.py:195-215 | the fused in-place backward, entry by entry |
| LossParallel.LossParallelCrossEntropy.Backward | torchtitan/components/loss.py:190-217 | the ranks' gradients are the shards of the unsharded gradient |
| LossParallel.GradIsSoftmaxLessOneHot | torchtitan/components/loss.py:190-217 | that gradient is (softmax - onehot) times upstream, zero on ignored rows |
| ChunkedLoss.GradAccumulator.Add | torchtitan/components/loss.py:439-480 | a chunk lands where its index and length put it, everything else kept; when it is refused |
| ChunkedLoss.ChunkLoss | torchtitan/components/loss.py:676-693 | adding chunk losses adds up the sequence loss |
| ChunkedLoss.AddChunk | torchtitan/components/loss.py:695-701 | the buffer holds the whole gradient up to this chunk |
| ChunkedLoss.Loss | torchtitan/components/loss.py:607-701 | cutting into equal chunks changes neither loss nor gradient; refused exactly when the length does not divide |
| Tiling.ProgramsPartition | torchtitan/overrides/fused_mla.py:110-118 | each head of each token is in the tile of exactly one program of the grid |
| Tiling.TileOfProgram | torchtitan/overrides/fused_mla.py:110-118 | the program of a head decodes to the tile that holds it |
| Tiling.OneProgram | torchtitan/overrides/fused_mla.py:110-118 | no other program handles it |
| Tiling.NextPowerIsLeast | torchtitan/overrides/fused_mla.py:418-419 | the block size is a power of two, and no smaller power covers the heads |
| FusedMla.RotatedRowIsEager | torchtitan/models/common/rope.py:260-278 | the fused rotation is the eager complex product with the cache, or its conjugate, on the positional features alone |
| FusedMla.InverseRestoresRow | torchtitan/overrides/fused_mla.py:152-157 | with cos squared plus sin squared 1 the inverse rotation restores one row |
| FusedMla.EachFeatureStoredOnce | torchtitan/overrides/fused_mla.py:209-265 | each feature of a K head is stored by exactly one lane |
| FusedMla.EachElementStoredOnce | torchtitan/overrides/fused_mla.py:203-265 | each element of K is stored by exactly one lane of exactly one program |
| FusedMla.QProgram | torchtitan/overrides/fused_mla.py:86-168 | a program turns pair p of every head in its tile by cos(m, p) and sin(m, p), with m the position of that head's own token, backwards for the inverse, and touches nothing else |
| FusedMla.LaunchQ | torchtitan/overrides/fused_mla.py:407-449 | in any order of programs, pair p of every head of token (b, l) is turned once by cos and sin at position(b, l), backwards for the inverse, and the nope part is kept |
| FusedMla.RotateAndBack | torchtitan/overrides/fused_mla.py:628-665 | an inverse launch after a forward one restores all of Q, whatever the two orders of programs |
| FusedMla.KRowIsEager | torchtitan/models/common/rope.py:260-278 | a K head is the eager concatenation of its nope part and the complex product of the shared row |
| FusedMla.KLane | torchtitan/overrides/fused_mla.py:209-265 | the lanes of one head, stored where the store-once lemmas say, make up exactly its row of K |
| FusedMla.KProgram | torchtitan/overrides/fused_mla.py:172-265 | a program fills its tile of K: the head's nope part and the shared row turned by cos and sin at the token's own position; it touches nothing else |
| FusedMla.LaunchK | torchtitan/overrides/fused_mla.py:452-503 | in any order of programs K is filled completely, whatever was in it: each head's nope part and the shared row turned by cos and sin at position(b, l) |
| FusedMlaBackward.RotationAdjoint | torchtitan/overrides/fused_mla.py:385-386 | rotating back is the adjoint of rotating |
| FusedMlaBackward.SharedRow | torchtitan/overrides/fused_mla.py:359-360 | summing the heads' rotary gradients first gives the same inner product with the shared row |
| FusedMlaBackward.HeadAdjoint | torchtitan/overrides/fused_mla.py:316-346 | the packed gradient of one head is the adjoint of its forward |
| FusedMlaBackward.BackwardIsAdjoint | torchtitan/overrides/fused_mla.py:628-719 | for a token: dK with K plus dV with V equals dKV with KV plus dKpe with Kpe |
| FusedMlaBackward.EachKvElementStoredOnce | torchtitan/overrides/fused_mla.py:307-346 | every element of the packed gradient is stored by exactly one program, turn of its head loop and lane |
| FusedMlaBackward.EachKPeElementStoredOnce | torchtitan/overrides/fused_mla.py:371-398 | every element of the shared rotary gradient is stored by exactly one lane of exactly one program |
| FusedMlaBackward.HeadTile | torchtitan/overrides/fused_mla.py:316-360 | one turn of the head loop stores the packed gradients and accumulates the rotary sums |
| FusedMlaBackward.KvBackwardProgram | torchtitan/overrides/fused_mla.py:269-398 | a program writes both gradients of its token, the summed rotary gradient turned back by cos and sin at the token's own position, and touches nothing else |
| FusedMlaBackward.LaunchKvBackward | torchtitan/overrides/fused_mla.py:525-587 | in any order of programs both gradients are complete, each token's summed rotary gradient turned back by cos and sin at position(b, l) |
| FusedMlaBackward.TokenAdjoint | torchtitan/overrides/fused_mla.py:690-719 | what both launches leave in one token's rows satisfies the adjoint identity |
| FusedMlaBackward.ForwardThenBackward | torchtitan/overrides/fused_mla.py:690-719 | after both launches in any orders, on every token of any batch: dK with K plus dV with V equals dKV with KV plus dKpe with Kpe |
| FusedMlaBackward.QRowAdjoint | torchtitan/overrides/fused_mla.py:650-665 | for any cos and sin the inverse rotation is the adjoint of the rotation |
| FusedMlaBackward.BackwardQ | torchtitan/overrides/fused_mla.py:650-665 | the inverse launch turns pair p of every gradient row back by cos and sin at position(b, l): the gradient of Q |

## Left out

- Floating-point rounding, dtype casts and the rounding boundaries of the kernels: all values are exact reals, and exp, log, sigmoid and silu are functions with only the laws needed.
- Strides and memory layout of tensors: a kernel's tensor is an array of rows or a two-dimensional array, and lanes that load masked-out elements are not executed.
- PyTorch, NCCL, Triton and spmd_types internals: collectives, chunking, unflattening, pytrees and graph replay have their intended meaning.
- Hash collisions: that unequal states have unequal signatures is proved of hashes without collisions among tensors of one shape and type.
- SdcReplayer.SDCReplayer.RunChecked: rank-local; another rank's mismatch is a parameter. All ranks together are RunCheckedGroup and CheckAllRanks.
- Trainer.Trainer.TrainStep: loss_is_finite, the token count and the state restored by SDC are not part of it; the tensors that an SDC repeat makes anew are given with the step, with the values the first call sees.
- Trainer.Trainer.Train: the parameters are fixed inside the function; the optimizer's update of them between steps, checkpoints, and the end of the data are not modelled.
- DistLinear.AllGatherLinear.Backward: for widths that divide evenly; gathering uneven chunks is left to the collective.
- CudaGraph.CUDAGraphWrapper.Call: aliasing among captured inputs, and copies that clobber a later source, are excluded by its precondition; should_check_address and streams are not modelled.
- SpmdExactness.RedistributionExact: the converse is for shapes without an empty dim, where there is data to compare.
- SpmdSoundness.RedistributePerAxis: spmd.redistribute is the collective that replicates the axis followed by the one that gives it its new type; backward options are not modelled.
- ParallelDims.ParallelDims.BuildMesh: process-group backends, the cache of multi-axis submeshes and get_activated_mesh, which filters axis names, are not modelled.
- Experts.StateDictAdapter.GetLocalExperts: placements of the single-expert tensors on the sub-mesh are not modelled; keys are group and expert id instead of formatted strings.
- Experts.StateDictAdapter.FromHf: the ids of a group lie in its range, as they do for the keys that to_hf produced.
- PipelineStages.GetPipelineMetadata: the ceiling is exact, where the source divides in floating point; _split_module, which edits a copied model, is not modelled.
- Overrides.Confluent: for tree-shaped configs and pure factories; a config made by a factory is a value that later writes do not enter. the fqns selector is a predicate parameter, and derive, which copies fields, is not modelled.
- Lora.ModelConfig.ConvertModel: the class caches are functions from a class to its frozen or LoRA class.
- Configurable.Traverse: objects are numbered so that fields point to lower numbers, which rules out cycles the recursion could not end on.
- Checkpointer.RetentionHolds: one save at a time, deletions atomic; names are ASCII, and remote storage errors are failed deletions.
- ModelWrapper.ModelWrapper.StateDict: one model part with distinct keys; a hook is a function of the parameters.
- LossParallel.LossParallelCrossEntropy.Forward: the asynchronous label assertion is an error result.
- ChunkedLoss.Loss: DTensor placements, FSDP resharding flags and metrics are not modelled; a chunk's loss is a sum over its tokens.
- FusedSwiGLU: the config factory that remaps sharding and initializers, and the grouped-experts variant, repeat the dense case.
- SiluKernels.Forward: the last offset is at most the number of rows, as grouped_mm requires; the kernel itself masks only by the offset.
- Filesystem access, logging, profiling, clocks and process-group setup.
