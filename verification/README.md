# Verified model of the verl runtime's data paths

The verl runtime moves model weights, activations, layers and batches between processes. This
project models the parts of it where a mistake is silent — bytes overwritten while they are still
being read, a tensor brought back under the wrong name, a layer counted twice — and proves them
correct, or says exactly when they are.

**Weight transfer.** Trainer rank 0 packs a stream of named weights into fixed-size buckets, in two
buffers that take turns.

- `Packing` and `BucketCodec` hold the packing, its optimality, and what a receiver gets out of a
  bucket. The bucket's metadata is a dictionary, so a name repeated inside one bucket keeps only its
  last weight: delivery is exact if and only if no bucket repeats a name.
- `BucketSender` is the send loop over two byte arrays.
- `NixlChain`, `NixlInvariant` and `NixlDelivery` are the forwarding chain as a transition system:
  program counters, two byte buffers a rank, a message queue and a notification queue an edge, and
  transfers that land one byte range after another in any order. Safety, delivery, progress and termination hold
  for every chain length, weight stream and interleaving. `NixlTopology` says when the workers form
  such a chain: exactly with two or more rollout workers (`metadata[-1 + 1 :]` is the whole list).
- `NcclBroadcast` is the same sender with one collective broadcast a bucket; whether the sender's
  wait also covers the receivers is a parameter, and everything holds either way.
- `KimiPacking` and `KimiReceive` are the engine in which every trainer rank packs a stride of the
  stream and all buckets are broadcast in rounds through the two halves of one buffer. With no bucket
  at all the receiver reads metadata that was never assigned.

**Activation offloading.** `OffloadSpec` gives each operation of the asynchronous double-buffer
handler as a relation on its state, `OffloadHandler` is the class with its fields and loops proved
against it, `OffloadRun` proves whole training steps, `OffloadBuffers` what the buffer dictionary keeps
alive and for how long, and `OffloadMemory` the bound of two resident groups. One host copy is kept per address and dtype: a group comes back intact if and only if tensors
that share both have the same row-major contents; a tensor and its transpose do not.

**Parallel layouts.** `PipelineShards` is the search for the merger's layer split, `LayerOffset` the
layer offsets, `MegatronMerger` the renumbering and the allocation of files, `Tiling` what it means to
tile the layers. Interleaved uneven layouts tile if and only if there are middle ranks and either a
first-stage count is given or the middle ranks hold no layer: otherwise a rank divides by zero, or two
ranks start at the same layer. Where the embedding
is counted as a layer, the function corrects for it by the rank of the calling process and not the one it
is asked about, so that a rank gets the wrong answer about another; `LayerOffset.OffsetForAnotherRank` says
exactly when. The search finds nothing for five layers on four ranks and then raises IndexError; the
exact condition is a clause of its contract. `Qkv` proves that three separately written
de-interleavings of the fused query-key-value weight agree and that re-interleaving inverts them.
`DynamicCp` proves that splitting a batch over ranks and merging it are inverse whenever every rank's
split succeeds. A rank left without sequences selects an empty list, which the tensor library refuses;
this happens if and only if the group of the last rank would begin behind the batch (nine sequences on
eight ranks, two a sequence), and always where the number of sharing ranks does not divide the number of
ranks. The number of sharing ranks is the least power of two that covers the longest sequence if and only
if that sequence is not empty (for an empty one the code computes 2).

**Kernels.** `ZoomBox` is the image tool's crop, `ClusterVote` the vote over numerically close answers
(the clusters are always the groups closeness sorts the answers into if and only if the relative
tolerance is at most 1, or it is at least 2 and with the absolute one makes at least 2),
`DataProto` and `FoldBatch` the batch container, and `GroupStats` the one-pass grouped variance.
`fold_batch_dim` rewrites the dictionary of its argument in place, so the argument's columns stay folded
while its tensor does not; `FoldBatch.FoldThenUnfold` states this.

`Options`, `PythonLists`, `Sequences`, `Shapes`, `Transfers`, `ArraySplit`, `Arithmetic` and `Reals` are shared helpers.

Modelling decisions. ZeroMQ, RDMA, NCCL, CUDA streams, Ray and asyncio appear as reliable FIFO queues,
transfers that complete, and arbitrary scheduling; uuids used as notification keys are counters. A
consumer copies what a receiver yields at the moment it is yielded. Tensors are byte sequences or lists
of rows, coordinates, answers and scores are real numbers. Python's slices are modelled with their
clamping, floor division as floor division, and exceptions as failure values.

## Model

| member | source | states |
|---|---|---|
| Packing.PackFromIsBuckets | verl/checkpoint_engine/nccl_checkpoint_engine.py:242-265 | the streaming loop's buckets are the greedy ones: cut off the longest prefix that fits, repeat |
| Packing.BucketsPartition | verl/checkpoint_engine/nccl_checkpoint_engine.py:242-292 | the buckets are consecutive, lose nothing and stay within capacity |
| Packing.BucketsTight | verl/checkpoint_engine/nccl_checkpoint_engine.py:246-265 | not even the first weight of the next bucket would have fitted in the one before |
| Packing.BucketsOptimal | verl/checkpoint_engine/nccl_checkpoint_engine.py:242-292 | no order-preserving partition within capacity has fewer buckets |
| Packing.ConcatAt | verl/checkpoint_engine/nccl_checkpoint_engine.py:271-278 | a weight's bytes lie at the total size of those before it in the bucket |
| BucketCodec.DeliveredExact | verl/checkpoint_engine/nixl_checkpoint_engine.py:475-479 | unpacking a bucket gives exactly what was packed if and only if its names are distinct |
| BucketCodec.ElementsDecode | verl/checkpoint_engine/nixl_checkpoint_engine.py:475-479 | a weight of one element of its item size for each index of its shape is well-formed, and is cut out of any buffer at its offset in full |
| Shapes.IndicesExact | verl/checkpoint_engine/nixl_checkpoint_engine.py:477-477 | `shape.numel()` counts the indices of the shape, each once |
| BucketCodec.DeliverAllExact | verl/checkpoint_engine/nixl_checkpoint_engine.py:414-420 | the same for a whole stream of buckets |
| BucketCodec.HoldsAfterWrite | verl/checkpoint_engine/nixl_checkpoint_engine.py:414-421 | writing the next weight at the offset extends the packed bytes and disturbs none before it |
| BucketSender.SendBuffers.Fill | verl/checkpoint_engine/nixl_checkpoint_engine.py:420-420 | exactly the byte range of the weight is replaced |
| BucketSender.SendBuffers.SendWeights | verl/checkpoint_engine/nixl_checkpoint_engine.py:380-430 | succeeds if and only if every weight fits; then publishes the greedy buckets in order, in alternating buffers, only the last one marked; otherwise fails at the first weight too large |
| BucketSender.PublishedDecodes | verl/checkpoint_engine/nixl_checkpoint_engine.py:396-430 | decoding a publication recovers its bucket if and only if the bucket's names are distinct |
| NixlTopology.TopologyAccepted | verl/checkpoint_engine/nixl_checkpoint_engine.py:283-325 | all length and rank assertions pass if and only if there are at least two rollout workers |
| NixlTopology.AcceptedExact | verl/checkpoint_engine/nixl_checkpoint_engine.py:304-319 | the rank assertions admit exactly the wiring of a chain: a predecessor for positive ranks, a successor for all but the last |
| NixlTopology.Chain | verl/checkpoint_engine/nixl_checkpoint_engine.py:284-299 | rank 0 is the first trainer, the other trainers have rank -1 and no neighbours, rank r is the r-th rollout worker; each is given its neighbours and the same world size |
| NixlInvariant.InitInv | verl/checkpoint_engine/nixl_checkpoint_engine.py:380-386 | the initial state satisfies the invariant |
| NixlInvariant.NextKeepsInv | verl/checkpoint_engine/nixl_checkpoint_engine.py:387-513 | every step of every rank and every transfer keeps the invariant over buffers, metadata, queues and counters |
| NixlInvariant.FlushedWeightFits | verl/checkpoint_engine/nixl_checkpoint_engine.py:410-412 | the assertion after a flush never fires when every weight fits a bucket |
| NixlInvariant.SenderPreserves | verl/checkpoint_engine/nixl_checkpoint_engine.py:387-431 | a step of rank 0 keeps its own invariant and the edge to rank 1 |
| NixlInvariant.ReceiverPreserves | verl/checkpoint_engine/nixl_checkpoint_engine.py:446-513 | a step of a receiver keeps its own invariant |
| NixlInvariant.CopyPreserves | verl/checkpoint_engine/nixl_checkpoint_engine.py:205-213 | any byte range of a transfer, in whatever order they land, keeps the receiver's invariant and the edge it reads from |
| NixlDelivery.TargetIsFree | verl/checkpoint_engine/nixl_checkpoint_engine.py:458-472 | no fill and no inbound read targets a buffer that is published or being yielded from |
| NixlDelivery.BufferSafety | verl/checkpoint_engine/nixl_checkpoint_engine.py:389-421 | no step changes a byte of a buffer in use |
| NixlDelivery.PublicationConserved | verl/checkpoint_engine/nixl_checkpoint_engine.py:137-231 | each rank has at most one unacknowledged publication, which is queued, being read or acknowledged; a receiver's is on the buffer it does not read into, rank 0's on the one it does not fill |
| NixlDelivery.OutIsPrefix | verl/checkpoint_engine/nixl_checkpoint_engine.py:474-513 | what a receiver has yielded is a prefix of the packed stream, and all of it once it is done |
| NixlDelivery.PlanDelivers | verl/checkpoint_engine/nixl_checkpoint_engine.py:387-430 | the packed stream delivers the trainer's weights if and only if no bucket repeats a name; distinct names suffice |
| NixlDelivery.AckWaiterUnblocked | verl/checkpoint_engine/nixl_checkpoint_engine.py:482-484 | a rank waiting for a notification never blocks the chain |
| NixlDelivery.MessageWaiterUnblocked | verl/checkpoint_engine/nixl_checkpoint_engine.py:470-472 | a rank waiting for metadata never blocks the chain |
| NixlDelivery.Progress | verl/checkpoint_engine/nixl_checkpoint_engine.py:393-513 | until all ranks are done some rank or transfer can step |
| NixlDelivery.WorkDrops | verl/checkpoint_engine/nixl_checkpoint_engine.py:393-513 | every step lowers one global measure |
| NixlDelivery.EveryStateSafe | verl/checkpoint_engine/nixl_checkpoint_engine.py:365-513 | in every reachable state nobody has failed and every receiver's output is a prefix |
| NixlDelivery.EveryRunDelivers | verl/checkpoint_engine/nixl_checkpoint_engine.py:365-513 | every run is finite, and one that cannot continue has delivered the trainer's weights in order, each once, to every receiver, if and only if no bucket repeats a name |
| NixlDelivery.EveryRunCompletes | verl/checkpoint_engine/nixl_checkpoint_engine.py:365-513 | however a run has gone so far, it can be continued until every rank is done |
| NixlDelivery.RunBegins | verl/checkpoint_engine/nixl_checkpoint_engine.py:380-386 | every stream and chain has an initial state, so the statements about runs are about some run |
| NcclBroadcast.WorldKeeps | verl/checkpoint_engine/nccl_checkpoint_engine.py:238-355 | every step of sender, broadcast and receivers keeps the invariant |
| NcclBroadcast.CollectiveBufferSafety | verl/checkpoint_engine/nccl_checkpoint_engine.py:246-278 | the sender never fills, and no transfer overwrites, the buffer of a broadcast in flight or one being yielded from |
| NcclBroadcast.CollectiveProgress | verl/checkpoint_engine/nccl_checkpoint_engine.py:249-348 | until everyone is done something can move |
| NcclBroadcast.SynchronousWait | verl/checkpoint_engine/nccl_checkpoint_engine.py:249-258 | a wait that covers the receivers returns only when each of them holds the bucket just broadcast |
| NcclBroadcast.EveryCastRunDelivers | verl/checkpoint_engine/nccl_checkpoint_engine.py:225-355 | every run is finite and ends with all receivers having yielded the sender's stream, if and only if no bucket repeats a name |
| NcclBroadcast.EveryCastRunCompletes | verl/checkpoint_engine/nccl_checkpoint_engine.py:225-355 | however a run has gone so far, it can be continued until everyone is done |
| NcclBroadcast.CastRunBegins | verl/checkpoint_engine/nccl_checkpoint_engine.py:225-240 | every stream has a run to begin with, for any number of receivers |
| KimiPacking.FillFacts | verl/checkpoint_engine/kimi_checkpoint_engine.py:47-63 | the generator's buckets are its weights in order, each within the limit or a singleton, closed only when the next weight does not fit |
| KimiPacking.TensorBuckets | verl/checkpoint_engine/kimi_checkpoint_engine.py:37-63 | ValueError if and only if the limit is not positive; otherwise the dictionaries of buckets of the rank's stride with these properties |
| KimiPacking.DictsExact | verl/checkpoint_engine/kimi_checkpoint_engine.py:53-63 | the dictionaries hold exactly what was packed if and only if no bucket repeats a name |
| KimiPacking.StridesPartition | verl/checkpoint_engine/kimi_checkpoint_engine.py:49-51 | position i of the stream is in the stride of rank i mod world, after exactly that rank's earlier ones |
| KimiPacking.SharesAddUp | verl/checkpoint_engine/kimi_checkpoint_engine.py:49-51 | the strides of all ranks together have as many weights as the stream |
| KimiReceive.GroupByReceiver | verl/checkpoint_engine/kimi_checkpoint_engine.py:107-114 | distinct receiver ranks in the order they first appear, with their buckets in order, none empty and none lost |
| KimiReceive.UnpackAt | verl/checkpoint_engine/kimi_checkpoint_engine.py:150-160 | a tensor's bytes start in the bucket behind the slots of those before it |
| KimiReceive.EveryBucketOnce | verl/checkpoint_engine/kimi_checkpoint_engine.py:118-129 | the rounds broadcast every bucket exactly once |
| KimiReceive.BroadcastOrder | verl/checkpoint_engine/kimi_checkpoint_engine.py:118-129 | the broadcasts go round by round, within a round in the order of the lists, and every bucket has its turn |
| KimiReceive.HalfKept | verl/checkpoint_engine/kimi_checkpoint_engine.py:132-147 | a broadcast in flight leaves the half being yielded from alone |
| KimiReceive.Turn | verl/checkpoint_engine/kimi_checkpoint_engine.py:131-160 | while one bucket arrives in one half, the one before is yielded intact from the other |
| KimiReceive.ReceiveTensor | verl/checkpoint_engine/kimi_checkpoint_engine.py:115-166 | yields the contents of all buckets in the order of the rounds, or fails if and only if there is none |
| KimiReceive.ReceiveBuckets | verl/checkpoint_engine/kimi_checkpoint_engine.py:107-166 | grouping and receiving together yield every tensor of every bucket exactly once, and fail if and only if there is no bucket |
| OffloadSpec.WindowIncreasing | verl/utils/activation_offload.py:248-257 | the window map is strictly increasing, and its entry k is at least k |
| OffloadSpec.WindowLast | verl/utils/activation_offload.py:248-257 | its last entry is the last layer |
| OffloadSpec.WindowBalanced | verl/utils/activation_offload.py:246-257 | the layers are spread evenly over the offload groups, the longer spans first |
| OffloadSpec.WindowLate | verl/utils/activation_offload.py:248-257 | with fewer offload groups than layers, its entry k is at least k + 1 |
| OffloadSpec.WindowInstalled | verl/utils/activation_offload.py:543-543 | with one offload group fewer than layers, entry k is k + 1 |
| OffloadHandler.AsyncDoubleBufferHandler.constructor | verl/utils/activation_offload.py:228-257 | the loop with its running constant fills the window map with the closed form |
| OffloadHandler.AsyncDoubleBufferHandler.TensorPush | verl/utils/activation_offload.py:263-283 | files the tensor under a new tag, or hands it back as its own tag, or fails its assertion |
| OffloadHandler.AsyncDoubleBufferHandler.TensorPop | verl/utils/activation_offload.py:285-296 | takes the tensor out of both dictionaries, or fails one of its assertions |
| OffloadHandler.AsyncDoubleBufferHandler.BulkOffloadGroup | verl/utils/activation_offload.py:298-317 | the two loops replace every tensor of a group by its key and keep one host copy a key |
| OffloadHandler.AsyncDoubleBufferHandler.OnGroupCommitForward | verl/utils/activation_offload.py:319-352 | performs the specified forward commit, or stops where it would raise |
| OffloadHandler.AsyncDoubleBufferHandler.OnGroupCommitBackward | verl/utils/activation_offload.py:373-395 | performs the specified backward commit, or stops where it would raise |
| OffloadRun.StepKeeps | verl/utils/activation_offload.py:263-395 | in a legal order no operation raises and each keeps the invariant |
| OffloadRun.GuardsHold | verl/utils/activation_offload.py:272-377 | in any order of calls, a push never replaces a saved tensor, a tag is popped once, and no commit goes back before the first group |
| OffloadRun.CommitBackRaises | verl/utils/activation_offload.py:373-395 | going back, a commit raises if and only if there is no group left to go back to |
| OffloadRun.RestoreReturns | verl/utils/activation_offload.py:285-296 | a pop returns the value pushed under that tag |
| OffloadRun.OffloadRoundTrip | verl/utils/activation_offload.py:248-395 | along every training step nothing raises, every pop returns what was pushed, and a completed step leaves the handler in its initial state |
| OffloadRun.LegalSteps | verl/utils/activation_offload.py:263-395 | every legal operation can be performed, so the statements about training steps are about some step |
| OffloadRun.EndIdle | verl/utils/activation_offload.py:373-395 | after the last backward commit the dictionaries and counters are as at the start |
| OffloadRun.GroupRoundTripExact | verl/utils/activation_offload.py:298-371 | moving a group out and back restores it if and only if tensors sharing address and dtype have the same row-major contents |
| OffloadRun.TransposeIsLost | verl/utils/activation_offload.py:35-37 | a tensor and its transpose in one offloaded group: one of them comes back wrong |
| OffloadMemory.TwoGroupsResident | verl/utils/activation_offload.py:502-504 | with the installed configuration and each group restored before the next backward commit, only the current group and the one before are ever on the device |
| OffloadBuffers.HeldUntilRetired | verl/utils/activation_offload.py:279-337 | in every reachable state the buffer dictionary holds exactly the tensors pushed in offload groups, each until its own group retires and not after |
| OffloadBuffers.PushesNumbered | verl/utils/activation_offload.py:272-276 | within a group after the first, pushes are tagged with the group and 0, 1, 2 and so on |
| PipelineShards.GetDynamicPipelineShards | verl/model_merger/megatron_model_merger.py:57-98 | both errors with their exact conditions; otherwise one shard a rank, for three or more ranks the most uniform candidate, the earliest among equals |
| PipelineShards.CandidateIff | verl/model_merger/megatron_model_merger.py:83-87 | a middle count m is a candidate if and only if m(p-2)+2 <= L <= mp |
| PipelineShards.SomeCandidateIff | verl/model_merger/megatron_model_merger.py:81-96 | a candidate exists if and only if the smallest count that leaves no rank over it leaves a layer for each end |
| PipelineShards.BestIs | verl/model_merger/megatron_model_merger.py:81-98 | the search can only settle on one middle count, the average number of layers rounded up |
| PipelineShards.EnoughLayers | verl/model_merger/megatron_model_merger.py:81-96 | from ceil((p-1)/2)(p-2)+2 layers on a candidate always exists |
| PipelineShards.FiveLayersOnFourRanks | verl/model_merger/megatron_model_merger.py:83-96 | five layers on four ranks have no candidate |
| PipelineShards.ShardsSum | verl/model_merger/megatron_model_merger.py:84-98 | a candidate sums to the layers, no rank exceeds the middle count or is idle, and last minus first is 0 or 1 |
| PipelineShards.SearchedLayout | verl/model_merger/megatron_model_merger.py:97-98 | whatever the search returns sums to the layers and leaves no rank idle |
| LayerOffset.OffsetsTile | verl/utils/megatron_utils.py:1183-1309 | even, uneven and interleaved, with or without embedding and loss accounting: the chunks starting at the offsets that ranks work out for themselves are consecutive, ordered by stage and rank, and end at the last layer |
| LayerOffset.OffsetForAnotherRank | verl/utils/megatron_utils.py:1167-1309 | what one rank works out for another is right if and only if it is not an even layout with the embedding counted, asked about the first stage, with exactly one of the two being rank 0 |
| LayerOffset.EmbeddingMisplaced | verl/utils/megatron_utils.py:1300-1306 | three layers on two ranks with the embedding counted: each rank misplaces the other |
| LayerOffset.EveryLayerHasOneChunk | verl/utils/megatron_utils.py:1183-1309 | every layer is in the interval of exactly one chunk, at the offset its rank works out for itself |
| LayerOffset.OffsetsMatchExact | verl/utils/megatron_utils.py:1183-1309 | a layout that divides up has matching offsets if and only if it is not interleaved uneven, or has middle ranks and a first-stage count or no layer on the middle ranks |
| MegatronMerger.OffsetIsPrefixSum | verl/model_merger/megatron_model_merger.py:232-240 | with first and last counts from the search, every rank's offset is the prefix sum used for renumbering, whichever rank asks |
| MegatronMerger.LayersCorrespond | verl/model_merger/megatron_model_merger.py:359-386 | pairs of rank and local layer correspond one to one to global layers |
| MegatronMerger.MergeStateDicts | verl/model_merger/megatron_model_merger.py:366-418 | the merged dictionary has every parameter under its renumbered key, every layer parameter with its own tensor, and nothing else |
| MegatronMerger.MergedKeys | verl/model_merger/megatron_model_merger.py:381-418 | a layer's parameters are merged under their number plus where their chunk starts, with their own tensors, the others under their own names, and nothing else |
| MegatronMerger.ChunksApart | verl/model_merger/megatron_model_merger.py:381-418 | model chunks of one rank never get the same layer number |
| MegatronMerger.ChunkStartIs | verl/model_merger/megatron_model_merger.py:381-418 | full chunks are numbered consecutively |
| MegatronMerger.RanksDisjoint | verl/model_merger/megatron_model_merger.py:361-387 | two ranks never merge the same layer |
| MegatronMerger.SaveFiles | verl/model_merger/megatron_model_merger.py:435-457 | a rank's files are numbered from its start on, hold its keys in nearly equal runs, and the index has every key |
| MegatronMerger.EachKeyInOneFile | verl/model_merger/megatron_model_merger.py:440-457 | every key of a rank is in exactly one of its files, the one its index names |
| MegatronMerger.GatheredIndexExact | verl/model_merger/megatron_model_merger.py:449-465 | over all ranks every key is in exactly one file, the one the gathered index names, when no two ranks save the same key |
| MegatronMerger.FileNumbersAreExact | verl/model_merger/megatron_model_merger.py:427-453 | over all ranks the file numbers are 0 up to the number of layers, or twice that from 30 layers on, each used once |
| Qkv.ConvertQkvShard | verl/utils/megatron_utils.py:748-773 | ZeroDivisionError if and only if there are fewer groups than tensor ranks; on regular configurations the reference; with fewer key-value heads than tensor ranks, all queries and the keys and values of the kept ranks |
| Qkv.KeptRanks | verl/utils/megatron_utils.py:788-790 | where the heads divide the ranks, one rank is kept of every run that shares a head |
| Qkv.DefaultTpConcat | verl/utils/megatron_utils.py:961-994 | its assertions exactly; on a regular model's shards the reference of their concatenation |
| Qkv.SplitTensors | verl/model_merger/megatron_model_merger.py:330-354 | its assertions exactly; on regular tensors the reference |
| Qkv.AllThreeAgree | verl/utils/megatron_utils.py:748-773 | the three give identical queries, keys and values |
| Qkv.InterleaveInverts | verl/utils/megatron_utils.py:978-993 | re-interleaving the parts gives the fused tensor back |
| Qkv.DeinterleaveInverts | verl/utils/megatron_utils.py:978-993 | taking apart an interleaved tensor gives the parts back |
| Qkv.DeinterleavePermutes | verl/utils/megatron_utils.py:991-994 | queries, keys and values together are a permutation of the rows |
| Qkv.ConvertGateUpShard | verl/utils/megatron_utils.py:796-811 | the reference gate and up rows |
| Qkv.ConcatGateUp | verl/utils/megatron_utils.py:1001-1010 | fails if and only if some shard has a single row; the same gate and up rows for equal even shards |
| Qkv.GateUpAgree | verl/utils/megatron_utils.py:796-811 | both give identical gate and up rows |
| DynamicCp.LocalCpSizeIsLeast | verl/utils/megatron_utils.py:1423-1425 | the least power of two whose caps cover the longest sequence, if and only if that sequence is not empty |
| DynamicCp.SplitBatch | verl/utils/megatron_utils.py:1409-1443 | each of its three errors exactly; otherwise the group of rows beginning at the rank's group times the rounded-up share |
| DynamicCp.SplitMarks | verl/utils/megatron_utils.py:1423-1443 | a split of at least as many sequences as ranks is marked with the least covering power of two of ranks, any other with nothing; where all ranks share each keeps the batch |
| DynamicCp.EveryRankSplits | verl/utils/megatron_utils.py:1432-1439 | the split succeeds on every rank if and only if the last rank's group begins before the batch ends, so never where the size does not divide the ranks |
| DynamicCp.NineOnEight | verl/utils/megatron_utils.py:1432-1439 | nine sequences on eight ranks, two a sequence: six ranks get three rows, the last two raise |
| DynamicCp.MergeOutput | verl/utils/megatron_utils.py:1455-1474 | for every key the strided concatenation of what the ranks hold |
| DynamicCp.MergedIs | verl/utils/megatron_utils.py:1464-1468 | the merged rows are those of the ranks with the same place in their groups, in order, the rank's own among them |
| DynamicCp.MergeRebuilds | verl/utils/megatron_utils.py:1432-1469 | when every rank's split succeeds, all carry the same mark, and merging with it rebuilds the batch in order on every rank |
| ZoomBox.MaybeResizeBbox | verl/tools/image_zoom_in_tool.py:205-297 | the exact result; a box returned lies in the image, contains the clamped request and is at least 28 whole pixels on both sides |
| ZoomBox.ClampExact | verl/tools/image_zoom_in_tool.py:219-222 | a point is in the clamped box if and only if it is in the request and in the image; a request inside the image is its own clamp |
| ZoomBox.OutcomeCovers | verl/tools/image_zoom_in_tool.py:205-297 | whatever is returned contains all of the request that lies in the image |
| ZoomBox.RequestInside | verl/tools/image_zoom_in_tool.py:205-297 | a valid request inside the image is contained in the result, and is the result if it is at least 28 by 28 |
| ZoomBox.TargetSize | verl/tools/image_zoom_in_tool.py:242-257 | the two scale-downs amount to one factor, the largest allowed by minimum, width and height |
| ZoomBox.GrownContains | verl/tools/image_zoom_in_tool.py:259-276 | before rounding the box contains the request, stays in the image and keeps its aspect ratio |
| ZoomBox.LargeBoxesPass | verl/tools/image_zoom_in_tool.py:282-297 | a valid box of at least 28 by 28 is returned unchanged |
| ZoomBox.SmallBoxesGrow | verl/tools/image_zoom_in_tool.py:233-297 | a small box with room to grow and an aspect ratio of at most 100 - 1/14 is never refused |
| ZoomBox.SmallBoxExact | verl/tools/image_zoom_in_tool.py:233-297 | a small valid box is refused if and only if rounding makes it too long where the image has room for its shorter side to reach the minimum, or, where it has not, a grown side does not round out to 28 pixels |
| ClusterVote.ClustersPartition | tools/best_of_n_vllm_infer.py:151-162 | every answer is in exactly one cluster, orders are kept, centres are means |
| ClusterVote.MeanInRange | tools/best_of_n_vllm_infer.py:162-162 | a centre lies between its least and greatest member |
| ClusterVote.GroupsRecovered | tools/best_of_n_vllm_infer.py:77-162 | at the tolerances of RecoveryExact, answers that closeness itself sorts into groups, two in the same group exactly when they are close, come out as those groups, in any order of arrival |
| ClusterVote.RecoveryExact | tools/best_of_n_vllm_infer.py:77-162 | closeness groups are recovered from all answers if and only if the relative tolerance is at most 1, or at least 2 with a sum of the two tolerances of at least 2 |
| ClusterVote.GroupMissed | tools/best_of_n_vllm_infer.py:77-162 | three answers close to each other, the third not close to the centre of the first two, do not end up in one cluster |
| ClusterVote.WinnerIsLargest | tools/best_of_n_vllm_infer.py:164-165 | the winner is of maximal size, and of those the one that started first |
| ClusterVote.MedianHalves | tools/best_of_n_vllm_infer.py:166-168 | half of the members are at most the vote and half at least, and it lies midway between the two middle ones |
| ClusterVote.Vote | tools/best_of_n_vllm_infer.py:142-174 | no vote for no answers; otherwise the median and size of the first cluster in order |
| DataProto.PadToDivisor | verl/protocol.py:73-98 | the least multiple of the divisor, row i being row i mod n, in tensor and columns; the loop ends |
| DataProto.UnpadRestores | verl/protocol.py:101-105 | unpadding restores the container |
| DataProto.Concat | verl/protocol.py:916-933 | batches and columns one behind the other |
| DataProto.Chunk | verl/protocol.py:863-902 | an error unless the chunks are equal; tensor and every column cut at the same rows |
| DataProto.ChunkConcat | verl/protocol.py:863-933 | concatenating equal chunks is the identity |
| DataProto.Split | verl/protocol.py:904-913 | pieces of the given size whose concatenation is the container |
| FoldBatch.UnfoldFold | verl/protocol.py:201-237 | unfolding after folding is the identity |
| FoldBatch.FoldUnfold | verl/protocol.py:201-237 | folding after unfolding equal groups is the identity |
| FoldBatch.FoldBatchDim | verl/protocol.py:201-218 | both errors exactly; the folded container shares the rewritten dictionary with its argument |
| FoldBatch.UnfoldBatchDim | verl/protocol.py:221-237 | unfolds into a new dictionary |
| FoldBatch.FoldThenUnfold | verl/protocol.py:201-237 | the contents come back, while the argument's columns stay folded |
| GroupStats.OnePassIsTwoPass | verl/utils/groupwise.py:203-211 | the accumulated numerator is the two-pass sum of squared deviations, never negative |
| GroupStats.IndexAdd | verl/utils/groupwise.py:205-207 | every cell grows by the sum of its group's values |
| GroupStats.GroupMeanStd | verl/utils/groupwise.py:194-223 | ValueError if and only if the lengths differ; every group's textbook mean, floored sample variance and count, singletons 0 and 1 |
| GroupStats.StandardScores | verl/utils/groupwise.py:209-221 | scores less the mean of their group add up to 0 and their squares to the variance times one less than the group's size, unless it was raised to eps; a score alone in its group is left as it is |
| GroupStats.SizesAddUp | verl/utils/groupwise.py:205-205 | the groups' sizes add up to the number of scores |
| GroupStats.OrderDoesNotMatter | verl/utils/groupwise.py:203-221 | permuting scores with their groups changes no group's sums or spread |
| GroupStats.ResultIgnoresOrder | verl/utils/groupwise.py:197-223 | results for permuted scores and groups are equal in full |

## Left out

- The StarOR search itself; dataset scripts, tool wrappers, HTTP clients, logging, registries and FLOP counters, which would only add easy members.
- The internals of ZeroMQ, RDMA, NCCL, CUDA streams, Ray and asyncio, and failures of any of them.
- The Mooncake engine, which signals completion by overwriting the first bytes of a data buffer that may still be in use, so that delivery depends on the data; the HCCL engine, whose shape is that of NCCL with a synchronous broadcast.
- NixlDelivery.EveryRunDelivers: the transition systems are stated for streams whose weights all fit a bucket, as the source asserts; what happens otherwise is stated by BucketSender.SendBuffers.SendWeights.
- NixlInvariant.NextKeepsInv: ranks are values of a transition system, not objects, since their steps interleave; the send loop alone is also given over real arrays.
- KimiReceive.ReceiveTensor: the peer-to-peer store and the layout computed by `_to_named_tensor` are not part of this model; a bucket carries its items, slot sizes and bytes, and a rank's own copy into the range about to be broadcast is one of the arbitrary writes to that range.
- OffloadHandler.AsyncDoubleBufferHandler.OnGroupCommitForward: streams and events are not modelled; copies complete where they are ordered. Where a reloaded tensor is allocated, and the counter of stray tensors, are ignored.
- LayerOffset.OffsetsTile: a custom pipeline layout object is not part of this model, nor is a Megatron version whose first-stage test takes no stage and reads the process's current one.
- Qkv.ConvertQkvShard: for tensors whose rows do not divide up as a model of this configuration has them, only when it fails is stated.
- MegatronMerger.SaveFiles: the path for a single process, and the contents written to a file, are not modelled; a file is its number and its keys.
- MegatronMerger.MergeStateDicts: renaming parameters and splitting a tensor into several entries are not modelled here; a key is a layer number and a name.
- DataProto.Chunk: automatic padding of uneven batches is not modelled, because the tensor library may then return fewer chunks than asked for; for an empty batch, the tensor library is taken to return empty chunks.
- DataProto.Concat: containers with different columns, and the merging of meta information, are not modelled; `repeat` and `reorder` are left out as easy.
- DynamicCp.SplitBatch: the cap per rank is taken to be positive; that the tensor library refuses to select no row at all (an index tensor of no elements is not of integers, and no nested tensor is built from an empty list) is taken from that library, and which of its errors comes first is not distinguished.
- GroupStats.GroupMeanStd: the square root is not taken, a standard deviation stands as its square.
- Floating-point rounding and dtype casts everywhere.
