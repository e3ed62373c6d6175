# Verification of tilelang's schedules, pipelines, attention kernels and delta debugger

A Dafny model of the parts of the repository whose correctness cannot be read off one function body, with
proofs over every run, every input or every reachable state. `dafny verify dfyconfig.toml` checks it.

**The warp-specialised block-scaled GEMM** (`Pipeline`, `PipelineInvariant`, `PipelineTheorems`). The 2-CTA kernels
are one transition system: a loader, a scale transposer and an epilogue group of four warps per CTA, one MMA issuer,
in-flight copies that land in any order, a tensor core that executes in order, and completions that are delivered to
each CTA separately. Barriers are a phase count and pending arrivals; a wait sees one parity bit only (section
9.7.13.15 of the PTX ISA). `Params.persistent` switches between the persistent kernel and the one-tile kernel. Every
tile in flight or in a stage carries the CTA that loaded it, so that a product names the owner of each of its
operands. `BlockScaled` gives the accumulator its meaning and ties it to the reference product; `TileMap`,
`GroupedSchedule` and `PersistentFor` are the tile schedules; `GemmOutput` and `GroupedOutput` join them into
statements about every element of C.

**AutoDD** (`Pdd`, `PddGenerator`, `PddRounds`, `Rewrites`, `RewriteMeaning`, `AttachLabels`, `Freeze`,
`FastReducers`, `AstPdd`, `RewriteClasses`, `Pool`). Probabilities are reals. Trees, labelled rewrites and frozen
regions are values; the attacher and the applier are classes proved against the functions that specify them. The
worker pool is a monitor whose steps are the stretches between two awaits.

**Attention** (`Softmax`, `SinkForward`, `SinkBackward`, `VarlenForward`, `VarlenBackward`, `VarlenGradients`,
`VarlenBatch`, `VarlenSink`, `SplitDecode`, `SparseDecode`). Over reals, with -inf as a constructor of its own, and
NaN as another (`Nan`) where a kernel divides by zero or reads memory that no kernel wrote: a product with zero does
not hide it. The exponential is a parameter of which only E(a+b) = E(a) E(b) and E > 0 are used, and the logarithm a
parameter with E(lg x) = x for x > 0; `ExpDiff` demands a finite reference, so that a proof of its precondition is a
proof that -inf minus -inf is never evaluated. Methods work on one query row (or one column of the gradients), with
the kernels' own loops over blocks.

**The Sinkhorn backward pass** (`Sinkhorn`, `SinkhornCg`, `SinkhornGuard`, `SinkhornConjugate`, `SinkhornExact`,
`SinkhornSolver`). The conjugate-gradient loop on A = [I R; R' I] for one position of the sequence, on buffers updated
in place. The guard that the kernel adds to both denominators is a parameter: for the kernel's EPS the loop descends
and its directions are conjugate up to a bound, and at zero it is conjugate gradients and ends exactly.

Shared facts are in `Arith`, `RealArith` and `Sums`.

Where the code does not meet a property on all inputs, the exact condition is proved:

- with an odd number of block rows the persistent GEMM never computes the last one (`TileMap.EveryTileOnce`,
  `TileMap.OddRowsLost`); with a single block row m_clusters is 0 and the tile map takes a remainder by zero, which
  `TileMap.Valid` excludes;
- the scale byte picked at a step is the right one for every element exactly when block_K is the scale granularity
  (`BlockScaled.ScalePickExact`, `BlockScaled.WrongScalePicked`);
- `PersistentFor` leaves its domain when group_size does not divide the last extent (over more than one row), or when a
  single wave is launched past the end without the break (`PersistentFor.CoverExactlyWhenEven`,
  `PersistentFor.StaticCover`);
- the grouped GEMM drops the rows of an expert past its launched blocks (`GroupedSchedule.StoredExactlyOnce`,
  `GroupedSchedule.LongGroupLost`);
- the worker pool hangs with zero workers (`Pool.ProgressIffWorkers`);
- the packed-sequence forward kernel stores a logarithm that is not a number for query blocks that lie wholly before
  the first key (causal, more queries than keys) or when there are no keys (`VarlenForward.VarlenRow`,
  `VarlenForward.LseLost`), which makes the head's sink gradient undefined (`VarlenSink.SinkGradientNumberIff`); so
  does an unwritten row when the padded buffer is longer than the launched blocks of rows;
- the packed-sequence backward kernel multiplies a zero probability by the unwritten Delta of buffer rows past the
  sequence, so that its gradients, and those of the neighbour in the packed tensors, are numbers whatever that
  memory holds exactly when the query block size divides the query length or the sequence fills its buffer
  (`VarlenGradients.CleanWhenDivided`, `VarlenGradients.TailPoisons`);
- the packed-sequence backward kernel is launched over the longest *query* length, and loses the keys beyond it
  (`VarlenBackward.GridCoversIff`, `VarlenBackward.GridTooSmall`);
- the block-sparse merge multiplies zero weights by lanes that the masked load leaves undefined, and is a number
  whatever they hold exactly when there is a selected key and the number of splits is a power of two
  (`SparseDecode.MergeNumberIff`, `SparseDecode.ThreeSplits`);
- the conjugate-gradient loop descends from all right-hand sides exactly when R is doubly stochastic
  (`SinkhornGuard.CurvatureExact`, `SinkhornGuard.DescendsExact`), where the forward pass leaves rows that sum to one;
  `SinkhornGuard.BackwardRun` is a forward result and an upstream gradient on which it steps backwards.

## Model

| member | source | states |
|---|---|---|
| `PipelineInvariant.StepKeeps` | examples/blockscaled_gemm_sm100/gemm_mxfp8_blockscaled_1d1d.py:388-511 | every step of every warp, copy, tensor-core operation and delivery keeps the pipeline invariant |
| `PipelineInvariant.LoaderWait` | examples/blockscaled_gemm_sm100/gemm_mxfp8_blockscaled_1d1d.py:398-401 | the loader's parity wait on `consumed` passes if and only if the stage's previous step was consumed, never on an older phase of the same parity |
| `PipelineInvariant.TransposerWait` | examples/blockscaled_gemm_sm100/gemm_mxfp8_blockscaled_1d1d.py:482-485 | the transposer's wait on `loaded` passes if and only if all copies of its own step have landed |
| `PipelineInvariant.IssuerWait` | examples/blockscaled_gemm_sm100/gemm_mxfp8_blockscaled_1d1d.py:450-453 | the issuer's wait on `with_sf_full` passes if and only if both CTAs have finished transposing its own step |
| `PipelineInvariant.EmptyWait` | examples/blockscaled_gemm_sm100/gemm_mxfp8_blockscaled_1d1d.py:447-448 | the issuer's wait on `tmem_empty` passes if and only if all eight epilogue warps released the previous wave |
| `PipelineInvariant.FullWait` | examples/blockscaled_gemm_sm100/gemm_mxfp8_blockscaled_1d1d.py:500-501 | an epilogue warp's wait on `tmem_full` passes if and only if the completion of its own wave was delivered to its CTA |
| `PipelineInvariant.StageHolds` | examples/blockscaled_gemm_sm100/gemm_mxfp8_blockscaled_1d1d.py:402-436 | from issue of a step until its completion reaches a CTA, the CTA's stage holds exactly the A and B tiles that this CTA loaded for that (wave, k), and its transposed scales on scale steps |
| `PipelineInvariant.AccumulatorHeld` | examples/blockscaled_gemm_sm100/gemm_mxfp8_blockscaled_1d1d.py:500-503 | between an epilogue warp's wait and its release the accumulator is the finished product of its wave and the issuer has not started the next one |
| `PipelineTheorems.ReachableInv` | examples/blockscaled_gemm_sm100/gemm_mxfp8_blockscaled_1d1d.py:379-511 | the invariant holds after every interleaving of every length |
| `PipelineTheorems.PhaseOrder` | examples/blockscaled_gemm_sm100/gemm_mxfp8_blockscaled_1d1d.py:379-381 | per stage and CTA, in every reachable state: consumed <= with_sf_full <= loaded <= consumed + 1 completed phases |
| `PipelineTheorems.AccumulatorPhaseOrder` | examples/blockscaled_gemm_sm100/gemm_mxfp8_blockscaled_1d1d.py:382-383 | in every reachable state of the persistent kernel and in both CTAs: tmem_empty <= tmem_full <= tmem_empty + 1 completed phases |
| `PipelineTheorems.StageRaceFree` | examples/blockscaled_gemm_sm100/gemm_mxfp8_blockscaled_1d1d.py:388-490 | from issue of a step's MMA until its completion reaches a CTA, the CTA's stage holds the operands this CTA loaded for it and no step of any actor changes it |
| `PipelineTheorems.ClearAfterRelease` | examples/blockscaled_gemm_sm100/gemm_mxfp8_blockscaled_1d1d.py:448-465 | no MMA of a wave executes before every epilogue warp of both CTAs released all earlier waves |
| `PipelineTheorems.NoOverrun` | examples/blockscaled_gemm_sm100/gemm_mxfp8_blockscaled_1d1d.py:379-383 | no barrier receives an arrival that its current phase does not await |
| `PipelineTheorems.Progress` | examples/blockscaled_gemm_sm100/gemm_mxfp8_blockscaled_1d1d.py:388-511 | deadlock freedom: a reachable state with an unfinished warp has an enabled step |
| `PipelineTheorems.WorkDecreases` | examples/blockscaled_gemm_sm100/gemm_mxfp8_blockscaled_1d1d.py:388-511 | one measure over all remaining work strictly falls on every step |
| `PipelineTheorems.Termination` | examples/blockscaled_gemm_sm100/gemm_mxfp8_blockscaled_1d1d.py:233-310 | for every stage count, k_iters and wave count every run is bounded, and a run that cannot be extended has finished every warp |
| `PipelineTheorems.CompletedRunOutput` | examples/blockscaled_gemm_sm100/gemm_mxfp8_blockscaled_1d1d.py:500-511 | a run that cannot be extended has given every epilogue warp, for every wave, exactly that wave's k_iters products in order: of the A rows and scales its own CTA loaded, with the left columns CTA 0 loaded and the right ones CTA 1 did |
| `BlockScaled.UnpackPack` | examples/blockscaled_gemm_sm100/gemm_mxfp8_blockscaled_1d1d.py:524-531 | unpacking undoes packing for every row and scale block |
| `BlockScaled.ByteOrder` | examples/blockscaled_gemm_sm100/gemm_mxfp8_blockscaled_1d1d.py:515-531 | a packed word is its four bytes, the one of the first scale block lowest |
| `BlockScaled.UnpackSf` | examples/blockscaled_gemm_sm100/gemm_mxfp8_blockscaled_1d1d.py:515-521 | the lane-by-lane fill leaves in each cell byte j mod 4 of word j / 4 of its row, trimmed to the requested columns |
| `BlockScaled.BlockProduct` | examples/blockscaled_gemm_sm100/gemm_mxfp8_blockscaled_1d1d.py:613-624 | the loop over one scale block computes the scaled inner product of its elements, a short last block included |
| `BlockScaled.GemmRef` | examples/blockscaled_gemm_sm100/gemm_mxfp8_blockscaled_1d1d.py:600-625 | the loops over scale blocks, rows and columns compute the block-scaled double sum for every element |
| `BlockScaled.ScaleSteps` | examples/blockscaled_gemm_sm100/gemm_mxfp8_blockscaled_1d1d.py:607-609 | scale byte 127 stands for one, and each further exponent doubles the scale |
| `BlockScaled.NeutralScales` | examples/blockscaled_gemm_sm100/gemm_mxfp8_blockscaled_1d1d.py:600-625 | with all scale bytes at 127 the reference is the plain matrix product, whatever the granularity |
| `BlockScaled.MmaIsRefBlock` | examples/blockscaled_gemm_sm100/gemm_mxfp8_blockscaled_1d1d.py:425-469 | the MMA of step k, with the scale byte k mod period of the last loaded word and the B halves of the two CTAs, adds exactly the reference's scale block k |
| `BlockScaled.AccIsReference` | examples/blockscaled_gemm_sm100/gemm_mxfp8_blockscaled_1d1d.py:449-469 | the intended products of a wave add up to the reference element |
| `BlockScaled.KernelMatchesReference` | examples/blockscaled_gemm_sm100/gemm_mxfp8_blockscaled_1d1d.py:439-511 | whatever the interleaving, and for the persistent and the one-tile kernel, what each epilogue warp copied for each wave, its rows and column halves taken from the CTAs that loaded the operands, is the reference block-scaled product of its tile |
| `GemmOutput.WrittenOnce` | examples/blockscaled_gemm_sm100/gemm_mxfp8_blockscaled_1d1d.py:349-396 | no element of C is written by two slots (cluster, wave, CTA, lane), one is written if and only if its block row has a cluster, and all are when the number of block rows is even |
| `GemmOutput.WrittenCorrectly` | examples/blockscaled_gemm_sm100/gemm_mxfp8_blockscaled_1d1d.py:389-511 | with each cluster run over its active waves, what is stored at an element of C is the reference value of that element, for every interleaving |
| `GemmOutput.OneTileCorrect` | examples/blockscaled_gemm_sm100/gemm_mxfp8_blockscaled_1d1d.py:206-312 | the same for the one-tile 2-CTA kernel and its launch grid |
| `BlockScaled.ScalePickExact` | examples/blockscaled_gemm_sm100/gemm_mxfp8_blockscaled_1d1d.py:338-354 | the word and byte selected at a step belong to the own scale block of every element along K if and only if block_K equals the granularity |
| `BlockScaled.WrongScalePicked` | examples/blockscaled_gemm_sm100/gemm_mxfp8_blockscaled_1d1d.py:340-340 | an element that gets the scale of another block when they differ |
| `TileMap.TileRoundTrip` | examples/blockscaled_gemm_sm100/gemm_mxfp8_blockscaled_1d1d.py:391-394 | the tile of an id determines the id |
| `TileMap.IdRoundTrip` | examples/blockscaled_gemm_sm100/gemm_mxfp8_blockscaled_1d1d.py:391-394 | every tile of the grid has an id below the tile count that maps to it |
| `TileMap.GuardExact` | examples/blockscaled_gemm_sm100/gemm_mxfp8_blockscaled_1d1d.py:396-396 | the guard both CTAs evaluate is true if and only if the id is below the tile count, so they never disagree |
| `TileMap.SkippedWavesAreSuffix` | examples/blockscaled_gemm_sm100/gemm_mxfp8_blockscaled_1d1d.py:389-398 | the waves a cluster skips are a suffix, so that w * k_iters + k is the number of steps it has done |
| `TileMap.CoveredExactly` | examples/blockscaled_gemm_sm100/gemm_mxfp8_blockscaled_1d1d.py:349-396 | a tile is computed by some cluster in some wave if and only if its block row is paired |
| `TileMap.EveryTileOnce` | examples/blockscaled_gemm_sm100/gemm_mxfp8_blockscaled_1d1d.py:349-396 | no tile is computed twice, and all are computed if and only if the number of block rows is even |
| `TileMap.OddRowsLost` | examples/blockscaled_gemm_sm100/gemm_mxfp8_blockscaled_1d1d.py:351-352 | a concrete grid of three block rows whose last one no cluster computes |
| `GroupedSchedule.TileRoundTrip` | examples/blockscaled_gemm_sm100/grouped_gemm_mxfp8_blockscaled_1d1d.py:277-284 | the grouped map sends every id into the grid, short last group included, and its tile determines it |
| `GroupedSchedule.IdRoundTrip` | examples/blockscaled_gemm_sm100/grouped_gemm_mxfp8_blockscaled_1d1d.py:277-284 | every tile of the grid has an id below the tile count that maps to it |
| `GroupedSchedule.LaunchOnce` | examples/blockscaled_gemm_sm100/grouped_gemm_mxfp8_blockscaled_1d1d.py:241-286 | each tile id is launched by exactly one cluster in one wave |
| `GroupedSchedule.StoredFromOwnTile` | examples/blockscaled_gemm_sm100/grouped_gemm_mxfp8_blockscaled_1d1d.py:290-293 | whenever something is stored, the clamped loader tile is the epilogue's tile and the row is the expert's own |
| `GroupedSchedule.StoredExactlyOnce` | examples/blockscaled_gemm_sm100/grouped_gemm_mxfp8_blockscaled_1d1d.py:390-422 | each output element is stored at most once, is stored if and only if its row lies below the launched blocks of its expert, and always is when the group size is at most max_M_per_E |
| `GroupedSchedule.LongGroupLost` | examples/blockscaled_gemm_sm100/grouped_gemm_mxfp8_blockscaled_1d1d.py:237-240 | a concrete expert longer than max_M_per_E with a row that is not stored |
| `GroupedOutput.SkippedWavesAreSuffix` | examples/blockscaled_gemm_sm100/grouped_gemm_mxfp8_blockscaled_1d1d.py:286-286 | the waves in which a cluster has no tile are a suffix, as the persistent pipeline needs |
| `GroupedOutput.LoadedIsStored` | examples/blockscaled_gemm_sm100/grouped_gemm_mxfp8_blockscaled_1d1d.py:287-340 | for a slot that stores an element, the rows and scales loaded are the element's and the columns its own expert's |
| `GroupedOutput.FlatReference` | examples/blockscaled_gemm_sm100/grouped_gemm_mxfp8_blockscaled_1d1d.py:485-519 | the grouped reference is a block-scaled product with the experts' columns side by side |
| `GroupedOutput.WrittenOnce` | examples/blockscaled_gemm_sm100/grouped_gemm_mxfp8_blockscaled_1d1d.py:390-422 | each output element is written by at most one slot of the launch, by one if and only if its row lies below the launched blocks of its expert |
| `GroupedOutput.WrittenCorrectly` | examples/blockscaled_gemm_sm100/grouped_gemm_mxfp8_blockscaled_1d1d.py:273-422 | what is stored is the reference value of the element with its own expert's weights, for every interleaving |
| `PersistentFor.Decompose` | src/ir.cc:177-184 | the loop that peels remainders computes the mixed-radix digits of the linear index |
| `PersistentFor.CoordsRoundTrip` | src/ir.cc:202-206 | the coordinates of an index determine it, and all but the last lie in range |
| `PersistentFor.IndexRoundTrip` | src/ir.cc:165-206 | every coordinate vector with those in range is the image of one index |
| `PersistentFor.CoverExactlyWhenEven` | src/ir.cc:147-206 | for any rank, (wave, index) pairs cover the domain exactly once if and only if groups are even (or there is one row) and the break is present or the waves are full |
| `PersistentFor.StaticCover` | src/ir.cc:192-196 | for static shapes, where the break is emitted with two waves or more: exact cover if and only if the groups are even (or there is one row) and the domain fills a wave |
| `Pdd.Select` | tilelang/autodd.py:582-592 | the selection loop takes the prefix, count and product its specification gives |
| `Pdd.SortedFacts` | tilelang/autodd.py:581-581 | the candidates are the labels in order of falling probability |
| `Pdd.GreedyOptimal` | tilelang/autodd.py:581-592 | no set of uncertain labels, prefix or not, has a larger size times product of probabilities than the labels picked |
| `PddGenerator.RankFalls` | tilelang/autodd.py:568-576 | the posterior of an uncertain label of a failed task has a strictly smaller integer rank that depends on the label count only |
| `PddGenerator.TaskFalls` | tilelang/autodd.py:593-599 | each task the generator yields lowers the total rank, for any `apply` and any probabilities |
| `PddGenerator.Generate` | tilelang/autodd.py:578-599 | the generator halts: it yields at most as many tasks as the initial total rank |
| `PddGenerator.ProbabilisticDd.UpdateProbas` | tilelang/autodd.py:559-576 | the in-place updates set applied labels of an interesting task to one and masked labels to zero, keep all others, and give a failed task's applied labels the specified posterior |
| `PddGenerator.ProbabilisticDd.Update` | tilelang/autodd.py:601-602 | the object's probabilities become that posterior |
| `PddGenerator.ProbabilisticDd.Generator` | tilelang/autodd.py:578-599 | the loop on a private copy yields exactly the specified tasks and leaves the object unchanged |
| `PddRounds.FailedPosterior` | tilelang/autodd.py:566-576 | a failed task updates each uncertain applied label by Bayes' rule, (1 - p')(1 - prod) = 1 - p, and no other label |
| `PddRounds.GenerateRounds` | tilelang/autodd.py:578-599 | task i of the generator is the one of the probabilities after i failed rounds |
| `PddRounds.GenerateEnds` | tilelang/autodd.py:578-599 | the generator ends at a round that stops, and at none before |
| `PddRounds.StopsExactly` | tilelang/autodd.py:582-599 | a round ends the generator if and only if every label it selected and applied is certain already, in particular when no label is uncertain |
| `PddRounds.TaskSplitsSelection` | tilelang/autodd.py:593-599 | applied and masked split the selection, and applied is what `apply` kept of it |
| `PddRounds.AfterInteresting` | tilelang/autodd.py:561-565 | after an interesting task, through any number of failed ones, its applied labels are in every later selection and its masked labels in none |
| `PddRounds.TasksAfterInteresting` | tilelang/autodd.py:559-599 | so every task the generator then yields holds the accepted labels and none of the masked |
| `Rewrites.Visit` | tilelang/autodd.py:493-524 | applying rewrites terminates, although rewritten nodes are visited again, and applies only target labels |
| `Rewrites.ApplyStable` | tilelang/autodd.py:527-530 | applying only the labels that were applied gives the identical tree and label set |
| `Rewrites.ApplyBetween` | tilelang/autodd.py:628-642 | so does every label set between the applied labels and the targets |
| `RewriteMeaning.ApplyNothing` | tilelang/autodd.py:493-530 | without a target in the tree, the tree comes out unchanged and nothing is reported |
| `RewriteMeaning.ApplyOne` | tilelang/autodd.py:493-530 | with one targeted node, at any path of the tree, the result is the tree with that node dropped, replaced or replaced by several as its first targeted rewrite says, and that label alone is reported |
| `RewriteMeaning.AppliedStand` | tilelang/autodd.py:500-524 | with any targets, every reported label is the first target of a node of the tree, or of what a rewrite made of it, whose own rewrite result stands in the output with its parts visited |
| `Freeze.VisitKeeps` | tilelang/autodd.py:493-524 | the applier keeps all frozen subtrees of a guarded tree, unchanged and in order, for every target set |
| `Freeze.AttachCorrect` | tilelang/autodd.py:431-476 | attaching changes identifiers and labels only, leaves no rewrite inside frozen regions and clears those of every enclosing statement |
| `Freeze.AttachUids` | tilelang/autodd.py:431-444 | identifiers handed out lie in the counter's range |
| `AttachLabels.MatchingExact` | tilelang/autodd.py:452-458 | a node gets one rewrite for every matching rule and none besides, in the order of the rules and with consecutive labels |
| `AttachLabels.AttachExact` | tilelang/autodd.py:431-476 | so does every node of the tree outside frozen regions, unless it is a statement with a frozen part inside; labels rise and are distinct over the tree, and nodes are numbered consecutively, both in pre-order |
| `Freeze.FreezePreserved` | tilelang/autodd.py:430-524 | with statement-level rewrites every frozen subtree of the source appears unchanged and in order in the output, for every tree and label set |
| `FastReducers.FastMatchesStatements` | tilelang/autodd.py:1334-1340 | the rules of `fast_reducers` match statements only |
| `FastReducers.FastClosed` | tilelang/autodd.py:1276-1340 | they invent no node identifiers |
| `FastReducers.FastSafe` | tilelang/autodd.py:1276-1340 | they create no frozen region |
| `FastReducers.IfRulesLeave` | tilelang/autodd.py:1306-1328 | if-remover-1 and -2 leave the statements of the body, if-remover-3 those of the else part; the first matches only without one |
| `FastReducers.ForRuleLeaves` | tilelang/autodd.py:1276-1285 | for-bind-0 leaves the body after an assignment of zeros, one for each target of a tuple |
| `FastReducers.FastReducersPreserve` | tilelang/autodd.py:1334-1340 | so with them every frozen region of every program survives, unchanged and in order, for every label set |
| `AstPdd.TreeApplyShrinks` | tilelang/autodd.py:628-630 | the rewrites as `apply` only drop labels, as the generator demands |
| `AstPdd.TreeApplyStable` | tilelang/autodd.py:633-642 | the tree emitted for a task is that of the selection it was scored on |
| `AstPdd.FastTasks` | tilelang/autodd.py:617-642 | with the fast reducers, on every program and from any probabilities, finitely many tasks are yielded and the tree of each keeps all frozen regions |
| `RewriteClasses.RewriteApplier.Visit` | tilelang/autodd.py:486-524 | the visitor with its mutable visited and applied sets computes the specified visit |
| `RewriteClasses.RewriteApplier.VisitItems` | tilelang/autodd.py:383-403 | the child-list update drops, replaces or splices each element as specified |
| `RewriteClasses.RewriteAttacher.Visit` | tilelang/autodd.py:415-476 | the visitor with its counters and freeze stack computes the specified labelling and restores the stack |
| `Pool.StepKeeps` | tilelang/autodd.py:1157-1231 | every step of every worker and of the driver keeps the monitor invariant |
| `Pool.ResultsReachTheirManager` | tilelang/autodd.py:1152-1191 | in every reachable state a finished run has no task in flight, and a running worker's task belongs to the current task manager |
| `Pool.ProgressIffWorkers` | tilelang/autodd.py:1157-1231 | no reachable state of an unfinished run has every worker and the driver waiting un-notified, if and only if there is a worker |
| `Pool.StopWakesAll` | tilelang/autodd.py:1213-1221 | once stop has notified, between runs or in the middle of one, every worker has left, leaves at its next step, or does after submitting the task it still runs |
| `Pool.StopEnds` | tilelang/autodd.py:1213-1221 | at most two steps per worker remain then, and when none is left all workers have left |
| `Pool.CalmStretchBounded` | tilelang/autodd.py:1157-1191 | the number of steps without an interesting result or a new run is bounded |
| `Pool.FinishedHandedOut` | tilelang/autodd.py:1157-1191 | when a run has finished, the tasks handed out since its start or its last interesting result are exactly those supplied then |
| `Pool.InterestingWakesAll` | tilelang/autodd.py:1181-1185 | right after an interesting result the generator is the renewed one and nobody is parked un-notified |
| `Pool.OtherResultLeavesAll` | tilelang/autodd.py:1181-1183 | any other result changes nothing but the worker that brought it |
| `Pool.NextStepTakesTask` | tilelang/autodd.py:1157-1170 | while tasks remain and nobody stopped the run, a worker that can enter gets one at its next step |
| `Softmax.AnyReference` | examples/attention_sink/example_mha_sink_fwd_bhsd.py:125-128 | sums kept relative to any finite reference, the forced 0 included, give the same attention |
| `Softmax.Append` | examples/attention_sink/example_mha_sink_fwd_bhsd.py:114-123 | rescaling by the change of reference and adding a block's own sums is the sum over both |
| `SinkForward.ReferenceIsAttention` | examples/attention_sink/example_mha_sink_fwd_bhsd.py:167-177 | the one-shot reference, shifted by the larger of sink and maximal logit, is attention with a sink logit |
| `SinkForward.BlockStep` | examples/attention_sink/example_mha_sink_fwd_bhsd.py:97-123 | one block: the new maximum, the rescaled sums and the block's share are the sums over one more block, and -inf minus -inf is not evaluated |
| `SinkForward.OnlineRow` | examples/attention_sink/example_mha_sink_fwd_bhsd.py:86-123 | the loop leaves the sums over all visited blocks, with a finite maximum if and only if a block was visited |
| `SinkForward.RangeCoversVisible` | examples/attention_sink/example_mha_sink_fwd_bhsd.py:82-94 | the block range of a valid row is non-empty and holds all its visible keys, for every block size, past_len >= 0 and positive window; without a window its first block has a visible key |
| `SinkForward.SinkRow` | examples/attention_sink/example_mha_sink_fwd_bhsd.py:76-128 | every valid row equals the reference row, and the logarithm is that of the whole normaliser, sink included |
| `SinkBackward.Preprocess` | examples/attention_sink/example_gqa_sink_bwd_bhsd.py:151-163 | the chunked, lane-wise accumulation is the inner product of output and gradient, for every width |
| `SinkBackward.Rebuilt` | examples/attention_sink/example_gqa_sink_bwd_bhsd.py:122-129 | probabilities rebuilt from the stored logarithm and the sink's add up to one, and average the values to the output |
| `SinkBackward.RowConservation` | examples/attention_sink/example_gqa_sink_bwd_bhsd.py:271-289 | over the keys of a row, whatever the mask, the score gradients and the sink gradient cancel exactly |
| `SinkBackward.TiledConservation` | examples/attention_sink/example_gqa_sink_bwd_bhsd.py:259-295 | the same for the sum over any tiling of the keys |
| `SinkBackward.KernelConservation` | examples/attention_sink/example_gqa_sink_bwd_bhsd.py:122-326 | the same for the outputs of the chained kernels: forward row and logarithm, preprocessed Delta, score gradients, and the stored sink gradient, which is multiplied by sm_scale here because the stored score gradients are |
| `VarlenForward.ForwardRange` | examples/attention_sink/example_gqa_sink_bwd_varlen.py:105-124 | in every causal and window mode the visited blocks hold every unmasked key, and none is visited if and only if there are no keys or all rows of the block lie before the first one |
| `VarlenForward.VarlenRow` | examples/attention_sink/example_gqa_sink_bwd_varlen.py:99-212 | every valid row equals the reference row; the logarithm is that of the normaliser, and is not a number exactly when no block was visited |
| `VarlenForward.LseLost` | examples/attention_sink/example_gqa_sink_bwd_varlen.py:105-209 | a concrete sequence whose leading block loses its logarithm; none does with keys and no more queries than keys, or without causality |
| `VarlenBackward.MasksAgree` | examples/attention_sink/example_gqa_sink_bwd_varlen.py:400-436 | forward mask, backward mask and reference mask are the same relation |
| `VarlenBackward.LoopCovers` | examples/attention_sink/example_gqa_sink_bwd_varlen.py:381-391 | the query blocks visited for a key block hold every unmasked pair of it, in every mode |
| `VarlenBackward.PairsAgree` | examples/attention_sink/example_gqa_sink_bwd_varlen.py:105-436 | pairs with weight in the forward blocks, in the backward blocks and in the reference coincide, up to keys beyond the backward grid |
| `VarlenBackward.GridCoversIff` | examples/attention_sink/example_gqa_sink_bwd_varlen.py:343-343 | the backward grid reaches every weighted pair if and only if it reaches the last key |
| `VarlenBackward.GridTooSmall` | examples/attention_sink/example_gqa_sink_bwd_varlen.py:556-569 | a concrete sequence, longer in keys than in queries, that loses a pair under the launched grid |
| `VarlenBackward.FixedLength` | examples/attention_sink/example_gqa_sink_bwd_bhsd.py:259-279 | the fixed-length backward mask agrees on valid queries with that of a packed sequence of equal lengths, and its loop bounds hold every unmasked pair of a key block |
| `VarlenGradients.Products` | examples/attention_sink/example_gqa_sink_bwd_varlen.py:398-452 | each tile product is the meant one while Delta is a number; an undefined Delta makes the products into dK and dQ undefined, masked or not, and an undefined logarithm none |
| `VarlenGradients.GradientsCross` | examples/attention_sink/example_gqa_sink_bwd_varlen.py:444-458 | in every column, the sum of K times its gradient equals the sum of Q times its own, and both the score gradients of all pairs weighted by the products of their entries |
| `VarlenGradients.ValuesCross` | examples/attention_sink/example_gqa_sink_bwd_varlen.py:425-458 | over all columns, the sum of V times its gradient is dP summed over all pairs with their probabilities |
| `VarlenGradients.KeyBlock` | examples/attention_sink/example_gqa_sink_bwd_varlen.py:373-458 | one key block adds to each query of the sequence its sum over the block, to each of its keys the sum over all queries, and an undefined value to dK and to the rows past the sequence exactly when it visits an undefined Delta |
| `VarlenGradients.Backward` | examples/attention_sink/example_gqa_sink_bwd_varlen.py:343-458 | the whole grid: dQ, dK and dV receive each masked pair of the reached keys exactly once; rows of the neighbours in the packed tensors keep their values unless an undefined Delta is visited |
| `VarlenGradients.TotalsMeant` | examples/attention_sink/example_gqa_sink_bwd_varlen.py:343-458 | a query receives its gradient from all keys the grid reaches, and keys past the sequence none |
| `VarlenGradients.NumbersIff` | examples/attention_sink/example_gqa_sink_bwd_varlen.py:444-458 | all that is added is a number if and only if no launched key block visits an undefined Delta |
| `VarlenGradients.CleanIff` | examples/attention_sink/example_gqa_sink_bwd_varlen.py:254-260 | it is a number whatever the unwritten rows of the padded buffer hold, with zeros read past its end, if and only if no launched key block visits one of those rows |
| `VarlenGradients.CleanWhenDivided` | examples/attention_sink/example_gqa_sink_bwd_varlen.py:386-393 | which, for a grid that reaches all keys, is if and only if the query block size divides the query length or the sequence fills its buffer |
| `VarlenGradients.TailPoisons` | examples/attention_sink/example_gqa_sink_bwd_varlen.py:444-458 | a concrete sequence in a longer buffer, all of whose key gradients, and the first queries of its neighbour, become undefined |
| `VarlenBatch.BatchBackward` | examples/attention_sink/example_gqa_sink_bwd_varlen.py:343-458 | all sequences of the packed batch: each row receives the sum of what the grids of all sequences add to it |
| `VarlenBatch.QueryReceives` | examples/attention_sink/example_gqa_sink_bwd_varlen.py:343-458 | unless a grid adds an undefined value, a query row receives its own gradient and nothing else |
| `VarlenBatch.KeyReceives` | examples/attention_sink/example_gqa_sink_bwd_varlen.py:343-458 | and a key row that the grid reaches its own key and value gradients and nothing else |
| `VarlenBatch.CleanBatchIff` | examples/attention_sink/example_gqa_sink_bwd_varlen.py:343-393 | no grid of a batch does, whatever the unwritten rows hold, if and only if every sequence has a divided length or fills its buffer |
| `VarlenSink.RowUndefinedIff` | examples/attention_sink/example_gqa_sink_bwd_varlen.py:489-495 | a row of the sink gradient is undefined if and only if it lies in the sequence and its forward block visited no key |
| `VarlenSink.SinkGradient` | examples/attention_sink/example_gqa_sink_bwd_varlen.py:476-496 | the kernel and the sums over rows and batch compute the total over the padded buffer, unwritten rows included |
| `VarlenSink.LosesBlockIff` | examples/attention_sink/example_gqa_sink_bwd_varlen.py:105-115 | some launched block of a sequence visits no key if and only if it has queries and no keys, or is causal with at least a block more queries than keys |
| `VarlenSink.SinkGradientNumberIff` | examples/attention_sink/example_gqa_sink_bwd_varlen.py:583-584 | a head's sink gradient is a number whatever the unwritten rows hold if and only if no sequence loses a block and the launched rows reach the end of the padded buffer |
| `VarlenSink.SinkGradientLost` | examples/attention_sink/example_gqa_sink_bwd_varlen.py:489-495 | a concrete batch whose sink gradient is undefined for all operands and unwritten rows, and a number with fewer queries |
| `VarlenSink.PackedConservation` | examples/attention_sink/example_gqa_sink_bwd_varlen.py:446-495 | the score gradients of a query over its sequence and its sink gradient, scaled by sm_scale as they are, cancel exactly |
| `SplitDecode.MlaBoundary` | examples/deepseek_mla/benchmark_mla.py:182-184 | each split ends where the next starts, and one that starts past the end is empty |
| `SplitDecode.MlaEnds` | examples/deepseek_mla/benchmark_mla.py:182-184 | the first split starts at 0 and the last ends at the sequence length |
| `SplitDecode.LocPlaced` | examples/deepseek_mla/benchmark_mla.py:188-193 | the position of a key keeps its offset in the page and lies in the page the table gives |
| `SplitDecode.LocInjective` | examples/deepseek_mla/benchmark_mla.py:188-193 | no two keys of a request share a position if and only if no two of its pages do |
| `SplitDecode.MlaSplit` | examples/deepseek_mla/benchmark_mla.py:178-220 | a non-empty split stores the softmax output of its own keys and the logarithm of their normaliser |
| `SplitDecode.MergeIsWhole` | examples/deepseek_mla/benchmark_mla.py:294-317 | softmax over partial results, weighted by their logarithms, has the numerator and normaliser of all keys |
| `SplitDecode.MlaMerge` | examples/deepseek_mla/benchmark_mla.py:294-322 | the merge loop, which skips empty splits and never reads what they stored, gives plain softmax over all keys, and an undefined row exactly when there are none |
| `SplitDecode.MlaDecode` | examples/deepseek_mla/benchmark_mla.py:182-322 | split and merge together are plain softmax, for every length, number of splits, block size and page table; undefined exactly without keys |
| `SparseDecode.SparsePartition` | examples/blocksparse_attention/example_triton_sparse_gqa_decode_varlen_mask.py:66-80 | the runs of blocks partition the block range in order, with the remainder spread over the first splits |
| `SparseDecode.SparseSplit` | examples/blocksparse_attention/example_triton_sparse_gqa_decode_varlen_mask.py:61-107 | a split stores the softmax of its selected in-length keys, or -inf if it has none; the initial l = 1 never counts |
| `SparseDecode.MergeCorrect` | examples/blocksparse_attention/example_triton_sparse_gqa_decode_varlen_mask.py:145-161 | the one-expression merge over padded lanes is plain softmax over the selected keys; a column is a number if and only if there is such a key and the padding lanes, loaded without a default, hold numbers |
| `SparseDecode.LanesExact` | examples/blocksparse_attention/example_triton_sparse_gqa_decode_varlen_mask.py:202-202 | the number of lanes, the next power of two, equals the number of splits if and only if that is a power of two |
| `SparseDecode.MergeNumberIff` | examples/blocksparse_attention/example_triton_sparse_gqa_decode_varlen_mask.py:145-161 | the merged row is a number whatever the padding lanes hold if and only if there is a selected key and the number of splits is a power of two |
| `SparseDecode.ThreeSplits` | examples/blocksparse_attention/example_triton_sparse_gqa_decode_varlen_mask.py:145-161 | three splits over four lanes give an undefined row when the fourth lane is undefined |
| `SparseDecode.SparseDecode` | examples/blocksparse_attention/example_triton_sparse_gqa_decode_varlen_mask.py:61-164 | split and merge together are plain softmax over all selected in-length keys, when there is one and the padding lanes, none for a power of two of splits, hold numbers |
| `Sinkhorn.OperatorLinear` | examples/deepseek_mhc/example_mhc_bwd.py:65-77 | A (x + a p) = A x + a A p |
| `Sinkhorn.OperatorSymmetric` | examples/deepseek_mhc/example_mhc_bwd.py:65-77 | x'(A y) = y'(A x) |
| `Sinkhorn.QuadraticForm` | examples/deepseek_mhc/example_mhc_bwd.py:144-146 | p'Ap is the sum of R_ij (p1_i + p2_j)^2 plus what row and column sums lack to one, and exactly that sum for a doubly stochastic R |
| `SinkhornCg.UpdateKeepsResidual` | examples/deepseek_mhc/example_mhc_bwd.py:148-159 | r = b - A x survives an iteration with any alpha and beta |
| `SinkhornCg.ResidualExact` | examples/deepseek_mhc/example_mhc_bwd.py:120-170 | after any number of iterations r is exactly b - A x, and the kept norm is that of r |
| `Sinkhorn.CurvatureBound` | examples/deepseek_mhc/example_mhc_bwd.py:144-146 | for a non-negative R the curvature is at least minus the largest excess of a row or column sum over one, times |p|^2 |
| `SinkhornCg.StepLengths` | examples/deepseek_mhc/example_mhc_bwd.py:148-164 | the denominator of beta is always positive and beta times it is the new r'r, so never negative; alpha has the sign of its guarded denominator and times it is r'r |
| `SinkhornCg.GuardedWithin` | examples/deepseek_mhc/example_mhc_bwd.py:148-150 | the guarded denominator is positive when the excess of the sums times |p|^2 stays below EPS |
| `SinkhornCg.AlwaysGuarded` | examples/deepseek_mhc/example_mhc_bwd.py:142-171 | with row and column sums of at most one, a doubly stochastic R included, it is positive in every iteration |
| `SinkhornCg.StepDescends` | examples/deepseek_mhc/example_mhc_bwd.py:142-171 | a guarded iteration, with the EPS-shortened step and for any R, lowers x'Ax - 2b'x by at least alpha r'r and keeps p'r >= r'r |
| `SinkhornCg.RunDescends` | examples/deepseek_mhc/example_mhc_bwd.py:142-171 | over a run that stays guarded each iterate is at least as good as the one before, strictly better while the residual is non-zero |
| `SinkhornGuard.ForwardRowStochastic` | examples/deepseek_mhc/example_mhc_bwd.py:21-29 | every iteration of the forward pass on a positive matrix leaves positive entries and rows that sum to one |
| `SinkhornGuard.FixedExactly` | examples/deepseek_mhc/example_mhc_bwd.py:21-29 | an iteration of the forward pass leaves a positive matrix unchanged if and only if it is doubly stochastic |
| `SinkhornGuard.CurvatureExact` | examples/deepseek_mhc/example_mhc_bwd.py:65-77 | for a non-negative R with such rows no direction has negative curvature if and only if R is doubly stochastic |
| `SinkhornGuard.StepAscends` | examples/deepseek_mhc/example_mhc_bwd.py:148-159 | a step against a curvature below -2 EPS raises the objective |
| `SinkhornGuard.DescendsExact` | examples/deepseek_mhc/example_mhc_bwd.py:142-171 | for such R every iteration of every run, from any right-hand sides, lowers the objective while there is a residual if and only if R is doubly stochastic |
| `SinkhornGuard.BackwardRun` | examples/deepseek_mhc/example_mhc_bwd.py:21-29 | a positive matrix, the result of one iteration of the forward pass on it, and a dout for which the second of the four iterations steps backwards and raises the objective |
| `SinkhornCg.GradientSums` | examples/deepseek_mhc/example_mhc_bwd.py:173-174 | for a doubly stochastic R the returned gradient has row sums exactly r1 and column sums exactly r2, whose totals agree |
| `SinkhornConjugate.CrossExact` | examples/deepseek_mhc/example_mhc_bwd.py:142-171 | with any guard, alpha p_{k+1}'A p_k is exactly what the guard and the step before leave over |
| `SinkhornConjugate.CrossBounded` | examples/deepseek_mhc/example_mhc_bwd.py:142-171 | for the kernel's EPS, while the steps are guarded and there is a residual, p_{k+1}'A p_k is in absolute value at most EPS times the sizes of the steps plus beta times the bound before |
| `SinkhornConjugate.MutuallyConjugate` | examples/deepseek_mhc/example_mhc_bwd.py:142-171 | at a guard of zero, while no denominator is zero, all residuals are mutually orthogonal and all directions mutually conjugate |
| `SinkhornExact.DimensionBound` | examples/deepseek_mhc/example_mhc_bwd.py:142-142 | no more than 2n non-zero stacked vectors are mutually orthogonal, so 2n iterations are enough |
| `SinkhornExact.CurvaturePositive` | examples/deepseek_mhc/example_mhc_bwd.py:144-150 | for a doubly stochastic R and the right-hand sides of the kernel, at a guard of zero every direction has positive curvature while there is a residual |
| `SinkhornExact.Solved` | examples/deepseek_mhc/example_mhc_bwd.py:142-171 | at a guard of zero the residual vanishes after at most 2n steps, and no denominator before is zero |
| `SinkhornExact.ExactlySolved` | examples/deepseek_mhc/example_mhc_bwd.py:142-171 | the 2n steps of the loop then leave no residual |
| `SinkhornExact.ExactProjection` | examples/deepseek_mhc/example_mhc_bwd.py:117-176 | and the returned gradient has zero row and column sums; it is the only one of its form that has |
| `SinkhornSolver.MatVec` | examples/deepseek_mhc/example_mhc_bwd.py:65-77 | the two reductions and the added identity leave A x in the output buffers |
| `SinkhornSolver.DotProduct` | examples/deepseek_mhc/example_mhc_bwd.py:79-84 | the reduction is the inner product of the stacked vectors |
| `SinkhornSolver.Buffers.Iterate` | examples/deepseek_mhc/example_mhc_bwd.py:142-171 | one pass over the buffers is one step of the specification, every buffer included |
| `SinkhornSolver.Backward` | examples/deepseek_mhc/example_mhc_bwd.py:117-176 | the kernel returns the projection at the iterate after 2n steps; with a guard of zero and a doubly stochastic R, the exact one |

## Left out

- The 1-CTA block-scaled kernel, whose issuer waits on `loaded` besides `with_sf_full` and whose epilogue starts with a block-wide synchronisation.
- The non-persistent grouped kernel. The persistent one is the persistent pipeline with its own tile map, its clamped loads and its guarded stores.
- What TMA, swizzles, TMEM layouts, warp policies and matrix instructions do inside: each is an atomic copy or product, with an asynchronous completion in the pipeline model. In-order execution of tcgen05 operations and delivery of the completion to both CTAs are built into the steps.
- Floating-point rounding, casts and overflow: exact reals throughout, with the constant 1.44269504 as a parameter. The E8M0 code 255, a NaN of the format, is treated as the exponent 128.
- BlockScaled.KernelMatchesReference: speaks about block_K equal to the scale granularity, outside of which the kernel picks wrong scale bytes.
- The rows of a block past the end of the tensors in the fixed-length attention kernels, whose results are dropped by the copy.
- The interleaving of atomic adds in the backward kernel: blocks are added one after the other, and addition of reals does not depend on the order.
- SinkhornCg.RunDescends: asks for a run whose guarded denominators stay positive; `SinkhornGuard.DescendsExact` says for which R all runs do. Its failing right-hand sides are arbitrary vectors, and `SinkhornGuard.BackwardRun` shows one pair that comes from an upstream gradient; which gradients do so for a given R is not characterised.
- SinkhornExact.ExactProjection: speaks about a guard of zero and takes 0 / 0, which occurs after the residual has vanished and which the kernel's EPS is there to avoid, to be 0. With EPS the iterates are not exact, and how far the last one is from the solution is not bounded.
- TileMap.EveryTileOnce: leaves out a single block row, where the tile map is undefined.
- Positions of the sequence other than one: the tile index of the Sinkhorn kernel is carried by every buffer and mixes nothing.
- Expression-level rewrites and the canonicalizers in the freeze property: frozen expressions are protected through enclosing statements only. The parent and field arguments of match and rewrite are not part of this model.
- Runner processes, timeouts, files, ruff, the command line and exceptions in workers: a run of a candidate is an arbitrary verdict, interesting or not. An interrupted driver is the action Stop in the middle of a run.
- The order of `list(applied)`, a set: labels are kept in selection order, which no property depends on.
- PddGenerator.ProbabilisticDd.Generator: takes `apply` to return a subset of its argument, as the base class does and `AstPdd.TreeApplyShrinks` proves of the tree's.
- `_ast_match` and `_ast_replace` in general: the five patterns of the fast reducers are written out with the results they give. Unparsing and freeze comments.
- All other kernels, autotuning, benchmarks, environment discovery and the builder frames of src/ir.cc other than the index arithmetic.
