# A verified model of tt-mlir's transformations and runtime protocols

tt-mlir compiles tensor programs for Tenstorrent devices. This project models five parts of it in
Dafny, each in the form the C++ has, and proves what those parts are for.

**Const-eval hoisting and its undo** (`lib/Transforms/ConstEvalHoist.cpp`). A function is a
straight-line list of pure ops of four kinds (terminator, creation, shared, ordinary) with an
evaluator in which the meaning of a named op is a parameter (`IR`). The analysis is a class with the
union-find and the maps of the source (`ConstEvalAnalysis`, over `UnionFind`, `ConstEvalGroups` and
the independent definitions of `ConstEvalSpec`); its result is the set of connected components of the
ops that move. The transform outlines one component after another (`Outlining`, `HoistSpec`,
`ConstEvalHoist`), the undo inlines and deduplicates (`Inlining`, `Dedup`, `ConstEvalUndo`), and
`ConstEvalPass` is the pass that undoes first. Proved: no assertion of the source can fail, results
are preserved in any subgraph order, nothing hoisted depends on an argument that is not constant and
everything that may be hoisted is (`ConstEvalMeaning`), uses follow definitions, undo is the inverse
up to renaming and duplicate shared ops (`Renaming`, `RoundTrip`), and a second run finds the same
groups.

**Tensor decompositions.** A tensor is a shape and a row-major sequence of integers (`Shapes`,
`Permutations`, `Tensors`). `DotGeneral`, `Gather`, `Select`, `Broadcast` and `CumSum` with
`CumSumMeaning` state the source op as the StableHLO specification or the TTIR definition has it,
build the rewrite as the code builds it, and prove them equal for every rank and shape.

**Mesh sharding.** `MeshSharding` is the class that infers mesh and shard dimensions and converts to
an attribute and back; `ShardTensors` spreads a tensor over a 2-D mesh and gathers it.

**Scheduling.** `Scheduler` is the mutable scheduler: runs are topological orders and never get stuck.

**Circular buffers.** `AwaitYield` moves waits, pops, reserves and pushes inside a block as the
rewriter does, and `LoweredLayout` says where everything ends up. `CircularBuffers` interleaves any number of threads and proves occupancy, reads,
writes and progress of every run, `BufferContents` adds the cells and proves that every read finds
what was written for it, and `AwaitYield.LoweredRunsAreSafe` states the result for lowered threads.

Where the source turned out not to do what it is for, the exact condition is proved:

- a legal gather with an empty start index map has a rewrite iff its result is empty
  (`Gather.GatherToEmbedding`; `Gather.NothingIndexedFails` is one without);
- with start indices out of bounds the rewritten gather is the specified one for every operand iff at
  each batch the row equals the clamped one (`Gather.AlwaysGathersIff`, `Gather.OutOfBoundsFails`);
- a select that verifies is rewritten iff its stride is not 0, and otherwise the rewrite divides by
  zero (`Select.SelectToSlices`, `Select.DefaultStrideFails`);
- the cumsum matcher compares 64-bit attributes as 32-bit integers (`CumSum.OnesChecked`), so it
  accepts windows that are no prefix sums (`CumSum.WideStrideAccepted`); `CumSumMeaning.KeepsSums` is
  the condition under which an accepted one is, and `CumSumMeaning.AcceptedIsCumSumIff` proves it exact;
- for all-ones windows with unequal padding the matcher refuses only after reading the shape at a
  dimension nothing assigned (`CumSum.ValidateNonSplatPadding`, `CumSum.UnassignedDimensionIsRead`);
- reading a sharding attribute back restores the sharding iff it was over devices and the reading
  object held no wrong dimension (`MeshSharding.AttributeRoundTrip`, `MeshSharding.ReplicationIsLost`,
  `MeshSharding.StaleDimensionSurvives`). The one caller,
  `lib/Conversion/StableHLOToTTIR/ShardyToTTIRPatterns.cpp:505-506`, reads into a new object, so stale
  dimensions are not reached today; attributes of shardings not over devices are;
- one dimension split over all devices is refused on a mesh already given as `[1, N]`
  (`MeshSharding.MatchedIffFits`, `MeshSharding.LineFitsFirstDimension`);
- gathering a tensor that no mesh axis splits reads outside the shard shape
  (`ShardTensors.ShardToFullShape`, `ShardTensors.UnsplitIsNotGathered`);
- the scheduler records only uses of first results as dependencies, and schedules respect all uses iff
  those imply the others (`Scheduler.ReadsRespectedIff`; `Scheduler.SecondResultIgnored` is a case
  where they do not).

`dafny verify dfyconfig.toml` checks the project.

## Model

| member | source | states |
|---|---|---|
| ConstEvalPass.RunOnOperation | lib/Transforms/ConstEvalHoist.cpp:494-514 | The whole pass on a parent function that may already call const-eval functions: it fails exactly when some const-eval function is not called exactly once; otherwise the output is the undone input cut along the components, returns what the input returned for every meaning of the ops and all arguments, and can be undone again; every input of a new function is a constant argument, and every cached call returns the same for argument lists that agree on the constant ones |
| ConstEvalPass.RunOnModule | lib/Transforms/ConstEvalHoist.cpp:494-514 | The same for every parent function of a module, which fails exactly when some parent does |
| ConstEvalPass.PassIsStable | lib/Transforms/ConstEvalHoist.cpp:494-514 | Running the pass on its own output hoists the same ops and forms the same groups with the same parameters, up to numbering and duplicate shared ops, whatever subgraph order either run takes |
| ConstEvalPass.PassCanRunAgain | lib/Transforms/ConstEvalHoist.cpp:417-467 | The output of a run meets everything undo needs, so a second run never fails |
| HoistSpec.HoistingKeepsMeaning | lib/Transforms/ConstEvalHoist.cpp:518-646 | After any number of subgraphs, outlined in any order, the program returns what the function returned |
| HoistSpec.SubgraphIsClosed | lib/Transforms/ConstEvalHoist.cpp:602-628 | Everything a subgraph of the partition reads is its own, shared, or one of its parameters |
| HoistSpec.OutlinedIntact | lib/Transforms/ConstEvalHoist.cpp:518-646 | While subgraphs are outlined one after another the caller stays well formed and starts with exactly the calls made so far |
| HoistSpec.GroupWaits | lib/Transforms/ConstEvalHoist.cpp:518-541 | A subgraph still to be outlined is still there op for op, and still closed, after others were outlined |
| HoistSpec.SharedWait | lib/Transforms/ConstEvalHoist.cpp:526-541 | The shared ops every new function copies are untouched by earlier outlinings |
| Outlining.AfterWellFormed | lib/Transforms/ConstEvalHoist.cpp:545-646 | After one subgraph is replaced by its call every use still follows its definition |
| Outlining.CalleeWellFormed | lib/Transforms/ConstEvalHoist.cpp:592-628 | The new function is well formed, calls nothing and returns the clones of exactly the boundary values |
| Outlining.CalleeReturns | lib/Transforms/ConstEvalHoist.cpp:592-639 | Called on the values of its inputs, the new function returns the values the group computed in place |
| Outlining.OutliningKeepsMeaning | lib/Transforms/ConstEvalHoist.cpp:545-646 | Outlining one closed group changes no result |
| Outlining.OtherGroupClosed | lib/Transforms/ConstEvalHoist.cpp:602-628 | Outlining one group keeps every disjoint group closed |
| ConstEvalHoist.ConstEvalHoistTransform.constructor | lib/Transforms/ConstEvalHoist.cpp:488-492 | A transform starts from the function and no const-eval functions |
| ConstEvalHoist.ConstEvalHoistTransform.ProcessFunction | lib/Transforms/ConstEvalHoist.cpp:518-541 | No assertion fails for any function; the subgraphs are the partition, each outlined once with its inputs among the constant arguments and its outputs in body order, and the program is the fold of the outlinings |
| ConstEvalHoist.ConstEvalHoistTransform.CreateConstEvalFunction | lib/Transforms/ConstEvalHoist.cpp:545-646 | The out-of-scope and erase-in-use assertions cannot fail for a closed group, and the program becomes the caller with the call inserted plus the new function |
| ConstEvalHoist.ConstEvalHoistTransform.ReplaceOutputs | lib/Transforms/ConstEvalHoist.cpp:636-639 | Every use of an output becomes the matching result of the call, and nothing else changes |
| ConstEvalHoist.ConstEvalHoistTransform.EraseOps | lib/Transforms/ConstEvalHoist.cpp:641-645 | Erasing the group backwards never meets an op in use and removes exactly the group |
| ConstEvalHoist.CollectSubgraphBoundary | lib/Transforms/ConstEvalHoist.cpp:676-698 | Exactly the results of the group that are used outside it, without repetition, ascending by the op's place in the group and then by result number |
| ConstEvalHoist.CloneOp | lib/Transforms/ConstEvalHoist.cpp:648-673 | Fails exactly when an operand is not mapped; otherwise the clone reads the mapped values and its results enter the map |
| ConstEvalHoist.BuildCallee | lib/Transforms/ConstEvalHoist.cpp:592-628 | For a closed group cloning never leaves the scope and every output is in the map |
| ConstEvalUndo.UndoKeepsMeaning | lib/Transforms/ConstEvalHoist.cpp:417-467 | Undo yields a well-formed function without calls, one shared op per name and attributes, and the same results for all arguments |
| ConstEvalUndo.UndoConstEvalTransform.UndoConstEvalImpl | lib/Transforms/ConstEvalHoist.cpp:417-467 | Succeeds iff every const-eval function is called exactly once; then all calls are inlined and the shared ops merged |
| ConstEvalUndo.OneCallEachIff | lib/Transforms/ConstEvalHoist.cpp:417-450 | The condition by position: each calling op names an existing function, each function is called, and no two ops call the same |
| ConstEvalUndo.CalledAt | lib/Transforms/ConstEvalHoist.cpp:433-440 | A function is called iff some op of the body loads its result |
| ConstEvalUndo.UndoConstEvalTransform.CollectCalls | lib/Transforms/ConstEvalHoist.cpp:433-440 | The call of each function; it stops exactly on a call of an unknown function or on a second call |
| ConstEvalUndo.UndoConstEvalTransform.InlineConstEvalFunction | lib/Transforms/ConstEvalHoist.cpp:381-415 | The call's position holds the callee's body and its uses read the callee's returned values; erasing the call never fails |
| ConstEvalUndo.UndoConstEvalTransform.DeduplicateSharedOps | lib/Transforms/ConstEvalHoist.cpp:336-378 | The loop over the body, with replacements in place and erasure at the end, is the merging of all later duplicates into the first; no erased op is in use |
| ConstEvalUndo.UndoConstEvalTransform.constructor | lib/Transforms/ConstEvalHoist.cpp:472-484 | Undo starts from the program |
| ConstEvalUndo.CloneBody | lib/Transforms/ConstEvalHoist.cpp:394-403 | Cloning through the growing map yields the renumbered body with parameters replaced by the call's operands |
| Inlining.InlinedWellFormed | lib/Transforms/ConstEvalHoist.cpp:381-415 | After inlining a call every use still follows its definition |
| Inlining.InliningKeepsMeaning | lib/Transforms/ConstEvalHoist.cpp:381-415 | Inlining a call changes no result |
| Dedup.DeduplicatedWellFormed | lib/Transforms/ConstEvalHoist.cpp:336-378 | After merging, every use still follows its definition |
| Dedup.DeduplicatedOnePerKey | lib/Transforms/ConstEvalHoist.cpp:336-378 | One shared op is left for each name and attributes |
| Dedup.FirstsStay | lib/Transforms/ConstEvalHoist.cpp:336-378 | An op is erased iff it is shared and an earlier shared op has its name and attributes |
| Dedup.DeduplicatedKeepsKeys | lib/Transforms/ConstEvalHoist.cpp:336-378 | No name and attributes is lost |
| Dedup.DeduplicationIsIdempotent | lib/Transforms/ConstEvalHoist.cpp:336-378 | Deduplicating again changes nothing |
| Dedup.DeduplicationKeepsMeaning | lib/Transforms/ConstEvalHoist.cpp:333-378 | Under the assumption that equal name and attributes mean equal shared ops, merging changes no result |
| RoundTrip.HoistUndoHoist | lib/Transforms/ConstEvalHoist.cpp:417-514 | Hoisting, undoing, hoisting: the same hoisted ops, the same groups, the same parameters |
| RoundTrip.UndoGivesBack | lib/Transforms/ConstEvalHoist.cpp:417-467 | Undo after hoisting gives the original function back up to numbering, order and duplicate shared ops |
| RoundTrip.SameOutlined | lib/Transforms/ConstEvalHoist.cpp:545-646 | However many groups are outlined, caller and new functions together still hold each op once, reading what it read |
| RoundTrip.SameInlined | lib/Transforms/ConstEvalHoist.cpp:381-415 | Inlining one function keeps that correspondence |
| RoundTrip.OutlinedIsUndoable | lib/Transforms/ConstEvalHoist.cpp:417-467 | Each outlined program calls each of its functions exactly once with matching operand and result counts |
| Renaming.SameHoisted | lib/Transforms/ConstEvalHoist.cpp:161-290 | The analysis hoists the same ops of two functions that differ in numbering and duplicate shared ops |
| Renaming.SameConnected | lib/Transforms/ConstEvalHoist.cpp:161-246 | Connection is the same in both |
| Renaming.GroupIsOld | lib/Transforms/ConstEvalHoist.cpp:60-106 | Every group found in the second function is a group of the first, with the same ops and parameters |
| Renaming.GroupIsNew | lib/Transforms/ConstEvalHoist.cpp:60-106 | And every group of the first is found in the second |
| ConstEvalSpec.HoistedIsFixpoint | lib/Transforms/ConstEvalHoist.cpp:161-290 | An ordinary op is hoisted iff each operand is constant, as the analysis judges operands |
| ConstEvalSpec.HoistedWhenOperandsAre | lib/Transforms/ConstEvalHoist.cpp:161-290 | The same written out: each operand is an argument marked constant, or a result of a shared op, a creation op or a hoisted op |
| ConstEvalSpec.HoistedIsLeast | lib/Transforms/ConstEvalHoist.cpp:161-290 | The one pass finds the least set closed under that rule |
| ConstEvalSpec.HoistedWhenReached | lib/Transforms/ConstEvalHoist.cpp:153-161 | Whether an op is hoisted is settled when the pass reaches it |
| ConstEvalSpec.ConstSettled | lib/Transforms/ConstEvalHoist.cpp:251-290 | Whether an operand is constant is settled when the op that uses it is reached |
| ConstEvalAnalysis.ConstEvalAnalyze.GetAnalysisResults | lib/Transforms/ConstEvalHoist.cpp:60-106 | The subgraphs are exactly the connected components of the def-use links between hoisted ops and the creation ops they read, in body order, each with exactly the parameters its ops read; also every shared op |
| ConstEvalAnalysis.PartitionByRoots | lib/Transforms/ConstEvalHoist.cpp:66-99 | Collecting ops and parameters under their roots gives that partition |
| ConstEvalMeaning.OrdinaryMovesIff | lib/Transforms/ConstEvalHoist.cpp:161-290 | An ordinary op is in a subgraph iff each operand is an argument marked constant, or a result of a shared op, a creation op or an op in a subgraph |
| ConstEvalMeaning.OthersMoveIff | lib/Transforms/ConstEvalHoist.cpp:161-246 | An op of another kind is in a subgraph iff it is a creation op that an ordinary op in a subgraph reads |
| ConstEvalMeaning.ReadStaysTogether | lib/Transforms/ConstEvalHoist.cpp:193-245 | An op in a subgraph is in the same one as every op in a subgraph that reads it |
| ConstEvalMeaning.SubgraphsAreSeparate | lib/Transforms/ConstEvalHoist.cpp:193-245 | A set of ops that no read between ops in subgraphs crosses holds all of a subgraph or none of it |
| ConstEvalMeaning.SubgraphIsConstant | lib/Transforms/ConstEvalHoist.cpp:161-290 | For every meaning of the ops, every result in a subgraph is the same for argument lists that agree on the constant arguments |
| ConstEvalMeaning.InputsAreConstant | lib/Transforms/ConstEvalHoist.cpp:66-99 | Every input of a new function is a constant argument |
| ConstEvalMeaning.OutlinedCallsAreConstant | lib/Transforms/ConstEvalHoist.cpp:545-646 | For every meaning of the ops, every call of a new function returns the same for argument lists that agree on the constant arguments |
| ConstEvalMeaning.OutputsAre | lib/Transforms/ConstEvalHoist.cpp:676-698 | Whatever subgraphs were outlined before, the outputs of one are the results of its ops that an op of the original body outside it uses |
| ConstEvalMeaning.SignatureIsDetermined | lib/Transforms/ConstEvalHoist.cpp:545-628 | The inputs of each new function are the arguments its ops read, ascending, and it returns its outputs ascending by the op's place in the body and then by result number |
| ConstEvalMeaning.NewFunctionAndCall | lib/Transforms/ConstEvalHoist.cpp:545-634 | Each new function holds a copy of every shared op and then of every op of its subgraph in body order, and the caller's op of the same position calls it on its inputs |
| ConstEvalAnalysis.ConstEvalAnalyze.constructor | lib/Transforms/ConstEvalHoist.cpp:52-55 | After the pass over the block the union-find and the maps describe every op of the function |
| ConstEvalAnalysis.ConstEvalAnalyze.ProcessOp | lib/Transforms/ConstEvalHoist.cpp:161-246 | One op keeps the union-find and all maps consistent with the ops seen so far |
| ConstEvalAnalysis.ConstEvalAnalyze.ClassifyOperands | lib/Transforms/ConstEvalHoist.cpp:178-191 | Accepts iff all operands are constant, and then has gathered exactly the groups, creation ops and parameters the op reads |
| ConstEvalAnalysis.ConstEvalAnalyze.OperandIsConstEval | lib/Transforms/ConstEvalHoist.cpp:251-290 | An argument is constant iff it is marked so, a result iff its op is shared, a creation op or already hoisted; and what the operand adds to the op's dependencies in each case |
| ConstEvalAnalysis.ConstEvalAnalyze.ChooseTarget | lib/Transforms/ConstEvalHoist.cpp:193-221 | The op's group is new when it depends on none and otherwise the merger of exactly the groups it depends on |
| ConstEvalAnalysis.ConstEvalAnalyze.RecordOp | lib/Transforms/ConstEvalHoist.cpp:223-245 | The maps gain the op, the creation ops it reads first and its parameters, and nothing else |
| ConstEvalAnalysis.ConstEvalAnalyze.FindRoot | lib/Transforms/ConstEvalHoist.cpp:118-130 | Returns the root and points the id at it without changing anyone's root, and every other id at most at the same root; an unknown id becomes its own root |
| ConstEvalAnalysis.ConstEvalAnalyze.UnionSubgraphs | lib/Transforms/ConstEvalHoist.cpp:133-151 | Merges exactly the two classes, stays a balanced forest and adds no id; the root of lower rank goes under the other, and at equal rank the second under the first, whose rank grows |
| ConstEvalGroups.ExtendedIsGood | lib/Transforms/ConstEvalHoist.cpp:193-246 | The tables stay a faithful description of the groups when a hoisted op joins |
| ConstEvalGroups.LinksAgreeMore | lib/Transforms/ConstEvalHoist.cpp:193-246 | Linked ops keep the same label: no component is split |
| ConstEvalGroups.SameIsConnectedMore | lib/Transforms/ConstEvalHoist.cpp:193-246 | Ops with the same label stay connected: parameters and shared ops never join groups |
| ConstEvalGroups.ParamsExactMore | lib/Transforms/ConstEvalHoist.cpp:223-245 | The parameters recorded for a group stay exactly those its ops read |
| UnionFind.CompressionKeepsRoots | lib/Transforms/ConstEvalHoist.cpp:118-130 | Path compression changes nobody's root |
| UnionFind.LinkMerges | lib/Transforms/ConstEvalHoist.cpp:136-143 | Hanging a root under one of higher rank merges exactly their classes |
| UnionFind.UnionMerges | lib/Transforms/ConstEvalHoist.cpp:133-151 | Union merges exactly two classes, in both the unequal and the equal rank case |
| UnionFind.CompressionIsBalanced | lib/Transforms/ConstEvalHoist.cpp:118-130 | Compression keeps ranks increasing along links and every root's class at least 2^rank |
| UnionFind.FreshIsBalanced | lib/Transforms/ConstEvalHoist.cpp:119-125 | So does adding an id |
| UnionFind.UnionIsBalanced | lib/Transforms/ConstEvalHoist.cpp:133-151 | So does union |
| UnionFind.RankIsLogarithmic | lib/Transforms/ConstEvalHoist.cpp:118-151 | Hence no rank exceeds the base-2 logarithm of the number of ids |
| IR.EvalSolves | lib/Transforms/ConstEvalHoist.cpp:153-161 | In an ordered block evaluation satisfies the equation of every op: ops are pure and read earlier values only |
| IR.OneSolution | lib/Transforms/ConstEvalHoist.cpp:153-161 | And it is the only solution with the same arguments |
| IR.RunBySolution | lib/Transforms/ConstEvalHoist.cpp:153-161 | So any solution tells what a function returns |
| DotGeneral.DotGeneralToMatmul | lib/Conversion/TTIRToTTIRDecomposition/TTIRToTTIRDecomposition.cpp:790-885 | Permute, reshape, batched matmul, reshape is dot_general of the StableHLO specification (section 'dot_general') for any ranks and any legal batching and contracting dimensions: each result cell is the sum over the full contracting multi-index |
| DotGeneral.DotGeneralUnique | lib/Conversion/TTIRToTTIRDecomposition/TTIRToTTIRDecomposition.cpp:790-885 | That relation determines the result |
| DotGeneral.GetResultDims | lib/Conversion/TTIRToTTIRDecomposition/TTIRToTTIRDecomposition.cpp:889-918 | The nested erasing loops leave the dimensions neither batching nor contracting, in order |
| DotGeneral.ComputeProductOfDims | lib/Conversion/TTIRToTTIRDecomposition/TTIRToTTIRDecomposition.cpp:981-989 | The product of the sizes of the listed dimensions |
| DotGeneral.ComputeMatmulInputShape | lib/Conversion/TTIRToTTIRDecomposition/TTIRToTTIRDecomposition.cpp:945-967 | Batch sizes, then the two flattened group sizes |
| Gather.GatherToEmbedding | lib/Conversion/TTIRToTTIRDecomposition/TTIRToTTIRDecomposition.cpp:543-590 | The pattern matches iff the gather is basically legal; the rewrite exists iff some dimension is indexed or the result is empty; it reads, for each batch, the row its start index and the strides yield; and whenever it exists and the start indices fit, as those in bounds do, it is gather of the StableHLO specification (section 'gather') |
| Gather.AlwaysGathersIff | lib/Conversion/TTIRToTTIRDecomposition/TTIRToTTIRDecomposition.cpp:543-590 | What the rewrite computes is gather for every operand iff the result is empty or, at each batch, the row equals the row of the start index clamped as the specification has it |
| Gather.FittingIsGather | lib/Conversion/TTIRToTTIRDecomposition/TTIRToTTIRDecomposition.cpp:543-590 | Fitting start indices are enough, for every operand |
| Gather.GatherMeansFitting | lib/Conversion/TTIRToTTIRDecomposition/TTIRToTTIRDecomposition.cpp:543-590 | And necessary: an impulse at the specification's operand index tells |
| Gather.InBoundsFits | lib/Conversion/TTIRToTTIRDecomposition/TTIRToTTIRDecomposition.cpp:648-700 | Start indices in bounds fit |
| Gather.OutOfBoundsFails | lib/Conversion/TTIRToTTIRDecomposition/TTIRToTTIRDecomposition.cpp:648-700 | A start index out of bounds for which some operand is gathered wrongly |
| Gather.OutOfBoundsFits | lib/Conversion/TTIRToTTIRDecomposition/TTIRToTTIRDecomposition.cpp:648-700 | And one for which every operand is gathered as specified |
| Gather.CheckBasicLegality | lib/Conversion/TTIRToTTIRDecomposition/TTIRToTTIRDecomposition.cpp:458-512 | Accepts iff there are no batching dimensions, several indexed dimensions come with start indices of rank other than 1, the start index map is the list of collapsed dimensions, and every other slice is the whole dimension |
| Gather.TransformStartIndices | lib/Conversion/TTIRToTTIRDecomposition/TTIRToTTIRDecomposition.cpp:648-700 | Moving the index dimension last and multiplying by the strides yields, at every batch position, the scalar product of the start index with the strides of the indexed dimensions, in bounds or not |
| Gather.LinIsStrideSum | lib/Conversion/TTIRToTTIRDecomposition/TTIRToTTIRDecomposition.cpp:676-699 | Of an index in bounds that scalar product is the row-major position |
| Gather.IndexStrides | lib/Conversion/TTIRToTTIRDecomposition/TTIRToTTIRDecomposition.cpp:676-682 | The backward loop computes the row-major strides of the indexed dimensions |
| Gather.FlattenIndices | lib/Conversion/TTIRToTTIRDecomposition/TTIRToTTIRDecomposition.cpp:702-712 | Keeps index tensors of rank at most 2 and makes others a list of the same data |
| Gather.OutputPermutation | lib/Conversion/TTIRToTTIRDecomposition/TTIRToTTIRDecomposition.cpp:730-744 | Batch dimensions in order, then the offset dimensions |
| Gather.ReshapeAndPermuteOutput | lib/Conversion/TTIRToTTIRDecomposition/TTIRToTTIRDecomposition.cpp:722-754 | Exists iff the element counts agree, and then is the inverse permutation of the reshaped embedding |
| Gather.EmbedNothing | lib/Conversion/TTIRToTTIRDecomposition/TTIRToTTIRDecomposition.cpp:543-590 | With an empty start index map the rewrite exists iff the result is empty, and then is gather |
| Gather.NothingIndexedFails | lib/Conversion/TTIRToTTIRDecomposition/TTIRToTTIRDecomposition.cpp:543-590 | A well-formed, legal, in-bounds gather with an empty start index map and a result: it matches and has no rewrite |
| Select.SelectToSlices | lib/Conversion/TTIRToTTIRDecomposition/TTIRToTTIRDecomposition.cpp:1246-1314 | Divides by zero iff the stride is 0, which the verifier admits and is the attribute's default; otherwise the slices are non-empty, ascending, disjoint and inside the dimension, their positions one after the other are the positions p >= begin with (p - begin) mod stride < length, ascending, and their concatenation reads exactly those |
| Select.CoveredMembers | lib/Conversion/TTIRToTTIRDecomposition/TTIRToTTIRDecomposition.cpp:1265-1290 | The positions of the slices are those from the begin of some slice up to its end |
| Select.DefaultStrideFails | lib/Conversion/TTIRToTTIRDecomposition/TTIRToTTIRDecomposition.cpp:1258-1263 | A verified select of two of four elements at stride 0 ends in the division |
| Select.WholeDimensionStride | lib/Dialect/TTIR/IR/TTIROps.cpp:1555-1558 | With the dimension size in place of stride 0, as the verifier reads it, the op selects one run of `length` positions and the rewrite could run |
| Select.OutputSize | lib/Dialect/TTIR/IR/TTIROps.cpp:1596-1612 | The output size the verifier sums up is the number of selected positions |
| Select.Verify | lib/Dialect/TTIR/IR/TTIROps.cpp:1530-1614 | Accepts iff ranks, dimension, stride, begin, length and output size meet the stated bounds |
| Select.SelectedMeaning | lib/Conversion/TTIRToTTIRDecomposition/TTIRToTTIRDecomposition.cpp:1265-1290 | Membership in that list in both directions, and its order |
| Broadcast.BroadcastOperand | lib/Conversion/TTIRToLinalg/TTIRToLinalg.cpp:136-173 | Collapse followed by linalg.broadcast is right-aligned broadcasting at every index, also when nothing or everything is broadcast |
| Broadcast.GetBroadcastDims | lib/Conversion/TTIRToLinalg/TTIRToLinalg.cpp:34-56 | Exactly the prepended dimensions and those whose size changes, ascending |
| Broadcast.BroadcastDimsAre | lib/Conversion/TTIRToLinalg/TTIRToLinalg.cpp:34-56 | That is, in ascending order, each dimension below the difference in rank and each other one on which input and target differ |
| Broadcast.GetCollapseDims | lib/Conversion/TTIRToLinalg/TTIRToLinalg.cpp:68-100 | The groups are consecutive non-empty runs of all input dimensions that collapse to exactly the kept ones; every group but the last ends with its only kept dimension, and the last holds one too unless none is kept |
| Broadcast.CollapseGroupCount | lib/Conversion/TTIRToLinalg/TTIRToLinalg.cpp:68-100 | Their number is the target rank minus the number of broadcast dimensions |
| CumSumMeaning.AcceptedIsCumSumIff | lib/Conversion/StableHLOToTTIR/StableHLOToTTIRPatterns.cpp:1024-1048 | For any rank and shape, an accepted window's zero-initialised sum of reduce_window (StableHLO specification, section 'reduce_window') is the prefix sum along the returned dimension of every input, iff the attributes meet a condition stated dimension by dimension |
| CumSumMeaning.AcceptedIsCumSum | lib/Conversion/StableHLOToTTIR/StableHLOToTTIRPatterns.cpp:1024-1048 | Attributes that fit 32 bits always meet it |
| CumSumMeaning.KeptSumsAgree | lib/Conversion/StableHLOToTTIR/StableHLOToTTIRPatterns.cpp:1024-1048 | The condition is enough: every result element is the prefix sum of its index |
| CumSumMeaning.AgreementKeepsSums | lib/Conversion/StableHLOToTTIR/StableHLOToTTIRPatterns.cpp:1024-1048 | The condition is necessary: some impulse tells any other accepted window from the prefix sum |
| CumSumMeaning.InertWideStride | lib/Conversion/StableHLOToTTIR/StableHLOToTTIRPatterns.cpp:1091-1104 | A stride of 2^32 + 1 on a dimension of one element is accepted and harmless |
| CumSum.WideStrideAccepted | lib/Conversion/StableHLOToTTIR/StableHLOToTTIRPatterns.cpp:1091-1104 | A stride of 2^32 + 1 on a dimension of two elements is accepted, and the op is no prefix sum of any input |
| CumSum.OnesChecked | lib/Conversion/StableHLOToTTIR/StableHLOToTTIRPatterns.cpp:1091-1104 | The all-ones checks compare as 32-bit integers: they accept exactly the values congruent to 1 modulo 2^32 |
| CumSum.IsCumSum | lib/Conversion/StableHLOToTTIR/StableHLOToTTIRPatterns.cpp:1024-1048 | Accepts a dimension iff strides and dilations, where given, are 1 modulo 2^32 and either nothing is padded, all windows are 1 modulo 2^32 and it is the first dimension of size 1, or the window spans that dimension alone with its size minus one as low padding; whatever value the read of an unassigned dimension yields |
| CumSum.ValidateNonSplatPadding | lib/Conversion/StableHLOToTTIR/StableHLOToTTIRPatterns.cpp:1155-1191 | Accepts a dimension iff its window spans it and its low padding is one less with all else unit; refuses after reading the shape at an unassigned dimension iff all windows are 1, whatever the read yields |
| CumSum.UnassignedDimensionIsRead | lib/Conversion/StableHLOToTTIR/StableHLOToTTIRPatterns.cpp:1155-1178 | A window of 1 over two elements with padding [1, 0] is refused after that read |
| CumSum.HasValidInputAndPadding | lib/Conversion/StableHLOToTTIR/StableHLOToTTIRPatterns.cpp:1107-1139 | The splat and non-splat cases of the padding |
| CumSum.FindDimensionWithShape | lib/Conversion/StableHLOToTTIR/StableHLOToTTIRPatterns.cpp:1142-1152 | The first dimension of size 1, if any |
| Shapes.CalculateStrides | include/ttmlir/Utils.h:42-53 | Each stride is the product of the later sizes |
| Shapes.Sample | include/ttmlir/Utils.h:55-69 | The k-th visited index is the multi-index at row-major position k |
| Shapes.SampleVisitsEachOnce | include/ttmlir/Utils.h:55-69 | Every multi-index of the shape is visited, no other, and none twice |
| Permutations.GeneratePermutation | include/ttmlir/Utils.h:174-193 | The result takes the input list to the output list, and is a permutation when the elements are distinct |
| Permutations.InversePermutation | include/ttmlir/Utils.h:209-220 | The in-place loop computes the inverse of any permutation |
| Permutations.GeneratedPermutationUndone | include/ttmlir/Utils.h:174-220 | Applying the inverse of a generated permutation restores the input |
| Permutations.ApplyInverse | include/ttmlir/Utils.h:195-220 | Applying a permutation and its inverse, in either order, is the identity |
| MeshSharding.MeshShardingInfo.DetermineGSPMDShardingDims | lib/Conversion/StableHLOToTTIR/ShardingUtils.cpp:86-155 | For positive tiles whose product is the device count the mesh is never indexed out of range; which tiles succeed on which mesh, in terms of both; on success the non-negative shardDims are distinct, shardShape[shardDims[j]] = meshShape[j], every sharded dimension is assigned, and in tensor order they fill the mesh from the front when it was given as one number and from the back when as two, a line leaving out the first place |
| MeshSharding.MatchedIffFits | lib/Conversion/StableHLOToTTIR/ShardingUtils.cpp:91-154 | The loop's slots match iff: over a mesh of one number, a line or a split of exactly two dimensions; over one of two, nothing, or its last dimension and then its first, and a line only along its first |
| MeshSharding.FitsOneNumber | lib/Conversion/StableHLOToTTIR/ShardingUtils.cpp:91-131 | A mesh given as one number fits iff some tile size is that number or exactly two differ from 1, and the hardware mesh is [1, n] or those two in order |
| MeshSharding.FitsTwoNumbers | lib/Conversion/StableHLOToTTIR/ShardingUtils.cpp:91-154 | A mesh given as two numbers [m, n] is kept, and fits iff no dimension is sharded, or some tile size is m * n and n is 1, or none is and the sharded sizes are n, or n and then m |
| MeshSharding.LineFitsFirstDimension | lib/Conversion/StableHLOToTTIR/ShardingUtils.cpp:91-154 | One dimension split over four devices fits the meshes [4, 1] and [4] and not [1, 4] |
| MeshSharding.MeshShardingInfo.AssignShardDims | lib/Conversion/StableHLOToTTIR/ShardingUtils.cpp:133-154 | The assignment loop alone: which outcome, what it assigned, and in which order the mesh dimensions are taken |
| MeshSharding.RoomForNext | lib/Conversion/StableHLOToTTIR/ShardingUtils.cpp:133-154 | Whenever a sharded dimension is met a mesh entry is left |
| MeshSharding.MeshShardingInfo.ParseSdySharding | lib/Conversion/StableHLOToTTIR/ShardingUtils.cpp:317-354 | Rejects open dimensions and sub-axes, in that order; otherwise every mesh axis of several devices is assigned the dimension that names it, one of a single device none, and every dimension's shard count is the product of its axes |
| MeshSharding.AssignedIs | lib/Conversion/StableHLOToTTIR/ShardingUtils.cpp:317-354 | Mesh dimension j goes to tensor dimension e iff it has several devices and e names it, and e is split into the product of the sizes of those that went to it |
| MeshSharding.MeshShardingInfo.GetTensorMeshShardingAttr | lib/Conversion/StableHLOToTTIR/ShardingUtils.cpp:435-471 | No attribute iff there is no mesh; otherwise it stores the sharding of every dimension, or no axes for a sharding that is not over devices |
| MeshSharding.MeshShardingInfo.ExtractMeshSharding | lib/Conversion/StableHLOToTTIR/ShardingUtils.cpp:475-494 | The whole new state: a mesh dimension gets the last tensor dimension whose axes name it, and one that no axes name keeps what the object held |
| MeshSharding.LastDimMeans | lib/Conversion/StableHLOToTTIR/ShardingUtils.cpp:475-494 | A mesh dimension gets the last tensor dimension whose axes name it, and one that no axes name keeps what was held, or -1 beyond that |
| MeshSharding.MeshShardingInfo.constructor | include/ttmlir/Conversion/StableHLOToTTIR/ShardingUtils.h:125-133 | The initial field values |
| MeshSharding.AttributeRoundTrip | lib/Conversion/StableHLOToTTIR/ShardingUtils.cpp:435-494 | Storing one object and reading into another: there is an attribute iff there is a mesh; the type comes back iff it was Devices, the shape iff the type was Devices or the shape empty, the dimensions iff the reading object held the right value for each one left open |
| MeshSharding.StoredIsRead | lib/Conversion/StableHLOToTTIR/ShardingUtils.cpp:455-491 | Of an attribute over devices the shape always comes back, and the dimensions iff what was held is right for the unassigned ones |
| MeshSharding.FreshRoundTrip | lib/Conversion/StableHLOToTTIR/ShardingUtils.cpp:435-494 | A new object reads back shape, dimensions and type iff the type was Devices and no dimension is below -1 |
| MeshSharding.ReplicationIsLost | lib/Conversion/StableHLOToTTIR/ShardingUtils.cpp:449-493 | A replicated sharding comes back as one over devices with an empty shape |
| MeshSharding.StaleDimensionSurvives | lib/Conversion/StableHLOToTTIR/ShardingUtils.cpp:475-494 | Reading [-1, 0] into an object that holds [1, 0] leaves [1, 0] |
| ShardTensors.ShardToFullShape | tools/ttnn-standalone/workarounds.hpp:55-95 | Gathering what a consistent sharding spread out gives the tensor back, whether replicated, split along both mesh axes, or along one; it reads outside the shard shape iff no axis splits it |
| ShardTensors.UnsplitIsNotGathered | tools/ttnn-standalone/workarounds.hpp:80-88 | A tensor spread with both shard dimensions -1 ends in that read |
| ShardTensors.FullToShardShape | tools/ttnn-standalone/workarounds.hpp:33-53 | The tensors each device holds, in device order |
| ShardTensors.DeviceTensor | tools/ttnn-standalone/workarounds.hpp:33-53 | There are as many tensors as devices, and the one of mesh row r and column c, at position r * columns + c (`TimesIs`), is its part of its row's part |
| ShardTensors.DeviceCells | tools/ttnn-standalone/workarounds.hpp:33-53 | Element by element: the device in mesh row r and column c holds the part that is r parts along the first shard dimension and c parts along the second |
| ShardTensors.ComposeRows | tools/ttnn-standalone/workarounds.hpp:68-76 | Joining each mesh row and then the rows inverts the split along two dimensions |
| ShardTensors.StridedPart | tools/ttnn-standalone/workarounds.hpp:80-93 | The devices the partial concatenation reads hold the consecutive parts of the tensor |
| ShardTensors.PiecesJoin | tools/ttnn-standalone/workarounds.hpp:55-95 | All chunks of a dimension, joined, are the tensor |
| ShardTensors.PartsJoin | tools/ttnn-standalone/workarounds.hpp:55-95 | So are all parts of an even split |
| Scheduler.Run | lib/Scheduler/Scheduler.cpp:33-100 | Every run that takes ready ops ends, with exactly the non-empty TTIR ops and the non-empty TTNN ops that have results and are not get-device ops scheduled, each once and after every one of them whose first result it uses |
| Scheduler.IsScheduleIff | lib/Scheduler/Scheduler.cpp:33-100 | What a finished run can leave, written out on operands: every such order is a schedule, and every schedule is such an order |
| Scheduler.Advance | lib/Scheduler/Scheduler.cpp:65-90 | One step of a run, for any choice among the ops handed out |
| Scheduler.SchedulerState.constructor | lib/Scheduler/Scheduler.cpp:33-58 | All schedulable ops are unscheduled and the dependencies are exactly the uses of first results between them |
| Scheduler.SchedulerState.AddUsers | lib/Scheduler/Scheduler.cpp:48-56 | The dependencies after one more op |
| Scheduler.SchedulerState.GetScheduleableOps | lib/Scheduler/Scheduler.cpp:65-74 | Exactly the unscheduled ops that depend on nothing unscheduled; never none while ops remain |
| Scheduler.SchedulerState.CanSchedule | lib/Scheduler/Scheduler.cpp:76-84 | True iff everything the op depends on is scheduled |
| Scheduler.SchedulerState.ScheduleOp | lib/Scheduler/Scheduler.cpp:86-90 | Scheduled and unscheduled ops stay a partition; the schedule stays a linear extension iff the op was ready |
| Scheduler.SchedulerState.Snapshot | lib/Scheduler/Scheduler.cpp:92-94 | An independent object in the same state |
| Scheduler.SchedulerState.Copy | lib/Scheduler/Scheduler.cpp:60-63 | The copied state |
| Scheduler.ScheduleOnSnapshot | lib/Scheduler/Scheduler.cpp:86-94 | Scheduling on a snapshot leaves the original unchanged |
| Scheduler.SchedulerState.FirstIsReady | lib/Scheduler/Scheduler.cpp:65-84 | The earliest unscheduled op is ready, so no run gets stuck |
| Scheduler.ExtensionNext | lib/Scheduler/Scheduler.cpp:86-90 | A schedule grows to a linear extension iff everything the new op depends on came before |
| Scheduler.ReadsRespectedIff | lib/Scheduler/Scheduler.cpp:48-56 | Every complete schedule respects every use between scheduled ops iff each user depends on each operand directly or through others |
| Scheduler.FollowedReadsAreRespected | lib/Scheduler/Scheduler.cpp:48-56 | A linear extension of the direct dependencies respects all indirect ones |
| Scheduler.UnfollowedReadIsBroken | lib/Scheduler/Scheduler.cpp:48-56 | For any use outside them there is a complete schedule that runs the user first |
| Scheduler.Replay | lib/Scheduler/Scheduler.cpp:65-90 | The scheduler can produce each complete schedule, that is, each order `IsScheduleIff` describes: every next op is among those handed out |
| Scheduler.SecondResultIgnored | lib/Scheduler/Scheduler.cpp:48-56 | A use of a second result is no dependency: a concrete schedule runs the user first |
| AwaitYield.LoweredRunsAreSafe | lib/Conversion/TTIRToTTKernel/TTIRToTTKernel.cpp:329-359 | Any interleaving of lowered threads keeps every buffer within its capacity and, when the ops can be numbered so that each yield is below the await of another thread it serves, can step while a thread is unfinished and, when it cannot, has executed every block and left the buffers empty |
| AwaitYield.LoweredIsAcyclic | lib/Conversion/TTIRToTTKernel/TTIRToTTKernel.cpp:329-359 | Lowering carries such a numbering over to the pushes and waits |
| AwaitYield.RequestAndReply | lib/Conversion/TTIRToTTKernel/TTIRToTTKernel.cpp:329-359 | Two threads that exchange pages both ways have such a numbering |
| AwaitYield.LoweredIsSystem | lib/Conversion/TTIRToTTKernel/TTIRToTTKernel.cpp:329-359 | Lowered threads whose awaits and yields pair up per buffer form a safe pipeline: the placement of wait, pop, reserve and push is what the results below need |
| AwaitYield.LowerBlock | lib/Conversion/TTIRToTTKernel/TTIRToTTKernel.cpp:329-359 | Rewriting every await and yield of a block, moving ops as it goes, yields the specified block |
| AwaitYield.RewriteAwait | lib/Conversion/TTIRToTTKernel/TTIRToTTKernel.cpp:339-343 | The waits take the await's place and the pops go before the terminator |
| AwaitYield.RewriteYield | lib/Conversion/TTIRToTTKernel/TTIRToTTKernel.cpp:344-354 | In an inner block the reserves go to the front and the pushes take the yield's place |
| AwaitYield.RewriteFuncYield | lib/Conversion/TTIRToTTKernel/TTIRToTTKernel.cpp:344-354 | In a function's own block each reserve goes right after the op that defines the buffer |
| AwaitYield.LoweredProduces | lib/Conversion/TTIRToTTKernel/TTIRToTTKernel.cpp:344-354 | In a lowered producer, reserve precedes every write and push follows them, each once |
| AwaitYield.LoweredConsumes | lib/Conversion/TTIRToTTKernel/TTIRToTTKernel.cpp:339-343 | In a lowered consumer, wait precedes every read and pop follows them, each once |
| AwaitYield.LoweredOrders | lib/Conversion/TTIRToTTKernel/TTIRToTTKernel.cpp:329-359 | A block that yields a buffer before awaiting it pushes before it waits |
| AwaitYield.LoweredLeaves | lib/Conversion/TTIRToTTKernel/TTIRToTTKernel.cpp:344-354 | A block that does not yield a buffer neither reserves, writes nor pushes it |
| AwaitYield.LoweredIgnores | lib/Conversion/TTIRToTTKernel/TTIRToTTKernel.cpp:339-343 | A block that does not await a buffer neither waits for, reads nor pops it |
| LoweredLayout.OthersStay | lib/Conversion/TTIRToTTKernel/TTIRToTTKernel.cpp:329-359 | Lowering removes nothing but awaits and yields, and the ops that stay keep their order |
| LoweredLayout.ReservesFirstPopsLast | lib/Conversion/TTIRToTTKernel/TTIRToTTKernel.cpp:339-354 | The reserves of an inner block are before every other op and the pops of any block between the last other op and the terminator |
| LoweredLayout.PrimitivesInOrder | lib/Conversion/TTIRToTTKernel/TTIRToTTKernel.cpp:333-354 | Waits and pushes follow the order of the awaits and yields and of the buffers there, pops the order of the waits, and the reserves of an inner block the opposite order of the pushes |
| LoweredLayout.OpsInPlace | lib/Conversion/TTIRToTTKernel/TTIRToTTKernel.cpp:339-354 | An op that stays is after the waits and pushes of earlier awaits and yields and before those of later ones, and in a function's own block a reserve is right after the op that defines its buffer |
| CircularBuffers.InvStep | lib/Conversion/TTIRToTTKernel/TTIRToTTKernel.cpp:329-359 | Every step of every thread keeps the invariant that ties pages held to pushes and pops |
| CircularBuffers.InvAtStart | lib/Conversion/TTIRToTTKernel/TTIRToTTKernel.cpp:329-359 | The invariant holds at the start |
| CircularBuffers.OccupancyIsBounded | lib/Conversion/TTIRToTTKernel/TTIRToTTKernel.cpp:329-359 | In every interleaving the pages held stay between 0 and the capacity |
| CircularBuffers.ReadsAreOfPushedPages | lib/Conversion/TTIRToTTKernel/TTIRToTTKernel.cpp:329-359 | Every read is of a page pushed and not yet popped |
| CircularBuffers.WritesAreToFreePages | lib/Conversion/TTIRToTTKernel/TTIRToTTKernel.cpp:329-359 | Every write is to a page that holds nothing unpopped |
| BufferContents.ReadsFindWhatWasWritten | lib/Conversion/TTIRToTTKernel/TTIRToTTKernel.cpp:329-359 | In every interleaving a read finds, at the front of the buffer modulo its capacity, what the producer last wrote to that page in the matching execution of its block |
| BufferContents.MemoryStep | lib/Conversion/TTIRToTTKernel/TTIRToTTKernel.cpp:329-359 | Every step keeps each page that is not popped in its cell |
| CircularBuffers.NoDeadlock | lib/Conversion/TTIRToTTKernel/TTIRToTTKernel.cpp:329-359 | While a thread is unfinished some thread can step, in every reachable state of an acyclic flow |
| CircularBuffers.RunsComplete | lib/Conversion/TTIRToTTKernel/TTIRToTTKernel.cpp:329-359 | No run exceeds the total of all blocks, and one that cannot go on has executed them all and left every buffer empty |

## Left out

Const-eval:

- ConstEvalPass.RunOnModule: a module is a list of parent functions, each with the const-eval functions it calls; a const-eval function called from two parents, on which the source fails, has no place in it.
- ConstEvalUndo.UndoKeepsMeaning: assumes a program whose calls name existing functions with matching operand and result counts, and, as `lib/Transforms/ConstEvalHoist.cpp:333` does, that shared ops with equal name and attributes have equal meaning; the `arity` parameter is the part of that assumption about result counts.
- IR.EvalSolves: creation and shared ops read only shared ops, ops are pure, and a terminator has no results.
- Regions, nested ops and side effects: the source does not remap values inside regions, so functions are flat.
- Ops are values known by a number within their function; a clone in a new function keeps its number. Pointers to ops still to be outlined are modelled by the fact, proved, that those ops are unchanged.
- The iteration order of hash sets and maps is left open: the methods choose any element, and the results hold for every choice.
- Names of the generated functions, their attributes and symbol-table insertion.

Tensor decompositions:

- Gather.GatherToEmbedding: an embedding row there is not reads zero, where the op leaves it open; the float32 product of the indices with the strides is taken as exact, and offset and collapsed dimensions are sorted, as the specification demands.
- CumSumMeaning.AcceptedIsCumSumIff: window dimensions, strides and dilations are positive, as the specification demands.
- Element types, floating-point rounding and the width of sizes and products: integers are unbounded except where the cumsum matcher truncates.
- The reading of the init value and body of `reduce_window`: `CumSum` starts from an add body and a zero init value.
- Select.Verify: element types, which are integers throughout, are not compared.
- The other decompositions in the same files, convolution and pooling among them.

Mesh sharding:

- MeshSharding.MeshShardingInfo.GetTensorMeshShardingAttr: for a sharding over devices every shard dimension is below the tensor's rank, because the source indexes with it.
- MeshSharding.AttributeRoundTrip: the mesh the attribute is read with has as many dimensions as a stored sharding over devices.
- ShardTensors.ShardToFullShape: every dimension divides evenly; the tensor mappers and composers of ttnn are modelled as row-major chunking and concatenation.
- ShardTensors.FullToShardShape: the shard types other than Replicate take the one path the source gives them, on dimensions that split evenly; what ttnn's mapper does with a remainder is decided outside the repository.
- MeshSharding.MeshShardingInfo.DetermineGSPMDShardingDims: tile and mesh sizes are positive with equal products.
- The lexer of GSPMD sharding strings and the creation of mesh_shard ops.

Scheduler:

- Scheduler.SchedulerState.constructor: schedulable ops have a first result, because the source takes it without asking.
- Dependencies through ops that are not scheduled (such as an empty or get-device op) are not dependencies in the source, and none in the model.

Circular buffers:

- The number-of-pages constants of the lowering and their placement.
- CircularBuffers.NoDeadlock: wait and reserve block, push and pop do not, and buffers are bounded FIFOs; every thread runs one block, all threads the same number of times; a buffer has one producer and one consumer, and the instructions have a numbering that never falls along a block and in which every push is below the wait of another thread for it.
- AwaitYield.LowerBlock: a buffer is yielded at most once and awaited at most once per block, and in a function's own block the op that defines it comes first.

Elsewhere: the pattern driver, type conversion, dialects, one-to-one op mappings, the runtime, flatbuffers, DMA address maps, and the Python tools, which hold no comparable logic or rest on code outside the repository.
