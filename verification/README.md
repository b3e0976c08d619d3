# Verification models for kryst

kryst is a Krylov-solver library in Rust. This project models four of its cores in Dafny and proves
what they promise: the deterministic reduction engine, the options engine, the CSR kernels of the
benchmarks, and the distribution of matrix rows over ranks. `dafny verify dfyconfig.toml` checks
everything.

## Files

| file | subject |
|---|---|
| `AllreduceProtocol.dfy` | the rank-0 gather, fold and broadcast protocol as a transition system over message channels |
| `Accumulators.dfy` | arithmetic as uninterpreted operations; Kahan and double-double accumulators, scalar and per packet |
| `DotEngine.dfy` | local kernels, `dot`, `dot_many_into`, and their connection to the protocol |
| `KahanError.dfy`, `DotError.dfy` | rounding-error bounds of compensated sums and dot products |
| `DoubleDoubleError.dfy` | what the double-double accumulator gains: its step, and its error bound of second order |
| `StagedError.dfy` | error bounds of sums of sums: the whole `dot` over all ranks, the compensated blocked kernel |
| `ReproKernels.dfy`, `FastReduction.dfy` | chunked kernels on any thread schedule, and the Fast path |
| `SummationError.dfy` | summation orders as trees, and rounding-error bounds of blocked sums |
| `Chunking.dfy`, `Basics.dfy` | cutting a sequence into chunks; minimum, maximum, optional values |
| `IncludeExpansion.dfy` | recursive `-options_file` expansion |
| `OptionParser.dfy` | arity-driven parsing with prefix filtering and aliasing, and its inverse |
| `OptionFiltering.dfy` | what a pass under a prefix keeps of the unfiltered one |
| `EditDistance.dfy` | the edit distance behind "did you mean" |
| `Csr.dfy` | compressed sparse rows, their dense meaning, and building them row by row |
| `CsrTranspose.dfy`, `TransposeLaws.dfy` | counting-sort transposition and what it means |
| `Poisson2D.dfy`, `PoissonLaws.dfy` | assembly of the 5-point matrix and its properties |
| `Prolongation.dfy` | injection from the coarsened grid and its transpose |
| `TriangularSolve.dfy` | triangular extraction and the serial substitutions |
| `Partition.dfy`, `RowSlices.dfy`, `OwnedGather.dfy` | partitions, row slices, and the replicated operator |

## How the system is modelled

Floating-point arithmetic appears in two ways. Where the claim is "the same bits", the operations are
function values about which nothing is assumed (`Arith`): equal results then hold for every arithmetic,
rounded or not. Where the claim is an error bound, the numbers are reals and every operation is followed
by a rounding `fl` of relative error at most `u`, as for correctly rounded operations in section 5.4.1
of IEEE 754-2019. Overflow, underflow, infinities and NaN are outside
the latter. The bounds for double-doubles also take it as given that the error of a sum of two machine
numbers is recovered exactly by the usual six operations (`ErrorFree`; Knuth, The Art of Computer
Programming, section 4.2.2). The CSR kernels are stated over reals; where a kernel multiplies, multiplication is a function value with the laws it needs.

Message passing is one queue per ordered pair of ranks, delivered in order (the non-overtaking rule in
section 3.5 of MPI-4.0). Whether a send completes before it is received is a parameter per message, so
buffered and rendezvous sends and every mixture of them are covered. A run is any sequence of steps of
single ranks. Rayon tasks are likewise modelled as arbitrary interleavings of chunk tasks. The scalar
terms of the dot and norm kernels, such as `conj(x[j]) * y[j]`, are one function of the index, because
the kernels differ only there.

A file system is a finite map from canonical path to the tokens of that file, with an uninterpreted
function that resolves a path token against a directory. `canonicalize` and `join` are inside that
function. A panic or an error value is a status in the result. Random draws are arguments.

Where code and documentation differ, the code is followed:

- `poisson2d_csr` is documented with Dirichlet boundary conditions; its diagonal is the number of
  neighbours, so rows sum to zero and constants are in the kernel.
- The edit distance sizes its first row by bytes and walks characters. `DistIsDistance` gives the exact
  condition under which the result is the edit distance, `DistIsSymmetricIff` the one under which it is
  symmetric.
- The local dot product with chunking enabled reduces chunk results a second time; without Rayon the
  same option gives one pass. Both are modelled, and differ in rounding.
- On one rank the deterministic collective returns the local packet without passing it through an
  accumulator.
- Backward substitution sets an unknown to zero when the diagonal is at most 1e-14 in magnitude.
  `BackwardSolvesIffPivots` proves that it solves U x = b for every b exactly when no diagonal is that
  small, and `SmallDiagonalFails` gives the b it misses otherwise.
- A pass under a prefix filter reads the values of the flags it skips. `ProjectionIffHarmless` gives the
  exact condition, token by token, under which it still emits just the entries of its prefix.

## Model

| member | source | states |
|---|---|---|
| `AllreduceProtocol.RoundsNeverMix` | src/reduction.rs:290-345 | in every reachable state of any number of back-to-back collectives: each rank has received exactly the totals of its finished rounds (the rank-order fold 0, 1, ..., size-1), ranks differ by at most one round, each channel holds at most one packet, and what the root takes next or a rank is about to take belongs to its current round |
| `AllreduceProtocol.SomeRankCanMove` | src/reduction.rs:296-344 | no reachable unfinished state is stuck, for every mixture of buffered and rendezvous sends |
| `AllreduceProtocol.StuckIffFinished` | src/reduction.rs:296-344 | a reachable state has no enabled step exactly when every rank has finished every round and no message is left |
| `AllreduceProtocol.StepUsesOneUnit` | src/reduction.rs:296-344 | a natural-number measure drops by exactly one on each step of any rank |
| `AllreduceProtocol.EveryMaximalRunFinishes` | src/reduction.rs:290-345 | every run stops after exactly rounds * (6 * size - 5) steps, finished, whatever the interleaving |
| `AllreduceProtocol.RunKeepsInv` | src/reduction.rs:290-345 | the protocol invariant holds along every run from a state where it holds |
| `Accumulators.Kahan.Push` | src/reduction.rs:58-66 | the in-place update of `sum` and `c` is one step of the accumulator |
| `Accumulators.DD.Push` | src/reduction.rs:91-99 | the in-place update of `hi` and `lo` is one step of the accumulator, whose values `DoubleDoubleError.StepUnfolds` writes out |
| `Accumulators.KahanP.Push` | src/reduction.rs:215-224 | the lane loop updates every lane as the scalar accumulator does and nothing else |
| `Accumulators.DDP.Push` | src/reduction.rs:251-261 | the lane loop updates every lane as the scalar accumulator does and nothing else |
| `Accumulators.LanesAreIndependent` | src/reduction.rs:195-270 | folding packets of any width gives in each lane the scalar fold of that lane, bit for bit |
| `Accumulators.ExactWithoutRounding` | src/reduction.rs:58-104 | over exact reals both accumulators return the sum, with `c` staying 0 and `hi + lo` conserved |
| `DotEngine.ReduceAll` | src/reduction.rs:107-125 | the three accumulation loops of the local kernels compute the fold of their mode |
| `DotEngine.ShortSums` | src/reduction.rs:107-125 | where the sums of each mode start: the iterator sum from its own start value, the accumulators from zero |
| `DotEngine.DotLocalDeterministicParallel` | src/reduction.rs:129-176 | the chunked kernel is the reduction of the chunks' reductions, in chunk order, or a single pass without Rayon |
| `DotEngine.FoldPackets` | src/reduction.rs:296-333 | rank 0's loop computes the packet fold over ranks 0, 1, ..., size-1 and its finish |
| `DotEngine.AllreduceLane` | src/reduction.rs:276-345 | a collective on packets is, lane by lane, the collective on single values |
| `DotEngine.BatchIsDots` | src/reduction.rs:438-469 | a batch of any width returns the values of the separate `dot` calls at its indices |
| `DotEngine.DotManyInto` | src/reduction.rs:407-470 | on success the output is every pair's `dot`, for every packet width, pair count, mode and rank count; it fails exactly on a slot-count mismatch or at the first pair of unequal lengths, leaving the slots from there on untouched |
| `DotEngine.ProtocolTotal` | src/reduction.rs:438-469 | round k of the message protocol carries the `dot` values of batch k |
| `DotEngine.EveryRankReceivesTheDots` | src/reduction.rs:290-470 | end to end: in every maximal run every rank has received the `dot` values of all pairs in order |
| `DotEngine.DotIsGlobalProduct` | src/reduction.rs:383-405 | over exact reals the result is the inner product of the distributed vectors in every mode, threading, chunk length and rank count |
| `KahanError.PushTracks` | src/reduction.rs:60-65 | one compensated addition keeps `sum - c` within 2uB + m of the exact sum and `c` within 4uB, m growing by 14 u^2 times the running total |
| `KahanError.KahanErrorBound` | src/reduction.rs:58-70 | for n terms with 14 n u <= 1 the error is at most (3u + 14 n u^2) times the sum of magnitudes |
| `DotError.KahanDotError` | src/reduction.rs:111-117 | the same for the local dot product, with one more rounding per product |
| `DoubleDoubleError.StepUnfolds` | src/reduction.rs:91-99 | one step in rounded arithmetic, operation by operation |
| `DoubleDoubleError.StepKeepsSum` | src/reduction.rs:91-99 | where the four differences that recover the error of hi + x are exact, hi' + lo' is hi + lo + x up to the roundings of the four later operations, which it names |
| `DoubleDoubleError.AccurateModeCancels` | src/reduction.rs:584-590 | for every rounding that agrees with binary64 at the numbers concerned, 1e16 + 1 - 1e16 is 1 in DeterministicAccurate mode and 0 in Deterministic mode |
| `DoubleDoubleError.PushTracks` | src/reduction.rs:91-99 | one addition keeps `hi + lo` within m of the exact sum and `lo` within 2uB, m growing by 14 u^2 times the running total |
| `DoubleDoubleError.DoubleDoubleBound` | src/reduction.rs:91-104 | for n machine numbers with 14 n u <= 1 the error is one rounding of the exact sum S and an error of second order, u * abs(S) + (1 + u) 14 n u^2 B, however much cancels |
| `StagedError.LocalDotNear` | src/reduction.rs:107-176 | the local product of either deterministic mode, in one pass or chunk by chunk: the error factor is 1 + u for the products times 1 + kappa(m) for every level of sums of at most m values; kappa(m) is 3u + 14 m u^2 in Deterministic and u + (1 + u) 14 m u^2 in DeterministicAccurate mode |
| `StagedError.DotErrorBound` | src/reduction.rs:383-405 | in both deterministic modes the whole `dot` over any number of ranks is off by at most the product of the factors of its stages, less one, times the sum of the magnitudes of all exact products |
| `StagedError.CompensatedError` | src/algebra/parallel.rs:640-734 | the compensated blocked kernel: factor (1 + u)(1 + kappa(m)) for chunks of at most m terms, times 1 + u per chunk |
| `Chunking.ChunksCover` | src/reduction.rs:142-151 | the chunks laid end to end are the sequence: nothing skipped or read twice |
| `ReproKernels.SerialBlocked` | src/algebra/parallel.rs:137-169 | the scalar kernels compute the blocked sum with blocks of 2^14 terms |
| `ReproKernels.SerialParts` | src/algebra/parallel.rs:583-734 | the deterministic kernels, plain or compensated, on one thread compute the same blocked sum |
| `ReproKernels.EverySchedule` | src/algebra/parallel.rs:592-635 | every interleaving of the chunk tasks gives the same blocked sum, with addition uninterpreted |
| `ReproKernels.CompensatedRunIsAccumulator` | src/algebra/parallel.rs:668-672 | one chunk of the compensated kernel is one run of the Kahan accumulator |
| `ReproKernels.ComplexIsComponentwise` | src/algebra/parallel.rs:655-666 | the compensated kernel of complex terms, with two accumulators per chunk, is the real kernel on real and on imaginary parts, bit for bit |
| `SummationTrees.AnyTreeIsTheLoop` | src/algebra/parallel.rs:500-519 | an order-preserving tree reduction equals the loop where addition is associative with identity |
| `SummationTrees.TreesAgreeIffMonoid` | src/algebra/parallel.rs:500-519 | all order-preserving trees agree with the loop on all parts exactly when addition is associative with identity zero |
| `SummationTrees.Binary64TreesDiffer` | src/algebra/parallel.rs:500-519 | for every rounding that agrees with binary64 at 2, 2^53 + 1 and 2^53 + 2, two order-preserving trees over 1, 1 and 2^53 give 2^53 + 2 and 2^53 |
| `FastReduction.FastIsBlocked` | src/algebra/parallel.rs:500-546 | where addition is associative with identity, the Fast path equals the deterministic kernels for all chunk lengths and trees |
| `FastReduction.FastNormIsBlocked` | src/algebra/parallel.rs:522-546 | over exact reals the Fast norm, which squares `abs()`, equals the deterministic one of `abs2()` terms wherever the squares agree |
| `SummationError.TreeError` | src/algebra/parallel.rs:500-519 | summing in the order of a tree adds as many roundings as the tree is deep |
| `SummationError.ChunkedError` | src/algebra/parallel.rs:500-519 | chunked sums combined along any tree: relative error (1+u)^(1 + min(n, B) + depth) - 1 |
| `SummationError.BlockedError` | src/algebra/parallel.rs:137-151 | blocked sums of once-rounded terms: error at most ((1+u)^(1 + min(n, B) + ceil(n/B)) - 1) times the sum of magnitudes, for every block length B |
| `SummationError.BlockedSquaresError` | src/algebra/parallel.rs:155-169 | the same for the sum of squares, relative to the exact sum |
| `IncludeExpansion.Expander.Run` | src/config/options_core.rs:239-289 | the loop with push and pop computes the expansion function on any file graph, keeps the caller's stack below its own entries, and on success leaves the stack as it was; it terminates by the set of readable files not on the stack |
| `IncludeExpansion.OkIffGraphIsSound` | src/config/options_core.rs:247-288 | expansion succeeds exactly when no walk of includes from the arguments repeats a file, every file on one can be read, and neither the arguments nor such a file end in a dangling include |
| `IncludeExpansion.CycleIsGenuine` | src/config/options_core.rs:260-272 | a reported cycle is a chain of includes reachable from the arguments that returns to its first file |
| `IncludeExpansion.ErrorHasWalk` | src/config/options_core.rs:247-288 | every error, of any kind, is shown by a walk from the arguments |
| `IncludeExpansion.ExpandMeansFlatten` | src/config/options_core.rs:239-289 | the result is the in-place flattening, defined without stack or cycle check, and there is one exactly when expansion succeeds |
| `IncludeExpansion.NoIncludeLeft` | src/config/options_core.rs:247-288 | no `-options_file` is left in a result |
| `IncludeExpansion.IncludeIsReplaced` | src/config/options_core.rs:248-281 | `-options_file f` is replaced by the tokens of f, if these hold no include |
| `IncludeExpansion.NestedIncludeIsRelative` | src/config/options_core.rs:253-277 | an include within a file is resolved from that file's directory; a file that includes itself is a cycle |
| `IncludeExpansion.IncludeAlone` | src/config/options_core.rs:248-281 | what one `-options_file f` gives, case by case, and that one without a value is an error |
| `IncludeExpansion.ExpandIsIdempotent` | src/config/options_core.rs:231-235 | expanding a result again changes nothing, on any file system |
| `IncludeExpansion.ExpandConcatenates` | src/config/options_core.rs:274-281 | argument lists expand independently, so a file included along two branches is no cycle |
| `OptionParser.NewTable` | src/config/options_core.rs:51-60 | the table maps each flag to its last specification |
| `OptionParser.FindIsLast` | src/config/options_core.rs:77-83 | a specification is found exactly for the registered flags, and it is the last one registered |
| `OptionParser.ParseInto` | src/config/options_core.rs:63-150 | the sink receives the entries of the pass in order up to the first it rejects, and the error returned is that rejection or the parse error |
| `OptionParser.ToggleTakes` | src/config/options_core.rs:112-121 | a toggle alone sets true; behind it true, 1, yes, on set true and false, 0, no, off set false, in either case of letters, and are consumed; any other argument is left |
| `OptionParser.LiteralIsTaken` | src/config/options_core.rs:205-218 | the same for the eight literals in lower case |
| `OptionParser.ValuesAreTaken` | src/config/options_core.rs:122-144 | one or two values are taken as they stand, in their order |
| `OptionParser.WordsAreIgnored` | src/config/options_core.rs:70-76 | arguments that begin with no dash are ignored |
| `OptionParser.HierarchicalMeans` | src/config/options_core.rs:181-192 | a hierarchical option is a registered name behind any path and an underscore, and nothing else |
| `OptionParser.PrefixedTokenMeans` | src/config/options_core.rs:79-101 | a prefixed token that is not registered means the flag left when a dash replaces the prefix, or is passed over if it is hierarchical, or is an error with its suggestion |
| `OptionParser.FieldsplitIsHierarchical` | src/config/options_core.rs:181-192 | the case of `-pc_fieldsplit_0_pc_type` |
| `OptionParser.ErrorIsExplained` | src/config/options_core.rs:84-144 | every parse error names a flag in the arguments: one that is neither registered, nor an alias, nor hierarchical, with the nearest registered flag within the limit as its suggestion, or one whose values are cut off by the end |
| `OptionFiltering.ProjectionIffHarmless` | src/config/options_core.rs:69-149 | if the unfiltered pass succeeds, the filtered pass emits exactly the entries of its prefix and no error if and only if it would step over every value that belongs to a flag outside the prefix |
| `OptionFiltering.FilterIsProjection` | src/config/options_core.rs:69-149 | in particular if no such value reads as a flag of the prefix |
| `OptionFiltering.ForeignValueIsTaken` | src/config/options_core.rs:73-76 | an argument list for which a filtered pass invents an event |
| `OptionFiltering.PrefixesPartitionTheEntries` | src/config/options_core.rs:69-149 | filtered passes over prefixes of which each flag has exactly one recover every entry exactly once, if all of them step over those values |
| `OptionParser.ParseUndoesPrint` | src/config/options_core.rs:77-147 | printing settings under a prefix and parsing with that prefix gives their events back exactly when the prefix begins with a dash and no written name means a registered flag that does something else, or nothing was printed |
| `OptionParser.NoneTakenMeaning` | src/config/options_core.rs:77-83 | that condition, setting by setting |
| `OptionParser.RoundTrip` | src/config/options_core.rs:113-147 | without a prefix, parsing undoes printing for every list of settings |
| `EditDistance.RollingRows` | src/config/options_core.rs:307-321 | the rolling rows compute the recurrence, with the byte length for an empty first string |
| `EditDistance.DistIsDistance` | src/config/options_core.rs:308-309 | the result is the edit distance exactly if the first string is not empty or the second is ASCII |
| `EditDistance.DistIsSymmetricIff` | src/config/options_core.rs:308-309 | the result is symmetric in two strings exactly when neither is empty beside one that is not ASCII |
| `EditDistance.NonAsciiIsAsymmetric` | src/config/options_core.rs:308-309 | characters of two, three and four bytes for which it is not; the suggester itself never passes an empty string |
| `EditDistance.DistanceIsLeastCost` | src/config/options_core.rs:307-321 | the recurrence is the least cost of any script of insertions, deletions and substitutions |
| `EditDistance.DistanceSymmetric` | src/config/options_core.rs:307-321 | the edit distance is symmetric |
| `EditDistance.DistanceTriangle` | src/config/options_core.rs:307-321 | the edit distance obeys the triangle inequality |
| `EditDistance.DistIsAMetric` | src/config/options_core.rs:307-321 | among ASCII strings the computed number is a metric |
| `EditDistance.Closest` | src/config/options_core.rs:322-324 | the index of the first candidate of least distance |
| `EditDistance.FindNearest` | src/config/options_core.rs:306-332 | one pass over the candidates computes the suggestion |
| `EditDistance.NearestIsFirstLeast` | src/config/options_core.rs:322-331 | a suggestion is the first candidate of least distance, at most 3, and there is none exactly when all are farther |
| `CsrTranspose.RowPointers` | benches/infra/datasets.rs:81-88 | counting and in-place prefix sums give the number of entries before each column |
| `CsrTranspose.Transpose` | benches/infra/datasets.rs:80-101 | the result is a valid CSR whose row j lists column j in storage order, and each cursor ends at the next row's start |
| `CsrTranspose.AfterIsPlaced` | benches/rap.rs:99-107 | after any number of entries each column's filled slots hold exactly its entries so far and no other column's |
| `CsrTranspose.TransposeIsUnique` | benches/infra/datasets.rs:80-101 | the result arrays are determined |
| `TransposeLaws.DenseIsTransposed` | benches/infra/datasets.rs:80-101 | the dense matrix is transposed |
| `TransposeLaws.TransposeIsSorted` | benches/infra/datasets.rs:80-101 | rows of the result are sorted, strictly exactly when the input stores no place twice |
| `TransposeLaws.TwiceIsIdentityIffSorted` | benches/infra/datasets.rs:80-101 | transposing twice returns the input arrays exactly when its rows were sorted |
| `TransposeLaws.TransposeIsAdjoint` | benches/infra/datasets.rs:80-101 | (R x) . y == x . (P y) |
| `Poisson2D.Collect` | benches/infra/datasets.rs:16-42 | the neighbours found and the diagonal accumulated for one grid point |
| `Poisson2D.SortedStencil` | benches/infra/datasets.rs:43-44 | sorting the collected entries gives the stencil in column order |
| `Poisson2D.Assemble` | benches/infra/datasets.rs:7-53 | the nested loops build the matrix of all stencils, of size n * n |
| `Poisson2D.AssembledRows` | benches/infra/datasets.rs:7-53 | it is a valid CSR with strictly sorted rows, and the row of each grid point is its stencil |
| `PoissonLaws.DenseIsLaplacian` | benches/infra/datasets.rs:15-42 | an entry is the number of neighbours, -1 or 0 according to the distance of its two grid points |
| `PoissonLaws.AssembledIsSymmetric` | benches/infra/datasets.rs:7-53 | the matrix is symmetric |
| `PoissonLaws.ConstantsVanish` | benches/infra/datasets.rs:19-41 | constant vectors are mapped to zero, so rows sum to zero |
| `PoissonLaws.QuadraticForm` | benches/infra/datasets.rs:7-53 | x . (A x) is the sum over the grid's edges, each once, of squared differences |
| `PoissonLaws.SemidefiniteWithConstantKernel` | benches/infra/datasets.rs:7-53 | it is never negative, and zero exactly on constant vectors |
| `Prolongation.Prolong` | benches/infra/datasets.rs:58-78 | the loops build the injection matrix, and odd sizes are refused |
| `Prolongation.InjectionRows` | benches/infra/datasets.rs:58-78 | for even sizes the result is a valid CSR of the right shape whose every row is the unit entry of its coarse point, as the two laws below assume |
| `Prolongation.ProlongCopies` | benches/infra/datasets.rs:67-77 | every grid point takes the value of its coarse point |
| `Prolongation.RestrictProlong` | benches/infra/datasets.rs:58-103 | each row of the transpose has four entries, and restricting what was prolonged multiplies by four |
| `TriangularSolve.ExtractLowerUnit` | benches/tri_solve.rs:8-28 | the loop builds the rows below the diagonal with a unit diagonal appended |
| `TriangularSolve.ExtractUpper` | benches/tri_solve.rs:30-47 | the loop builds the rows on and above the diagonal |
| `TriangularSolve.FactorsSplitTheMatrix` | benches/tri_solve.rs:8-47 | dense(L) + dense(U) - I == dense(A), L carrying A below the diagonal and U on and above it |
| `TriangularSolve.FactorsAreTriangular` | benches/tri_solve.rs:8-47 | the factors meet the conditions of the solves, with A's diagonals as pivots |
| `TriangularSolve.ForwardUnitDiag` | benches/tri_solve.rs:50-64 | the in-place loop leaves in every x[i] the value of its step on the final x, and fails exactly on a length mismatch |
| `TriangularSolve.ForwardSolves` | benches/tri_solve.rs:50-64 | for a unit lower matrix the result is the one solution of L x = b |
| `TriangularSolve.Backward` | benches/tri_solve.rs:67-89 | the same for the loop from the last row up, with its threshold on the diagonal |
| `TriangularSolve.BackwardSolvesIffPivots` | benches/tri_solve.rs:67-89 | for upper U, the result solves U x = b for every b exactly when every diagonal of U exceeds 1e-14 in magnitude |
| `TriangularSolve.BackwardSolvesRowIff` | benches/tri_solve.rs:83-87 | the same, row by row |
| `TriangularSolve.SmallDiagonalFails` | benches/tri_solve.rs:83-87 | for a diagonal within the threshold, the unit vector of its row is a right-hand side that the result misses there |
| `TriangularSolve.BackwardSolves` | benches/tri_solve.rs:67-89 | when every diagonal exceeds 1e-14 the result is the one solution of U x = b |
| `Partition.PartitionBalanced` | examples/complex_matrix_market_demo.rs:3583-3593 | the loop computes the partial sums of the even shares |
| `Partition.BalancedIsPartition` | examples/complex_matrix_market_demo.rs:3583-3593 | the ranges cover all rows once and differ by at most one row |
| `Partition.BuildPartPrefix` | src/bin/distcsr_bench_runner.rs:187-208 | the result is the partial sums of the moved chunks; overwriting the last entry changes nothing |
| `Partition.MovesConserve` | src/bin/distcsr_bench_runner.rs:192-199 | any draws conserve the rows and empty no chunk |
| `Partition.DrawShiftsBoundaries` | src/bin/distcsr_bench_runner.rs:195-198 | a draw (i, j) with i != j and more than one row in chunk i moves the boundaries between the two chunks by one row, down if i < j and up if j < i; any other draw changes nothing |
| `Partition.DrawsAddUp` | src/bin/distcsr_bench_runner.rs:192-199 | after any draws a chunk is what it was, with a row for each effective draw into it and without one for each out of it |
| `Partition.PerturbedRange` | src/bin/distcsr_bench_runner.rs:187-208 | so every range of the result is the even share, the first n mod size ranks having one row more, with the rows given and without those taken |
| `Partition.PerturbedIsPartition` | src/bin/distcsr_bench_runner.rs:187-208 | for every sequence of draws the result is a partition in which no rank that had rows has none |
| `RowSlices.SliceCsrRows` | examples/complex_matrix_market_demo.rs:3535-3550 | slicing by ranges gives a valid CSR with exactly the rows asked for |
| `RowSlices.SliceRows` | src/bin/distcsr_bench_runner.rs:210-222 | so does slicing row by row |
| `RowSlices.SlicesAgree` | examples/complex_matrix_market_demo.rs:3535-3550 | the two give the same arrays |
| `RowSlices.SlicesRestore` | examples/complex_matrix_market_demo.rs:3535-3593 | for every partition the slices on top of each other are the original arrays |
| `RowSlices.ProductsConcatenate` | examples/complex_matrix_market_demo.rs:3535-3593 | for every partition the local products in rank order are the global product |
| `RowSlices.SliceOwnedCols` | examples/complex_matrix_market_demo.rs:3552-3581 | the loop keeps the entries of owned columns, counted from the first owned row |
| `RowSlices.OwnedBlockIsDiagonalBlock` | examples/complex_matrix_market_demo.rs:3552-3581 | its dense matrix is the diagonal block of the original |
| `OwnedGather.Pack` | examples/complex_matrix_market_demo.rs:1943-1948 | the padded, interleaved send buffer |
| `OwnedGather.CheckLengths` | examples/complex_matrix_market_demo.rs:1908-1941 | the loop returns the fault of the first rank that has one (negative length, wrong length or row start of this rank, overflow of a machine word), or else the verdict on the total |
| `OwnedGather.NoFaultIff` | examples/complex_matrix_market_demo.rs:1908-1935 | no rank has a fault exactly when no length is negative, their sum fits a machine word, and this rank's length and row start are right |
| `OwnedGather.Unpack` | examples/complex_matrix_market_demo.rs:1956-1965 | unpacking writes the segments in rank order without gap or overlap |
| `OwnedGather.Allgather` | examples/complex_matrix_market_demo.rs:1867-1977 | the whole exchange: which error is returned when, and on success the rank-order concatenation |
| `OwnedGather.AcceptsIffInRankOrder` | examples/complex_matrix_market_demo.rs:1867-1941 | under message passing a rank succeeds exactly when its buffers have the right lengths, its row start is the number of rows before it, the segments make up the vector, and its own fits a 32-bit length |
| `OwnedGather.PlainAcceptsIffSerial` | examples/complex_matrix_market_demo.rs:1970-1976 | without message passing the call succeeds exactly for one process that owns all rows |
| `OwnedGather.ApplyAcceptsIff` | examples/complex_matrix_market_demo.rs:2175-2221 | the application succeeds exactly when the exchange does, the buffers have the right lengths and the operator succeeds |
| `OwnedGather.SerialRunIsOperator` | examples/complex_matrix_market_demo.rs:2175-2221 | the serial run succeeds exactly if the operator does, and its output is the operator's |
| `OwnedGather.GatherRestores` | examples/complex_matrix_market_demo.rs:1867-1977 | for every partition of a vector every rank's exchange succeeds and restores it |
| `OwnedGather.ApplyOwned` | examples/complex_matrix_market_demo.rs:2175-2221 | on success the local output is the owned segment of the serial operator's output; on an error it is untouched |
| `OwnedGather.ReplicatedIsSerial` | examples/complex_matrix_market_demo.rs:2175-2221 | for every partition all ranks succeed if the operator does and fail if it fails; if each rank's output is what `ApplyOwned` promises for its verdict, the outputs in rank order are the operator's output |

## Left out

- DoubleDoubleError.DoubleDoubleBound: takes the exact recovery of the error of a sum as a property of the rounding, because bits and exponents are not modelled.
- AllreduceProtocol.RoundsNeverMix: message loss, failing ranks and wildcard receives are not modelled, because the code names its peer in every receive.
- DotEngine.DotManyInto: in Fast mode the communicator's own sum is an uninterpreted function of one value per rank, applied lane by lane, because `allreduce_sum_slice` belongs to the communicator; communicators that return the local packet in every mode are not modelled. A rank that passes its own checks while another panics waits in a collective for ever; the contract does not speak of that call.
- FastReduction.FastIsBlocked: takes the terms of the two paths to be equal, which for the norm, where the Fast path squares `abs()` and the others call `abs2()`, holds in exact arithmetic only; see `FastNormIsBlocked`.
- ReproKernels.EverySchedule: the choice between serial and parallel branches by thresholds and guards is not modelled, because every branch is shown to give the same sum.
- IncludeExpansion.Expander.Run: reading and tokenizing a file is one lookup, and a file that can be read has a parent directory, because `parent()` is absent only for the root and the empty path.
- OptionParser.ParseInto: a sink that rejects an event is taken to leave its own state unchanged. Lowercasing is the ASCII mapping, because no other character lowers to a boolean literal; value kinds, doc strings and the wording of messages are not modelled.
- OptionParser.ParseUndoesPrint: the empty prefix is excluded, because it strips the dash of a flag without being written itself, and what is read back then depends on the values.
- OwnedGather.Allgather: ranks that fail before the exchange of lengths do not enter it, and the two collective calls are a function of all ranks' segments.
- RowSlices.SliceCsrRows: values are reals, since slicing does no arithmetic on them.
- Poisson2D.SortedStencil: the library's unstable sort is an insertion sort, because the columns of a row are distinct and leave one sorted order.
- The second `poisson2d_csr`, in src/bin/distcsr_bench_runner.rs: it repeats the one that is modelled.
- Typed value parsing, help output and enumeration parsing in the options engine: no property beyond reading one body.
- `random_powerlaw_like` and `powerlaw_like`: their loops end with probability one only.
- `RowScaledOp::t_matvec_s`: it delegates without scaling, so no adjointness holds to be stated.
- Krylov solvers, preconditioners, `DistCsrOp` and Matrix Market parsing are not part of this model.
